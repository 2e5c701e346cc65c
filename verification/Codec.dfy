// How the machine lays out ints and bitmap words in bytes: little endian.
module Codec {
  import opened Common
  import opened BitMaps

  // ----------------------------------------------------------------------- ints

  // Byte j of an unsigned number.
  function NatByte(u: nat, j: nat): Byte
    decreases j
  {
    if j == 0 then u % 0x100 else NatByte(u / 0x100, j - 1)
  }

  function IntByte(x: Int32, j: nat): Byte { NatByte(x % 0x1_0000_0000, j) }

  function DecodeInt(b: seq<Byte>): Int32
    requires |b| == 4
  {
    var b0: int, b1: int, b2: int, b3: int := b[0], b[1], b[2], b[3];
    var u := b0 + 0x100 * (b1 + 0x100 * (b2 + 0x100 * b3));
    if u >= 0x8000_0000 then u - 0x1_0000_0000 else u
  }

  function EncodeInt(x: Int32): (b: seq<Byte>)
    ensures |b| == 4
  {
    [IntByte(x, 0), IntByte(x, 1), IntByte(x, 2), IntByte(x, 3)]
  }

  lemma NatBytes(u: nat)
    ensures NatByte(u, 0) == u % 0x100 && NatByte(u, 1) == u / 0x100 % 0x100
    ensures NatByte(u, 2) == u / 0x100 / 0x100 % 0x100 && NatByte(u, 3) == u / 0x100 / 0x100 / 0x100 % 0x100
  {
    assert NatByte(u / 0x100, 1) == NatByte(u / 0x100 / 0x100, 0);
    assert NatByte(u / 0x100, 2) == NatByte(u / 0x100 / 0x100, 1) == NatByte(u / 0x100 / 0x100 / 0x100, 0);
  }

  lemma IntRoundTrip(x: Int32)
    ensures DecodeInt(EncodeInt(x)) == x
  {
    var u := x % 0x1_0000_0000;
    NatBytes(u);
    Digits(u);
    assert EncodeInt(x) == [NatByte(u, 0), NatByte(u, 1), NatByte(u, 2), NatByte(u, 3)];
  }

  lemma Digits(u: nat)
    requires u < 0x1_0000_0000
    ensures u == u % 0x100 + 0x100 * (u / 0x100 % 0x100 + 0x100 * (u / 0x100 / 0x100 % 0x100 + 0x100 * (u / 0x100 / 0x100 / 0x100 % 0x100)))
  {
    var u1 := u / 0x100;
    var u2 := u1 / 0x100;
    var u3 := u2 / 0x100;
    assert u3 % 0x100 == u3;
    assert u2 == u2 % 0x100 + 0x100 * u3;
    assert u1 == u1 % 0x100 + 0x100 * u2;
  }

  function EncodeInts(xs: seq<Int32>): (b: seq<Byte>)
    ensures |b| == 4 * |xs|
  {
    seq(4 * |xs|, i requires 0 <= i < 4 * |xs| => IntByte(xs[i / 4], i % 4))
  }

  function DecodeInts(b: seq<Byte>): (xs: seq<Int32>)
    ensures |xs| == |b| / 4
  {
    seq(|b| / 4, k requires 0 <= k < |b| / 4 => DecodeInt(b[4 * k..4 * k + 4]))
  }

  lemma DivMod4(k: nat, j: nat)
    requires j < 4
    ensures (4 * k + j) / 4 == k && (4 * k + j) % 4 == j
  {
  }

  lemma IntByteAt(xs: seq<Int32>, k: nat, j: nat)
    requires k < |xs| && j < 4
    ensures EncodeInts(xs)[4 * k + j] == IntByte(xs[k], j)
  {
    DivMod4(k, j);
  }

  lemma IntAt(xs: seq<Int32>, k: nat)
    requires k < |xs|
    ensures EncodeInts(xs)[4 * k..4 * k + 4] == EncodeInt(xs[k])
  {
    forall j | 0 <= j < 4 ensures EncodeInts(xs)[4 * k + j] == IntByte(xs[k], j) { IntByteAt(xs, k, j); }
  }

  lemma IntsRoundTrip(xs: seq<Int32>)
    ensures DecodeInts(EncodeInts(xs)) == xs
  {
    var b := EncodeInts(xs);
    forall k | 0 <= k < |xs| ensures DecodeInt(b[4 * k..4 * k + 4]) == xs[k] {
      IntAt(xs, k);
      IntRoundTrip(xs[k]);
    }
  }

  // The first byte of an int, as a signed char.
  function SignedChar(b: Byte): int { if b >= 128 then b - 256 else b }

  // ---------------------------------------------------------------------- words

  function WordByte(w: Word, j: nat): Byte
    requires j < 4
    decreases j
  {
    if j == 0 then (w & 0xff) as int else WordByte(w >> 8, j - 1)
  }

  function DecodeWord(b: seq<Byte>): Word
    requires |b| == 4
  {
    (b[0] as Word) | ((b[1] as Word) << 8) | ((b[2] as Word) << 16) | ((b[3] as Word) << 24)
  }

  function EncodeWords(ws: seq<Word>): (b: seq<Byte>)
    ensures |b| == 4 * |ws|
  {
    seq(4 * |ws|, i requires 0 <= i < 4 * |ws| => WordByte(ws[i / 4], i % 4))
  }

  function DecodeWords(b: seq<Byte>): (ws: seq<Word>)
    ensures |ws| == |b| / 4
  {
    seq(|b| / 4, k requires 0 <= k < |b| / 4 => DecodeWord(b[4 * k..4 * k + 4]))
  }

  lemma Reassemble(w: Word)
    ensures (w & 0xff) | (((w >> 8) & 0xff) << 8) | (((w >> 16) & 0xff) << 16) | (((w >> 24) & 0xff) << 24) == w
  {
  }

  lemma ThroughInt(w: Word)
    ensures (w as int) as Word == w
  {
  }

  lemma ShiftTwice(w: Word)
    ensures (w >> 8) >> 8 == w >> 16 && (w >> 16) >> 8 == w >> 24
  {
  }

  lemma WordBytes(w: Word)
    ensures WordByte(w, 0) == (w & 0xff) as int && WordByte(w, 1) == ((w >> 8) & 0xff) as int
    ensures WordByte(w, 2) == ((w >> 16) & 0xff) as int && WordByte(w, 3) == ((w >> 24) & 0xff) as int
  {
    ShiftTwice(w);
    assert WordByte(w >> 8, 1) == WordByte(w >> 16, 0);
    assert WordByte(w >> 8, 2) == WordByte(w >> 16, 1) == WordByte(w >> 24, 0);
  }

  lemma WordRoundTrip(w: Word, b: seq<Byte>)
    requires |b| == 4 && forall j :: 0 <= j < 4 ==> b[j] == WordByte(w, j)
    ensures DecodeWord(b) == w
  {
    WordBytes(w);
    Reassemble(w);
    ThroughInt(w & 0xff);
    ThroughInt((w >> 8) & 0xff);
    ThroughInt((w >> 16) & 0xff);
    ThroughInt((w >> 24) & 0xff);
  }

  lemma WordsRoundTrip(ws: seq<Word>)
    ensures DecodeWords(EncodeWords(ws)) == ws
  {
    var b := EncodeWords(ws);
    forall k | 0 <= k < |ws| ensures DecodeWord(b[4 * k..4 * k + 4]) == ws[k] {
      WordAt(ws, k, b[4 * k..4 * k + 4]);
    }
  }

  lemma WordAt(ws: seq<Word>, k: nat, b: seq<Byte>)
    requires k < |ws| && b == EncodeWords(ws)[4 * k..4 * k + 4]
    ensures DecodeWord(b) == ws[k]
  {
    var w := ws[k];
    forall j | 0 <= j < 4 ensures b[j] == WordByte(w, j) {
      assert (4 * k + j) / 4 == k && (4 * k + j) % 4 == j;
    }
    WordRoundTrip(w, b);
  }
}
