/**
  The bitmap, packed into 32-bit words, as a set of bit numbers.
 */
module BitMaps {
  import opened Common

  const BitsInWord: nat := 32

  type Word = bv32

  // ------------------------------------------------------------------ one word

  // 1 << k
  function Bit(k: nat): Word
    requires k < BitsInWord
  {
    if k == 0 then 1 else Bit(k - 1) << 1
  }

  // w & mask, as a truth value.
  predicate Has(w: Word, mask: Word) {
    w & mask != 0
  }

  // w << n
  function Up(w: Word, n: nat): Word
    decreases n
  {
    if n == 0 then w else Up(w << 1, n - 1)
  }

  lemma {:induction false} UpZero(n: nat)
    ensures Up(0, n) == 0
    decreases n
  {
    if n > 0 { UpZero(n - 1); }
  }

  lemma TopBit()
    ensures Bit(31) == 0x8000_0000
  {
    assert Bit(8) == 0x100;
    assert Bit(16) == 0x1_0000;
    assert Bit(24) == 0x100_0000;
  }

  lemma {:induction false} BitReachesTop(k: nat)
    requires k < BitsInWord
    ensures Up(Bit(k), 31 - k) == 0x8000_0000
    decreases 31 - k
  {
    if k == 31 { TopBit(); } else { BitReachesTop(k + 1); }
  }

  lemma BitNonZero(k: nat)
    requires k < BitsInWord
    ensures Bit(k) != 0
  {
    BitReachesTop(k);
    UpZero(31 - k);
  }

  lemma {:induction false} BitsDisjoint(k: nat, j: nat)
    requires k < BitsInWord && j < BitsInWord && k != j
    ensures Bit(k) & Bit(j) == 0
    decreases k
  {
    if k > 0 && j > 0 { BitsDisjoint(k - 1, j - 1); }
  }

  lemma AndOverOr(w: Word, b: Word, c: Word)
    ensures (w | b) & c == (w & c) | (b & c)
  {
  }

  lemma OrZero(w: Word)
    ensures w | 0 == w
  {
  }

  lemma OrOther(w: Word, b: Word, c: Word)
    requires b & c == 0
    ensures Has(w | b, c) == Has(w, c)
  {
    AndOverOr(w, b, c);
    OrZero(w & c);
  }

  lemma OrSame(w: Word, b: Word)
    requires b != 0
    ensures Has(w | b, b)
  {
  }

  lemma AndNotOther(w: Word, b: Word, c: Word)
    requires b & c == 0
    ensures Has(w & !b, c) == Has(w, c)
  {
  }

  lemma AndNotSame(w: Word, b: Word)
    ensures !Has(w & !b, b)
  {
  }

  // The effect of |= mask and &= ~mask on the bits of a word.
  lemma MarkSame(w: Word, mask: Word, k: nat)
    requires k < BitsInWord && mask == Bit(k)
    ensures Has(w | mask, mask)
  {
    BitNonZero(k);
    OrSame(w, mask);
  }

  lemma MarkOther(w: Word, mask: Word, k: nat, c: Word, j: nat)
    requires k < BitsInWord && j < BitsInWord && j != k && mask == Bit(k) && c == Bit(j)
    ensures Has(w | mask, c) == Has(w, c)
  {
    BitsDisjoint(k, j);
    OrOther(w, mask, c);
  }

  lemma ClearOther(w: Word, mask: Word, k: nat, c: Word, j: nat)
    requires k < BitsInWord && j < BitsInWord && j != k && mask == Bit(k) && c == Bit(j)
    ensures Has(w & !mask, c) == Has(w, c)
  {
    BitsDisjoint(k, j);
    AndNotOther(w, mask, c);
  }

  // ----------------------------------------------------------------- the words

  function DivRoundUp(n: nat, s: nat): nat
    requires s > 0
  {
    n / s + if n % s > 0 then 1 else 0
  }

  // The bits that are set among the first n bits of the words.
  function Members(words: seq<Word>, n: nat): set<nat>
    requires n <= |words| * BitsInWord
  {
    set i: nat | i < n && Has(words[i / BitsInWord], Bit(i % BitsInWord))
  }

  // w' is w with bit k set (or clear) and the other bits as they were.
  ghost predicate BitPut(w: Word, w': Word, k: nat, value: bool) {
    forall j: nat :: j < BitsInWord ==> (Has(w', Bit(j)) <==> if j == k then value else Has(w, Bit(j)))
  }

  lemma MarkPuts(w: Word, mask: Word, k: nat)
    requires k < BitsInWord && mask == Bit(k)
    ensures BitPut(w, w | mask, k, true)
  {
    var w' := w | mask;
    MarkSame(w, mask, k);
    forall j: nat | j < BitsInWord && j != k ensures Has(w', Bit(j)) == Has(w, Bit(j)) {
      var c := Bit(j);
      MarkOther(w, mask, k, c, j);
    }
  }

  lemma ClearPuts(w: Word, mask: Word, k: nat)
    requires k < BitsInWord && mask == Bit(k)
    ensures BitPut(w, w & !mask, k, false)
  {
    var w' := w & !mask;
    AndNotSame(w, mask);
    forall j: nat | j < BitsInWord && j != k ensures Has(w', Bit(j)) == Has(w, Bit(j)) {
      var c := Bit(j);
      ClearOther(w, mask, k, c, j);
    }
  }

  lemma MembersPut(words: seq<Word>, n: nat, which: nat, w': Word, value: bool)
    requires n <= |words| * BitsInWord && which < n
    requires BitPut(words[which / BitsInWord], w', which % BitsInWord, value)
    ensures Members(words[which / BitsInWord := w'], n) == if value then Members(words, n) + {which} else Members(words, n) - {which}
  {
    var words' := words[which / BitsInWord := w'];
    forall i: nat | i < n ensures i in Members(words', n) <==> if i == which then value else i in Members(words, n) {
      assert i == i / BitsInWord * BitsInWord + i % BitsInWord;
    }
  }

  // No bit of [i, i + size) is in use.
  ghost predicate FreeRun(marked: set<nat>, i: nat, size: nat) {
    forall j :: i <= j < i + size ==> j !in marked
  }

  predicate Within(j: nat, i: nat, size: nat) {
    i <= j < i + size
  }

  function Run(i: nat, size: nat): set<nat> {
    set j: nat | j < i + size && Within(j, i, size)
  }

  lemma {:induction false} RunSize(i: nat, size: nat)
    ensures |Run(i, size)| == size
    decreases size
  {
    if size > 0 {
      RunSize(i, size - 1);
      assert Run(i, size) == Run(i, size - 1) + {i + size - 1};
    }
  }

  // Taking a free run marks exactly that many more bits, so NumClear falls by its
  // size.
  lemma RunTakesExactly(marked: set<nat>, i: nat, size: nat)
    requires FreeRun(marked, i, size)
    ensures |marked + Run(i, size)| == |marked| + size
  {
    RunSize(i, size);
    assert marked !! Run(i, size);
  }

  // What FirstFind can do: find a run, report none, or run into the ASSERT of
  // Test because it looks past the end.
  datatype Search = At(start: nat) | NotFound | Aborted

  class BitMap {
    const numBits: nat
    const numWords: nat
    const words: array<Word>

    ghost predicate Valid() {
      numWords == DivRoundUp(numBits, BitsInWord) && words.Length == numWords
    }

    ghost function Marked(): set<nat>
      requires Valid()
      reads words
    {
      Members(words[..], numBits)
    }

    // A new bitmap with every bit clear; the words start out as garbage.
    constructor (nitems: nat)
      ensures Valid() && numBits == nitems && fresh(words) && Marked() == {}
    {
      numBits := nitems;
      numWords := DivRoundUp(nitems, BitsInWord);
      words := new Word[DivRoundUp(nitems, BitsInWord)];
      new;
      for i := 0 to numBits
        invariant forall j :: j in Marked() ==> i <= j
      {
        Clear(i);
      }
    }

    method Mark(which: nat)
      requires Valid() && which < numBits
      modifies words
      ensures Marked() == old(Marked()) + {which}
    {
      var k := which / BitsInWord;
      var mask := Bit(which % BitsInWord);
      words[k] := words[k] | mask;
      MarkPuts(old(words[k]), mask, which % BitsInWord);
      assert words[..] == old(words[..])[k := words[k]];
      MembersPut(old(words[..]), numBits, which, words[k], true);
    }

    method Clear(which: nat)
      requires Valid() && which < numBits
      modifies words
      ensures Marked() == old(Marked()) - {which}
    {
      var k := which / BitsInWord;
      var mask := Bit(which % BitsInWord);
      words[k] := words[k] & !mask;
      ClearPuts(old(words[k]), mask, which % BitsInWord);
      assert words[..] == old(words[..])[k := words[k]];
      MembersPut(old(words[..]), numBits, which, words[k], false);
    }

    method Test(which: nat) returns (isSet: bool)
      requires Valid() && which < numBits
      ensures isSet <==> which in Marked()
    {
      isSet := Has(words[which / BitsInWord], Bit(which % BitsInWord));
    }

    // Take the least clear bit; -1 exactly when there is none.
    method Find() returns (r: int)
      requires Valid()
      modifies words
      ensures r == -1 <==> forall i: nat :: i < numBits ==> i in old(Marked())
      ensures r == -1 ==> Marked() == old(Marked())
      ensures r != -1 ==> 0 <= r < numBits && r !in old(Marked()) && Marked() == old(Marked()) + {r}
      ensures r != -1 ==> forall i: nat :: i < r ==> i in old(Marked())
    {
      for i := 0 to numBits
        invariant Marked() == old(Marked())
        invariant forall j: nat :: j < i ==> j in Marked()
      {
        var isSet := Test(i);
        if !isSet {
          Mark(i);
          return i;
        }
      }
      return -1;
    }

    // The inner loop of FirstFind: it looks at every bit of the run, so it runs
    // into Test's ASSERT when the run sticks out past the end.
    method TestRun(i: nat, size: nat) returns (free: Option<bool>)
      requires Valid() && i < numBits
      ensures free == None <==> i + size > numBits
      ensures free.Some? ==> (free.value <==> FreeRun(Marked(), i, size))
    {
      var flag := true;
      for j := 0 to size
        invariant i + j <= numBits
        invariant flag <==> FreeRun(Marked(), i, j)
      {
        if i + j >= numBits { return None; }
        var isSet := Test(i + j);
        if isSet { flag := false; }
      }
      return Some(flag);
    }

    method MarkRun(i: nat, size: nat)
      requires Valid() && i + size <= numBits
      modifies words
      ensures Marked() == old(Marked()) + Run(i, size)
    {
      for j := 0 to size
        invariant Marked() == old(Marked()) + Run(i, j)
      {
        Mark(i + j);
        assert Run(i, j + 1) == Run(i, j) + {i + j};
      }
    }

    // Take the first clear run of the given size.
    method FirstFind(size: nat) returns (r: Search)
      requires Valid()
      modifies words
      ensures r.At? ==> && r.start < numBits && r.start + size <= numBits && FreeRun(old(Marked()), r.start, size)
                        && (forall i: nat :: i < r.start ==> !FreeRun(old(Marked()), i, size))
                        && Marked() == old(Marked()) + Run(r.start, size) && |Marked()| == |old(Marked())| + size
      ensures !r.At? ==> Marked() == old(Marked())
      ensures !r.At? <==> forall i: nat :: i < numBits && i + size <= numBits ==> !FreeRun(old(Marked()), i, size)
      ensures r.Aborted? <==> !r.At? && size >= 2 && numBits > 0
    {
      for i := 0 to numBits
        invariant Marked() == old(Marked()) && (i > 0 ==> i - 1 + size <= numBits)
        invariant forall k: nat :: k < i ==> !FreeRun(Marked(), k, size)
      {
        var free := TestRun(i, size);
        if free == None { return Aborted; }
        if free.value {
          RunTakesExactly(Marked(), i, size);
          MarkRun(i, size);
          return At(i);
        }
      }
      return NotFound;
    }

    method NumClear() returns (count: nat)
      requires Valid()
      ensures count == numBits - |Marked()|
    {
      count := 0;
      ghost var seen: set<nat> := {};
      for i := 0 to numBits
        invariant seen == set j | j in Marked() && j < i
        invariant count == i - |seen|
      {
        var isSet := Test(i);
        if !isSet { count := count + 1; } else { seen := seen + {i}; }
      }
      assert seen == Marked();
    }
  }
}
