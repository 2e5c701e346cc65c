/**
  Directories: a table of names and header sectors.  Names are C strings, of
  which only the first FileNameMaxLen characters count.
 */
module Directories {
  import opened Common
  import opened Codec

  const FileNameMaxLen: nat := 9
  const EntrySize: nat := 20

  datatype Entry = Entry(inUse: bool, sector: Int32, name: seq<Byte>, kind: bool)

  predicate Shaped(t: seq<Entry>) {
    forall i :: 0 <= i < |t| ==> |t[i].name| == FileNameMaxLen + 1
  }

  // ----------------------------------------------------------------------- names

  // The characters that strncmp and strncpy look at: up to n of them, ending
  // before the first NUL.
  function Prefix(s: seq<Byte>, n: nat): (p: seq<Byte>)
    ensures |p| <= n && forall i :: 0 <= i < |p| ==> p[i] != 0
    decreases n
  {
    if n == 0 || s == [] || s[0] == 0 then [] else [s[0]] + Prefix(s[1..], n - 1)
  }

  // Two names are the same for strncmp(..., FileNameMaxLen) when these agree.
  function Key(s: seq<Byte>): seq<Byte> { Prefix(s, FileNameMaxLen) }

  // strncpy(field, name, FileNameMaxLen): the characters, NULs up to the limit,
  // and the last byte of the field as it was.
  function Copied(name: seq<Byte>, field: seq<Byte>): (r: seq<Byte>)
    requires |field| == FileNameMaxLen + 1
    ensures |r| == FileNameMaxLen + 1
  {
    var k := Key(name);
    k + seq(FileNameMaxLen - |k|, _ => 0) + [field[FileNameMaxLen]]
  }

  lemma {:induction false} PrefixOfPadded(p: seq<Byte>, rest: seq<Byte>, n: nat)
    requires |p| <= n && (forall i :: 0 <= i < |p| ==> p[i] != 0) && (|p| < n ==> rest != [] && rest[0] == 0)
    ensures Prefix(p + rest, n) == p
    decreases n
  {
    if p == [] {
      assert p + rest == rest;
    } else {
      PrefixOfPadded(p[1..], rest, n - 1);
      assert (p + rest)[1..] == p[1..] + rest;
    }
  }

  // A stored name is the same name.
  lemma CopiedSameKey(name: seq<Byte>, field: seq<Byte>)
    requires |field| == FileNameMaxLen + 1
    ensures Key(Copied(name, field)) == Key(name)
  {
    var k := Key(name);
    var rest := seq(FileNameMaxLen - |k|, _ => 0) + [field[FileNameMaxLen]];
    assert Copied(name, field) == k + rest;
    PrefixOfPadded(k, rest, FileNameMaxLen);
  }

  // Character i of a C string; behind its end there is a NUL.
  function CharAt(s: seq<Byte>, i: nat): Byte { if i < |s| then s[i] else 0 }

  // No NUL in front of character i.
  predicate Reaches(s: seq<Byte>, i: nat) {
    forall j :: 0 <= j < i ==> CharAt(s, j) != 0
  }

  lemma {:induction false} PrefixAt(s: seq<Byte>, n: nat, i: nat)
    requires i < n
    ensures i < |Prefix(s, n)| <==> Reaches(s, i + 1)
    ensures i < |Prefix(s, n)| ==> Prefix(s, n)[i] == CharAt(s, i)
    decreases n
  {
    if s == [] || s[0] == 0 {
      assert CharAt(s, 0) == 0;
    } else if i > 0 {
      PrefixAt(s[1..], n - 1, i - 1);
      assert forall j :: 1 <= j <= i ==> CharAt(s, j) == CharAt(s[1..], j - 1);
      assert Reaches(s, i + 1) <==> Reaches(s[1..], i) by {
        if Reaches(s[1..], i) {
          forall j | 0 <= j < i + 1 ensures CharAt(s, j) != 0 { assert j > 0 ==> CharAt(s[1..], j - 1) != 0; }
        }
        if Reaches(s, i + 1) {
          forall j | 0 <= j < i ensures CharAt(s[1..], j) != 0 { assert CharAt(s, j + 1) != 0; }
        }
      }
    }
  }

  // What strncmp(a, b, FileNameMaxLen) == 0 says: the strings agree up to the limit, or
  // up to and including a NUL in front of it.
  ghost predicate ComparesEqual(a: seq<Byte>, b: seq<Byte>) {
    forall i :: 0 <= i < FileNameMaxLen && Reaches(a, i) && Reaches(b, i) ==> CharAt(a, i) == CharAt(b, i)
  }

  lemma SameKeyIff(a: seq<Byte>, b: seq<Byte>)
    ensures Key(a) == Key(b) <==> ComparesEqual(a, b)
  {
    if Key(a) == Key(b) {
      forall i | 0 <= i < FileNameMaxLen && Reaches(a, i) && Reaches(b, i) ensures CharAt(a, i) == CharAt(b, i) {
        PrefixAt(a, FileNameMaxLen, i);
        PrefixAt(b, FileNameMaxLen, i);
      }
    }
    if ComparesEqual(a, b) { EqualReach(a, b, FileNameMaxLen); SameKeys(a, b); }
  }

  lemma {:induction false} EqualReach(a: seq<Byte>, b: seq<Byte>, n: nat)
    requires ComparesEqual(a, b) && n <= FileNameMaxLen
    ensures Reaches(a, n) <==> Reaches(b, n)
    decreases n
  {
    if n > 0 {
      EqualReach(a, b, n - 1);
      assert Reaches(a, n) <==> Reaches(a, n - 1) && CharAt(a, n - 1) != 0;
      assert Reaches(b, n) <==> Reaches(b, n - 1) && CharAt(b, n - 1) != 0;
    }
  }

  lemma SameKeys(a: seq<Byte>, b: seq<Byte>)
    requires ComparesEqual(a, b)
    ensures Key(a) == Key(b)
  {
    KeyNotLonger(a, b);
    KeyNotLonger(b, a);
    forall i | 0 <= i < |Key(a)| ensures Key(a)[i] == Key(b)[i] {
      PrefixAt(a, FileNameMaxLen, i);
      PrefixAt(b, FileNameMaxLen, i);
      assert Reaches(a, i) && Reaches(b, i);
    }
  }

  lemma KeyNotLonger(a: seq<Byte>, b: seq<Byte>)
    requires ComparesEqual(a, b)
    ensures |Key(a)| <= |Key(b)|
  {
    var i := |Key(b)|;
    if i < FileNameMaxLen {
      PrefixAt(a, FileNameMaxLen, i);
      PrefixAt(b, FileNameMaxLen, i);
      EqualReach(a, b, i + 1);
    }
  }

  // ----------------------------------------------------------------------- table

  predicate Named(e: Entry, key: seq<Byte>) { e.inUse && Key(e.name) == key }

  // The first entry from i on that is in use under this key.
  function Lookup(t: seq<Entry>, key: seq<Byte>, i: nat): (r: Option<nat>)
    requires i <= |t|
    ensures r.Some? ==> i <= r.value < |t| && Named(t[r.value], key)
    ensures r.Some? ==> forall j :: i <= j < r.value ==> !Named(t[j], key)
    ensures r.None? ==> forall j :: i <= j < |t| ==> !Named(t[j], key)
    decreases |t| - i
  {
    if i == |t| then None else if Named(t[i], key) then Some(i) else Lookup(t, key, i + 1)
  }

  // No two entries in use have the same name.
  ghost predicate UniqueNames(t: seq<Entry>) {
    forall i, j :: 0 <= i < j < |t| && t[i].inUse && t[j].inUse ==> Key(t[i].name) != Key(t[j].name)
  }

  predicate Full(t: seq<Entry>) {
    forall i :: 0 <= i < |t| ==> t[i].inUse
  }

  lemma PutUnique(t: seq<Entry>, i: nat, e: Entry, name: seq<Byte>)
    requires Shaped(t) && i < |t| && !t[i].inUse && Lookup(t, Key(name), 0) == None
    requires e.inUse && e.name == Copied(name, t[i].name)
    ensures Shaped(t[i := e]) && Named(e, Key(name)) && (UniqueNames(t) ==> UniqueNames(t[i := e]))
  {
    CopiedSameKey(name, t[i].name);
    forall j | 0 <= j < |t| && t[j].inUse ensures Key(t[j].name) != Key(name) {
      assert !Named(t[j], Key(name));
    }
  }

  lemma RemovedGone(t: seq<Entry>, i: nat, key: seq<Byte>)
    requires UniqueNames(t) && i < |t| && Named(t[i], key)
    ensures Lookup(t[i := t[i].(inUse := false)], key, 0) == None
  {
    var t' := t[i := t[i].(inUse := false)];
    forall j | 0 <= j < |t| ensures !Named(t'[j], key) {
      assert j != i && t[j].inUse ==> Key(t[j].name) != Key(t[i].name);
    }
  }

  class Directory {
    var table: seq<Entry>

    ghost predicate Valid()
      reads this
    {
      Shaped(table)
    }

    // No entry is in use; the other fields are garbage.
    constructor (size: nat)
      ensures Valid() && |table| == size && forall i :: 0 <= i < size ==> !table[i].inUse
    {
      var blank := Entry(false, 0, seq(FileNameMaxLen + 1, _ => 0), false);
      assert Shaped(seq<Entry>(size, _ => blank));
      var garbage: seq<Entry> :| |garbage| == size && Shaped(garbage);
      new;
      table := garbage;
      for i := 0 to size
        invariant Valid() && |table| == size && forall j :: 0 <= j < i ==> !table[j].inUse
      {
        table := table[i := table[i].(inUse := false)];
      }
    }

    method FindIndex(name: seq<Byte>) returns (r: Option<nat>)
      requires Valid()
      ensures r == Lookup(table, Key(name), 0)
    {
      for i := 0 to |table|
        invariant Lookup(table, Key(name), 0) == Lookup(table, Key(name), i)
      {
        if table[i].inUse && Key(table[i].name) == Key(name) { return Some(i); }
      }
      return None;
    }

    method Find(name: seq<Byte>) returns (sector: int)
      requires Valid()
      ensures Lookup(table, Key(name), 0) == None ==> sector == -1
      ensures Lookup(table, Key(name), 0).Some? ==> sector == table[Lookup(table, Key(name), 0).value].sector
    {
      var i := FindIndex(name);
      return match i case None => -1 case Some(k) => table[k].sector;
    }

    method FirstUnused() returns (r: Option<nat>)
      requires Valid()
      ensures r == None <==> Full(table)
      ensures r.Some? ==> FirstFree(table, r.value)
    {
      for i := 0 to |table|
        invariant forall j :: 0 <= j < i ==> table[j].inUse
      {
        if !table[i].inUse { return Some(i); }
      }
      return None;
    }

    // Add a name: refused when it is there already or the table is full, otherwise
    // put into the first entry that is not in use.
    method Add(name: seq<Byte>, newSector: Int32) returns (added: bool, ghost at: nat)
      requires Valid()
      modifies this
      ensures Valid() && |table| == |old(table)| && (UniqueNames(old(table)) ==> UniqueNames(table))
      ensures added <==> Lookup(old(table), Key(name), 0) == None && !Full(old(table))
      ensures !added ==> table == old(table)
      ensures added ==> FirstFree(old(table), at) && Named(table[at], Key(name)) && table[at].sector == newSector && !table[at].kind
                        && table == old(table)[at := table[at]]
    {
      at := 0;
      var there := FindIndex(name);
      if there != None { return false, 0; }
      var free := FirstUnused();
      if free == None { return false, 0; }
      var i := free.value;
      var entry := Entry(true, newSector, Copied(name, table[i].name), false);
      PutUnique(table, i, entry, name);
      table := table[i := entry];
      return true, i;
    }

    // Remove a name, if it is there.
    method Remove(name: seq<Byte>) returns (removed: bool)
      requires Valid()
      modifies this
      ensures Valid() && |table| == |old(table)| && (UniqueNames(old(table)) ==> UniqueNames(table))
      ensures removed <==> Lookup(old(table), Key(name), 0).Some?
      ensures !removed ==> table == old(table)
      ensures removed ==> var i := Lookup(old(table), Key(name), 0).value; table == old(table)[i := old(table)[i].(inUse := false)]
      ensures UniqueNames(old(table)) ==> Lookup(table, Key(name), 0) == None
    {
      var i := FindIndex(name);
      if i == None { return false; }
      table := table[i.value := table[i.value].(inUse := false)];
      if UniqueNames(old(table)) { RemovedGone(old(table), i.value, Key(name)); }
      return true;
    }
  }

  ghost predicate FirstFree(t: seq<Entry>, i: nat) {
    i < |t| && !t[i].inUse && forall j :: 0 <= j < i ==> t[j].inUse
  }

  // After a name has been put into a free entry it is found there, and every
  // other name is found where it was.
  lemma AddedFound(t: seq<Entry>, i: nat, e: Entry, key: seq<Byte>)
    requires UniqueNames(t) && i < |t| && !t[i].inUse && e.inUse && Lookup(t, Key(e.name), 0) == None
    ensures Lookup(t[i := e], key, 0) == if key == Key(e.name) then Some(i) else Lookup(t, key, 0)
  {
    var t' := t[i := e];
    var r := Lookup(t', key, 0);
    if key == Key(e.name) {
      assert Named(t'[i], key);
      assert forall j :: 0 <= j < |t| && j != i ==> t'[j] == t[j] && !Named(t[j], key);
    } else {
      assert !Named(t'[i], key) && !Named(t[i], key);
      LookupSame(t, t', key, 0);
    }
  }

  lemma {:induction false} LookupSame(t: seq<Entry>, t': seq<Entry>, key: seq<Byte>, i: nat)
    requires |t| == |t'| && i <= |t| && forall j :: 0 <= j < |t| ==> Named(t[j], key) == Named(t'[j], key)
    ensures Lookup(t, key, i) == Lookup(t', key, i)
    decreases |t| - i
  {
    if i < |t| { LookupSame(t, t', key, i + 1); }
  }

  // ---------------------------------------------------------------------- layout

  // inUse, three bytes of padding, the sector, the name, the type, padding.
  function EncodeEntry(e: Entry): (b: seq<Byte>)
    requires |e.name| == FileNameMaxLen + 1
    ensures |b| == EntrySize
  {
    [if e.inUse then 1 else 0, 0, 0, 0] + EncodeInt(e.sector) + e.name + [if e.kind then 1 else 0, 0]
  }

  function DecodeEntry(b: seq<Byte>): (e: Entry)
    requires |b| == EntrySize
    ensures |e.name| == FileNameMaxLen + 1
  {
    Entry(b[0] != 0, DecodeInt(b[4..8]), b[8..18], b[18] != 0)
  }

  // Where the fields of entry k of a table lie.
  lemma EntryLayout(t: seq<Entry>, k: nat)
    requires Shaped(t) && k < |t|
    ensures var b := EncodeTable(t)[EntrySize * k..EntrySize * k + EntrySize];
            && (b[0] != 0 <==> t[k].inUse) && b[4..8] == EncodeInt(t[k].sector) && b[8..9 + FileNameMaxLen] == t[k].name
            && (b[9 + FileNameMaxLen] != 0 <==> t[k].kind)
  {
    EntryAt(t, k);
    var b := EncodeEntry(t[k]);
    assert b[4..8] == EncodeInt(t[k].sector);
    assert b[8..18] == t[k].name;
  }

  lemma EntryAt(t: seq<Entry>, k: nat)
    requires Shaped(t) && k < |t|
    ensures EncodeTable(t)[EntrySize * k..EntrySize * k + EntrySize] == EncodeEntry(t[k])
  {
    var s := EncodeTable(t)[EntrySize * k..EntrySize * k + EntrySize];
    forall j | 0 <= j < EntrySize ensures s[j] == EncodeEntry(t[k])[j] {
      assert (EntrySize * k + j) / EntrySize == k && (EntrySize * k + j) % EntrySize == j;
    }
  }

  lemma EntryRoundTrip(e: Entry)
    requires |e.name| == FileNameMaxLen + 1
    ensures DecodeEntry(EncodeEntry(e)) == e
  {
    IntRoundTrip(e.sector);
    var b := EncodeEntry(e);
    assert b[4..8] == EncodeInt(e.sector);
    assert b[8..18] == e.name;
  }

  function EncodeTable(t: seq<Entry>): (b: seq<Byte>)
    requires Shaped(t)
    ensures |b| == EntrySize * |t|
  {
    seq(EntrySize * |t|, i requires 0 <= i < EntrySize * |t| => EncodeEntry(t[i / EntrySize])[i % EntrySize])
  }

  function DecodeTable(b: seq<Byte>): (t: seq<Entry>)
    ensures |t| == |b| / EntrySize && Shaped(t)
  {
    seq(|b| / EntrySize, k requires 0 <= k < |b| / EntrySize => DecodeEntry(b[EntrySize * k..EntrySize * k + EntrySize]))
  }

  // A directory survives being written to its file and fetched again.
  lemma TableRoundTrip(t: seq<Entry>)
    requires Shaped(t)
    ensures DecodeTable(EncodeTable(t)) == t
  {
    var b := EncodeTable(t);
    forall k | 0 <= k < |t| ensures DecodeEntry(b[EntrySize * k..EntrySize * k + EntrySize]) == t[k] {
      EntryAt(t, k);
      EntryRoundTrip(t[k]);
    }
  }
}
