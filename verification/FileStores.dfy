/**
  The file system as its users see it: a map from names to bytes.  Creating, removing
  and writing files on the disk are updates of that map, and a run of commands is a
  run of such updates.
 */
module FileStores {
  import opened Common
  import opened Storage
  import opened FileHeaders
  import opened OpenFiles
  import opened FileSystems
  import D = Directories

  // A file: the bytes that ReadAt finds, and whether these are all.  They are, except
  // for a file of exactly NumDirect sectors, whose last one is not found.
  datatype File = File(c: seq<Byte>, whole: bool)

  type Store = map<seq<Byte>, File>

  function FileAt(l: Layout, d: Image, e: nat): File
    requires |l.headers| == NumDirEntries && e < NumDirEntries && Sized(l.headers[e])
  {
    File(Content(Found(l.headers[e]), d), l.headers[e].numSectors != NumDirect)
  }

  lemma ListedSized(l: Layout, e: int)
    requires FilesOk(l) && InUse(l, e)
    ensures Sized(l.headers[e])
  {
  }

  // The names in the directory.
  function Names(t: seq<D.Entry>): set<seq<Byte>> {
    set e: nat | e < |t| && t[e].inUse :: D.Key(t[e].name)
  }

  lemma NamesFound(t: seq<D.Entry>, key: seq<Byte>)
    ensures key in Names(t) <==> D.Lookup(t, key, 0).Some?
  {
    var r := D.Lookup(t, key, 0);
    if r.Some? { assert t[r.value].inUse && D.Key(t[r.value].name) == key; }
    if key in Names(t) {
      var e: nat :| e < |t| && t[e].inUse && D.Key(t[e].name) == key;
      assert D.Named(t[e], key);
    }
  }

  ghost function FileNamed(l: Layout, d: Image, key: seq<Byte>): File
    requires FilesOk(l) && D.Lookup(l.table, key, 0).Some?
  {
    var e := D.Lookup(l.table, key, 0).value;
    ListedSized(l, e);
    FileAt(l, d, e)
  }

  // What the disk holds.
  ghost function Files(l: Layout, d: Image): Store
    requires FilesOk(l)
  {
    map key | key in Names(l.table) :: NamesFound(l.table, key); FileNamed(l, d, key)
  }

  lemma FilesAt(l: Layout, d: Image, key: seq<Byte>)
    requires FilesOk(l)
    ensures key in Files(l, d) <==> D.Lookup(l.table, key, 0).Some?
    ensures key in Files(l, d) ==> Files(l, d)[key] == FileNamed(l, d, key)
  {
    NamesFound(l.table, key);
  }

  // ---------------------------------------------------------------------- one change

  // The bytes of a file before and after a write.
  ghost predicate WrittenContent(c: seq<Byte>, c': seq<Byte>, from: seq<Byte>, position: nat) {
    if from == [] then c' == c
    else if position + |from| <= |c| then c' == c[..position] + from + c[position + |from|..]
    else if position <= |c| then c' == c[..position] + from
    else |c'| == position + |from| && c'[..|c|] == c && c'[position..] == from
  }

  // A write to the file in entry e: the other entries and the sectors of other files
  // are as they were, and the bytes of the file are what the write says.
  ghost predicate FileWritten(l: Layout, d: Image, l': Layout, d': Image, e: nat, from: seq<Byte>, position: nat) {
    && FilesOk(l) && InUse(l, e) && InUse(l', e) && |l'.headers| == NumDirEntries
    && l' == Changed(l, e, l'.marked, l.table[e], l'.headers[e])
    && WellMapped(Found(l.headers[e]), d) && WellMapped(Found(l'.headers[e]), d')
    && (l'.headers[e].numSectors == NumDirect <==> l.headers[e].numSectors == NumDirect)
    && WrittenContent(Content(Found(l.headers[e]), d), Content(Found(l'.headers[e]), d'), from, position)
    && OthersUsedKept(l, d, d', e)
  }

  // A file whose header and sectors are as they were.
  lemma SameFileAt(l: Layout, d: Image, l': Layout, d': Image, e: int)
    requires FsOk(l, d) && InUse(l, e) && |l'.headers| == NumDirEntries && l'.headers[e] == l.headers[e] && UsedKept(l, d, d')
    ensures Sized(l.headers[e]) && FileAt(l', d', e) == FileAt(l, d, e)
  {
    ListedSized(l, e);
    ListedFound(l, d, e);
    OtherContentKept(l, d, d', e);
  }

  lemma TableUnique(l: Layout, d: Image)
    requires FsOk(l, d)
    ensures D.UniqueNames(l.table)
  {
    Inside(l, d);
  }

  // A new file has the length asked for.
  predicate NewFileOf(f: File, size: nat) {
    if SectorsFor(size) == NumDirect then |f.c| == (NumDirect - 1) * SectorSize && !f.whole else |f.c| == size && f.whole
  }

  // The name k leads to the same file as before, or to none if there was none.
  ghost predicate NamesSame(l: Layout, d: Image, l': Layout, d': Image, k: seq<Byte>)
    requires FilesOk(l) && FilesOk(l')
  {
    && D.Lookup(l'.table, k, 0).Some? == D.Lookup(l.table, k, 0).Some?
    && (D.Lookup(l.table, k, 0).Some? ==> FileNamed(l', d', k) == FileNamed(l, d, k))
  }

  lemma SameInFiles(l: Layout, d: Image, l': Layout, d': Image, k: seq<Byte>)
    requires FilesOk(l) && FilesOk(l') && NamesSame(l, d, l', d', k)
    ensures SameIn(Files(l, d), Files(l', d'), k)
  {
    FilesAt(l, d, k);
    FilesAt(l', d', k);
  }

  ghost predicate SameIn(m: Store, m': Store, k: seq<Byte>) {
    (k in m' <==> k in m) && (k in m ==> m'[k] == m[k])
  }

  lemma MapsDiffer(m: Store, m': Store, key: seq<Byte>)
    requires forall k :: k != key ==> SameIn(m, m', k)
    ensures if key in m' then m' == m[key := m'[key]] else m' == m - {key}
  {
    var n := if key in m' then m[key := m'[key]] else m - {key};
    forall k ensures (k in m' <==> k in n) && (k in n ==> m'[k] == n[k]) { assert k != key ==> SameIn(m, m', k); }
    assert m'.Keys == n.Keys;
    assert m' == n;
  }

  // One name leads to another file, or to none, or from none to one.
  lemma OneNameChanged(l: Layout, d: Image, l': Layout, d': Image, key: seq<Byte>)
    requires FilesOk(l) && FilesOk(l') && forall k :: k != key ==> NamesSame(l, d, l', d', k)
    ensures key in Files(l', d') <==> D.Lookup(l'.table, key, 0).Some?
    ensures key in Files(l', d') ==> Files(l', d')[key] == FileNamed(l', d', key) && Files(l', d') == Files(l, d)[key := Files(l', d')[key]]
    ensures key !in Files(l', d') ==> Files(l', d') == Files(l, d) - {key}
  {
    FilesAt(l', d', key);
    forall k | k != key ensures SameIn(Files(l, d), Files(l', d'), k) { SameInFiles(l, d, l', d', k); }
    MapsDiffer(Files(l, d), Files(l', d'), key);
  }

  // A creation adds the name, with bytes that are not specified;
  lemma CreatedFiles(l: Layout, d: Image, l': Layout, d': Image, at: nat, key: seq<Byte>, size: nat)
    requires FsOk(l, d) && FilesOk(l') && D.Lookup(l.table, key, 0) == None
    requires CreatedFile(l, l', at, key, size) && UsedKept(l, d, d')
    ensures key in Files(l', d') && NewFileOf(Files(l', d')[key], size)
    ensures Files(l', d') == Files(l, d)[key := Files(l', d')[key]]
  {
    assert D.Lookup(l'.table, key, 0) == Some(at) by { CreatedNamed(l, d, l', d', at, key, size, key); }
    assert forall k :: k != key ==> NamesSame(l, d, l', d', k) by {
      forall k | k != key ensures NamesSame(l, d, l', d', k) { CreatedNamed(l, d, l', d', at, key, size, k); }
    }
    OneNameChanged(l, d, l', d', key);
  }

  lemma CreatedNamed(l: Layout, d: Image, l': Layout, d': Image, at: nat, key: seq<Byte>, size: nat, k: seq<Byte>)
    requires FsOk(l, d) && FilesOk(l') && D.Lookup(l.table, key, 0) == None
    requires CreatedFile(l, l', at, key, size) && UsedKept(l, d, d')
    ensures if k == key then D.Lookup(l'.table, k, 0) == Some(at) else NamesSame(l, d, l', d', k)
  {
    TableUnique(l, d);
    D.AddedFound(l.table, at, l'.table[at], k);
    if k != key && D.Lookup(l.table, k, 0).Some? { SameFileAt(l, d, l', d', D.Lookup(l.table, k, 0).value); }
  }

  // a removal takes it away;
  lemma RemovedFiles(l: Layout, d: Image, l': Layout, d': Image, e: nat, key: seq<Byte>)
    requires FsOk(l, d) && FilesOk(l') && RemovedFile(l, l', d, e, key) && UsedKept(l, d, d')
    ensures Files(l', d') == Files(l, d) - {key}
  {
    assert D.Lookup(l'.table, key, 0) == None by { RemovedNamed(l, d, l', d', e, key, key); }
    assert forall k :: k != key ==> NamesSame(l, d, l', d', k) by {
      forall k | k != key ensures NamesSame(l, d, l', d', k) { RemovedNamed(l, d, l', d', e, key, k); }
    }
    OneNameChanged(l, d, l', d', key);
  }

  lemma RemovedNamed(l: Layout, d: Image, l': Layout, d': Image, e: nat, key: seq<Byte>, k: seq<Byte>)
    requires FsOk(l, d) && FilesOk(l') && RemovedFile(l, l', d, e, key) && UsedKept(l, d, d')
    ensures if k == key then D.Lookup(l'.table, k, 0) == None else NamesSame(l, d, l', d', k)
  {
    TableUnique(l, d);
    RemovedFound(l.table, e, key, k);
    if k != key && D.Lookup(l.table, k, 0).Some? { SameFileAt(l, d, l', d', D.Lookup(l.table, k, 0).value); }
  }

  lemma RemovedFound(t: seq<D.Entry>, e: nat, key: seq<Byte>, k: seq<Byte>)
    requires D.UniqueNames(t) && e < |t| && D.Named(t[e], key)
    ensures D.Lookup(t[e := t[e].(inUse := false)], k, 0) == if k == key then None else D.Lookup(t, k, 0)
  {
    if k == key { D.RemovedGone(t, e, key); }
    else { D.LookupSame(t, t[e := t[e].(inUse := false)], k, 0); }
  }

  // and a write changes the bytes of that file as it says.
  lemma WrittenFiles(l: Layout, d: Image, l': Layout, d': Image, e: nat, key: seq<Byte>, from: seq<Byte>, position: nat)
    requires FsOk(l, d) && FilesOk(l') && D.Lookup(l.table, key, 0) == Some(e) && FileWritten(l, d, l', d', e, from, position)
    ensures Files(l', d') == Files(l, d)[key := FileAt(l', d', e)] && Files(l, d)[key] == FileAt(l, d, e)
    ensures FileAt(l', d', e).whole == FileAt(l, d, e).whole && WrittenContent(FileAt(l, d, e).c, FileAt(l', d', e).c, from, position)
  {
    FilesAt(l, d, key);
    assert l'.table == l.table;
    assert forall k :: k != key ==> NamesSame(l, d, l', d', k) by {
      forall k | k != key ensures NamesSame(l, d, l', d', k) { WrittenNamed(l, d, l', d', e, key, from, position, k); }
    }
    OneNameChanged(l, d, l', d', key);
  }

  lemma WrittenNamed(l: Layout, d: Image, l': Layout, d': Image, e: nat, key: seq<Byte>, from: seq<Byte>, position: nat, k: seq<Byte>)
    requires FsOk(l, d) && FilesOk(l') && D.Lookup(l.table, key, 0) == Some(e) && FileWritten(l, d, l', d', e, from, position)
    requires k != key
    ensures NamesSame(l, d, l', d', k)
  {
    assert l'.table == l.table;
    if D.Lookup(l.table, k, 0).Some? {
      var f := D.Lookup(l.table, k, 0).value;
      ListedSized(l, f);
      ListedFound(l, d, f);
      OtherContentWritten(l, d, d', e, f);
    }
  }

  // ------------------------------------------------------------------------ commands

  // What users of the file system do, one command after the other.
  datatype Command =
    | CreateFile(name: seq<Byte>, size: nat)
    | RemoveFile(name: seq<Byte>)
    | WriteFile(name: seq<Byte>, bytes: seq<Byte>, position: nat)

  // Done, or refused (FALSE or NULL), or stopped by an ASSERT; or skipped, because it
  // is outside of what the file system does correctly.
  datatype Outcome = Done | Refused | Halted | Skipped

  function KeyOf(c: Command): seq<Byte> { D.Key(c.name) }

  // A command as an update of the map.
  ghost predicate Updates(m: Store, c: Command, r: Outcome, m': Store) {
    if r != Done then m' == m
    else
      match c
      case CreateFile(_, size) => KeyOf(c) !in m && KeyOf(c) in m' && NewFileOf(m'[KeyOf(c)], size) && m' == m[KeyOf(c) := m'[KeyOf(c)]]
      case RemoveFile(_) => KeyOf(c) in m && m' == m - {KeyOf(c)}
      case WriteFile(_, bytes, position) =>
        && KeyOf(c) in m && KeyOf(c) in m' && m'[KeyOf(c)].whole == m[KeyOf(c)].whole
        && WrittenContent(m[KeyOf(c)].c, m'[KeyOf(c)].c, bytes, position)
        && m' == m[KeyOf(c) := m'[KeyOf(c)]]
  }

  // Which outcome a command has, exactly.
  ghost predicate Decides(l: Layout, c: Command, r: Outcome) {
    && FilesOk(l)
    && var e := D.Lookup(l.table, KeyOf(c), 0);
       match c
       case CreateFile(_, size) =>
         if size >= 0x8000_0000 || !Creatable(l.marked, SectorsFor(size)) then r == Skipped
         else r == if RefusesCreate(l, KeyOf(c), SectorsFor(size)) then Refused
                   else if HaltsCreate(l, KeyOf(c), SectorsFor(size)) then Halted else Done
       case RemoveFile(_) => r == if e == None then Refused else Done
       case WriteFile(_, bytes, position) =>
         r == if e == None then Refused
              else if Writable(l.headers[e.value], l.marked, position + |bytes|) then Done else Skipped
  }

  // A layout, a disk, and the files on it.
  datatype State = State(l: Layout, d: Image, files: Store)

  ghost predicate Holds(s: State) {
    FsOk(s.l, s.d) && s.files == Files(s.l, s.d)
  }

  // Command c has outcome r in s, as it must, and leads to s': the update of the map
  // that it is when it is done, and no change otherwise.
  ghost predicate Leads(s: State, c: Command, r: Outcome, s': State) {
    && Holds(s) && Holds(s') && Decides(s.l, c, r) && (r != Done ==> s' == s)
    && Updates(s.files, c, r, s'.files)
  }

  // The states of a run, with the outcome of each command.
  ghost predicate Chain(holds: State -> bool, leads: (State, Command, Outcome, State) -> bool,
                        states: seq<State>, commands: seq<Command>, results: seq<Outcome>) {
    && |states| == |results| + 1 && |results| <= |commands| && holds(states[0])
    && forall i :: 0 <= i < |results| ==> leads(states[i], commands[i], results[i], states[i + 1])
  }

  // The same, quantified over a dummy, so that a proof sees the chain only where it
  // calls InsideRan: the method that extends a run need not look at its beginning.
  ghost predicate Ran(states: seq<State>, commands: seq<Command>, results: seq<Outcome>) {
    && |states| == |results| + 1 && |results| <= |commands|
    && forall look {:trigger LookBack(look)} :: LookBack(look) ==> Chain(Holds, Leads, states, commands, results)
  }

  predicate LookBack(look: int) { true }

  lemma InsideRan(states: seq<State>, commands: seq<Command>, results: seq<Outcome>)
    requires Ran(states, commands, results)
    ensures Chain(Holds, Leads, states, commands, results)
  {
    assert LookBack(0);
  }

  // The updates of a run.
  ghost predicate Follows(states: seq<State>, commands: seq<Command>, results: seq<Outcome>) {
    && |states| == |results| + 1 && |results| <= |commands|
    && forall i :: 0 <= i < |results| ==> Updates(states[i].files, commands[i], results[i], states[i + 1].files)
  }

  // ---------------------------------------------------------------------------- runs

  // A file that no command of a stretch of a run names is the same before and after,
  lemma UnnamedKept(states: seq<State>, commands: seq<Command>, results: seq<Outcome>, i: nat, j: nat, key: seq<Byte>)
    requires Ran(states, commands, results) && i <= j <= |results|
    requires forall k :: i <= k < j ==> KeyOf(commands[k]) != key
    ensures key in states[j].files <==> key in states[i].files
    ensures key in states[i].files ==> states[j].files[key] == states[i].files[key]
  {
    RanFollows(states, commands, results);
    UnnamedFollows(states, commands, results, i, j, key);
  }

  lemma {:induction false} UnnamedFollows(states: seq<State>, commands: seq<Command>, results: seq<Outcome>, i: nat, j: nat, key: seq<Byte>)
    requires Follows(states, commands, results) && i <= j <= |results|
    requires forall k :: i <= k < j ==> KeyOf(commands[k]) != key
    ensures key in states[j].files <==> key in states[i].files
    ensures key in states[i].files ==> states[j].files[key] == states[i].files[key]
    decreases j - i
  {
    if i < j {
      UnnamedFollows(states, commands, results, i, j - 1, key);
      assert Updates(states[j - 1].files, commands[j - 1], results[j - 1], states[j - 1 + 1].files);
    }
  }

  // so what was written last to a stretch of a file is what it holds.
  lemma WrittenStays(states: seq<State>, commands: seq<Command>, results: seq<Outcome>, i: nat, j: nat)
    requires Ran(states, commands, results) && i < j <= |results|
    requires commands[i].WriteFile? && commands[i].bytes != [] && results[i] == Done
    requires forall k :: i < k < j ==> KeyOf(commands[k]) != KeyOf(commands[i])
    ensures var m, c := states[j].files, commands[i];
            && KeyOf(c) in m && c.position + |c.bytes| <= |m[KeyOf(c)].c|
            && m[KeyOf(c)].c[c.position..c.position + |c.bytes|] == c.bytes
  {
    var c := commands[i];
    RanFollows(states, commands, results);
    assert Updates(states[i].files, c, results[i], states[i + 1].files);
    WrittenRead(states[i].files[KeyOf(c)].c, states[i + 1].files[KeyOf(c)].c, c.bytes, c.position);
    UnnamedFollows(states, commands, results, i + 1, j, KeyOf(c));
  }

  lemma WrittenRead(c: seq<Byte>, c': seq<Byte>, from: seq<Byte>, position: nat)
    requires WrittenContent(c, c', from, position) && from != []
    ensures position + |from| <= |c'| && c'[position..position + |from|] == from
  {
    if position > |c| { assert c'[position..position + |from|] == c'[position..]; }
  }

  // Each command of a run leads from one of its states to the next.
  lemma RanAt(states: seq<State>, commands: seq<Command>, results: seq<Outcome>, i: nat)
    requires Ran(states, commands, results) && i < |results|
    ensures Leads(states[i], commands[i], results[i], states[i + 1])
  {
    InsideRan(states, commands, results);
  }

  lemma RanHolds(states: seq<State>, commands: seq<Command>, results: seq<Outcome>, i: nat)
    requires Ran(states, commands, results) && i < |states|
    ensures Holds(states[i])
  {
    InsideRan(states, commands, results);
    if i > 0 { RanAt(states, commands, results, i - 1); }
  }

  // In every state of a run, every sector of the disk has at most one owner and is
  // marked exactly when it has one.
  lemma RanConsistent(states: seq<State>, commands: seq<Command>, results: seq<Outcome>, i: nat)
    requires Ran(states, commands, results) && i < |states|
    ensures Describes(states[i].l, states[i].d) && Consistent(states[i].l, states[i].d)
  {
    RanHolds(states, commands, results, i);
    Inside(states[i].l, states[i].d);
  }

  lemma RanFollows(states: seq<State>, commands: seq<Command>, results: seq<Outcome>)
    requires Ran(states, commands, results)
    ensures Follows(states, commands, results)
  {
    forall i | 0 <= i < |results| ensures Updates(states[i].files, commands[i], results[i], states[i + 1].files) {
      RanAt(states, commands, results, i);
    }
  }

  lemma RanStart(s: State, commands: seq<Command>)
    requires Holds(s)
    ensures Ran([s], commands, [])
  {
  }

  lemma ChainSnoc(holds: State -> bool, leads: (State, Command, Outcome, State) -> bool,
                  states: seq<State>, commands: seq<Command>, results: seq<Outcome>, r: Outcome, s: State)
    requires Chain(holds, leads, states, commands, results) && |results| < |commands|
    requires leads(states[|results|], commands[|results|], r, s)
    ensures Chain(holds, leads, states + [s], commands, results + [r])
  {
    var states', results' := states + [s], results + [r];
    forall i | 0 <= i < |results'| ensures leads(states'[i], commands[i], results'[i], states'[i + 1]) {
      if i < |results| { assert leads(states[i], commands[i], results[i], states[i + 1]); }
    }
  }

  lemma RanSnoc(states: seq<State>, commands: seq<Command>, results: seq<Outcome>, r: Outcome, s: State)
    requires Ran(states, commands, results) && |results| < |commands|
    requires Leads(states[|results|], commands[|results|], r, s)
    ensures Ran(states + [s], commands, results + [r])
  {
    InsideRan(states, commands, results);
    ChainSnoc(Holds, Leads, states, commands, results, r, s);
  }
}
