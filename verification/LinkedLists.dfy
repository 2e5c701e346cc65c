// The singly linked list of list.cc, with its sorted insertion.
module LinkedLists {
  import opened Common

  datatype Keyed<T> = Keyed(key: int, item: T)

  // ------------------------------------------------------- what the list holds

  function PositionFrom<T>(s: seq<Keyed<T>>, key: int, k: nat): (p: nat)
    requires k <= |s|
    ensures k <= p <= |s|
    ensures forall i :: k <= i < p ==> s[i].key <= key
    ensures p < |s| ==> key < s[p].key
    decreases |s| - k
  {
    if k == |s| || key < s[k].key then k else PositionFrom(s, key, k + 1)
  }

  // Where an item with this key goes: before the first larger key.
  function Position<T>(s: seq<Keyed<T>>, key: int): (p: nat)
    ensures p <= |s|
    ensures forall i :: 0 <= i < p ==> s[i].key <= key
    ensures p < |s| ==> key < s[p].key
  {
    PositionFrom(s, key, 0)
  }

  function Inserted<T>(s: seq<Keyed<T>>, x: Keyed<T>): seq<Keyed<T>> {
    var p := Position(s, x.key);
    seq(|s| + 1, i requires 0 <= i <= |s| => if i < p then s[i] else if i == p then x else s[i - 1])
  }

  ghost predicate Sorted<T>(s: seq<Keyed<T>>) {
    forall i, j :: 0 <= i < j < |s| ==> s[i].key <= s[j].key
  }

  lemma PositionUnique<T>(s: seq<Keyed<T>>, key: int, p: nat)
    requires p <= |s| && (forall i :: 0 <= i < p ==> s[i].key <= key) && (p < |s| ==> key < s[p].key)
    ensures p == Position(s, key)
  {
  }

  lemma InsertedAt<T>(s: seq<Keyed<T>>, x: Keyed<T>, i: nat)
    requires i <= |s|
    ensures |Inserted(s, x)| == |s| + 1
    ensures var p := Position(s, x.key);
            Inserted(s, x)[i] == if i < p then s[i] else if i == p then x else s[i - 1]
  {
  }

  // Sorted insertion puts the item behind every item with the same key and
  // before every larger one,
  lemma InsertedPlace<T>(s: seq<Keyed<T>>, x: Keyed<T>, i: nat)
    requires Sorted(s) && i <= |s|
    ensures |Inserted(s, x)| == |s| + 1
    ensures Inserted(s, x)[i].key <= x.key <==> i <= Position(s, x.key)
  {
    InsertedAt(s, x, i);
    var p := Position(s, x.key);
    if p < i {
      assert p < i - 1 ==> s[p].key <= s[i - 1].key;
    }
  }

  // keeps the list sorted,
  lemma InsertedSorted<T>(s: seq<Keyed<T>>, x: Keyed<T>)
    requires Sorted(s)
    ensures Sorted(Inserted(s, x))
  {
    var r := Inserted(s, x);
    forall i, j | 0 <= i < j < |r| ensures r[i].key <= r[j].key {
      InsertedAt(s, x, i);
      InsertedAt(s, x, j);
      InsertedPlace(s, x, i);
      InsertedPlace(s, x, j);
    }
  }

  // and adds that item and nothing else.
  lemma InsertedItems<T>(s: seq<Keyed<T>>, x: Keyed<T>)
    ensures multiset(Inserted(s, x)) == multiset(s) + multiset{x}
  {
    var p := Position(s, x.key);
    assert Inserted(s, x) == s[..p] + [x] + s[p..];
    assert s == s[..p] + s[p..];
  }

  // Taking the head of a sorted list and inserting it again rotates the run of
  // equal keys at the front and leaves the rest alone.
  lemma ReinsertRotates<T>(s: seq<Keyed<T>>)
    requires Sorted(s) && s != []
    ensures var n := Position(s, s[0].key);
            && 0 < n <= |s|
            && (forall i :: 0 <= i < n ==> s[i].key == s[0].key)
            && Inserted(s[1..], s[0]) == s[1..n] + [s[0]] + s[n..]
  {
    var n := Position(s, s[0].key);
    PositionUnique(s[1..], s[0].key, n - 1);
    assert s[1..][..n - 1] == s[1..n];
    assert s[1..][n - 1..] == s[n..];
  }

  lemma ReinsertKeeps<T>(s: seq<Keyed<T>>)
    requires Sorted(s) && s != []
    ensures Sorted(Inserted(s[1..], s[0])) && multiset(Inserted(s[1..], s[0])) == multiset(s)
  {
    InsertedSorted(s[1..], s[0]);
    InsertedItems(s[1..], s[0]);
    assert s == [s[0]] + s[1..];
  }

  lemma NoDupInsert<T>(s: seq<T>, p: nat, x: T)
    requires NoDup(s) && x !in s && p <= |s|
    ensures NoDup(s[..p] + [x] + s[p..])
  {
    var r := s[..p] + [x] + s[p..];
    forall i, j | 0 <= i < j < |r| ensures r[i] != r[j] {
      assert i != p ==> r[i] == s[if i < p then i else i - 1];
      assert j != p ==> r[j] == s[if j < p then j else j - 1];
    }
  }

  // ------------------------------------------------------------------ the list

  class ListElement<T> {
    var next: ListElement?<T>
    const key: int
    const item: T

    constructor (itemPtr: T, sortKey: int)
      ensures next == null && key == sortKey && item == itemPtr
    {
      item, key, next := itemPtr, sortKey, null;
    }
  }

  class List<T> {
    var first: ListElement?<T>
    var last: ListElement?<T>
    ghost var spine: seq<ListElement<T>>

    // Each element points to the one after it, the last one to nothing.
    ghost predicate Linked()
      reads this, spine
    {
      && (forall i, j :: 0 <= i < |spine| && j == i + 1 && j < |spine| ==> spine[i].next == spine[j])
      && (spine != [] ==> spine[|spine| - 1].next == null)
    }

    ghost predicate Valid()
      reads this, spine
    {
      && NoDup(spine)
      && Linked()
      && first == (if spine == [] then null else spine[0])
      && last == (if spine == [] then null else spine[|spine| - 1])
    }

    ghost function Contents(): seq<Keyed<T>>
      reads this, spine
    {
      seq(|spine|, i requires 0 <= i < |spine| reads this, spine => Keyed(spine[i].key, spine[i].item))
    }

    constructor ()
      ensures Valid() && spine == [] && Contents() == []
    {
      first, last, spine := null, null, [];
    }

    method IsEmpty() returns (empty: bool)
      requires Valid()
      ensures empty <==> Contents() == []
    {
      empty := first == null;
    }

    method Append(item: T)
      requires Valid()
      modifies this, spine
      ensures Valid() && Contents() == old(Contents()) + [Keyed(0, item)]
      ensures forall i :: 0 <= i < |spine| ==> spine[i] in old(spine) || fresh(spine[i])
    {
      var element := new ListElement<T>(item, 0);
      if first == null {
        first := element;
        last := element;
      } else {
        last.next := element;
        last := element;
      }
      spine := spine + [element];
    }

    method Prepend(item: T)
      requires Valid()
      modifies this, spine
      ensures Valid() && Contents() == [Keyed(0, item)] + old(Contents())
      ensures forall i :: 0 <= i < |spine| ==> spine[i] in old(spine) || fresh(spine[i])
    {
      var element := new ListElement<T>(item, 0);
      LinkFront(element);
      NoDupInsert(old(spine), 0, element);
    }

    // Remove the head; None is the source's NULL.
    method SortedRemove() returns (r: Option<Keyed<T>>)
      requires Valid()
      modifies this
      ensures Valid()
      ensures old(Contents()) == [] ==> r == None && spine == old(spine) && Contents() == []
      ensures old(Contents()) != [] ==> r == Some(old(Contents())[0]) && spine == old(spine)[1..] && Contents() == old(Contents())[1..]
    {
      if first == null { return None; }
      r := Some(Keyed(first.key, first.item));
      assert first == last ==> |spine| == 1;
      if first == last {
        first := null;
        last := null;
      } else {
        first := first.next;
      }
      spine := spine[1..];
    }

    method Remove() returns (r: Option<T>)
      requires Valid()
      modifies this
      ensures Valid()
      ensures old(Contents()) == [] ==> r == None && spine == old(spine) && Contents() == []
      ensures old(Contents()) != [] ==> r == Some(old(Contents())[0].item) && spine == old(spine)[1..] && Contents() == old(Contents())[1..]
    {
      var k := SortedRemove();
      r := match k case None => None case Some(x) => Some(x.item);
    }

    // The invariant and the contents once `element` is linked in at index p.
    ghost predicate LinkedIn(was: seq<ListElement<T>>, element: ListElement<T>, p: nat)
      reads this, spine
      requires p <= |was|
    {
      && spine == was[..p] + [element] + was[p..]
      && Linked()
      && first == spine[0] && last == spine[|spine| - 1]
    }

    lemma LinkedInInserts(was: seq<ListElement<T>>, s: seq<Keyed<T>>, element: ListElement<T>, p: nat)
      requires p <= |was| && LinkedIn(was, element, p) && NoDup(was) && element !in was
      requires |s| == |was| && forall i :: 0 <= i < |was| ==> s[i] == Keyed(was[i].key, was[i].item)
      requires p == Position(s, element.key)
      ensures Valid() && Contents() == Inserted(s, Keyed(element.key, element.item))
    {
      NoDupInsert(was, p, element);
      var r := Inserted(s, Keyed(element.key, element.item));
      forall i | 0 <= i < |spine| ensures Contents()[i] == r[i] {
        InsertedAt(s, Keyed(element.key, element.item), i);
      }
    }

    // The walk of SortedInsert: stop before the first larger key, or at the end.
    method Walk(sortKey: int) returns (ptr: ListElement<T>, ghost p: nat)
      requires Valid() && spine != [] && spine[0].key <= sortKey
      ensures p < |spine| && ptr == spine[p]
      ensures p + 1 == Position(Contents(), sortKey)
    {
      ptr, p := first, 0;
      while ptr.next != null
        invariant p < |spine| && ptr == spine[p]
        invariant forall j :: 0 <= j <= p ==> spine[j].key <= sortKey
        decreases |spine| - p
      {
        assert p + 1 < |spine| && ptr.next == spine[p + 1];
        if sortKey < ptr.next.key { break; }
        ptr, p := ptr.next, p + 1;
      }
      PositionUnique(Contents(), sortKey, p + 1);
    }

    method LinkFront(element: ListElement<T>)
      requires Valid() && element !in spine && element.next == null
      modifies this, element
      ensures LinkedIn(old(spine), element, 0)
    {
      if first == null {
        first := element;
        last := element;
      } else {
        element.next := first;
        first := element;
      }
      spine := [element] + spine;
      assert spine == old(spine)[..0] + [element] + old(spine)[0..];
    }

    method LinkAfter(ptr: ListElement<T>, ghost p: nat, element: ListElement<T>)
      requires Valid() && p < |spine| && ptr == spine[p] && element !in spine && element.next == null
      modifies this, ptr, element
      ensures LinkedIn(old(spine), element, p + 1)
    {
      ghost var was := spine;
      assert p + 1 < |spine| ==> spine[p].next == spine[p + 1];
      if ptr.next != null {
        element.next := ptr.next;
        ptr.next := element;
      } else {
        last.next := element;
        last := element;
      }
      spine := was[..p + 1] + [element] + was[p + 1..];
    }

    method SortedInsert(item: T, sortKey: int)
      requires Valid()
      modifies this, spine
      ensures Valid() && Contents() == Inserted(old(Contents()), Keyed(sortKey, item))
      ensures forall i :: 0 <= i < |spine| ==> spine[i] in old(spine) || fresh(spine[i])
    {
      ghost var s := Contents();
      var element := new ListElement<T>(item, sortKey);
      ghost var p := 0;
      if first == null || sortKey < first.key {
        LinkFront(element);
      } else {
        var ptr, q := Walk(sortKey);
        p := q + 1;
        LinkAfter(ptr, q, element);
      }
      LinkedInInserts(old(spine), s, element, p);
    }
  }
}
