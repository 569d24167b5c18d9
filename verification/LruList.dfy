/**
 The intrusive doubly linked list behind the cache's recency order: constant
 time operations on nodes, specified by the sequence of nodes they stand for.
 */
module LruLists {
  import opened Bytes
  import KvStore
  import PrefixRecording

  class Node {
    const hash: u64
    var prev: Node?
    var next: Node?

    constructor (hash: u64)
      ensures prev == null && next == null && this.hash == hash
    {
      this.hash := hash;
      prev, next := null, null;
    }
  }

  // The recency order the nodes stand for.
  function Hashes(s: seq<Node>): (r: seq<u64>)
    ensures |r| == |s| && forall i :: 0 <= i < |s| ==> r[i] == s[i].hash
  {
    seq(|s|, i requires 0 <= i < |s| => s[i].hash)
  }

  predicate AllDifferent(s: seq<Node>) {
    forall i, j :: 0 <= i < j < |s| ==> s[i] != s[j]
  }

  function PrevOf(s: seq<Node>, i: nat): Node?
    requires i < |s|
  {
    if i == 0 then null else s[i - 1]
  }

  function NextOf(s: seq<Node>, i: nat): Node?
    requires i < |s|
  {
    if i == |s| - 1 then null else s[i + 1]
  }

  function Removed(s: seq<Node>, i: nat): seq<Node>
    requires i < |s|
  {
    s[..i] + s[i + 1..]
  }

  class LruList {
    var head: Node?
    var tail: Node?
    ghost var items: seq<Node>

    ghost predicate Linked()
      reads this, items
    {
      && head == (if items == [] then null else items[0])
      && tail == (if items == [] then null else items[|items| - 1])
      && (forall i :: 0 <= i < |items| ==> items[i].prev == PrevOf(items, i))
      && (forall i :: 0 <= i < |items| ==> items[i].next == NextOf(items, i))
    }

    ghost predicate Valid()
      reads this, items
    {
      AllDifferent(items) && Linked()
    }

    constructor ()
      ensures Valid() && items == []
    {
      head, tail, items := null, null, [];
    }

    method Unlink(e: Node, ghost at: nat)
      requires Valid() && at < |items| && items[at] == e
      modifies this, set x | x in items
      ensures Valid() && items == Removed(old(items), at)
      ensures e.prev == null && e.next == null && e !in items
    {
      hide PrevOf, NextOf, Removed;
      ghost var s := items;
      Neighbours(s, at);
      if e.prev != null {
        e.prev.next := e.next;
      } else {
        head := e.next;
      }
      if e.next != null {
        e.next.prev := e.prev;
      } else {
        tail := e.prev;
      }
      e.prev := null;
      e.next := null;
      assert forall i :: 0 <= i < |s| && i != at ==> s[i].prev == if i == at + 1 then PrevOf(s, at) else PrevOf(s, i);
      assert forall i :: 0 <= i < |s| && i != at ==> s[i].next == if i + 1 == at then NextOf(s, at) else NextOf(s, i);
      hide AllDifferent;
      items := Removed(s, at);
      RemovedItems(s, at);
      forall i | 0 <= i < |items|
        ensures items[i].prev == PrevOf(items, i) && items[i].next == NextOf(items, i)
      {
        RemovedLinks(s, at, i);
      }
    }

    method PushFront(e: Node)
      requires Valid() && e !in items
      modifies this, e, set x | x in items
      ensures Valid() && items == [e] + old(items)
    {
      hide PrevOf, NextOf;
      ghost var s := items;
      Ends(s);
      e.prev := null;
      e.next := head;
      if head != null {
        head.prev := e;
      }
      head := e;
      if tail == null {
        tail := e;
      }
      assert forall i :: 0 <= i < |s| ==> s[i].prev == if i == 0 then e else PrevOf(s, i);
      assert forall i :: 0 <= i < |s| ==> s[i].next == NextOf(s, i);
      hide AllDifferent;
      items := [e] + s;
      PushedItems(s, e);
      forall i | 0 <= i < |items|
        ensures items[i].prev == PrevOf(items, i) && items[i].next == NextOf(items, i)
      {
        PushedLinks(s, e, i);
      }
    }

    // The node becomes the first one; the order of the others is kept.
    method Touch(e: Node, ghost at: nat)
      requires Valid() && at < |items| && items[at] == e
      modifies this, set x | x in items
      ensures Valid() && items == [e] + Removed(old(items), at)
      ensures KvStore.Different(Hashes(old(items))) ==>
                Hashes(items) == PrefixRecording.Touched(Hashes(old(items)), e.hash)
    {
      TouchedHashes(items, at);
      hide AllDifferent, PrevOf, NextOf, Removed;
      if e == head {
        FirstStays(items, at);
        return;
      }
      ghost var s := items;
      RemovedWithin(s, at);
      assert s[at] in s;
      Unlink(e, at);
      assert forall x :: x in items ==> x in s;
      PushFront(e);
    }
  }

  // ---------------------------------------------------------------- links of the new sequence

  // Unlinking and pushing in the recency order.
  lemma RemovedHashes(s: seq<Node>, at: nat)
    requires at < |s|
    ensures Hashes(Removed(s, at)) == KvStore.Dropped(Hashes(s), at)
    ensures forall e: Node :: Hashes([e] + s) == [e.hash] + Hashes(s)
  {}

  // With one node per hash, moving a node to the front is what touching its
  // entry does to the recency order.
  lemma TouchedHashes(s: seq<Node>, at: nat)
    requires at < |s|
    ensures KvStore.Different(Hashes(s)) ==>
              Hashes([s[at]] + Removed(s, at)) == PrefixRecording.Touched(Hashes(s), s[at].hash)
  {
    hide KvStore.Dropped, KvStore.Different, PrefixRecording.IndexOf;
    var h := Hashes(s);
    assert h[at] == s[at].hash;
    RemovedHashes(s, at);
    if KvStore.Different(h) {
      OnlyIndex(h, at);
    }
  }

  lemma OnlyIndex(h: seq<u64>, at: nat)
    requires at < |h| && KvStore.Different(h)
    ensures PrefixRecording.IndexOf(h, h[at]) == at
  {
    hide PrefixRecording.IndexOf;
  }

  lemma Neighbours(s: seq<Node>, at: nat)
    requires AllDifferent(s) && at < |s|
    ensures PrevOf(s, at) == (if at == 0 then null else s[at - 1])
    ensures NextOf(s, at) == (if at == |s| - 1 then null else s[at + 1])
  {}

  lemma RemovedItems(s: seq<Node>, at: nat)
    requires AllDifferent(s) && at < |s|
    ensures AllDifferent(Removed(s, at)) && |Removed(s, at)| == |s| - 1 && s[at] !in Removed(s, at)
    ensures |s| > 1 ==> Removed(s, at)[0] == if at == 0 then s[1] else s[0]
    ensures |s| > 1 ==> Removed(s, at)[|s| - 2] == if at == |s| - 1 then s[|s| - 2] else s[|s| - 1]
  {
    var t := Removed(s, at);
    assert forall j :: 0 <= j < |t| ==> t[j] == s[if j < at then j else j + 1];
  }

  lemma RemovedLinks(s: seq<Node>, at: nat, i: nat)
    requires at < |s| && i < |s| - 1 && |Removed(s, at)| == |s| - 1
    ensures var k := if i < at then i else i + 1;
            && Removed(s, at)[i] == s[k]
            && PrevOf(Removed(s, at), i) == (if k == at + 1 then PrevOf(s, at) else PrevOf(s, k))
            && NextOf(Removed(s, at), i) == (if k + 1 == at then NextOf(s, at) else NextOf(s, k))
  {
    var t := Removed(s, at);
    assert forall j :: 0 <= j < |t| ==> t[j] == s[if j < at then j else j + 1];
  }

  lemma FirstStays(s: seq<Node>, at: nat)
    requires AllDifferent(s) && at < |s| && s[at] == s[0]
    ensures [s[at]] + Removed(s, at) == s
  {
    assert at == 0;
  }

  lemma RemovedWithin(s: seq<Node>, at: nat)
    requires at < |s|
    ensures forall x :: x in Removed(s, at) ==> x in s
  {}

  lemma Ends(s: seq<Node>)
    ensures |s| > 0 ==> PrevOf(s, 0) == null
  {}

  lemma PushedItems(s: seq<Node>, e: Node)
    requires AllDifferent(s) && e !in s
    ensures AllDifferent([e] + s)
  {}

  lemma PushedLinks(s: seq<Node>, e: Node, i: nat)
    requires i < |s| + 1
    ensures i == 0 ==> PrevOf([e] + s, 0) == null && NextOf([e] + s, 0) == (if s == [] then null else s[0])
    ensures i > 0 ==> PrevOf([e] + s, i) == (if i == 1 then e else PrevOf(s, i - 1))
    ensures i > 0 ==> NextOf([e] + s, i) == NextOf(s, i - 1)
  {}
}
