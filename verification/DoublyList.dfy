/** The intrusive circular doubly linked list: each operation keeps every list a closed ring and acts on the sequence of
    its entries. */
module DoublyList {
  import opened Prelude

  class Node {
    var next: Node?
    var prev: Node?

    constructor ()
    {
      next, prev := null, null;
    }
  }

  /** The walk around the ring, from the head back to the head. */
  function Walk(head: Node, s: seq<Node>): (c: seq<Node>)
    ensures |c| == |s| + 2
  {
    [head] + s + [head]
  }

  /** Position i of the walk and the next one point at each other. */
  ghost predicate Joined(c: seq<Node>, i: nat)
    requires i + 1 < |c|
    reads c
  {
    c[i].next == c[i + 1] && c[i + 1].prev == c[i]
  }

  ghost predicate Distinct(s: seq<Node>) {
    forall i, j | 0 <= i < j < |s| :: s[i] != s[j]
  }

  /** head heads a closed ring whose entries are s, in this order. */
  ghost predicate Ring(head: Node, s: seq<Node>)
    reads head, s
  {
    && Distinct(s) && head !in s
    && forall i: nat | i <= |s| :: Joined(Walk(head, s), i)
  }

  ghost predicate Disjoint(head: Node, s: seq<Node>, other: Node, t: seq<Node>) {
    && head != other && head !in t && other !in s
    && forall x | x in s :: x !in t
  }

  function Without(s: seq<Node>, k: nat): (r: seq<Node>)
    requires k < |s|
    ensures |r| == |s| - 1
  {
    s[..k] + s[k + 1..]
  }

  function With(s: seq<Node>, k: nat, node: Node): (r: seq<Node>)
    requires k <= |s|
    ensures |r| == |s| + 1
  {
    s[..k] + [node] + s[k..]
  }

  /** INIT_LIST_HEAD. */
  method Init(head: Node)
    modifies head
    ensures Ring(head, [])
  {
    head.next := head;
    head.prev := head;
  }

  /** __list_add between positions k and k + 1 of the walk. */
  method Insert(node: Node, prev: Node, next: Node, ghost head: Node, ghost s: seq<Node>, ghost k: nat)
    requires Ring(head, s) && node != head && node !in s
    requires k <= |s| && prev == Walk(head, s)[k] && next == Walk(head, s)[k + 1]
    modifies node, prev, next
    ensures Ring(head, With(s, k, node))
  {
    ghost var (c, d) := (Walk(head, s), Walk(head, With(s, k, node)));
    WalkInjective(head, s);
    next.prev := node;
    node.next := next;
    node.prev := prev;
    prev.next := node;
    forall i: nat | i <= |s| + 1
      ensures Joined(d, i)
    {
      if i < k {
        assert d[i] == c[i] && d[i + 1] == c[i + 1] && old(Joined(c, i));
      } else if i > k + 1 {
        assert d[i] == c[i - 1] && d[i + 1] == c[i] && old(Joined(c, i - 1));
      } else {
        assert d[k] == prev && d[k + 1] == node && d[k + 2] == next;
      }
    }
  }

  /** No two positions of the walk but its ends are the same node. */
  lemma WalkInjective(head: Node, s: seq<Node>)
    requires Distinct(s) && head !in s
    ensures forall i, j | 0 <= i < j < |s| + 2 && !(i == 0 && j == |s| + 1) :: Walk(head, s)[i] != Walk(head, s)[j]
  {
  }

  /** list_add_head. */
  method AddHead(node: Node, head: Node, ghost s: seq<Node>)
    requires Ring(head, s) && node != head && node !in s
    modifies node, head, s
    ensures Ring(head, [node] + s)
  {
    assert Joined(Walk(head, s), 0);
    Insert(node, head, head.next, head, s, 0);
    assert With(s, 0, node) == [node] + s;
  }

  /** list_add_tail. */
  method AddTail(node: Node, head: Node, ghost s: seq<Node>)
    requires Ring(head, s) && node != head && node !in s
    modifies node, head, s
    ensures Ring(head, s + [node])
  {
    assert Joined(Walk(head, s), |s|);
    Insert(node, head.prev, head, head, s, |s|);
    assert With(s, |s|, node) == s + [node];
  }

  /** __list_del around entry k, with the neighbours of the entry as arguments. */
  method Unlink(prev: Node, next: Node, ghost head: Node, ghost s: seq<Node>, ghost k: nat)
    requires Ring(head, s) && k < |s| && prev == Walk(head, s)[k] && next == Walk(head, s)[k + 2]
    modifies prev, next
    ensures Ring(head, Without(s, k))
    ensures s[k].next == old(s[k].next) && s[k].prev == old(s[k].prev)
  {
    ghost var (c, d) := (Walk(head, s), Walk(head, Without(s, k)));
    WalkInjective(head, s);
    next.prev := prev;
    prev.next := next;
    forall i: nat | i <= |s| - 1
      ensures Joined(d, i)
    {
      if i < k {
        assert d[i] == c[i] && d[i + 1] == c[i + 1] && old(Joined(c, i));
      } else if i > k {
        assert d[i] == c[i + 1] && d[i + 1] == c[i + 2] && old(Joined(c, i + 1));
      } else {
        assert d[k] == prev && d[k + 1] == next;
      }
    }
  }

  /** list_del: the entry keeps its stale links. */
  method Del(entry: Node, ghost head: Node, ghost s: seq<Node>, ghost k: nat)
    requires Ring(head, s) && k < |s| && entry == s[k]
    modifies head, s
    ensures Ring(head, Without(s, k))
    ensures entry.next == old(entry.next) && entry.prev == old(entry.prev)
  {
    Neighbours(head, s, k);
    Unlink(entry.prev, entry.next, head, s, k);
  }

  lemma Neighbours(head: Node, s: seq<Node>, k: nat)
    requires Ring(head, s) && k < |s|
    ensures s[k].prev == Walk(head, s)[k] && s[k].next == Walk(head, s)[k + 2]
  {
    assert Joined(Walk(head, s), k) && Joined(Walk(head, s), k + 1);
  }

  /** list_del_init: the entry becomes an empty ring of its own. */
  method DelInit(entry: Node, ghost head: Node, ghost s: seq<Node>, ghost k: nat)
    requires Ring(head, s) && k < |s| && entry == s[k]
    modifies head, s
    ensures Ring(head, Without(s, k)) && Ring(entry, [])
  {
    Del(entry, head, s, k);
    Init(entry);
  }

  lemma WalkMembers(head: Node, s: seq<Node>)
    ensures forall i | 0 <= i < |s| + 2 :: Walk(head, s)[i] == head || Walk(head, s)[i] in s
  {
  }

  lemma WithoutMembers(s: seq<Node>, k: nat)
    requires Distinct(s) && k < |s|
    ensures s[k] !in Without(s, k) && forall x | x in Without(s, k) :: x in s
  {
  }

  lemma DistinctConcat(head: Node, s: seq<Node>, other: Node, t: seq<Node>)
    requires Distinct(s) && Distinct(t) && other !in t && Disjoint(head, s, other, t)
    ensures Distinct(s + t) && other !in s + t
  {
    forall i, j | 0 <= i < j < |s + t|
      ensures (s + t)[i] != (s + t)[j]
    {
      if i < |s| <= j {
        assert s[i] in s;
      }
    }
  }

  /** list_move to the front of another list. */
  method Move(entry: Node, head: Node, ghost from: Node, ghost s: seq<Node>, ghost k: nat, ghost t: seq<Node>)
    requires Ring(from, s) && k < |s| && entry == s[k] && Ring(head, t) && Disjoint(from, s, head, t)
    modifies from, s, head, t
    ensures Ring(from, Without(s, k)) && Ring(head, [entry] + t)
  {
    ghost var (c, d) := (Walk(from, Without(s, k)), Walk(head, t));
    WithoutMembers(s, k);
    WalkMembers(from, Without(s, k));
    WalkMembers(head, t);
    Del(entry, from, s, k);
    forall i: nat | i <= |t|
      ensures Joined(d, i)
    {
      assert old(Joined(d, i));
    }
    label Deleted:
    assert forall i: nat | i <= |s| - 1 :: Joined(c, i);
    AddHead(entry, head, t);
    forall i: nat | i <= |s| - 1
      ensures Joined(c, i)
    {
      assert old@Deleted(Joined(c, i));
    }
  }

  /** list_move within one list. */
  method MoveWithin(entry: Node, head: Node, ghost s: seq<Node>, ghost k: nat)
    requires Ring(head, s) && k < |s| && entry == s[k]
    modifies head, s
    ensures Ring(head, [entry] + Without(s, k))
  {
    Del(entry, head, s, k);
    AddHead(entry, head, Without(s, k));
  }

  /** list_move_tail to the end of another list. */
  method MoveTail(entry: Node, head: Node, ghost from: Node, ghost s: seq<Node>, ghost k: nat, ghost t: seq<Node>)
    requires Ring(from, s) && k < |s| && entry == s[k] && Ring(head, t) && Disjoint(from, s, head, t)
    modifies from, s, head, t
    ensures Ring(from, Without(s, k)) && Ring(head, t + [entry])
  {
    ghost var (c, d) := (Walk(from, Without(s, k)), Walk(head, t));
    WithoutMembers(s, k);
    WalkMembers(from, Without(s, k));
    WalkMembers(head, t);
    Del(entry, from, s, k);
    forall i: nat | i <= |t|
      ensures Joined(d, i)
    {
      assert old(Joined(d, i));
    }
    label Deleted:
    assert forall i: nat | i <= |s| - 1 :: Joined(c, i);
    AddTail(entry, head, t);
    forall i: nat | i <= |s| - 1
      ensures Joined(c, i)
    {
      assert old@Deleted(Joined(c, i));
    }
  }

  /** list_move_tail within one list. */
  method MoveTailWithin(entry: Node, head: Node, ghost s: seq<Node>, ghost k: nat)
    requires Ring(head, s) && k < |s| && entry == s[k]
    modifies head, s
    ensures Ring(head, Without(s, k) + [entry])
  {
    Del(entry, head, s, k);
    AddTail(entry, head, Without(s, k));
  }

  /** __list_splice of a list that is not empty. The donor's head keeps its stale links. */
  method SpliceBetween(list: Node, head: Node, ghost s: seq<Node>, ghost t: seq<Node>)
    requires Ring(list, s) && s != [] && Ring(head, t) && Disjoint(list, s, head, t)
    modifies s, head, t
    ensures Ring(head, s + t) && list.next == s[0] && list.prev == s[|s| - 1]
  {
    ghost var (a, b, d) := (Walk(list, s), Walk(head, t), Walk(head, s + t));
    WalkInjective(list, s);
    WalkInjective(head, t);
    DistinctConcat(list, s, head, t);
    assert Joined(a, 0) && Joined(a, |s|) && Joined(b, 0);
    var first, last, at := list.next, list.prev, head.next;
    first.prev := head;
    head.next := first;
    last.next := at;
    at.prev := last;
    forall i: nat | i <= |s| + |t|
      ensures Joined(d, i)
    {
      if i == 0 {
        assert d[0] == head && d[1] == first;
      } else if i < |s| {
        assert d[i] == a[i] && d[i + 1] == a[i + 1] && old(Joined(a, i));
      } else if i == |s| {
        assert d[i] == last && d[i + 1] == at;
      } else {
        assert d[i] == b[i - |s|] && d[i + 1] == b[i - |s| + 1] && old(Joined(b, i - |s|));
      }
    }
  }

  /** list_splice: the donor's entries come right after head, the donor's head is not usable afterwards. */
  method Splice(list: Node, head: Node, ghost s: seq<Node>, ghost t: seq<Node>)
    requires Ring(list, s) && Ring(head, t) && Disjoint(list, s, head, t)
    modifies s, head, t
    ensures Ring(head, s + t) && (s == [] ==> Ring(list, []))
  {
    var empty := Empty(list, s);
    if !empty {
      SpliceBetween(list, head, s, t);
    } else {
      assert s + t == t;
    }
  }

  /** list_splice_init: the donor is an empty list afterwards. */
  method SpliceInit(list: Node, head: Node, ghost s: seq<Node>, ghost t: seq<Node>)
    requires Ring(list, s) && Ring(head, t) && Disjoint(list, s, head, t)
    modifies list, s, head, t
    ensures Ring(head, s + t) && Ring(list, [])
  {
    var empty := Empty(list, s);
    if !empty {
      SpliceBetween(list, head, s, t);
      Init(list);
    } else {
      assert s + t == t;
    }
  }

  /** list_empty. */
  method Empty(head: Node, ghost s: seq<Node>) returns (r: bool)
    requires Ring(head, s)
    ensures r <==> s == []
  {
    assert Joined(Walk(head, s), 0);
    r := head.next == head;
  }

  lemma NextOnWalk(head: Node, s: seq<Node>, i: nat)
    requires Ring(head, s) && i <= |s|
    ensures Walk(head, s)[i].next == Walk(head, s)[i + 1]
    ensures Walk(head, s)[i + 1] == head <==> i == |s|
    ensures Walk(head, s)[0] == head
  {
    assert Joined(Walk(head, s), i);
  }

  /** list_size: the walk ends, and counts the entries in an unsigned int. */
  method Size(list: Node, ghost s: seq<Node>) returns (count: nat)
    requires Ring(list, s)
    ensures count == |s| % U32
  {
    hide Ring, Walk, Joined;
    ghost var c := Walk(list, s);
    NextOnWalk(list, s, 0);
    count := 0;
    var pos := list.next;
    ghost var i := 0;
    if s != [] {
      NextOnWalk(list, s, 1);
    }
    var n := pos.next;
    while pos != list
      invariant i <= |s| && pos == c[i + 1] && n == pos.next && n != null
      invariant pos == list <==> i == |s|
      invariant count == i % U32
      decreases |s| - i
    {
      count := (count + 1) % U32;
      i := i + 1;
      NextOnWalk(list, s, i);
      if i < |s| {
        NextOnWalk(list, s, i + 1);
      } else {
        NextOnWalk(list, s, 0);
      }
      pos := n;
      n := pos.next;
    }
  }

  lemma {:induction false} SameStart(head: Node, s: seq<Node>, t: seq<Node>, i: nat)
    requires Ring(head, s) && Ring(head, t) && i <= |s| && i <= |t|
    ensures Walk(head, s)[i] == Walk(head, t)[i]
  {
    if i > 0 {
      SameStart(head, s, t, i - 1);
      NextOnWalk(head, s, i - 1);
      NextOnWalk(head, t, i - 1);
    }
  }

  /** The heap determines the sequence: one head cannot head two different rings. */
  lemma RingUnique(head: Node, s: seq<Node>, t: seq<Node>)
    requires Ring(head, s) && Ring(head, t)
    ensures s == t
  {
    var n := if |s| <= |t| then |s| else |t|;
    SameStart(head, s, t, n);
    NextOnWalk(head, s, n);
    NextOnWalk(head, t, n);
    forall i | 0 <= i < n
      ensures s[i] == t[i]
    {
      SameStart(head, s, t, i + 1);
    }
  }
}
