/** The doubly linked list with two sentinels (lib/kernel/list.c) that holds ready threads, waiters and free blocks. */
module LinkedList {

  class Elem {
    var prev: Elem?
    var next: Elem?

    constructor ()
      ensures prev == null && next == null
    {
      prev, next := null, null;
    }
  }

  /** Neighbours point at each other and no node occurs twice. */
  ghost predicate Chain(nodes: seq<Elem>)
    reads nodes
  {
    && (forall i, j | 0 <= i && j == i + 1 < |nodes| :: nodes[i].next == nodes[j] && nodes[j].prev == nodes[i])
    && Distinct(nodes)
  }

  /** The nodes after an insertion, position by position. */
  lemma Inserted(head: Elem, elems: seq<Elem>, tail: Elem, elem: Elem, k: nat)
    requires 1 <= k <= |elems| + 1
    ensures var nodes := [head] + elems + [tail];
      nodes[..k] + [elem] + nodes[k..] == [head] + (elems[..k - 1] + [elem] + elems[k - 1..]) + [tail]
  {
  }

  lemma Taken(head: Elem, elems: seq<Elem>, tail: Elem, k: nat)
    requires k < |elems|
    ensures var nodes := [head] + elems + [tail];
      nodes[..k + 1] + nodes[k + 2..] == [head] + (elems[..k] + elems[k + 1..]) + [tail]
  {
  }

  ghost predicate Distinct(nodes: seq<Elem>) { forall i, j | 0 <= i < j < |nodes| :: nodes[i] != nodes[j] }

  lemma InsertedAt(nodes: seq<Elem>, elem: Elem, k: nat)
    requires k <= |nodes| && Distinct(nodes) && elem !in nodes
    ensures var ns := nodes[..k] + [elem] + nodes[k..];
      && |ns| == |nodes| + 1 && Distinct(ns)
      && forall i | 0 <= i < |ns| :: ns[i] == if i < k then nodes[i] else if i == k then elem else nodes[i - 1]
  {
  }

  lemma TakenAt(nodes: seq<Elem>, k: nat)
    requires k < |nodes| && Distinct(nodes)
    ensures var ns := nodes[..k] + nodes[k + 1..];
      && |ns| == |nodes| - 1 && Distinct(ns)
      && forall i | 0 <= i < |ns| :: ns[i] == if i < k then nodes[i] else nodes[i + 1]
  {
  }

  class List {
    const head: Elem
    const tail: Elem
    ghost var elems: seq<Elem>

    ghost function Nodes(): seq<Elem>
      reads this
    {
      [head] + elems + [tail]
    }

    ghost predicate Valid()
      reads this, Nodes()
    {
      Chain(Nodes())
    }

    /** `list_init` */
    constructor ()
      ensures Valid() && elems == [] && fresh(head) && fresh(tail)
    {
      var h := new Elem();
      var t := new Elem();
      head, tail := h, t;
      elems := [];
      new;
      head.next := tail;
      tail.prev := head;
    }

    /** `list_insert_before`, `before` being the k-th node. */
    method InsertBefore(before: Elem, elem: Elem, ghost k: nat)
      requires Valid() && 1 <= k < |Nodes()| && before == Nodes()[k] && elem !in Nodes()
      modifies this`elems, Nodes(), elem
      ensures Valid() && elems == old(elems[..k - 1]) + [elem] + old(elems[k - 1..])
    {
      ghost var nodes := Nodes();
      var p := before.prev;
      assert p == nodes[k - 1];
      p.next := elem;
      elem.prev := p;
      elem.next := before;
      before.prev := elem;
      Inserted(head, elems, tail, elem, k);
      InsertedAt(nodes, elem, k);
      ghost var ns := nodes[..k] + [elem] + nodes[k..];
      elems := elems[..k - 1] + [elem] + elems[k - 1..];
      assert Nodes() == ns;
      forall i, j | 0 <= i && j == i + 1 < |ns| ensures ns[i].next == ns[j] && ns[j].prev == ns[i] { }
    }

    /** `list_push` */
    method Push(elem: Elem)
      requires Valid() && elem !in Nodes()
      modifies this`elems, Nodes(), elem
      ensures Valid() && elems == [elem] + old(elems)
    {
      assert head == Nodes()[0] && head.next == Nodes()[1];
      InsertBefore(head.next, elem, 1);
    }

    /** `list_append` */
    method Append(elem: Elem)
      requires Valid() && elem !in Nodes()
      modifies this`elems, Nodes(), elem
      ensures Valid() && elems == old(elems) + [elem]
    {
      assert tail == Nodes()[|elems| + 1];
      InsertBefore(tail, elem, |elems| + 1);
    }

    /** `list_remove` of the k-th element; its own links stay as they were. */
    method Remove(elem: Elem, ghost k: nat)
      requires Valid() && k < |elems| && elem == elems[k]
      modifies this`elems, Nodes()
      ensures Valid() && elems == old(elems[..k]) + old(elems[k + 1..])
      ensures elem.prev == old(elem.prev) && elem.next == old(elem.next)
    {
      ghost var nodes := Nodes();
      assert elem == nodes[k + 1];
      assert elem.prev == nodes[k] && elem.next == nodes[k + 2];
      elem.prev.next := elem.next;
      elem.next.prev := elem.prev;
      Taken(head, elems, tail, k);
      TakenAt(nodes, k + 1);
      ghost var ns := nodes[..k + 1] + nodes[k + 2..];
      elems := elems[..k] + elems[k + 1..];
      assert Nodes() == ns;
      forall i, j | 0 <= i && j == i + 1 < |ns| ensures ns[i].next == ns[j] && ns[j].prev == ns[i] { }
    }

    /** `list_pop`; on an empty list it would take out the tail sentinel. */
    method Pop() returns (elem: Elem)
      requires Valid() && elems != []
      modifies this`elems, Nodes()
      ensures Valid() && elem == old(elems[0]) && elems == old(elems[1..])
    {
      Ends();
      elem := head.next;
      Remove(elem, 0);
    }

    /** `list_empty` */
    method IsEmpty() returns (r: bool)
      requires Valid()
      ensures r == (elems == [])
    {
      assert Nodes()[0] == head && Nodes()[|elems| + 1] == tail;
      r := head.next == tail;
      if elems != [] { assert Nodes()[1] == elems[0] && Nodes()[1] != Nodes()[|elems| + 1]; }
    }

    /** `elem_find` */
    method Find(obj: Elem) returns (r: bool)
      requires Valid()
      ensures r == (obj in elems)
    {
      ghost var nodes := Nodes();
      Ends();
      var e := head.next;
      ghost var i := 1;
      while e != tail
        invariant 1 <= i <= |elems| + 1 && e == nodes[i] && nodes == Nodes()
        invariant forall j | 1 <= j < i :: nodes[j] != obj
        decreases |elems| + 1 - i
      {
        assert nodes[i] == elems[i - 1];
        if e == obj { return true; }
        e := e.next;
        i := i + 1;
      }
      assert e == nodes[i] == nodes[|elems| + 1];
      forall j | 0 <= j < |elems| ensures elems[j] != obj { assert elems[j] == nodes[j + 1]; }
      r := false;
    }

    /** `list_len` */
    method Len() returns (n: nat)
      requires Valid()
      ensures n == |elems|
    {
      ghost var nodes := Nodes();
      n := 0;
      Ends();
      var e := head.next;
      while e != tail
        invariant n <= |elems| && e == nodes[n + 1] && nodes == Nodes()
        decreases |elems| - n
      {
        assert nodes[n + 1] == elems[n];
        e := e.next;
        n := n + 1;
      }
      assert nodes[n + 1] == nodes[|elems| + 1];
    }

    /** Where the sentinels and the first element are. */
    lemma Ends()
      requires Valid()
      ensures Nodes()[0] == head && Nodes()[|elems| + 1] == tail && head.next == Nodes()[1] &&
        (elems != [] ==> Nodes()[1] == elems[0])
    {
    }
  }
}
