/** The intrusive circular doubly linked list: the pointer splices, against plain sequences. */
module Queue {

  /** A list node. `item` stands for the structure the node is embedded in, which pointer arithmetic recovers. */
  class Node<T> {
    var next: Node<T>
    var prev: Node<T>
    const item: T

    constructor (item: T)
      ensures IsList(this, []) && this.item == item
    {
      this.item := item;
      next, prev := this, this;
    }
  }

  /** The ring through head `h` holds the nodes `xs`, in order, and the two directions agree. */
  ghost predicate IsList<T>(h: Node<T>, xs: seq<Node<T>>)
    reads h, xs
  {
    && h !in xs
    && (forall i, j | 0 <= i < j < |xs| :: xs[i] != xs[j])
    && h.next == (if xs == [] then h else xs[0])
    && h.prev == (if xs == [] then h else xs[|xs| - 1])
    && (forall i {:trigger xs[i].next} | 0 <= i < |xs| :: xs[i].next == if i + 1 < |xs| then xs[i + 1] else h)
    && (forall i {:trigger xs[i].prev} | 0 <= i < |xs| :: xs[i].prev == if i > 0 then xs[i - 1] else h)
  }

  lemma {:induction false} SamePrefix<T>(h: Node<T>, xs: seq<Node<T>>, ys: seq<Node<T>>, k: nat)
    requires IsList(h, xs) && IsList(h, ys) && k < |xs| && k < |ys|
    ensures xs[k] == ys[k]
  {
    if k == 0 {
    } else {
      SamePrefix(h, xs, ys, k - 1);
      assert xs[k - 1].next == xs[k] && ys[k - 1].next == ys[k];
    }
  }

  lemma NotLonger<T>(h: Node<T>, xs: seq<Node<T>>, ys: seq<Node<T>>)
    requires IsList(h, xs) && IsList(h, ys)
    ensures |xs| <= |ys|
  {
    if ys != [] && |ys| <= |xs| {
      var k := |ys| - 1;
      SamePrefix(h, xs, ys, k);
      assert ys[k].next == h;
    }
  }

  /** A ring determines its contents. */
  lemma ContentsUnique<T>(h: Node<T>, xs: seq<Node<T>>, ys: seq<Node<T>>)
    requires IsList(h, xs) && IsList(h, ys)
    ensures xs == ys
  {
    NotLonger(h, xs, ys);
    NotLonger(h, ys, xs);
    forall k | 0 <= k < |xs| ensures xs[k] == ys[k] {
      SamePrefix(h, xs, ys, k);
    }
  }

  function IsEmpty<T>(q: Node<T>): bool
    reads q
  {
    q == q.next
  }

  lemma EmptyTest<T>(h: Node<T>, xs: seq<Node<T>>)
    requires IsList(h, xs)
    ensures IsEmpty(h) <==> xs == []
  {
  }

  method Reset<T>(q: Node<T>)
    modifies q
    ensures IsList(q, [])
  {
    q.next := q;
    q.prev := q;
  }

  ghost predicate Apart<T>(xs: seq<Node<T>>, ys: seq<Node<T>>) {
    forall i, j | 0 <= i < |xs| && 0 <= j < |ys| :: xs[i] != ys[j]
  }

  /** Appends the ring of `n` to the ring of `h`. There is no branch: either ring, or both, may be empty. */
  method Add<T>(h: Node<T>, n: Node<T>, ghost xs: seq<Node<T>>, ghost ys: seq<Node<T>>)
    requires IsList(h, xs) && IsList(n, ys)
    requires h != n && h !in ys && n !in xs && Apart(xs, ys)
    modifies h, xs, n, ys
    ensures IsList(h, xs + ys)
  {
    ghost var all := xs + ys;
    assert forall i | 0 <= i < |all| :: all[i] == if i < |xs| then xs[i] else ys[i - |xs|];
    h.prev.next := n.next;
    n.next.prev := h.prev;
    h.prev := n.prev;
    h.prev.next := h;
  }

  /** Cuts the ring of `h` before its member `q`; `n` becomes the head of the part from `q` on. */
  method Split<T>(h: Node<T>, q: Node<T>, n: Node<T>, ghost xs: seq<Node<T>>, ghost ys: seq<Node<T>>)
    requires IsList(h, xs + [q] + ys) && n != h && n !in xs + [q] + ys
    modifies h, n, xs, q, ys
    ensures IsList(h, xs) && IsList(n, [q] + ys)
  {
    ghost var all := xs + [q] + ys;
    assert q == all[|xs|] && all[|all| - 1].next == h;
    n.prev := h.prev;
    n.prev.next := n;
    n.next := q;
    h.prev := q.prev;
    h.prev.next := h;
    q.prev := n;
    assert forall i | 0 <= i < |xs| :: xs[i] == all[i];
    assert forall i | 0 <= i < |ys| + 1 :: ([q] + ys)[i] == all[|xs| + i];
  }

  /** Hands the whole contents of `h` to `n`. */
  method Move<T>(h: Node<T>, n: Node<T>, ghost xs: seq<Node<T>>)
    requires IsList(h, xs) && n != h && n !in xs
    modifies h, n, xs
    ensures IsList(h, []) && IsList(n, xs)
  {
    if IsEmpty(h) {
      Reset(n);
    } else {
      var q := h.next;
      assert [] + [q] + xs[1..] == xs;
      Split(h, q, n, [], xs[1..]);
      assert [q] + xs[1..] == xs;
    }
  }

  method InsertHead<T>(h: Node<T>, q: Node<T>, ghost xs: seq<Node<T>>)
    requires IsList(h, xs) && q != h && q !in xs
    modifies h, q, xs
    ensures IsList(h, [q] + xs)
  {
    q.next := h.next;
    q.prev := h;
    q.next.prev := q;
    h.next := q;
  }

  method InsertTail<T>(h: Node<T>, q: Node<T>, ghost xs: seq<Node<T>>)
    requires IsList(h, xs) && q != h && q !in xs
    modifies h, q, xs
    ensures IsList(h, xs + [q])
  {
    q.next := h;
    q.prev := h.prev;
    q.prev.next := q;
    h.prev := q;
  }

  function Without<T>(xs: seq<T>, k: nat): (ys: seq<T>)
    requires k < |xs|
    ensures |ys| == |xs| - 1 && forall i | 0 <= i < |ys| :: ys[i] == if i < k then xs[i] else xs[i + 1]
  {
    xs[..k] + xs[k + 1..]
  }

  /** Takes the `k`-th member `q` off its ring; the pointers of `q` itself are left as they were. */
  method Remove<T>(q: Node<T>, ghost h: Node<T>, ghost xs: seq<Node<T>>, ghost k: nat)
    requires IsList(h, xs) && k < |xs| && q == xs[k]
    modifies h, Without(xs, k)
    ensures IsList(h, Without(xs, k))
  {
    assert q.next == if k + 1 < |xs| then xs[k + 1] else h;
    assert q.prev == if k > 0 then xs[k - 1] else h;
    ghost var ys := Without(xs, k);
    q.prev.next := q.next;
    q.next.prev := q.prev;
    assert forall i {:trigger ys[i].next} | 0 <= i < |ys| :: ys[i].next == if i + 1 < |ys| then ys[i + 1] else h;
    assert forall i {:trigger ys[i].prev} | 0 <= i < |ys| :: ys[i].prev == if i > 0 then ys[i - 1] else h;
  }

  /** The traversal visits the members once each, in order. */
  method Foreach<T>(h: Node<T>, ghost xs: seq<Node<T>>) returns (visited: seq<Node<T>>)
    requires IsList(h, xs)
    ensures visited == xs
  {
    visited := [];
    var q := h.next;
    while q != h
      invariant |visited| <= |xs| && visited == xs[..|visited|]
      invariant q == if |visited| < |xs| then xs[|visited|] else h
      decreases |xs| - |visited|
    {
      assert q.next == if |visited| + 1 < |xs| then xs[|visited| + 1] else h;
      visited := visited + [q];
      q := q.next;
    }
  }

  // ------------------------------------------------------------------ what one splice undoes
  // `IsList` fixes both pointers of the head and of every member, so to satisfy it for the same contents as
  // before is to have every pointer of the ring back as it was.

  lemma SplitParts<T>(h: Node<T>, q: Node<T>, n: Node<T>, xs: seq<Node<T>>, ys: seq<Node<T>>)
    requires IsList(h, xs + [q] + ys) && n !in xs + [q] + ys
    ensures h !in [q] + ys && n !in xs && Apart(xs, [q] + ys)
  {
    var all := xs + [q] + ys;
    assert forall i | 0 <= i < |xs| :: xs[i] == all[i];
    assert forall i | 0 <= i < |ys| + 1 :: ([q] + ys)[i] == all[|xs| + i];
  }

  method SplitThenAdd<T>(h: Node<T>, q: Node<T>, n: Node<T>, ghost xs: seq<Node<T>>, ghost ys: seq<Node<T>>)
    requires IsList(h, xs + [q] + ys) && n != h && n !in xs + [q] + ys
    modifies h, n, xs, q, ys
    ensures IsList(h, xs + [q] + ys)
  {
    SplitParts(h, q, n, xs, ys);
    Split(h, q, n, xs, ys);
    Add(h, n, xs, [q] + ys);
    assert xs + ([q] + ys) == xs + [q] + ys;
  }

  lemma UndoHead<T>(q: Node<T>, xs: seq<Node<T>>)
    ensures Without([q] + xs, 0) == xs
  {
  }

  method InsertHeadThenRemove<T>(h: Node<T>, q: Node<T>, ghost xs: seq<Node<T>>)
    requires IsList(h, xs) && q != h && q !in xs
    modifies h, q, xs
    ensures IsList(h, xs)
  {
    InsertHead(h, q, xs);
    UndoHead(q, xs);
    Remove(q, h, [q] + xs, 0);
  }

  method InsertTailThenRemove<T>(h: Node<T>, q: Node<T>, ghost xs: seq<Node<T>>)
    requires IsList(h, xs) && q != h && q !in xs
    modifies h, q, xs
    ensures IsList(h, xs)
  {
    ghost var more := xs + [q];
    assert Without(more, |xs|) == xs;
    InsertTail(h, q, xs);
    Remove(q, h, more, |xs|);
  }

  /** Moving a ring away and back leaves it as it was. */
  method MoveThereAndBack<T>(h: Node<T>, n: Node<T>, ghost xs: seq<Node<T>>)
    requires IsList(h, xs) && n != h && n !in xs
    modifies h, n, xs
    ensures IsList(h, xs) && IsList(n, [])
  {
    Move(h, n, xs);
    Move(n, h, xs);
  }
}
