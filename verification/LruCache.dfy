/**
 The byte-bounded LRU cache as the server keeps it: a map from keys to elements of a
 doubly linked ring with a sentinel, and a byte counter, all updated in place.
 */
module LruCache {
  import opened Common
  import opened RecencyList

  /** A list element together with its entry; the sentinel's entry is never looked at. */
  class Node {
    const key: string
    var val: Bytes
    var size: nat
    var prev: Node
    var next: Node

    constructor (key: string, val: Bytes)
      ensures this.key == key && this.val == val && this.size == |val|
      ensures prev == this && next == this
    {
      this.key := key;
      this.val := val;
      this.size := |val|;
      this.prev := this;
      this.next := this;
    }
  }

  // ---------- the ring ----------

  /** A sequence without its element at position `j`. */
  ghost function Cut<T>(s: seq<T>, j: nat): seq<T>
    requires j < |s|
  {
    if j == 0 then s[1..] else [s[0]] + Cut(s[1..], j - 1)
  }

  lemma {:induction false} CutSlices<T>(s: seq<T>, j: nat)
    requires j < |s|
    ensures Cut(s, j) == s[..j] + s[j + 1..]
  {
    if j > 0 {
      CutSlices(s[1..], j - 1);
      assert [s[0]] + s[1..][..j - 1] == s[..j];
    }
  }

  /** Always true; a proof names a position with it when it needs the links there. */
  ghost predicate At(i: nat) {
    true
  }

  ghost function After(ring: seq<Node>, i: nat): Node
    requires i < |ring|
  {
    if i + 1 < |ring| then ring[i + 1] else ring[0]
  }

  ghost predicate NoDuplicates(nodes: seq<Node>) {
    forall i: nat, j: nat {:trigger At(i), At(j)} :: At(i) && At(j) && i < j < |nodes| ==> nodes[i] != nodes[j]
  }

  /** `ring` is a closed doubly linked chain of distinct nodes. */
  ghost predicate IsRing(ring: seq<Node>)
    reads ring`next, ring`prev
  {
    && |ring| > 0
    && NoDuplicates(ring)
    && (forall i: nat {:trigger At(i)} :: At(i) && i < |ring| ==>
          ring[i].next == After(ring, i) && After(ring, i).prev == ring[i])
  }

  lemma {:induction false} RingCut(ring: seq<Node>, k: nat)
    requires NoDuplicates(ring) && k < |ring|
    ensures NoDuplicates(ring[..k] + ring[k + 1..])
  {
    var rest := ring[..k] + ring[k + 1..];
    forall a: nat, b: nat | a < b < |rest|
      ensures rest[a] != rest[b]
    {
      assert At(a) && At(b) && At(a + 1) && At(b + 1);
    }
  }

  ghost predicate Within(a: seq<Node>, b: seq<Node>) {
    forall i :: 0 <= i < |a| ==> a[i] in b
  }

  lemma {:induction false} CutForgets(nodes: seq<Node>, j: nat)
    requires NoDuplicates(nodes) && j < |nodes|
    ensures NoDuplicates(Cut(nodes, j)) && nodes[j] !in Cut(nodes, j)
    ensures Within(Cut(nodes, j), nodes)
  {
    CutSlices(nodes, j);
    RingCut(nodes, j);
    if i: nat :| i < |nodes| - 1 && Cut(nodes, j)[i] == nodes[j] {
      assert At(i) && At(i + 1) && At(j);
      assert false;
    }
  }

  /** Takes the element at position `k` out of the ring. */
  method Unlink(x: Node, ghost ring: seq<Node>, ghost k: nat)
    requires IsRing(ring) && 0 < k < |ring| && ring[k] == x
    modifies ring`next, ring`prev
    ensures IsRing(ring[..k] + ring[k + 1..])
  {
    ghost var rest := ring[..k] + ring[k + 1..];
    assert At(k - 1) && At(k);
    RingCut(ring, k);
    x.prev.next := x.next;
    x.next.prev := x.prev;
    forall i: nat | i < |rest|
      ensures rest[i].next == After(rest, i) && After(rest, i).prev == rest[i]
    {
      ghost var j := if i < k then i else i + 1;
      assert rest[i] == ring[j] && At(j) && At(j + 1) && (j > 0 ==> At(j - 1));
      if i == k - 1 {
        assert After(rest, i) == After(ring, k);
      } else {
        assert After(rest, i) == After(ring, j);
      }
    }
  }

  /** Links a loose element in right behind the sentinel. */
  method LinkFront(root: Node, x: Node, ghost ring: seq<Node>)
    requires IsRing(ring) && ring[0] == root && x !in ring
    modifies ring`next, ring`prev, x`next, x`prev
    ensures IsRing([root, x] + ring[1..])
  {
    ghost var grown := [root, x] + ring[1..];
    assert At(0);
    x.prev := root;
    x.next := root.next;
    x.prev.next := x;
    x.next.prev := x;
    forall i: nat | i < |grown|
      ensures grown[i].next == After(grown, i) && After(grown, i).prev == grown[i]
    {
      if i == 0 {
        assert grown[0] == root && After(grown, 0) == x;
      } else {
        assert At(i - 1) && At(i);
        assert grown[i] == (if i == 1 then x else ring[i - 1]) && After(grown, i) == After(ring, i - 1);
      }
    }
  }

  // ---------- elements as a recency list ----------

  /** The nodes hold these entries, in this order. */
  ghost predicate Shows(nodes: seq<Node>, l: seq<Entry>)
    reads nodes`val, nodes`size
  {
    && |l| == |nodes|
    && (forall i: nat {:trigger At(i)} :: At(i) && i < |nodes| ==>
          l[i] == Entry(nodes[i].key, nodes[i].val) && nodes[i].size == |nodes[i].val|)
  }

  /** `items` maps exactly the keys of `nodes` to their nodes. */
  ghost predicate Indexes(items: map<string, Node>, nodes: seq<Node>) {
    && (forall n | n in nodes :: n.key in items && items[n.key] == n)
    && (forall k | k in items :: items[k].key == k && items[k] in nodes)
  }

  /** What taking the element at position `j` out leaves. */
  lemma {:induction false} CutIsWithout(items: map<string, Node>, nodes: seq<Node>, l: seq<Entry>, j: nat)
    requires Indexes(items, nodes) && NoDuplicates(nodes) && Shows(nodes, l) && j < |nodes|
    ensures Find(l, nodes[j].key) == Some(nodes[j].val)
    ensures Without(l, nodes[j].key) == Cut(l, j)
    ensures Total(Cut(l, j)) == Total(l) - nodes[j].size
  {
    forall a, b | 0 <= a < b < |l|
      ensures l[a].key != l[b].key
    {
      assert At(a) && At(b) && nodes[a] in nodes && nodes[b] in nodes;
    }
    assert At(j);
    CutSlices(l, j);
    FindIndex(l, nodes[j].key, j);
  }

  lemma {:induction false} ShowsCut(nodes: seq<Node>, l: seq<Entry>, j: nat)
    requires Shows(nodes, l) && j < |nodes|
    ensures Shows(Cut(nodes, j), Cut(l, j)) && Shows([nodes[j]] + Cut(nodes, j), [l[j]] + Cut(l, j))
  {
    var n, m := Cut(nodes, j), Cut(l, j);
    CutSlices(nodes, j);
    CutSlices(l, j);
    forall i: nat | i < |n|
      ensures m[i] == Entry(n[i].key, n[i].val) && n[i].size == |n[i].val|
    {
      assert At(if i < j then i else i + 1);
    }
    var n', m' := [nodes[j]] + n, [l[j]] + m;
    forall i: nat | i < |n'|
      ensures m'[i] == Entry(n'[i].key, n'[i].val) && n'[i].size == |n'[i].val|
    {
      assert At(j) && (i > 0 ==> At(i - 1));
    }
  }

  lemma {:induction false} IndexesCut(items: map<string, Node>, nodes: seq<Node>, j: nat)
    requires Indexes(items, nodes) && NoDuplicates(nodes) && j < |nodes|
    ensures Indexes(items - {nodes[j].key}, Cut(nodes, j)) && NoDuplicates(Cut(nodes, j))
  {
    var rest := Cut(nodes, j);
    CutSlices(nodes, j);
    forall n | n in rest
      ensures n in nodes && n != nodes[j] && n.key != nodes[j].key
    {
      var i :| 0 <= i < |rest| && rest[i] == n;
      assert At(i) && At(i + 1) && At(j) && nodes[if i < j then i else i + 1] == n;
      assert nodes[j] in nodes;
    }
    RingCut(nodes, j);
    assert nodes == nodes[..j] + [nodes[j]] + nodes[j + 1..];
  }

  lemma {:induction false} IndexesFront(items: map<string, Node>, nodes: seq<Node>, x: Node)
    requires Indexes(items, nodes) && NoDuplicates(nodes) && x.key !in items
    ensures Indexes(items[x.key := x], [x] + nodes) && NoDuplicates([x] + nodes)
  {
    assert x !in nodes;
    forall a: nat, b: nat | a < b < |nodes| + 1
      ensures ([x] + nodes)[a] != ([x] + nodes)[b]
    {
      assert At(b - 1) && (a > 0 ==> At(a - 1));
    }
  }

  /** Moving the element at position `j` to the front keeps the index, the entries and the byte count. */
  lemma {:induction false} Moved(items: map<string, Node>, nodes: seq<Node>, l: seq<Entry>, j: nat)
    requires Indexes(items, nodes) && NoDuplicates(nodes) && Shows(nodes, l) && j < |nodes|
    ensures var moved := [nodes[j]] + Cut(nodes, j);
            Indexes(items, moved) && NoDuplicates(moved) && Within(moved, nodes)
            && Shows(moved, [l[j]] + Cut(l, j))
    ensures Total([l[j]] + Cut(l, j)) == Total(l)
  {
    IndexesCut(items, nodes, j);
    assert At(j) && nodes[j] in nodes;
    IndexesFront(items - {nodes[j].key}, Cut(nodes, j), nodes[j]);
    assert (items - {nodes[j].key})[nodes[j].key := nodes[j]] == items;
    ShowsCut(nodes, l, j);
    CutForgets(nodes, j);
    CutIsWithout(items, nodes, l, j);
    ConsTotal(l[j], Cut(l, j));
  }

  /** Taking the element at position `j` out keeps what is left indexed, shown and counted. */
  lemma {:induction false} Removed(items: map<string, Node>, nodes: seq<Node>, l: seq<Entry>, j: nat)
    requires Indexes(items, nodes) && NoDuplicates(nodes) && Shows(nodes, l) && j < |nodes|
    ensures var rest := Cut(nodes, j);
            && Indexes(items - {nodes[j].key}, rest) && NoDuplicates(rest) && Within(rest, nodes)
            && Shows(rest, Cut(l, j))
    ensures Cut(l, j) == Without(l, nodes[j].key) && Total(Cut(l, j)) == Total(l) - nodes[j].size
  {
    CutIsWithout(items, nodes, l, j);
    IndexesCut(items, nodes, j);
    ShowsCut(nodes, l, j);
    CutForgets(nodes, j);
  }

  /** A new element in front keeps everything indexed, shown and counted. */
  lemma {:induction false} Inserted(items: map<string, Node>, nodes: seq<Node>, l: seq<Entry>, x: Node)
    requires Indexes(items, nodes) && NoDuplicates(nodes) && Shows(nodes, l) && x.key !in items && x.size == |x.val|
    ensures Indexes(items[x.key := x], [x] + nodes) && NoDuplicates([x] + nodes) && x !in nodes
    ensures Shows([x] + nodes, [Entry(x.key, x.val)] + l)
    ensures Total([Entry(x.key, x.val)] + l) == x.size + Total(l) && Without(l, x.key) == l
  {
    Missing(items, nodes, l, x.key);
    IndexesFront(items, nodes, x);
    ConsTotal(Entry(x.key, x.val), l);
    ShowsFront(nodes, l, x);
  }

  lemma {:induction false} Missing(items: map<string, Node>, nodes: seq<Node>, l: seq<Entry>, k: string)
    requires Indexes(items, nodes) && Shows(nodes, l) && k !in items
    ensures Find(l, k) == None && Without(l, k) == l
  {
    forall e | e in l
      ensures e.key != k
    {
      var i :| 0 <= i < |l| && l[i] == e;
      assert At(i) && nodes[i] in nodes;
    }
    WithoutAbsent(l, k);
  }

  lemma {:induction false} ConsTotal(e: Entry, l: seq<Entry>)
    ensures Total([e] + l) == |e.val| + Total(l)
  {
    assert ([e] + l)[1..] == l;
  }

  // ---------- the cache ----------

  class LruCache {
    const cap: nat
    var used: int
    const root: Node
    var items: map<string, Node>
    /** The list's elements, front first, without the sentinel. */
    ghost var elems: seq<Node>
    /** The recency list this cache stands for. */
    ghost var contents: seq<Entry>

    ghost predicate Linked()
      reads this, root, elems
    {
      && IsRing([root] + elems) && NoDuplicates(elems) && root !in elems
      && Indexes(items, elems) && Shows(elems, contents)
      && used == Total(contents)
    }

    ghost predicate Valid()
      reads this, root, elems
    {
      Linked() && used <= cap
    }

    constructor (cap: nat)
      ensures Valid() && contents == [] && this.cap == cap
      ensures fresh(root) && fresh(elems)
    {
      var sentinel := new Node("", []);
      this.cap := cap;
      used := 0;
      root := sentinel;
      items := map[];
      elems := [];
      contents := [];
      new;
      assert [root] + elems == [root];
    }

    /** Go's list.Remove on the element at position `j`. */
    method Remove(x: Node, ghost j: nat)
      requires IsRing([root] + elems) && j < |elems| && elems[j] == x
      modifies this`elems, root`next, root`prev, elems`next, elems`prev
      ensures elems == Cut(old(elems), j) && IsRing([root] + elems)
    {
      ghost var ring := [root] + elems;
      Unlink(x, ring, j + 1);
      CutSlices(elems, j);
      elems := Cut(elems, j);
      assert [root] + elems == ring[..j + 1] + ring[j + 2..];
    }

    /** Go's list.PushFront. */
    method PushFront(x: Node)
      requires IsRing([root] + elems) && x != root && x !in elems
      modifies this`elems, root`next, root`prev, elems`next, elems`prev, x`next, x`prev
      ensures elems == [x] + old(elems) && IsRing([root] + elems)
    {
      ghost var ring := [root] + elems;
      LinkFront(root, x, ring);
      elems := [x] + elems;
      assert [root] + elems == [root, x] + ring[1..];
    }

    /** Go's list.MoveToFront: unlink and relink behind the sentinel, unless already there. */
    method MoveToFront(x: Node, ghost j: nat)
      requires IsRing([root] + elems) && NoDuplicates(elems) && j < |elems| && elems[j] == x && root !in elems
      modifies this`elems, root`next, root`prev, elems`next, elems`prev
      ensures elems == [x] + Cut(old(elems), j) && IsRing([root] + elems)
    {
      ghost var ring := [root] + elems;
      assert At(0) && At(1) && At(j + 1);
      if root.next == x {
        assert j == 0;
        assert elems == [x] + Cut(elems, j);
        return;
      }
      CutForgets(elems, j);
      assert x in elems;
      Remove(x, j);
      assert x in old(elems) && Within(elems, old(elems));
      PushFront(x);
    }

    /** Moves an element to the front, and its entry with it; everything else keeps its place. */
    method Touch(x: Node, ghost j: nat)
      requires Linked() && j < |elems| && elems[j] == x
      modifies this`elems, this`contents, root`next, root`prev, elems`next, elems`prev
      ensures Linked() && Within(elems, old(elems))
      ensures contents == [old(contents)[j]] + Cut(old(contents), j)
    {
      Moved(items, elems, contents, j);
      MoveToFront(x, j);
      contents := [contents[j]] + Cut(contents, j);
    }

    method Get(key: string) returns (r: Option<Bytes>)
      requires Valid()
      modifies this`elems, this`contents, root`next, root`prev, elems`next, elems`prev
      ensures Valid() && Within(elems, old(elems))
      ensures r == Find(old(contents), key)
      ensures contents == Apply(old(contents), RecencyList.Get(key), cap)
    {
      if key !in items {
        Missing(items, elems, contents, key);
        return None;
      }
      var el := items[key];
      ghost var j :| 0 <= j < |elems| && elems[j] == el;
      CutIsWithout(items, elems, contents, j);
      assert At(j);
      Touch(el, j);
      r := Some(el.val);
    }

    /** Removes one element from list, map and byte count. */
    method RemoveElement(el: Node, ghost j: nat)
      requires Linked() && j < |elems| && elems[j] == el
      modifies this, root`next, root`prev, elems`next, elems`prev
      ensures Linked() && elems == Cut(old(elems), j) && Within(elems, old(elems))
      ensures contents == Cut(old(contents), j) == Without(old(contents), el.key)
    {
      Removed(items, elems, contents, j);
      Remove(el, j);
      items := items - {el.key};
      used := used - el.size;
      contents := Cut(contents, j);
    }

    method Delete(key: string)
      requires Valid()
      modifies this, root, elems
      ensures Valid() && Within(elems, old(elems))
      ensures contents == Apply(old(contents), RecencyList.Delete(key), cap) == Without(old(contents), key)
      ensures Find(contents, key) == None
      ensures forall other | other != key :: Find(contents, other) == Find(old(contents), other)
    {
      WithoutFacts(contents, key);
      forall other | other != key
        ensures Find(Without(contents, key), other) == Find(contents, other)
      {
        FindWithoutOther(contents, key, other);
      }
      if key in items {
        var el := items[key];
        ghost var j :| 0 <= j < |elems| && elems[j] == el;
        RemoveElement(el, j);
      } else {
        Missing(items, elems, contents, key);
      }
    }

    /** Go's list.Back, with the sentinel standing for "no element". */
    method Back() returns (el: Node)
      requires IsRing([root] + elems)
      ensures el == if elems == [] then root else elems[|elems| - 1]
    {
      ghost var ring := [root] + elems;
      assert At(|ring| - 1) && After(ring, |ring| - 1) == root;
      el := root.prev;
    }

    /** Removes elements from the back until the rest fits. */
    method Evict()
      requires Linked()
      modifies this, root, elems
      ensures Valid() && Within(elems, old(elems))
      ensures contents == Fit(old(contents), cap)
    {
      while used > cap
        invariant Linked() && Within(elems, old(elems))
        invariant Fit(contents, cap) == Fit(old(contents), cap)
        decreases |elems|
      {
        var el := Back();
        if el == root {
          break;
        }
        CutLast(elems);
        CutLast(contents);
        RemoveElement(el, |elems| - 1);
      }
    }

    method Set(key: string, val: Bytes)
      requires Valid()
      modifies this, root, elems
      ensures Valid() && (forall n | n in elems :: n in old(elems) || fresh(n))
      ensures contents == Apply(old(contents), RecencyList.Set(key, val), cap)
    {
      var size := |val|;
      if size > cap {
        return;
      }
      if key in items {
        var el := items[key];
        ghost var j :| 0 <= j < |elems| && elems[j] == el;
        Overwrite(el, val, j);
        Evict();
        return;
      }
      var el := new Node(key, val);
      Insert(el);
      Evict();
    }

    /** The update branch of Set, before eviction. */
    method Overwrite(el: Node, val: Bytes, ghost j: nat)
      requires Linked() && j < |elems| && elems[j] == el
      modifies this, root, elems
      ensures Linked() && Within(elems, old(elems))
      ensures contents == [Entry(el.key, val)] + Without(old(contents), el.key)
    {
      CutIsWithout(items, elems, contents, j);
      CutUpdate(contents, j, Entry(el.key, val));
      Replace(el, val, j);
      Touch(el, j);
    }

    method Replace(el: Node, val: Bytes, ghost j: nat)
      requires Linked() && j < |elems| && elems[j] == el
      modifies this`used, this`contents, el`val, el`size
      ensures Linked()
      ensures contents == old(contents)[j := Entry(el.key, val)]
    {
      assert At(j);
      TotalUpdate(contents, j, Entry(el.key, val));
      used := used - el.size;
      used := used + |val|;
      el.val := val;
      el.size := |val|;
      contents := contents[j := Entry(el.key, val)];
    }

    /** The insert branch of Set, before eviction. */
    method Insert(el: Node)
      requires Linked() && el != root && el.key !in items && el.size == |el.val|
      modifies this, root, elems, el
      ensures Linked() && elems == [el] + old(elems)
      ensures contents == [Entry(el.key, old(el.val))] + Without(old(contents), el.key)
    {
      Inserted(items, elems, contents, el);
      PushFront(el);
      items := items[el.key := el];
      used := used + el.size;
      contents := [Entry(el.key, el.val)] + contents;
    }
  }

  lemma {:induction false} ShowsFront(nodes: seq<Node>, l: seq<Entry>, x: Node)
    requires Shows(nodes, l) && x.size == |x.val|
    ensures Shows([x] + nodes, [Entry(x.key, x.val)] + l)
  {
    var n, m := [x] + nodes, [Entry(x.key, x.val)] + l;
    forall i: nat | i < |n|
      ensures m[i] == Entry(n[i].key, n[i].val) && n[i].size == |n[i].val|
    {
      assert i > 0 ==> At(i - 1);
    }
  }

  lemma {:induction false} CutLast<T>(s: seq<T>)
    ensures s != [] ==> Cut(s, |s| - 1) == s[..|s| - 1]
  {
    if s != [] {
      CutSlices(s, |s| - 1);
    }
  }

  lemma {:induction false} CutUpdate<T>(s: seq<T>, j: nat, e: T)
    requires j < |s|
    ensures Cut(s[j := e], j) == Cut(s, j)
  {
    CutSlices(s, j);
    CutSlices(s[j := e], j);
  }

  lemma {:induction false} TotalUpdate(l: seq<Entry>, j: nat, e: Entry)
    requires j < |l|
    ensures Total(l[j := e]) == Total(l) - |l[j].val| + |e.val|
  {
    assert l == l[..j] + ([l[j]] + l[j + 1..]);
    assert l[j := e] == l[..j] + ([e] + l[j + 1..]);
    TotalAppend(l[..j], [l[j]] + l[j + 1..]);
    TotalAppend(l[..j], [e] + l[j + 1..]);
    ConsTotal(l[j], l[j + 1..]);
    ConsTotal(e, l[j + 1..]);
  }
}
