/**
 The AVL tree as a value: the tree shapes that insertion, removal and the four rotations produce, with
 the heights the nodes store, and the proof that they act like insertion into and removal from a
 sorted list while keeping the tree balanced.
 */
module AvlModel {
  import opened Basics

  /** A caller-owned node. The key stands for whatever record the node is embedded in. */
  class Node<K> {
    const key: K
    var lchild: Node?<K>
    var rchild: Node?<K>
    var height: int

    constructor (key: K)
      ensures this.key == key
    {
      this.key := key;
      lchild, rchild, height := null, null, 0;
    }
  }

  /** The tree under a node, with every stored height. */
  datatype Tree<K> = Leaf | Fork(left: Tree<K>, node: Node<K>, right: Tree<K>, height: int)

  type Order<!K> = (K, K) -> int

  /** `compare` is a total order on keys, up to keys that compare equal. */
  ghost predicate TotalOrder<K(!new)>(cmp: Order<K>) {
    && (forall a, b :: cmp(a, b) < 0 <==> cmp(b, a) > 0)
    && (forall a :: cmp(a, a) == 0)
    && (forall a, b, c :: cmp(a, b) < 0 && cmp(b, c) < 0 ==> cmp(a, c) < 0)
    && (forall a, b, c :: cmp(a, b) == 0 && cmp(b, c) < 0 ==> cmp(a, c) < 0)
    && (forall a, b, c :: cmp(a, b) < 0 && cmp(b, c) == 0 ==> cmp(a, c) < 0)
  }

  // ---- The operations on trees ----

  function H<K>(t: Tree<K>): int {
    if t.Leaf? then -1 else t.height
  }

  function Max(a: int, b: int): int {
    if a > b then a else b
  }

  /** A node with its height computed from its children. */
  ghost function Mk<K>(l: Tree<K>, n: Node<K>, r: Tree<K>): Tree<K> {
    Fork(l, n, r, Max(H(l), H(r)) + 1)
  }

  ghost function SingleLeft<K>(t: Tree<K>): Tree<K>
    requires t.Fork? && t.left.Fork?
  {
    Mk(t.left.left, t.left.node, Mk(t.left.right, t.node, t.right))
  }

  ghost function SingleRight<K>(t: Tree<K>): Tree<K>
    requires t.Fork? && t.right.Fork?
  {
    Mk(Mk(t.left, t.node, t.right.left), t.right.node, t.right.right)
  }

  ghost function DoubleLeft<K>(t: Tree<K>): Tree<K>
    requires t.Fork? && t.left.Fork? && t.left.right.Fork?
  {
    var x := t.left.right;
    Mk(Mk(t.left.left, t.left.node, x.left), x.node, Mk(x.right, t.node, t.right))
  }

  ghost function DoubleRight<K>(t: Tree<K>): Tree<K>
    requires t.Fork? && t.right.Fork? && t.right.left.Fork?
  {
    var x := t.right.left;
    Mk(Mk(t.left, t.node, x.left), x.node, Mk(x.right, t.right.node, t.right.right))
  }

  /** After insertion into the left child: rotate by where the new node went. */
  ghost function FixLeft<K>(cmp: Order<K>, t: Tree<K>, n: Node<K>): Tree<K>
    requires t.Fork?
  {
    if H(t.left) - H(t.right) != 2 || t.left.Leaf? then Mk(t.left, t.node, t.right)
    else
      var c := cmp(n.key, t.left.node.key);
      if c < 0 then SingleLeft(t) else if c > 0 && t.left.right.Fork? then DoubleLeft(t) else t
  }

  ghost function FixRight<K>(cmp: Order<K>, t: Tree<K>, n: Node<K>): Tree<K>
    requires t.Fork?
  {
    if H(t.right) - H(t.left) != 2 || t.right.Leaf? then Mk(t.left, t.node, t.right)
    else
      var c := cmp(n.key, t.right.node.key);
      if c < 0 && t.right.left.Fork? then DoubleRight(t) else if c > 0 then SingleRight(t) else t
  }

  ghost function Insert<K>(cmp: Order<K>, t: Tree<K>, n: Node<K>): Tree<K> {
    if t.Leaf? then Fork(Leaf, n, Leaf, 0)
    else if cmp(n.key, t.node.key) < 0 then FixLeft(cmp, t.(left := Insert(cmp, t.left, n)), n)
    else if cmp(n.key, t.node.key) > 0 then FixRight(cmp, t.(right := Insert(cmp, t.right, n)), n)
    else t
  }

  /** The rebalancing at the end of removal: the taller grandchild decides the rotation. */
  ghost function Rotate<K>(t: Tree<K>): Tree<K>
    requires t.Fork?
  {
    if H(t.left) - H(t.right) == 2 && t.left.Fork? then
      if H(t.left.left) - H(t.right) == 1 then SingleLeft(t)
      else if H(t.left.right) - H(t.right) == 1 && t.left.right.Fork? then DoubleLeft(t) else t
    else if H(t.right) - H(t.left) == 2 && t.right.Fork? then
      if H(t.right.right) - H(t.left) == 1 then SingleRight(t)
      else if H(t.right.left) - H(t.left) == 1 && t.right.left.Fork? then DoubleRight(t) else t
    else t
  }

  ghost function Rebalance<K>(t: Tree<K>): Tree<K>
    requires t.Fork?
  {
    var u := Rotate(t);
    Mk(u.left, u.node, u.right)
  }

  ghost function Min<K>(t: Tree<K>): Node<K>
    requires t.Fork?
  {
    if t.left.Leaf? then t.node else Min(t.left)
  }

  /** The tree without the node that compares equal to the key, and that node. */
  ghost function Remove<K>(cmp: Order<K>, t: Tree<K>, k: K): (Tree<K>, Option<Node<K>>) {
    if t.Leaf? then (Leaf, None)
    else if cmp(k, t.node.key) == 0 then
      if t.left.Fork? && t.right.Fork? then
        var m := Min(t.right);
        (Rebalance(Fork(t.left, m, Remove(cmp, t.right, m.key).0, t.height)), Some(t.node))
      else (if t.left.Fork? then t.left else t.right, Some(t.node))
    else if cmp(k, t.node.key) < 0 then
      var (l, rm) := Remove(cmp, t.left, k); (Rebalance(t.(left := l)), rm)
    else
      var (r, rm) := Remove(cmp, t.right, k); (Rebalance(t.(right := r)), rm)
  }

  // ---- Sorted lists: the simple form ----

  ghost function Inorder<K>(t: Tree<K>): seq<Node<K>> {
    if t.Leaf? then [] else Inorder(t.left) + [t.node] + Inorder(t.right)
  }

  ghost predicate Sorted<K>(cmp: Order<K>, s: seq<Node<K>>) {
    forall i, j :: 0 <= i < j < |s| ==> cmp(s[i].key, s[j].key) < 0
  }

  ghost function ListInsert<K>(cmp: Order<K>, s: seq<Node<K>>, n: Node<K>): seq<Node<K>> {
    if s == [] then [n]
    else if cmp(n.key, s[0].key) < 0 then [n] + s
    else if cmp(n.key, s[0].key) == 0 then s
    else [s[0]] + ListInsert(cmp, s[1..], n)
  }

  ghost function ListRemove<K>(cmp: Order<K>, s: seq<Node<K>>, k: K): seq<Node<K>> {
    if s == [] then [] else if cmp(k, s[0].key) == 0 then s[1..] else [s[0]] + ListRemove(cmp, s[1..], k)
  }

  ghost function ListFind<K>(cmp: Order<K>, s: seq<Node<K>>, k: K): Option<Node<K>> {
    if s == [] then None else if cmp(k, s[0].key) == 0 then Some(s[0]) else ListFind(cmp, s[1..], k)
  }

  /** No node of the list compares equal to the key. */
  ghost predicate Absent<K>(cmp: Order<K>, s: seq<Node<K>>, k: K) {
    forall i :: 0 <= i < |s| ==> cmp(k, s[i].key) != 0
  }

  ghost predicate AllBelow<K>(cmp: Order<K>, s: seq<Node<K>>, k: K) {
    forall i :: 0 <= i < |s| ==> cmp(k, s[i].key) > 0
  }

  ghost predicate AllAbove<K>(cmp: Order<K>, s: seq<Node<K>>, k: K) {
    forall i :: 0 <= i < |s| ==> cmp(k, s[i].key) < 0
  }

  /** Around a middle node the list splits into a smaller and a larger half. */
  lemma {:induction false} SortedSplit<K(!new)>(cmp: Order<K>, l: seq<Node<K>>, x: Node<K>, r: seq<Node<K>>)
    requires TotalOrder(cmp) && Sorted(cmp, l + [x] + r)
    ensures Sorted(cmp, l) && Sorted(cmp, r) && AllBelow(cmp, l, x.key) && AllAbove(cmp, r, x.key)
  {
    SortedParts(cmp, l, x, r);
    forall i | 0 <= i < |l| ensures cmp(x.key, l[i].key) > 0 {
      assert cmp(l[i].key, x.key) < 0;
    }
  }

  lemma {:induction false} SortedParts<K(!new)>(cmp: Order<K>, l: seq<Node<K>>, x: Node<K>, r: seq<Node<K>>)
    requires Sorted(cmp, l + [x] + r)
    ensures Sorted(cmp, l) && Sorted(cmp, r) && AllAbove(cmp, r, x.key)
    ensures forall i :: 0 <= i < |l| ==> cmp(l[i].key, x.key) < 0
  {
    var s, n := l + [x] + r, |l|;
    forall i, j | 0 <= i < j < |l| ensures cmp(l[i].key, l[j].key) < 0 {
      assert s[i] == l[i] && s[j] == l[j];
    }
    forall i, j | 0 <= i < j < |r| ensures cmp(r[i].key, r[j].key) < 0 {
      assert s[n + 1 + i] == r[i] && s[n + 1 + j] == r[j];
    }
    forall i | 0 <= i < |l| ensures cmp(l[i].key, x.key) < 0 {
      assert s[i] == l[i] && s[n] == x;
    }
    forall i | 0 <= i < |r| ensures cmp(x.key, r[i].key) < 0 {
      assert s[n] == x && s[n + 1 + i] == r[i];
    }
  }

  lemma {:induction false} BelowTrans<K(!new)>(cmp: Order<K>, s: seq<Node<K>>, a: K, b: K)
    requires TotalOrder(cmp) && AllBelow(cmp, s, a) && cmp(b, a) >= 0
    ensures AllBelow(cmp, s, b)
  {
    forall i | 0 <= i < |s| ensures cmp(b, s[i].key) > 0 {
      assert cmp(s[i].key, a) < 0;
      assert cmp(a, b) <= 0;
    }
  }

  lemma {:induction false} AboveTrans<K(!new)>(cmp: Order<K>, s: seq<Node<K>>, a: K, b: K)
    requires TotalOrder(cmp) && AllAbove(cmp, s, a) && cmp(b, a) <= 0
    ensures AllAbove(cmp, s, b)
  {
    forall i | 0 <= i < |s| ensures cmp(b, s[i].key) < 0 {
      assert cmp(a, s[i].key) < 0;
    }
  }

  /** Insertion and removal pass over a smaller prefix. */
  lemma {:induction false} ListSkip<K>(cmp: Order<K>, l: seq<Node<K>>, s: seq<Node<K>>, n: Node<K>, k: K)
    requires AllBelow(cmp, l, k)
    ensures n.key == k ==> ListInsert(cmp, l + s, n) == l + ListInsert(cmp, s, n)
    ensures ListRemove(cmp, l + s, k) == l + ListRemove(cmp, s, k)
    ensures ListFind(cmp, l + s, k) == ListFind(cmp, s, k)
  {
    if l == [] {
      assert l + s == s;
    } else {
      assert (l + s)[1..] == l[1..] + s;
      ListSkip(cmp, l[1..], s, n, k);
    }
  }

  /** They do not reach past a larger element. */
  lemma {:induction false} ListStop<K>(cmp: Order<K>, l: seq<Node<K>>, s: seq<Node<K>>, n: Node<K>, k: K)
    requires AllAbove(cmp, s, k)
    ensures n.key == k && s != [] ==> ListInsert(cmp, l + s, n) == ListInsert(cmp, l, n) + s
    ensures ListRemove(cmp, l + s, k) == ListRemove(cmp, l, k) + s
    ensures ListFind(cmp, l + s, k) == ListFind(cmp, l, k)
  {
    ListStopRest(cmp, l, s, n, k);
    if n.key == k && s != [] { ListStopInsert(cmp, l, s, n); }
  }

  lemma {:induction false} ListStopInsert<K>(cmp: Order<K>, l: seq<Node<K>>, s: seq<Node<K>>, n: Node<K>)
    requires AllAbove(cmp, s, n.key) && s != []
    ensures ListInsert(cmp, l + s, n) == ListInsert(cmp, l, n) + s
    decreases |l|
  {
    if l == [] {
      assert l + s == s;
      ListAbove(cmp, s, n, n.key);
    } else {
      assert (l + s)[1..] == l[1..] + s;
      ListStopInsert(cmp, l[1..], s, n);
      assert [n] + (l + s) == ([n] + l) + s;
    }
  }

  lemma {:induction false} ListStopRest<K>(cmp: Order<K>, l: seq<Node<K>>, s: seq<Node<K>>, n: Node<K>, k: K)
    requires AllAbove(cmp, s, k)
    ensures ListRemove(cmp, l + s, k) == ListRemove(cmp, l, k) + s
    ensures ListFind(cmp, l + s, k) == ListFind(cmp, l, k)
    decreases |l|
  {
    if l == [] {
      assert l + s == s;
      ListAbove(cmp, s, n, k);
    } else {
      assert (l + s)[1..] == l[1..] + s;
      ListStopRest(cmp, l[1..], s, n, k);
    }
  }

  lemma {:induction false} ListAbove<K>(cmp: Order<K>, s: seq<Node<K>>, n: Node<K>, k: K)
    requires AllAbove(cmp, s, k)
    ensures n.key == k && s != [] ==> ListInsert(cmp, s, n) == [n] + s
    ensures ListRemove(cmp, s, k) == s && ListFind(cmp, s, k) == None
  {
    if s != [] { ListAbove(cmp, s[1..], n, k); }
  }

  /** In a sorted list around x, everything to the right is above a key below x, and the other way round. */
  lemma {:induction false} Sides<K(!new)>(cmp: Order<K>, l: seq<Node<K>>, x: Node<K>, r: seq<Node<K>>, k: K)
    requires TotalOrder(cmp) && Sorted(cmp, l + [x] + r)
    ensures cmp(k, x.key) < 0 ==> AllAbove(cmp, [x] + r, k)
    ensures cmp(k, x.key) >= 0 ==> AllBelow(cmp, l, k)
  {
    SortedSplit(cmp, l, x, r);
    if cmp(k, x.key) < 0 {
      AboveTrans(cmp, r, x.key, k);
    } else {
      BelowTrans(cmp, l, x.key, k);
    }
  }

  lemma {:induction false} ListInsertAt<K(!new)>(cmp: Order<K>, l: seq<Node<K>>, x: Node<K>, r: seq<Node<K>>,
      n: Node<K>)
    requires TotalOrder(cmp) && Sorted(cmp, l + [x] + r)
    ensures cmp(n.key, x.key) < 0 ==> ListInsert(cmp, l + [x] + r, n) == ListInsert(cmp, l, n) + [x] + r
    ensures cmp(n.key, x.key) > 0 ==> ListInsert(cmp, l + [x] + r, n) == l + [x] + ListInsert(cmp, r, n)
    ensures cmp(n.key, x.key) == 0 ==> ListInsert(cmp, l + [x] + r, n) == l + [x] + r
  {
    Sides(cmp, l, x, r, n.key);
    if cmp(n.key, x.key) < 0 { ListInsertLeft(cmp, l, x, r, n); } else { ListInsertRight(cmp, l, x, r, n); }
  }

  lemma {:induction false} ListInsertLeft<K>(cmp: Order<K>, l: seq<Node<K>>, x: Node<K>, r: seq<Node<K>>, n: Node<K>)
    requires AllAbove(cmp, [x] + r, n.key)
    ensures ListInsert(cmp, l + [x] + r, n) == ListInsert(cmp, l, n) + [x] + r
  {
    var xr := [x] + r;
    assert l + [x] + r == l + xr;
    ListStopInsert(cmp, l, xr, n);
    assert ListInsert(cmp, l, n) + xr == ListInsert(cmp, l, n) + [x] + r;
  }

  lemma {:induction false} ListInsertRight<K>(cmp: Order<K>, l: seq<Node<K>>, x: Node<K>, r: seq<Node<K>>, n: Node<K>)
    requires AllBelow(cmp, l, n.key) && cmp(n.key, x.key) >= 0
    ensures ListInsert(cmp, l + [x] + r, n) == if cmp(n.key, x.key) > 0 then l + [x] + ListInsert(cmp, r, n)
      else l + [x] + r
  {
    var xr := [x] + r;
    assert l + [x] + r == l + xr && xr[1..] == r;
    ListSkip(cmp, l, xr, n, n.key);
    assert l + ([x] + ListInsert(cmp, r, n)) == l + [x] + ListInsert(cmp, r, n);
  }

  lemma {:induction false} ListRemoveAt<K(!new)>(cmp: Order<K>, l: seq<Node<K>>, x: Node<K>, r: seq<Node<K>>, k: K)
    requires TotalOrder(cmp) && Sorted(cmp, l + [x] + r)
    ensures cmp(k, x.key) < 0 ==> ListRemove(cmp, l + [x] + r, k) == ListRemove(cmp, l, k) + [x] + r
    ensures cmp(k, x.key) > 0 ==> ListRemove(cmp, l + [x] + r, k) == l + [x] + ListRemove(cmp, r, k)
    ensures cmp(k, x.key) == 0 ==> ListRemove(cmp, l + [x] + r, k) == l + r
  {
    var xr := [x] + r;
    assert l + [x] + r == l + xr && xr[1..] == r;
    if cmp(k, x.key) < 0 {
      assert ListRemove(cmp, l + xr, k) == ListRemove(cmp, l, k) + xr by {
        Sides(cmp, l, x, r, k);
        ListStop(cmp, l, xr, x, k);
      }
      assert ListRemove(cmp, l, k) + xr == ListRemove(cmp, l, k) + [x] + r;
    } else {
      assert ListRemove(cmp, l + xr, k) == l + ListRemove(cmp, xr, k) by {
        Sides(cmp, l, x, r, k);
        ListSkip(cmp, l, xr, x, k);
      }
      assert l + ([x] + ListRemove(cmp, r, k)) == l + [x] + ListRemove(cmp, r, k);
    }
  }

  lemma {:induction false} ListFindAt<K(!new)>(cmp: Order<K>, l: seq<Node<K>>, x: Node<K>, r: seq<Node<K>>, k: K)
    requires TotalOrder(cmp) && Sorted(cmp, l + [x] + r)
    ensures cmp(k, x.key) < 0 ==> ListFind(cmp, l + [x] + r, k) == ListFind(cmp, l, k)
    ensures cmp(k, x.key) > 0 ==> ListFind(cmp, l + [x] + r, k) == ListFind(cmp, r, k)
    ensures cmp(k, x.key) == 0 ==> ListFind(cmp, l + [x] + r, k) == Some(x)
  {
    Sides(cmp, l, x, r, k);
    var xr := [x] + r;
    assert l + [x] + r == l + xr && xr[1..] == r;
    if cmp(k, x.key) < 0 {
      ListStop(cmp, l, xr, x, k);
    } else {
      ListSkip(cmp, l, xr, x, k);
    }
  }

  // ---- Balance ----

  /** Stored heights are exact and every node is balanced within one. */
  ghost predicate Balanced<K>(t: Tree<K>) {
    t.Fork? ==>
      && Balanced(t.left) && Balanced(t.right)
      && t.height == Max(H(t.left), H(t.right)) + 1
      && -1 <= H(t.left) - H(t.right) <= 1
  }

  lemma {:induction false} HeightRange<K>(t: Tree<K>)
    requires Balanced(t)
    ensures H(t) >= -1 && (H(t) == -1 <==> t.Leaf?)
  {
    if t.Fork? {
      HeightRange(t.left);
      HeightRange(t.right);
    }
  }

  lemma {:induction false} SingleInorder<K>(t: Tree<K>)
    requires t.Fork?
    ensures t.left.Fork? ==> Inorder(SingleLeft(t)) == Inorder(t)
    ensures t.right.Fork? ==> Inorder(SingleRight(t)) == Inorder(t)
  {
  }

  lemma {:induction false} DoubleLeftInorder<K>(t: Tree<K>)
    requires t.Fork? && t.left.Fork? && t.left.right.Fork?
    ensures Inorder(DoubleLeft(t)) == Inorder(t)
  {
    var l, x := t.left, t.left.right;
    var a, b, c, d := Inorder(l.left), Inorder(x.left), Inorder(x.right), Inorder(t.right);
    assert Inorder(l) == a + [l.node] + (b + [x.node] + c);
    assert Inorder(DoubleLeft(t)) == (a + [l.node] + b) + [x.node] + (c + [t.node] + d);
  }

  lemma {:induction false} DoubleRightInorder<K>(t: Tree<K>)
    requires t.Fork? && t.right.Fork? && t.right.left.Fork?
    ensures Inorder(DoubleRight(t)) == Inorder(t)
  {
    var r, x := t.right, t.right.left;
    var a, b, c, d := Inorder(t.left), Inorder(x.left), Inorder(x.right), Inorder(r.right);
    assert Inorder(r) == (b + [x.node] + c) + [r.node] + d;
    assert Inorder(DoubleRight(t)) == (a + [t.node] + b) + [x.node] + (c + [r.node] + d);
  }

  /** No rotation changes the order of the nodes. */
  lemma {:induction false} FixInorder<K>(cmp: Order<K>, t: Tree<K>, n: Node<K>)
    requires t.Fork?
    ensures Inorder(FixLeft(cmp, t, n)) == Inorder(t)
    ensures Inorder(FixRight(cmp, t, n)) == Inorder(t)
  {
    SingleInorder(t);
    if t.left.Fork? && t.left.right.Fork? {
      DoubleLeftInorder(t);
    }
    if t.right.Fork? && t.right.left.Fork? {
      DoubleRightInorder(t);
    }
  }

  lemma {:induction false} RebalanceInorder<K>(t: Tree<K>)
    requires t.Fork?
    ensures Inorder(Rebalance(t)) == Inorder(t)
  {
    SingleInorder(t);
    if t.left.Fork? && t.left.right.Fork? {
      DoubleLeftInorder(t);
    }
    if t.right.Fork? && t.right.left.Fork? {
      DoubleRightInorder(t);
    }
    var u := Rotate(t);
    assert Inorder(Mk(u.left, u.node, u.right)) == Inorder(u);
  }

  /** What insertion does to the height of a subtree, and on which side it grew. */
  ghost predicate Grown<K>(cmp: Order<K>, t: Tree<K>, t': Tree<K>, n: Node<K>) {
    && Balanced(t')
    && t'.Fork?
    && H(t) <= H(t') <= H(t) + 1
    && (H(t') == H(t) + 1 && t.Fork? ==>
          && t'.node == t.node
          && (cmp(n.key, t.node.key) < 0 ==> H(t'.left) == H(t'.right) + 1)
          && (cmp(n.key, t.node.key) > 0 ==> H(t'.right) == H(t'.left) + 1)
          && cmp(n.key, t.node.key) != 0)
    && (H(t') == H(t) + 1 && t.Leaf? ==> t' == Fork(Leaf, n, Leaf, 0))
  }

  /** Insertion keeps the tree balanced with exact heights. */
  lemma {:induction false} InsertBalanced<K>(cmp: Order<K>, t: Tree<K>, n: Node<K>)
    requires Balanced(t)
    ensures Grown(cmp, t, Insert(cmp, t, n), n)
  {
    HeightRange(t);
    if t.Fork? {
      HeightRange(t.left);
      HeightRange(t.right);
      if cmp(n.key, t.node.key) < 0 {
        InsertBalanced(cmp, t.left, n);
        FixLeftBalanced(cmp, t, Insert(cmp, t.left, n), n);
      } else if cmp(n.key, t.node.key) > 0 {
        InsertBalanced(cmp, t.right, n);
        FixRightBalanced(cmp, t, Insert(cmp, t.right, n), n);
      }
    }
  }

  lemma {:induction false} FixLeftBalanced<K>(cmp: Order<K>, t: Tree<K>, l: Tree<K>, n: Node<K>)
    requires Balanced(t) && t.Fork? && cmp(n.key, t.node.key) < 0 && Grown(cmp, t.left, l, n)
    ensures Grown(cmp, t, FixLeft(cmp, t.(left := l), n), n)
    ensures H(l) - H(t.right) == 2 ==>
      l.Fork? && cmp(n.key, l.node.key) != 0
      && (cmp(n.key, l.node.key) > 0 ==> l.right.Fork?)
  {
    HeightRange(t.right);
    HeightRange(t.left);
    HeightRange(l);
    if H(l) - H(t.right) == 2 {
      HeightRange(l.left);
      HeightRange(l.right);
      if cmp(n.key, l.node.key) > 0 {
        HeightRange(l.right.left);
        HeightRange(l.right.right);
      }
    }
  }

  lemma {:induction false} FixRightBalanced<K>(cmp: Order<K>, t: Tree<K>, r: Tree<K>, n: Node<K>)
    requires Balanced(t) && t.Fork? && cmp(n.key, t.node.key) > 0 && Grown(cmp, t.right, r, n)
    ensures Grown(cmp, t, FixRight(cmp, t.(right := r), n), n)
    ensures H(r) - H(t.left) == 2 ==>
      r.Fork? && cmp(n.key, r.node.key) != 0
      && (cmp(n.key, r.node.key) < 0 ==> r.left.Fork?)
  {
    HeightRange(t.right);
    HeightRange(t.left);
    HeightRange(r);
    if H(r) - H(t.left) == 2 {
      HeightRange(r.left);
      HeightRange(r.right);
      if cmp(n.key, r.node.key) < 0 {
        HeightRange(r.left.left);
        HeightRange(r.left.right);
      }
    }
  }

  /** Insertion into the tree is insertion into its sorted list; a node with an equal key leaves the tree unchanged. */
  lemma {:induction false} InsertInorder<K(!new)>(cmp: Order<K>, t: Tree<K>, n: Node<K>)
    requires TotalOrder(cmp) && Sorted(cmp, Inorder(t))
    ensures Inorder(Insert(cmp, t, n)) == ListInsert(cmp, Inorder(t), n)
  {
    if t.Fork? {
      var l, r := Inorder(t.left), Inorder(t.right);
      SortedSplit(cmp, l, t.node, r);
      ListInsertAt(cmp, l, t.node, r, n);
      if cmp(n.key, t.node.key) < 0 {
        InsertInorder(cmp, t.left, n);
        FixInorder(cmp, t.(left := Insert(cmp, t.left, n)), n);
      } else if cmp(n.key, t.node.key) > 0 {
        InsertInorder(cmp, t.right, n);
        FixInorder(cmp, t.(right := Insert(cmp, t.right, n)), n);
      }
    }
  }

  // ---- Removal ----

  /** Removal shrinks a subtree by at most one level. */
  ghost predicate Shrunk<K>(t: Tree<K>, t': Tree<K>) {
    Balanced(t') && H(t) - 1 <= H(t') <= H(t)
  }

  /** A left child two levels too tall: one of the rotations applies and restores the balance. */
  lemma {:induction false} RebalanceLeft<K>(l: Tree<K>, n: Node<K>, r: Tree<K>, h: int)
    requires Balanced(l) && Balanced(r) && H(l) - H(r) == 2
    ensures l.Fork? && (H(l.left) - H(r) == 1 || (H(l.right) - H(r) == 1 && l.right.Fork?))
    ensures var t := Rebalance(Fork(l, n, r, h)); Balanced(t) && H(l) <= H(t) <= H(l) + 1
  {
    HeightRange(l);
    HeightRange(r);
    HeightRange(l.left);
    HeightRange(l.right);
    if l.right.Fork? {
      HeightRange(l.right.left);
      HeightRange(l.right.right);
    }
  }

  lemma {:induction false} RebalanceRight<K>(l: Tree<K>, n: Node<K>, r: Tree<K>, h: int)
    requires Balanced(l) && Balanced(r) && H(r) - H(l) == 2
    ensures r.Fork? && (H(r.right) - H(l) == 1 || (H(r.left) - H(l) == 1 && r.left.Fork?))
    ensures var t := Rebalance(Fork(l, n, r, h)); Balanced(t) && H(r) <= H(t) <= H(r) + 1
  {
    HeightRange(l);
    HeightRange(r);
    HeightRange(r.left);
    HeightRange(r.right);
    if r.left.Fork? {
      HeightRange(r.left.left);
      HeightRange(r.left.right);
    }
  }

  /** Rebalancing a node one of whose children lost at most one level. */
  lemma {:induction false} RebalanceGood<K>(l: Tree<K>, n: Node<K>, r: Tree<K>, h: int)
    requires Balanced(l) && Balanced(r) && -2 <= H(l) - H(r) <= 2
    ensures Balanced(Rebalance(Fork(l, n, r, h)))
    ensures Max(H(l), H(r)) <= H(Rebalance(Fork(l, n, r, h))) <= Max(H(l), H(r)) + 1
    ensures -1 <= H(l) - H(r) <= 1 ==> Rebalance(Fork(l, n, r, h)) == Mk(l, n, r)
  {
    if H(l) - H(r) == 2 {
      RebalanceLeft(l, n, r, h);
    } else if H(r) - H(l) == 2 {
      RebalanceRight(l, n, r, h);
    }
  }

  /** Removal keeps the tree balanced with exact heights, the two-child splice included. */
  lemma {:induction false} RemoveBalanced<K>(cmp: Order<K>, t: Tree<K>, k: K)
    requires Balanced(t)
    ensures Shrunk(t, Remove(cmp, t, k).0)
  {
    if t.Fork? {
      HeightRange(t.left);
      HeightRange(t.right);
      if cmp(k, t.node.key) == 0 {
        if t.left.Fork? && t.right.Fork? {
          var m := Min(t.right);
          RemoveBalanced(cmp, t.right, m.key);
          RebalanceGood(t.left, m, Remove(cmp, t.right, m.key).0, t.height);
        }
      } else if cmp(k, t.node.key) < 0 {
        RemoveBalanced(cmp, t.left, k);
        RebalanceGood(Remove(cmp, t.left, k).0, t.node, t.right, t.height);
      } else {
        RemoveBalanced(cmp, t.right, k);
        RebalanceGood(t.left, t.node, Remove(cmp, t.right, k).0, t.height);
      }
    }
  }

  lemma {:induction false} MinFirst<K>(t: Tree<K>)
    requires t.Fork?
    ensures Inorder(t) != [] && Inorder(t)[0] == Min(t)
  {
    if t.left.Fork? { MinFirst(t.left); }
  }

  /** Removal from the tree is removal from its sorted list, and the reported node is the one found there. */
  lemma {:induction false} RemoveInorder<K(!new)>(cmp: Order<K>, t: Tree<K>, k: K)
    requires TotalOrder(cmp) && Sorted(cmp, Inorder(t))
    ensures Inorder(Remove(cmp, t, k).0) == ListRemove(cmp, Inorder(t), k)
    ensures Remove(cmp, t, k).1 == ListFind(cmp, Inorder(t), k)
    decreases t, 1
  {
    if t.Fork? {
      var l, r := Inorder(t.left), Inorder(t.right);
      SortedSplit(cmp, l, t.node, r);
      ListRemoveAt(cmp, l, t.node, r, k);
      ListFindAt(cmp, l, t.node, r, k);
      if cmp(k, t.node.key) == 0 {
        SpliceInorder(cmp, t, k);
      } else if cmp(k, t.node.key) < 0 {
        RemoveInorder(cmp, t.left, k);
        RebalanceInorder(t.(left := Remove(cmp, t.left, k).0));
      } else {
        RemoveInorder(cmp, t.right, k);
        RebalanceInorder(t.(right := Remove(cmp, t.right, k).0));
      }
    }
  }

  /** Removing the least node drops the head of the list. */
  lemma {:induction false} RemoveMin<K(!new)>(cmp: Order<K>, t: Tree<K>)
    requires TotalOrder(cmp) && t.Fork? && Sorted(cmp, Inorder(t))
    ensures Inorder(t) == [Min(t)] + Inorder(Remove(cmp, t, Min(t).key).0)
    decreases t, 2
  {
    MinFirst(t);
    RemoveInorder(cmp, t, Min(t).key);
    assert cmp(Min(t).key, Min(t).key) == 0;
  }

  /** The removed node's place is taken by the least node of its right subtree, or by its only child. */
  lemma {:induction false} SpliceInorder<K(!new)>(cmp: Order<K>, t: Tree<K>, k: K)
    requires TotalOrder(cmp) && t.Fork? && Sorted(cmp, Inorder(t.right)) && cmp(k, t.node.key) == 0
    ensures Inorder(Remove(cmp, t, k).0) == Inorder(t.left) + Inorder(t.right)
    decreases t, 0
  {
    var l, r := Inorder(t.left), Inorder(t.right);
    if t.left.Fork? && t.right.Fork? {
      var m := Min(t.right);
      var r' := Remove(cmp, t.right, m.key).0;
      RemoveMin(cmp, t.right);
      RebalanceInorder(Fork(t.left, m, r', t.height));
      assert l + [m] + Inorder(r') == l + ([m] + Inorder(r'));
    } else {
      assert l + [] == l && [] + r == r;
    }
  }

  // ---- What the list operations mean ----

  lemma {:induction false} SortedHead<K(!new)>(cmp: Order<K>, s: seq<Node<K>>)
    requires TotalOrder(cmp) && Sorted(cmp, s) && s != []
    ensures Sorted(cmp, s[1..]) && AllAbove(cmp, s[1..], s[0].key)
  {
  }

  lemma {:induction false} SortedCons<K(!new)>(cmp: Order<K>, x: Node<K>, s: seq<Node<K>>)
    requires Sorted(cmp, s) && AllAbove(cmp, s, x.key)
    ensures Sorted(cmp, [x] + s)
  {
  }

  /** Insertion keeps the list sorted. */
  lemma {:induction false} ListInsertSorted<K(!new)>(cmp: Order<K>, s: seq<Node<K>>, n: Node<K>)
    requires TotalOrder(cmp) && Sorted(cmp, s)
    ensures Sorted(cmp, ListInsert(cmp, s, n))
  {
    if s != [] {
      SortedHead(cmp, s);
      if cmp(n.key, s[0].key) < 0 {
        AboveTrans(cmp, s[1..], s[0].key, n.key);
        SortedCons(cmp, n, s);
      } else if cmp(n.key, s[0].key) > 0 {
        ListInsertSorted(cmp, s[1..], n);
        ListInsertAbove(cmp, s[1..], n, s[0].key);
        SortedCons(cmp, s[0], ListInsert(cmp, s[1..], n));
      }
    }
  }

  /** Insertion adds exactly the given node, unless an equal key is there. */
  lemma {:induction false} ListInsertContents<K(!new)>(cmp: Order<K>, s: seq<Node<K>>, n: Node<K>)
    requires TotalOrder(cmp) && Sorted(cmp, s)
    ensures !Absent(cmp, s, n.key) ==> ListInsert(cmp, s, n) == s
    ensures Absent(cmp, s, n.key) ==> multiset(ListInsert(cmp, s, n)) == multiset(s) + multiset{n}
  {
    if Absent(cmp, s, n.key) { ListInsertNew(cmp, s, n); } else { ListInsertOld(cmp, s, n); }
  }

  lemma {:induction false} ListInsertNew<K(!new)>(cmp: Order<K>, s: seq<Node<K>>, n: Node<K>)
    requires Absent(cmp, s, n.key)
    ensures multiset(ListInsert(cmp, s, n)) == multiset(s) + multiset{n}
    decreases |s|
  {
    if s != [] {
      assert s == [s[0]] + s[1..];
      if cmp(n.key, s[0].key) > 0 {
        AbsentCons(cmp, s[0], s[1..], n.key);
        ListInsertNew(cmp, s[1..], n);
      }
    }
  }

  lemma {:induction false} ListInsertOld<K(!new)>(cmp: Order<K>, s: seq<Node<K>>, n: Node<K>)
    requires TotalOrder(cmp) && Sorted(cmp, s) && !Absent(cmp, s, n.key)
    ensures ListInsert(cmp, s, n) == s
    decreases |s|
  {
    var x, r := s[0], s[1..];
    assert s == [x] + r;
    if cmp(n.key, x.key) != 0 {
      AbsentCons(cmp, x, r, n.key);
      assert Sorted(cmp, r) && AllAbove(cmp, r, x.key) by { SortedHead(cmp, s); }
      if cmp(n.key, x.key) > 0 { ListInsertOld(cmp, r, n); }
    }
  }

  lemma {:induction false} AbsentCons<K>(cmp: Order<K>, x: Node<K>, r: seq<Node<K>>, k: K)
    requires cmp(k, x.key) != 0
    ensures Absent(cmp, [x] + r, k) <==> Absent(cmp, r, k)
  {
    if Absent(cmp, [x] + r, k) {
      forall i | 0 <= i < |r| ensures cmp(k, r[i].key) != 0 {
        assert r[i] == ([x] + r)[i + 1];
      }
    }
  }

  lemma {:induction false} ListInsertAbove<K>(cmp: Order<K>, s: seq<Node<K>>, n: Node<K>, k: K)
    requires AllAbove(cmp, s, k) && cmp(k, n.key) < 0
    ensures AllAbove(cmp, ListInsert(cmp, s, n), k)
  {
    if s != [] { ListInsertAbove(cmp, s[1..], n, k); }
  }

  /** Removal of an absent key changes nothing. */
  lemma {:induction false} ListRemoveAbsent<K>(cmp: Order<K>, s: seq<Node<K>>, k: K)
    ensures ListFind(cmp, s, k) == None <==> Absent(cmp, s, k)
    ensures ListFind(cmp, s, k) == None ==> ListRemove(cmp, s, k) == s
  {
    if s != [] && cmp(k, s[0].key) != 0 {
      assert s == [s[0]] + s[1..];
      ListRemoveAbsent(cmp, s[1..], k);
      AbsentCons(cmp, s[0], s[1..], k);
    }
  }

  /** Where the node found stands. */
  ghost function ListIndex<K>(cmp: Order<K>, s: seq<Node<K>>, k: K): (i: nat)
    requires ListFind(cmp, s, k).Some?
    ensures i < |s| && Some(s[i]) == ListFind(cmp, s, k) && cmp(k, s[i].key) == 0
  {
    if cmp(k, s[0].key) == 0 then 0 else ListIndex(cmp, s[1..], k) + 1
  }

  /** Removal takes out exactly the node found, which compares equal, and keeps the rest in order. */
  lemma {:induction false} ListRemoveOne<K>(cmp: Order<K>, s: seq<Node<K>>, k: K)
    requires ListFind(cmp, s, k).Some?
    ensures var i := ListIndex(cmp, s, k); ListRemove(cmp, s, k) == s[..i] + s[i + 1..]
  {
    if cmp(k, s[0].key) != 0 {
      ListRemoveOne(cmp, s[1..], k);
      var i := ListIndex(cmp, s[1..], k);
      assert [s[0]] + (s[1..][..i] + s[1..][i + 1..]) == s[..i + 1] + s[i + 2..];
    }
  }

  // ---- Size ----

  function Fib(n: nat): nat {
    if n < 2 then n else Fib(n - 1) + Fib(n - 2)
  }

  lemma {:induction false} FibMonotone(a: nat, b: nat)
    requires a <= b
    ensures Fib(a) <= Fib(b)
    decreases b
  {
    if a < b && b >= 2 {
      FibMonotone(a, b - 1);
    }
  }

  /** A tree of stored height h has at least Fib(h+3) - 1 nodes. */
  lemma {:induction false} SizeBound<K>(t: Tree<K>)
    requires Balanced(t)
    ensures H(t) >= -1 && |Inorder(t)| >= Fib(H(t) + 3) - 1
  {
    HeightRange(t);
    if t.Fork? {
      HeightRange(t.left);
      HeightRange(t.right);
      SizeBound(t.left);
      SizeBound(t.right);
      var h := H(t);
      FibMonotone(h + 1, H(t.left) + 3);
      FibMonotone(h + 1, H(t.right) + 3);
      assert Fib(h + 3) == Fib(h + 2) + Fib(h + 1);
    } else {
      assert Fib(2) == 1;
    }
  }
}
