/**
 The AVL tree in the heap: nodes owned by the caller whose links and heights are overwritten in place.
 Each method is proved to build the tree value that the model prescribes.
 */
module AvlTree {
  import opened Basics
  import opened AvlModel

  ghost function Nodes<K>(t: Tree<K>): set<Node<K>> {
    if t.Leaf? then {} else Nodes(t.left) + {t.node} + Nodes(t.right)
  }

  /** No node occurs twice. */
  ghost predicate Apart<K>(t: Tree<K>) {
    t.Fork? ==>
      && Apart(t.left) && Apart(t.right)
      && t.node !in Nodes(t.left) && t.node !in Nodes(t.right) && Nodes(t.left) !! Nodes(t.right)
  }

  /** The heap under `n` is the tree value `t`. */
  ghost predicate Rep<K>(n: Node?<K>, t: Tree<K>)
    reads Nodes(t)
  {
    match t
    case Leaf => n == null
    case Fork(l, x, r, h) => n == x && x.height == h && Rep(x.lchild, l) && Rep(x.rchild, r)
  }

  /** An ordered, balanced tree with exact heights. */
  ghost predicate Good<K(!new)>(cmp: Order<K>, t: Tree<K>) {
    TotalOrder(cmp) && Balanced(t) && Sorted(cmp, Inorder(t))
  }

  // ---- Which nodes a tree has ----

  ghost function Elements<K>(s: seq<Node<K>>): set<Node<K>> {
    set n | n in s
  }

  lemma {:induction false} NodesInorder<K>(t: Tree<K>)
    ensures Nodes(t) == Elements(Inorder(t))
  {
    if t.Fork? {
      NodesInorder(t.left);
      NodesInorder(t.right);
    }
  }

  lemma {:induction false} SortedApart<K(!new)>(cmp: Order<K>, t: Tree<K>)
    requires TotalOrder(cmp) && Sorted(cmp, Inorder(t))
    ensures Apart(t)
  {
    if t.Fork? {
      var l, r := Inorder(t.left), Inorder(t.right);
      assert Sorted(cmp, l) && Sorted(cmp, r) by { SortedSplit(cmp, l, t.node, r); }
      SortedApart(cmp, t.left);
      SortedApart(cmp, t.right);
      NodeApart(cmp, t);
    }
  }

  lemma {:induction false} NodeApart<K(!new)>(cmp: Order<K>, t: Tree<K>)
    requires TotalOrder(cmp) && t.Fork? && Sorted(cmp, Inorder(t.left) + [t.node] + Inorder(t.right))
    ensures t.node !in Nodes(t.left) && t.node !in Nodes(t.right) && Nodes(t.left) !! Nodes(t.right)
  {
    var l, r := Inorder(t.left), Inorder(t.right);
    SortedSplit(cmp, l, t.node, r);
    SidesDisjoint(cmp, l, t.node, r);
    NodesInorder(t.left);
    NodesInorder(t.right);
  }

  lemma {:induction false} SidesDisjoint<K(!new)>(cmp: Order<K>, l: seq<Node<K>>, x: Node<K>, r: seq<Node<K>>)
    requires TotalOrder(cmp) && AllBelow(cmp, l, x.key) && AllAbove(cmp, r, x.key)
    ensures x !in l && x !in r && Elements(l) !! Elements(r)
  {
    assert cmp(x.key, x.key) == 0;
  }

  lemma {:induction false} GoodParts<K(!new)>(cmp: Order<K>, t: Tree<K>)
    requires Good(cmp, t)
    ensures Apart(t)
    ensures t.Fork? ==> Good(cmp, t.left) && Good(cmp, t.right)
  {
    SortedApart(cmp, t);
    if t.Fork? {
      SortedSplit(cmp, Inorder(t.left), t.node, Inorder(t.right));
    }
  }

  lemma {:induction false} InsertGood<K(!new)>(cmp: Order<K>, t: Tree<K>, n: Node<K>)
    requires Good(cmp, t)
    ensures Good(cmp, Insert(cmp, t, n))
  {
    InsertBalanced(cmp, t, n);
    InsertInorder(cmp, t, n);
    ListInsertSorted(cmp, Inorder(t), n);
  }

  lemma {:induction false} RemoveGood<K(!new)>(cmp: Order<K>, t: Tree<K>, k: K)
    requires Good(cmp, t)
    ensures Good(cmp, Remove(cmp, t, k).0)
  {
    RemoveBalanced(cmp, t, k);
    RemoveInorder(cmp, t, k);
    ListRemoveSorted(cmp, Inorder(t), k);
  }

  lemma {:induction false} ListRemoveSorted<K(!new)>(cmp: Order<K>, s: seq<Node<K>>, k: K)
    requires Sorted(cmp, s)
    ensures Sorted(cmp, ListRemove(cmp, s, k))
  {
    ListRemoveAbsent(cmp, s, k);
    if ListFind(cmp, s, k).Some? {
      ListRemoveOne(cmp, s, k);
      var i := ListIndex(cmp, s, k);
    }
  }

  /** Rotations move no node in or out. */
  lemma {:induction false} InsertNodes<K>(cmp: Order<K>, t: Tree<K>, n: Node<K>)
    ensures Nodes(Insert(cmp, t, n)) <= Nodes(t) + {n}
  {
    if t.Fork? {
      if cmp(n.key, t.node.key) < 0 {
        InsertNodes(cmp, t.left, n);
      } else if cmp(n.key, t.node.key) > 0 {
        InsertNodes(cmp, t.right, n);
      }
    }
  }

  lemma {:induction false} MinNode<K>(t: Tree<K>)
    requires t.Fork?
    ensures Min(t) in Nodes(t)
  {
    if t.left.Fork? { MinNode(t.left); }
  }

  lemma {:induction false} RebalanceNodes<K>(t: Tree<K>)
    requires t.Fork?
    ensures Nodes(Rebalance(t)) == Nodes(t)
  {
    NodesInorder(t);
    NodesInorder(Rebalance(t));
    RebalanceInorder(t);
  }

  lemma {:induction false} RemoveNodes<K>(cmp: Order<K>, t: Tree<K>, k: K)
    ensures Nodes(Remove(cmp, t, k).0) <= Nodes(t)
  {
    if t.Fork? {
      if cmp(k, t.node.key) == 0 {
        if t.left.Fork? && t.right.Fork? {
          var m := Min(t.right);
          MinNode(t.right);
          RemoveNodes(cmp, t.right, m.key);
          RebalanceNodes(Fork(t.left, m, Remove(cmp, t.right, m.key).0, t.height));
        }
      } else if cmp(k, t.node.key) < 0 {
        RemoveNodes(cmp, t.left, k);
        RebalanceNodes(t.(left := Remove(cmp, t.left, k).0));
      } else {
        RemoveNodes(cmp, t.right, k);
        RebalanceNodes(t.(right := Remove(cmp, t.right, k).0));
      }
    }
  }

  // ---- Rotations in place ----

  function Height<K>(n: Node?<K>): int
    reads n
  {
    if n == null then -1 else n.height
  }

  /** A node takes another left child and stores its height. */
  method SetLeft<K>(n: Node<K>, left: Node?<K>, ghost a: Tree<K>, ghost b: Tree<K>)
    requires Rep(left, a) && Rep(n.rchild, b) && n !in Nodes(a) && n !in Nodes(b)
    modifies n
    ensures Rep(n, Mk(a, n, b)) && n.rchild == old(n.rchild)
  {
    n.lchild := left;
    n.height := Max(Height(n.lchild), Height(n.rchild)) + 1;
    assert Rep(n.lchild, a) && Rep(n.rchild, b);
  }

  method SetRight<K>(n: Node<K>, right: Node?<K>, ghost a: Tree<K>, ghost b: Tree<K>)
    requires Rep(n.lchild, a) && Rep(right, b) && n !in Nodes(a) && n !in Nodes(b)
    modifies n
    ensures Rep(n, Mk(a, n, b)) && n.lchild == old(n.lchild)
  {
    n.rchild := right;
    n.height := Max(Height(n.lchild), Height(n.rchild)) + 1;
    assert Rep(n.lchild, a) && Rep(n.rchild, b);
  }

  method SingleRotateLeft<K>(tree: Node<K>, ghost t: Tree<K>) returns (newtree: Node<K>)
    requires t.Fork? && t.left.Fork? && Apart(t) && Rep(tree, t)
    modifies tree, t.left.node
    ensures Rep(newtree, SingleLeft(t))
  {
    newtree := tree.lchild;
    ghost var a, b, c := t.left.left, t.left.right, t.right;
    assert Rep(newtree.lchild, a) && Rep(newtree.rchild, b) && Rep(tree.rchild, c);
    tree.lchild := newtree.rchild;
    tree.height := Max(Height(tree.lchild), Height(tree.rchild)) + 1;
    newtree.rchild := tree;
    assert Rep(newtree.lchild, a) && Rep(tree.lchild, b) && Rep(tree.rchild, c);
    assert Rep(tree, Mk(b, t.node, c));
    newtree.height := Max(Height(newtree.lchild), Height(newtree.rchild)) + 1;
    assert Rep(newtree.lchild, a) && Rep(tree.lchild, b) && Rep(tree.rchild, c);
    assert Rep(tree, Mk(b, t.node, c));
  }

  method SingleRotateRight<K>(tree: Node<K>, ghost t: Tree<K>) returns (newtree: Node<K>)
    requires t.Fork? && t.right.Fork? && Apart(t) && Rep(tree, t)
    modifies tree, t.right.node
    ensures Rep(newtree, SingleRight(t))
  {
    newtree := tree.rchild;
    ghost var a, b, c := t.left, t.right.left, t.right.right;
    assert Rep(tree.lchild, a) && Rep(newtree.lchild, b) && Rep(newtree.rchild, c);
    tree.rchild := newtree.lchild;
    tree.height := Max(Height(tree.lchild), Height(tree.rchild)) + 1;
    newtree.lchild := tree;
    assert Rep(tree.lchild, a) && Rep(tree.rchild, b) && Rep(newtree.rchild, c);
    assert Rep(tree, Mk(a, t.node, b));
    newtree.height := Max(Height(newtree.lchild), Height(newtree.rchild)) + 1;
    assert Rep(tree.lchild, a) && Rep(tree.rchild, b) && Rep(newtree.rchild, c);
    assert Rep(tree, Mk(a, t.node, b));
  }

  lemma {:induction false} DoubleLeftApart<K>(t: Tree<K>)
    requires t.Fork? && t.left.Fork? && t.left.right.Fork? && Apart(t)
    ensures var x, y, z := t.node, t.left.node, t.left.right.node;
            && x != y && y != z && x != z
            && {x, y, z} !! Nodes(t.left.left) && {x, y, z} !! Nodes(t.left.right.left)
            && {x, y, z} !! Nodes(t.left.right.right) && {x, y, z} !! Nodes(t.right)
  {
    assert Nodes(t.left) == Nodes(t.left.left) + {t.left.node} + Nodes(t.left.right);
    assert Nodes(t.left.right) == Nodes(t.left.right.left) + {t.left.right.node} + Nodes(t.left.right.right);
    assert Apart(t.left) && Apart(t.left.right);
  }

  method DoubleRotateLeft<K>(tree: Node<K>, ghost t: Tree<K>) returns (newtree: Node<K>)
    requires t.Fork? && t.left.Fork? && t.left.right.Fork? && Apart(t) && Rep(tree, t)
    modifies tree, t.left.node, t.left.right.node
    ensures Rep(newtree, DoubleLeft(t))
  {
    assert Rep(tree.lchild, t.left) && Rep(tree.lchild.rchild, t.left.right);
    DoubleLeftApart(t);
    newtree := RelinkLeft(tree, t.left.left, t.left.node, t.left.right.left, t.left.right.node, t.left.right.right,
      t.node, t.right,
      Nodes(t.left.left) + Nodes(t.left.right.left) + Nodes(t.left.right.right) + Nodes(t.right));
  }

  method RelinkLeft<K>(tree: Node<K>, ghost a: Tree<K>, ghost y: Node<K>, ghost b: Tree<K>, ghost z: Node<K>,
      ghost c: Tree<K>,
      ghost x: Node<K>, ghost d: Tree<K>, ghost kept: set<Node<K>>) returns (newtree: Node<K>)
    requires tree == x && x.lchild == y && y.rchild == z && x != y && y != z && x != z
    requires Rep(y.lchild, a) && Rep(z.lchild, b) && Rep(z.rchild, c) && Rep(x.rchild, d)
    requires {x, y, z} !! Nodes(a) && {x, y, z} !! Nodes(b) && {x, y, z} !! Nodes(c) && {x, y, z} !! Nodes(d)
    requires kept == Nodes(a) + Nodes(b) + Nodes(c) + Nodes(d)
    modifies x, y, z
    ensures Rep(newtree, Mk(Mk(a, y, b), z, Mk(c, x, d)))
  {
    var l := tree.lchild;
    newtree := l.rchild;
    SetRight(l, newtree.lchild, a, b);
    assert Rep(newtree.rchild, c) && Rep(tree.rchild, d);
    newtree.lchild := l;
    assert Rep(l, Mk(a, y, b)) && Rep(newtree.rchild, c) && Rep(tree.rchild, d);
    SetLeft(tree, newtree.rchild, c, d);
    assert Rep(newtree.lchild, Mk(a, y, b));
    SetRight(newtree, tree, Mk(a, y, b), Mk(c, x, d));
  }

  lemma {:induction false} DoubleRightApart<K>(t: Tree<K>)
    requires t.Fork? && t.right.Fork? && t.right.left.Fork? && Apart(t)
    ensures var x, y, z := t.node, t.right.node, t.right.left.node;
            && x != y && y != z && x != z
            && {x, y, z} !! Nodes(t.left) && {x, y, z} !! Nodes(t.right.left.left)
            && {x, y, z} !! Nodes(t.right.left.right) && {x, y, z} !! Nodes(t.right.right)
  {
    assert Nodes(t.right) == Nodes(t.right.left) + {t.right.node} + Nodes(t.right.right);
    assert Nodes(t.right.left) == Nodes(t.right.left.left) + {t.right.left.node} + Nodes(t.right.left.right);
    assert Apart(t.right) && Apart(t.right.left);
  }

  method DoubleRotateRight<K>(tree: Node<K>, ghost t: Tree<K>) returns (newtree: Node<K>)
    requires t.Fork? && t.right.Fork? && t.right.left.Fork? && Apart(t) && Rep(tree, t)
    modifies tree, t.right.node, t.right.left.node
    ensures Rep(newtree, DoubleRight(t))
  {
    assert Rep(tree.rchild, t.right) && Rep(tree.rchild.lchild, t.right.left);
    DoubleRightApart(t);
    newtree := RelinkRight(tree, t.left, t.node, t.right.left.left, t.right.left.node, t.right.left.right,
      t.right.node, t.right.right,
      Nodes(t.left) + Nodes(t.right.left.left) + Nodes(t.right.left.right) + Nodes(t.right.right));
  }

  method RelinkRight<K>(tree: Node<K>, ghost a: Tree<K>, ghost x: Node<K>, ghost b: Tree<K>, ghost z: Node<K>,
      ghost c: Tree<K>,
      ghost y: Node<K>, ghost d: Tree<K>, ghost kept: set<Node<K>>) returns (newtree: Node<K>)
    requires tree == x && x.rchild == y && y.lchild == z && x != y && y != z && x != z
    requires Rep(x.lchild, a) && Rep(z.lchild, b) && Rep(z.rchild, c) && Rep(y.rchild, d)
    requires {x, y, z} !! Nodes(a) && {x, y, z} !! Nodes(b) && {x, y, z} !! Nodes(c) && {x, y, z} !! Nodes(d)
    requires kept == Nodes(a) + Nodes(b) + Nodes(c) + Nodes(d)
    modifies x, y, z
    ensures Rep(newtree, Mk(Mk(a, x, b), z, Mk(c, y, d)))
  {
    var r := tree.rchild;
    newtree := r.lchild;
    SetLeft(r, newtree.rchild, c, d);
    assert Rep(newtree.lchild, b) && Rep(tree.lchild, a);
    newtree.rchild := r;
    assert Rep(r, Mk(c, y, d)) && Rep(newtree.lchild, b) && Rep(tree.lchild, a);
    SetRight(tree, newtree.lchild, a, b);
    assert Rep(newtree.rchild, Mk(c, y, d));
    SetLeft(newtree, tree, Mk(a, x, b), Mk(c, y, d));
  }

  // ---- Insertion ----

  /** A node that is linked in the tree already is on the side its key says, or at the root. */
  lemma {:induction false} OtherSide<K(!new)>(cmp: Order<K>, t: Tree<K>, n: Node<K>)
    requires Good(cmp, t) && t.Fork?
    ensures cmp(n.key, t.node.key) < 0 ==> n != t.node && n !in Nodes(t.right)
    ensures cmp(n.key, t.node.key) > 0 ==> n != t.node && n !in Nodes(t.left)
  {
    var l, r := Inorder(t.left), Inorder(t.right);
    SortedSplit(cmp, l, t.node, r);
    NodesInorder(t.left);
    NodesInorder(t.right);
    assert cmp(n.key, n.key) == 0;
    assert n in l ==> exists i :: 0 <= i < |l| && l[i] == n;
    assert n in r ==> exists i :: 0 <= i < |r| && r[i] == n;
  }

  /** `avlinsert`. */
  method AvlInsert<K(!new)>(tree: Node?<K>, node: Node<K>, cmp: Order<K>, ghost t: Tree<K>) returns (r: Node<K>)
    requires Rep(tree, t) && Good(cmp, t)
    modifies Nodes(t), node
    ensures Rep(r, Insert(cmp, t, node))
    decreases t
  {
    if tree == null {
      node.lchild := null;
      node.rchild := null;
      node.height := 0;
      return node;
    }
    GoodParts(cmp, t);
    OtherSide(cmp, t, node);
    var ret := cmp(node.key, tree.key);
    r := tree;
    if ret < 0 {
      r := InsertLeft(tree, node, cmp, t);
    } else if ret > 0 {
      r := InsertRight(tree, node, cmp, t);
    }
  }

  /** Insert below the left child and relink it. */
  method BelowLeft<K(!new)>(tree: Node<K>, node: Node<K>, cmp: Order<K>, ghost t: Tree<K>, ghost s: set<Node<K>>)
    requires s == Nodes(t) && t.Fork? && Rep(tree, t) && Good(cmp, t.left) && Apart(t) && node != tree
      && node !in Nodes(t.right)
    modifies Nodes(t), node
    ensures Rep(tree, t.(left := Insert(cmp, t.left, node))) && Apart(t.(left := Insert(cmp, t.left, node)))
    decreases t, 0
  {
    ghost var q := Insert(cmp, t.left, node);
    InsertNodes(cmp, t.left, node);
    assert Apart(q) by { InsertGood(cmp, t.left, node); GoodParts(cmp, q); }
    ghost var other := tree.rchild;
    assert Rep(tree.lchild, t.left) && Rep(other, t.right);
    assert tree !in Nodes(t.left) && tree !in Nodes(t.right);
    var child := AvlInsert(tree.lchild, node, cmp, t.left);
    assert Rep(other, t.right);
    tree.lchild := child;
    assert Rep(tree.rchild, t.right) && Rep(tree.lchild, q);
  }

  method InsertLeft<K(!new)>(tree: Node<K>, node: Node<K>, cmp: Order<K>, ghost t: Tree<K>) returns (r: Node<K>)
    requires t.Fork? && Rep(tree, t) && Balanced(t) && Good(cmp, t.left) && Apart(t) && node != tree
      && node !in Nodes(t.right)
    requires cmp(node.key, tree.key) < 0
    modifies Nodes(t), node
    ensures Rep(r, FixLeft(cmp, t.(left := Insert(cmp, t.left, node)), node))
    decreases t, 1
  {
    ghost var u := t.(left := Insert(cmp, t.left, node));
    InsertNodes(cmp, t.left, node);
    InsertBalanced(cmp, t.left, node);
    FixLeftBalanced(cmp, t, u.left, node);
    BelowLeft(tree, node, cmp, t, Nodes(t));
    assert Rep(tree.lchild, u.left) && Rep(tree.rchild, u.right);
    r := tree;
    if Height(tree.lchild) - Height(tree.rchild) == 2 {
      var ret := cmp(node.key, tree.lchild.key);
      if ret < 0 {
        r := SingleRotateLeft(tree, u);
      } else if ret > 0 {
        r := DoubleRotateLeft(tree, u);
      }
    } else {
      tree.height := Max(Height(tree.lchild), Height(tree.rchild)) + 1;
      assert Rep(tree.lchild, u.left) && Rep(tree.rchild, u.right);
    }
  }

  /** Insert below the right child and relink it. */
  method BelowRight<K(!new)>(tree: Node<K>, node: Node<K>, cmp: Order<K>, ghost t: Tree<K>, ghost s: set<Node<K>>)
    requires s == Nodes(t) && t.Fork? && Rep(tree, t) && Good(cmp, t.right) && Apart(t) && node != tree
      && node !in Nodes(t.left)
    modifies Nodes(t), node
    ensures Rep(tree, t.(right := Insert(cmp, t.right, node))) && Apart(t.(right := Insert(cmp, t.right, node)))
    decreases t, 0
  {
    ghost var q := Insert(cmp, t.right, node);
    InsertNodes(cmp, t.right, node);
    assert Apart(q) by { InsertGood(cmp, t.right, node); GoodParts(cmp, q); }
    ghost var other := tree.lchild;
    assert Rep(tree.rchild, t.right) && Rep(other, t.left);
    assert tree !in Nodes(t.right) && tree !in Nodes(t.left);
    var child := AvlInsert(tree.rchild, node, cmp, t.right);
    assert Rep(other, t.left);
    tree.rchild := child;
    assert Rep(tree.lchild, t.left) && Rep(tree.rchild, q);
  }

  method InsertRight<K(!new)>(tree: Node<K>, node: Node<K>, cmp: Order<K>, ghost t: Tree<K>) returns (r: Node<K>)
    requires t.Fork? && Rep(tree, t) && Balanced(t) && Good(cmp, t.right) && Apart(t) && node != tree
      && node !in Nodes(t.left)
    requires cmp(node.key, tree.key) > 0
    modifies Nodes(t), node
    ensures Rep(r, FixRight(cmp, t.(right := Insert(cmp, t.right, node)), node))
    decreases t, 1
  {
    ghost var u := t.(right := Insert(cmp, t.right, node));
    InsertNodes(cmp, t.right, node);
    InsertBalanced(cmp, t.right, node);
    FixRightBalanced(cmp, t, u.right, node);
    BelowRight(tree, node, cmp, t, Nodes(t));
    assert Rep(tree.rchild, u.right) && Rep(tree.lchild, u.left);
    r := tree;
    if Height(tree.rchild) - Height(tree.lchild) == 2 {
      var ret := cmp(node.key, tree.rchild.key);
      if ret < 0 {
        r := DoubleRotateRight(tree, u);
      } else if ret > 0 {
        r := SingleRotateRight(tree, u);
      }
    } else {
      tree.height := Max(Height(tree.lchild), Height(tree.rchild)) + 1;
      assert Rep(tree.rchild, u.right) && Rep(tree.lchild, u.left);
    }
  }

  // ---- Search ----

  /** A comparison decides the search or leaves one side of the tree, a level lower at least. */
  lemma {:induction false} SearchStep<K(!new)>(cmp: Order<K>, u: Tree<K>, key: K)
    requires Good(cmp, u) && u.Fork?
    ensures Good(cmp, u.left) && Good(cmp, u.right) && -1 <= H(u.left) < H(u) && -1 <= H(u.right) < H(u)
    ensures var ret := cmp(key, u.node.key);
      ListFind(cmp, Inorder(u), key) ==
        if ret < 0 then ListFind(cmp, Inorder(u.left), key)
        else if ret > 0 then ListFind(cmp, Inorder(u.right), key)
        else Some(u.node)
  {
    GoodParts(cmp, u);
    ListFindAt(cmp, Inorder(u.left), u.node, Inorder(u.right), key);
    HeightRange(u.left);
    HeightRange(u.right);
  }

  /** `avlsearch`: succeeds exactly on members, with at most one comparison per level. */
  method AvlSearch<K(!new)>(tree: Node?<K>, key: K, cmp: Order<K>, ghost t: Tree<K>) returns (found: Node?<K>,
      comparisons: nat)
    requires Rep(tree, t) && Good(cmp, t)
    ensures found == match ListFind(cmp, Inorder(t), key) { case None => null case Some(x) => x }
    ensures comparisons <= H(t) + 1
  {
    var n := tree;
    ghost var u := t;
    comparisons := 0;
    HeightRange(t);
    while n != null
      invariant Rep(n, u) && Good(cmp, u)
      invariant ListFind(cmp, Inorder(u), key) == ListFind(cmp, Inorder(t), key)
      invariant comparisons + H(u) <= H(t)
      decreases u
    {
      SearchStep(cmp, u, key);
      var ret := cmp(key, n.key);
      comparisons := comparisons + 1;
      if ret < 0 {
        n, u := n.lchild, u.left;
      } else if ret > 0 {
        n, u := n.rchild, u.right;
      } else {
        return n, comparisons;
      }
    }
    found := null;
  }

  /** `avlgetmin`. */
  method AvlGetMin<K>(tree: Node<K>, ghost t: Tree<K>) returns (n: Node<K>)
    requires t.Fork? && Rep(tree, t)
    ensures n == Min(t)
  {
    n := tree;
    ghost var u := t;
    while n.lchild != null
      invariant u.Fork? && Rep(n, u) && Min(u) == Min(t)
      decreases u
    {
      n, u := n.lchild, u.left;
    }
  }

  // ---- Removal ----

  /** The end of `avlremove`: rotate if one side is two levels taller, and store the height. */
  method AvlRebalance<K>(tree0: Node<K>, ghost u: Tree<K>) returns (tree: Node<K>)
    requires u.Fork? && Rep(tree0, u) && Apart(u)
    requires Balanced(u.left) && Balanced(u.right) && -2 <= H(u.left) - H(u.right) <= 2
    modifies Nodes(u)
    ensures Rep(tree, Rebalance(u))
  {
    tree := tree0;
    RebalanceHints(u);
    assert Rep(tree.lchild, u.left) && Rep(tree.rchild, u.right);
    if Height(tree.lchild) - Height(tree.rchild) == 2 {
      assert Rep(tree.lchild.lchild, u.left.left) && Rep(tree.lchild.rchild, u.left.right);
      if Height(tree.lchild.lchild) - Height(tree.rchild) == 1
        && Height(tree.lchild.rchild) - Height(tree.rchild) == 1 {
        tree := SingleRotateLeft(tree, u);
      } else if Height(tree.lchild.lchild) - Height(tree.rchild) == 1 {
        tree := SingleRotateLeft(tree, u);
      } else if Height(tree.lchild.rchild) - Height(tree.rchild) == 1 {
        tree := DoubleRotateLeft(tree, u);
      }
    } else if Height(tree.rchild) - Height(tree.lchild) == 2 {
      assert Rep(tree.rchild.lchild, u.right.left) && Rep(tree.rchild.rchild, u.right.right);
      if Height(tree.rchild.rchild) - Height(tree.lchild) == 1
        && Height(tree.rchild.lchild) - Height(tree.lchild) == 1 {
        tree := SingleRotateRight(tree, u);
      } else if Height(tree.rchild.rchild) - Height(tree.lchild) == 1 {
        tree := SingleRotateRight(tree, u);
      } else if Height(tree.rchild.lchild) - Height(tree.lchild) == 1 {
        tree := DoubleRotateRight(tree, u);
      }
    }
    StoreHeight(tree, Rotate(u));
  }

  lemma {:induction false} RebalanceHints<K>(u: Tree<K>)
    requires u.Fork? && Balanced(u.left) && Balanced(u.right) && -2 <= H(u.left) - H(u.right) <= 2 && Apart(u)
    ensures H(u.left) - H(u.right) == 2 ==>
              u.left.Fork? && (H(u.left.left) - H(u.right) == 1
                || (H(u.left.right) - H(u.right) == 1 && u.left.right.Fork?))
    ensures H(u.right) - H(u.left) == 2 ==>
              u.right.Fork? && (H(u.right.right) - H(u.left) == 1
                || (H(u.right.left) - H(u.left) == 1 && u.right.left.Fork?))
    ensures u.left.Fork? ==> u.left.node in Nodes(u) && (u.left.right.Fork? ==> u.left.right.node in Nodes(u))
    ensures u.right.Fork? ==> u.right.node in Nodes(u) && (u.right.left.Fork? ==> u.right.left.node in Nodes(u))
    ensures Rotate(u).Fork? && Rotate(u).node in Nodes(u)
    ensures Rotate(u).node !in Nodes(Rotate(u).left) && Rotate(u).node !in Nodes(Rotate(u).right)
  {
    assert Nodes(u) == Nodes(u.left) + {u.node} + Nodes(u.right);
    if H(u.left) - H(u.right) == 2 {
      RebalanceLeft(u.left, u.node, u.right, u.height);
      if u.left.right.Fork? { DoubleLeftApart(u); }
    } else if H(u.right) - H(u.left) == 2 {
      RebalanceRight(u.left, u.node, u.right, u.height);
      if u.right.left.Fork? { DoubleRightApart(u); }
    }
  }

  method StoreHeight<K>(tree: Node<K>, ghost u: Tree<K>)
    requires u.Fork? && Rep(tree, u) && u.node !in Nodes(u.left) && u.node !in Nodes(u.right)
    modifies tree
    ensures Rep(tree, Mk(u.left, u.node, u.right))
  {
    assert Rep(tree.lchild, u.left) && Rep(tree.rchild, u.right);
    tree.height := Max(Height(tree.lchild), Height(tree.rchild)) + 1;
    assert Rep(tree.lchild, u.left) && Rep(tree.rchild, u.right);
  }

  /** Removing the middle node of a sorted list leaves a sorted list. */
  lemma {:induction false} SortedWithout<K>(cmp: Order<K>, l: seq<Node<K>>, x: Node<K>, r: seq<Node<K>>)
    requires Sorted(cmp, l + [x] + r)
    ensures Sorted(cmp, l + r)
  {
    var s, d := l + [x] + r, l + r;
    forall i, j | 0 <= i < j < |d| ensures cmp(d[i].key, d[j].key) < 0 {
      var i' := if i < |l| then i else i + 1;
      var j' := if j < |l| then j else j + 1;
      assert s[i'] == d[i] && s[j'] == d[j];
    }
  }

  /** The spliced tree: the least node of the right subtree in the removed node's place. */
  lemma {:induction false} SpliceApart<K(!new)>(cmp: Order<K>, t: Tree<K>, h: int)
    requires Good(cmp, t) && t.Fork? && t.right.Fork?
    ensures var m := Min(t.right); var r' := Remove(cmp, t.right, m.key).0;
            && Apart(Fork(t.left, m, r', h)) && Nodes(r') <= Nodes(t.right) && m in Nodes(t.right)
            && Balanced(r') && -2 <= H(t.left) - H(r') <= 2
  {
    var m := Min(t.right);
    var r' := Remove(cmp, t.right, m.key).0;
    var l, r := Inorder(t.left), Inorder(t.right);
    SortedSplit(cmp, l, t.node, r);
    RemoveMin(cmp, t.right);
    SortedWithout(cmp, l, t.node, r);
    assert l + r == l + [m] + Inorder(r');
    SortedApart(cmp, Fork(t.left, m, r', h));
    RemoveNodes(cmp, t.right, m.key);
    MinNode(t.right);
    RemoveBalanced(cmp, t.right, m.key);
  }

  ghost function Removed<K>(r: Option<Node<K>>): Node?<K> {
    match r case None => null case Some(x) => x
  }

  /** `avlremove`; `rm0` is what the caller's result pointer held. */
  method AvlRemove<K(!new)>(tree: Node?<K>, key: K, rm0: Node?<K>, cmp: Order<K>, ghost t: Tree<K>)
      returns (r: Node?<K>, rm: Node?<K>)
    requires Rep(tree, t) && Good(cmp, t)
    modifies Nodes(t)
    ensures Rep(r, Remove(cmp, t, key).0)
    ensures rm == if t.Leaf? then rm0 else Removed(Remove(cmp, t, key).1)
    decreases t
  {
    if tree == null {
      return null, rm0;
    }
    GoodParts(cmp, t);
    var ret := cmp(key, tree.key);
    if ret == 0 {
      assert Rep(tree.lchild, t.left) && Rep(tree.rchild, t.right);
      if tree.lchild != null && tree.rchild != null {
        r := RemoveTwo(tree, cmp, t, Nodes(t));
        rm := tree;
      } else {
        if tree.lchild != null {
          r := tree.lchild;
        } else if tree.rchild != null {
          r := tree.rchild;
        } else {
          r := null;
        }
        rm := tree;
      }
    } else if ret < 0 {
      rm := RemoveLeft(tree, key, cmp, t, Nodes(t));
      r := AvlRebalanceAfter(tree, key, cmp, t, t.(left := Remove(cmp, t.left, key).0));
    } else {
      rm := RemoveRight(tree, key, cmp, t, Nodes(t));
      r := AvlRebalanceAfter(tree, key, cmp, t, t.(right := Remove(cmp, t.right, key).0));
    }
  }

  /** Rebalance the node above a removal. */
  method AvlRebalanceAfter<K(!new)>(tree: Node<K>, ghost key: K, ghost cmp: Order<K>, ghost t: Tree<K>,
      ghost u: Tree<K>)
      returns (r: Node<K>)
    requires t.Fork? && u.Fork? && Balanced(t) && Rep(tree, u) && Apart(u) && Nodes(u) <= Nodes(t)
    requires (Shrunk(t.left, u.left) && u.right == t.right) || (Shrunk(t.right, u.right) && u.left == t.left)
    modifies Nodes(t)
    ensures Rep(r, Rebalance(u))
  {
    r := AvlRebalance(tree, u);
  }

  method RemoveLeft<K(!new)>(tree: Node<K>, key: K, cmp: Order<K>, ghost t: Tree<K>,
      ghost s: set<Node<K>>) returns (rm: Node?<K>)
    requires s == Nodes(t) && t.Fork? && Rep(tree, t) && Good(cmp, t) && Good(cmp, t.left) && Apart(t)
    modifies Nodes(t)
    ensures var u := t.(left := Remove(cmp, t.left, key).0);
            Rep(tree, u) && Apart(u) && Nodes(u) <= Nodes(t) && Shrunk(t.left, u.left)
    ensures rm == Removed(Remove(cmp, t.left, key).1)
    decreases t, 0
  {
    ghost var q := Remove(cmp, t.left, key).0;
    RemoveNodes(cmp, t.left, key);
    RemoveBalanced(cmp, t.left, key);
    assert Apart(q) by { RemoveGood(cmp, t.left, key); GoodParts(cmp, q); }
    ghost var other := tree.rchild;
    assert Rep(tree.lchild, t.left) && Rep(other, t.right);
    rm := null;
    if tree.lchild != null {
      var child;
      child, rm := AvlRemove(tree.lchild, key, null, cmp, t.left);
      assert Rep(other, t.right);
      tree.lchild := child;
    }
    assert Rep(tree.rchild, t.right) && Rep(tree.lchild, q);
  }

  method RemoveRight<K(!new)>(tree: Node<K>, key: K, cmp: Order<K>, ghost t: Tree<K>,
      ghost s: set<Node<K>>) returns (rm: Node?<K>)
    requires s == Nodes(t) && t.Fork? && Rep(tree, t) && Good(cmp, t) && Good(cmp, t.right) && Apart(t)
    modifies Nodes(t)
    ensures var u := t.(right := Remove(cmp, t.right, key).0);
            Rep(tree, u) && Apart(u) && Nodes(u) <= Nodes(t) && Shrunk(t.right, u.right)
    ensures rm == Removed(Remove(cmp, t.right, key).1)
    decreases t, 0
  {
    ghost var q := Remove(cmp, t.right, key).0;
    RemoveNodes(cmp, t.right, key);
    RemoveBalanced(cmp, t.right, key);
    assert Apart(q) by { RemoveGood(cmp, t.right, key); GoodParts(cmp, q); }
    ghost var other := tree.lchild;
    assert Rep(tree.rchild, t.right) && Rep(other, t.left);
    rm := null;
    if tree.rchild != null {
      var child;
      child, rm := AvlRemove(tree.rchild, key, null, cmp, t.right);
      assert Rep(other, t.left);
      tree.rchild := child;
    }
    assert Rep(tree.lchild, t.left) && Rep(tree.rchild, q);
  }

  /** Unlink the least node of the right subtree and give it the removed node's children. */
  method Splice<K(!new)>(tree: Node<K>, cmp: Order<K>, ghost t: Tree<K>, ghost s: set<Node<K>>, ghost m: Node<K>,
      ghost q: Tree<K>)
      returns (tmpnode: Node<K>)
    requires s == Nodes(t) && t.Fork? && t.left.Fork? && t.right.Fork? && Rep(tree, t) && Good(cmp, t.right) && Apart(t)
    requires m == Min(t.right) && q == Remove(cmp, t.right, m.key).0
    requires m in Nodes(t.right) && Nodes(q) <= Nodes(t.right) && m !in Nodes(q)
    modifies Nodes(t)
    ensures tmpnode == m && Rep(tmpnode, Fork(t.left, m, q, tmpnode.height))
    decreases t, 0
  {
    ghost var left := tree.lchild;
    assert Rep(tree.rchild, t.right) && Rep(left, t.left);
    tmpnode := AvlGetMin(tree.rchild, t.right);
    var rchild, _ := AvlRemove(tree.rchild, tmpnode.key, null, cmp, t.right);
    assert Rep(left, t.left) && tree.lchild == left && Rep(rchild, q);
    tree.rchild := rchild;
    assert Rep(left, t.left) && Rep(rchild, q);
    TakeOver(tree, tmpnode, t.left, q);
  }

  method TakeOver<K>(tree: Node<K>, n: Node<K>, ghost a: Tree<K>, ghost b: Tree<K>)
    requires tree != n && Rep(tree.lchild, a) && Rep(tree.rchild, b) && n !in Nodes(a) && n !in Nodes(b)
    modifies n
    ensures Rep(n, Fork(a, n, b, n.height))
  {
    n.lchild := tree.lchild;
    n.rchild := tree.rchild;
    assert Rep(n.lchild, a) && Rep(n.rchild, b);
  }

  /** Two children: the least node of the right subtree takes the removed node's place. */
  method RemoveTwo<K(!new)>(tree: Node<K>, cmp: Order<K>, ghost t: Tree<K>, ghost s: set<Node<K>>) returns (r: Node<K>)
    requires s == Nodes(t) && t.Fork? && t.left.Fork? && t.right.Fork? && Rep(tree, t)
    requires Good(cmp, t) && Good(cmp, t.right) && Apart(t)
    modifies Nodes(t)
    ensures Rep(r, Rebalance(Fork(t.left, Min(t.right), Remove(cmp, t.right, Min(t.right).key).0, t.height)))
    decreases t, 1
  {
    SpliceApart(cmp, t, 0);
    ghost var m := Min(t.right);
    ghost var q := Remove(cmp, t.right, m.key).0;
    var tmpnode := Splice(tree, cmp, t, s, m, q);
    r := AvlRebalance(tmpnode, Fork(t.left, m, q, tmpnode.height));
  }
}
