/** The red-black timer tree of src/nc_rbtree.c, on linked nodes. */
module RbTree {
  import opened Exponents
  import opened StableQueue

  class Node {
    var left: Node?
    var right: Node?
    var parent: Node?
    var key: int
    var data: object?
    var red: bool

    // The positions this node's subtree covers in the in-order listing, and its own.
    ghost var lo: int
    ghost var pos: int
    ghost var hi: int
    // The number of black nodes on every path from here down to the sentinel.
    ghost var bh: int
  }

  ghost function Entries(s: seq<Node>): (r: seq<Entry<Node>>)
    reads s`key
    ensures |r| == |s|
    ensures forall i :: 0 <= i < |s| ==> r[i] == Entry(s[i], s[i].key)
  {
    if s == [] then [] else [Entry(s[0], s[0].key)] + Entries(s[1..])
  }

  lemma EntriesAre(s: seq<Node>, e: seq<Entry<Node>>)
    requires |e| == |s| && forall i :: 0 <= i < |s| ==> e[i] == Entry(s[i], s[i].key)
    ensures Entries(s) == e
  {
  }

  // steps <= 2 * log2(n + 1)
  ghost predicate Logarithmic(steps: nat, n: nat)
  {
    Pow(2, steps) <= (n + 1) * (n + 1)
  }

  /** In a tree of fewer than 2^k nodes that is at most 2k steps. */
  lemma LogarithmicIs(steps: nat, n: nat, k: nat)
    requires Logarithmic(steps, n) && n < Pow(2, k)
    ensures steps <= 2 * k
  {
    SquareMonotone(n + 1, Pow(2, k));
    PowDouble(2, k);
    if steps > 2 * k {
      PowMonotone(2, 2 * k + 1, steps);
      PowNext(2, 2 * k + 1);
    }
  }

  class Tree {
    var root: Node
    var sentinel: Node

    ghost var nodes: set<Node>
    ghost var order: seq<Node>
    ghost var log: seq<Op<Node>>

    // ---- structural invariant, node by node ----

    ghost predicate LeftOk(n: Node)
      requires n in nodes
      reads this`root, this`sentinel, this`nodes, this`order, nodes
    {
      && n.left != null
      && if n.left == sentinel then n.lo == n.pos
         else n.left in nodes && n.left.parent == n && n.left.lo == n.lo && n.left.hi == n.pos
    }

    ghost predicate RightOk(n: Node)
      requires n in nodes
      reads this`root, this`sentinel, this`nodes, this`order, nodes
    {
      && n.right != null
      && if n.right == sentinel then n.hi == n.pos + 1
         else n.right in nodes && n.right.parent == n && n.right.lo == n.pos + 1 && n.right.hi == n.hi
    }

    ghost predicate UpOk(n: Node)
      requires n in nodes
      reads this`root, this`sentinel, this`nodes, this`order, nodes
    {
      n != root ==> n.parent in nodes && (n.parent.left == n || n.parent.right == n)
    }

    ghost predicate PosOk(n: Node)
      requires n in nodes
      reads this`root, this`sentinel, this`nodes, this`order, nodes
    {
      0 <= n.lo <= n.pos < n.hi <= |order| && order[n.pos] == n
    }

    ghost predicate NodeOk(n: Node)
      requires n in nodes
      reads this`root, this`sentinel, this`nodes, this`order, nodes
    {
      PosOk(n) && LeftOk(n) && RightOk(n) && UpOk(n)
    }

    ghost predicate Frame()
      reads this`root, this`sentinel, this`nodes, this`order, nodes
    {
      && sentinel !in nodes
      && (if root == sentinel then |order| == 0 else root in nodes && root.lo == 0 && root.hi == |order|)
      && (forall i :: 0 <= i < |order| ==> order[i] in nodes && order[i].pos == i)
    }

    ghost predicate Shape()
      reads this`root, this`sentinel, this`nodes, this`order, nodes
    {
      Frame() && forall n {:trigger NodeOk(n)} :: n in nodes ==> NodeOk(n)
    }

    lemma SoleParent(x: Node, n: Node)
      requires Shape() && x in nodes && n in nodes && (n.left == x || n.right == x)
      ensures x != root && n == x.parent && n != x && (n.left == x ==> n.right != x)
    {
      assert NodeOk(n);
      assert NodeOk(x);
    }

    // ---- rotations ----

    ghost function Kid(n: Node, leftSide: bool): Node?
      reads n
    {
      if leftSide then n.left else n.right
    }

    // What a rotation does: y, x's child on the other side, has taken x's place and x is now
    // y's child on side d (the left side for a left rotation).
    twostate predicate Rotated(d: bool, x: Node, y: Node)
      requires x in old(nodes) && y in old(nodes)
      reads this`root, this`sentinel, this`nodes, this`order, nodes, x, y
    {
      && nodes == old(nodes)
      && y == old(Kid(x, !d))
      && Kid(y, d) == x && Kid(x, !d) == old(Kid(y, d))
      && Kid(x, d) == old(Kid(x, d)) && Kid(y, !d) == old(Kid(y, !d))
      && x.parent == y && y.parent == old(x.parent)
      && root == (if old(root) == x then y else old(root))
      && (forall n :: n in old(nodes) && n != x && n != y ==>
        && n.left == (if old(n.left) == x then y else old(n.left))
        && n.right == (if old(n.right) == x then y else old(n.right))
        && n.parent == (if n == old(Kid(y, d)) then x else old(n.parent)))
    }

    twostate predicate RotatedSpans(d: bool, x: Node, y: Node)
      requires x in old(nodes) && y in old(nodes)
      reads this`root, this`sentinel, this`nodes, this`order, nodes, x, y
    {
      && nodes == old(nodes) && order == old(order) && sentinel == old(sentinel)
      && (forall n :: n in old(nodes) ==> n.pos == old(n.pos))
      && (forall n :: n in old(nodes) && n != x && n != y ==> n.lo == old(n.lo) && n.hi == old(n.hi))
      && y.lo == old(x.lo) && y.hi == old(x.hi)
      && x.lo == (if d then old(x.lo) else y.pos + 1)
      && x.hi == (if d then y.pos else old(x.hi))
    }

    twostate predicate Turn(d: bool, x: Node, y: Node)
      requires x in old(nodes) && y in old(nodes)
      reads this`root, this`sentinel, this`nodes, this`order, nodes, x, y
    {
      && old(Shape()) && y != old(sentinel)
      && Rotated(d, x, y) && RotatedSpans(d, x, y)
    }

    twostate lemma RotatedPos(new d: bool, x: Node, new y: Node)
      requires x in old(nodes) && y in old(nodes) && Turn(d, x, y)
      ensures forall n {:trigger PosOk(n)} :: n in nodes ==> PosOk(n)
    {
      assert old(NodeOk(x)); assert old(NodeOk(y));
      forall n | n in nodes
        ensures PosOk(n)
      {
        assert old(NodeOk(n));
      }
    }

    twostate lemma RotatedLeft(new d: bool, x: Node, new y: Node)
      requires x in old(nodes) && y in old(nodes) && Turn(d, x, y)
      ensures forall n {:trigger LeftOk(n)} :: n in nodes ==> LeftOk(n)
    {
      assert old(NodeOk(x)); assert old(NodeOk(y));
      forall n | n in nodes
        ensures LeftOk(n)
      {
        assert old(NodeOk(n));
      }
    }

    twostate lemma RotatedRight(new d: bool, x: Node, new y: Node)
      requires x in old(nodes) && y in old(nodes) && Turn(d, x, y)
      ensures forall n {:trigger RightOk(n)} :: n in nodes ==> RightOk(n)
    {
      assert old(NodeOk(x)); assert old(NodeOk(y));
      forall n | n in nodes
        ensures RightOk(n)
      {
        assert old(NodeOk(n));
      }
    }

    twostate lemma RotatedUp(new d: bool, x: Node, new y: Node)
      requires x in old(nodes) && y in old(nodes) && Turn(d, x, y)
      ensures forall n {:trigger UpOk(n)} :: n in nodes ==> UpOk(n)
    {
      assert old(NodeOk(x)); assert old(NodeOk(y));
      forall n | n in nodes
        ensures UpOk(n)
      {
        assert old(NodeOk(n));
      }
    }

    twostate lemma RotatedShape(new d: bool, x: Node, new y: Node)
      requires x in old(nodes) && y in old(nodes) && Turn(d, x, y)
      ensures Shape()
    {
      assert old(NodeOk(x)); assert old(NodeOk(y));
      RotatedPos(d, x, y);
      RotatedLeft(d, x, y);
      RotatedRight(d, x, y);
      RotatedUp(d, x, y);
      forall n | n in nodes
        ensures NodeOk(n)
      {
        assert PosOk(n) && LeftOk(n) && RightOk(n) && UpOk(n);
      }
    }

    method LeftRotateLinks(node: Node)
      requires node in nodes && node.right in nodes && node.right.left != null && sentinel !in nodes
      requires node.right != node && node.right.left != node && node.right.left != node.right
      requires node.right.left == sentinel || node.right.left in nodes
      requires node != root ==> node.parent in nodes && node.parent != node && node.parent != node.right
      requires forall n :: n in nodes && (n.left == node || n.right == node) ==> node != root && n == node.parent
      requires node != root ==> ((node.parent.left == node) != (node.parent.right == node))
      requires node.right.hi == node.hi
      modifies this`root, nodes`left, nodes`right, nodes`parent, nodes`lo, nodes`hi
      ensures Rotated(true, node, old(node.right)) && RotatedSpans(true, node, old(node.right))
    {
      var temp := node.right;
      temp.lo := node.lo;
      node.hi := temp.pos;
      node.right := temp.left;
      if temp.left != sentinel {
        temp.left.parent := node;
      }
      temp.parent := node.parent;
      if node == root {
        root := temp;
      } else if node == node.parent.left {
        node.parent.left := temp;
      } else {
        node.parent.right := temp;
      }
      temp.left := node;
      node.parent := temp;
    }

    method LeftRotate(node: Node)
      requires Shape() && node in nodes && node.right != sentinel
      modifies this`root, nodes`left, nodes`right, nodes`parent, nodes`lo, nodes`hi
      ensures Shape()
      ensures old(node.right) in nodes && Rotated(true, node, old(node.right))
      ensures RotatedSpans(true, node, old(node.right))
    {
      assert NodeOk(node);
      ghost var temp := node.right;
      assert NodeOk(temp);
      forall n | n in nodes && (n.left == node || n.right == node)
        ensures node != root && n == node.parent && n != node && (n.left == node ==> n.right != node)
      {
        SoleParent(node, n);
      }
      LeftRotateLinks(node);
      RotatedShape(true, node, temp);
    }

    method RightRotateLinks(node: Node)
      requires node in nodes && node.left in nodes && node.left.right != null && sentinel !in nodes
      requires node.left != node && node.left.right != node && node.left.right != node.left
      requires node.left.right == sentinel || node.left.right in nodes
      requires node != root ==> node.parent in nodes && node.parent != node && node.parent != node.left
      requires forall n :: n in nodes && (n.left == node || n.right == node) ==> node != root && n == node.parent
      requires node != root ==> ((node.parent.left == node) != (node.parent.right == node))
      requires node.left.lo == node.lo
      modifies this`root, nodes`left, nodes`right, nodes`parent, nodes`lo, nodes`hi
      ensures Rotated(false, node, old(node.left)) && RotatedSpans(false, node, old(node.left))
    {
      var temp := node.left;
      temp.hi := node.hi;
      node.lo := temp.pos + 1;
      node.left := temp.right;
      if temp.right != sentinel {
        temp.right.parent := node;
      }
      temp.parent := node.parent;
      if node == root {
        root := temp;
      } else if node == node.parent.right {
        node.parent.right := temp;
      } else {
        node.parent.left := temp;
      }
      temp.right := node;
      node.parent := temp;
    }

    method RightRotate(node: Node)
      requires Shape() && node in nodes && node.left != sentinel
      modifies this`root, nodes`left, nodes`right, nodes`parent, nodes`lo, nodes`hi
      ensures Shape()
      ensures old(node.left) in nodes && Rotated(false, node, old(node.left))
      ensures RotatedSpans(false, node, old(node.left))
    {
      assert NodeOk(node);
      ghost var temp := node.left;
      assert NodeOk(temp);
      forall n | n in nodes && (n.left == node || n.right == node)
        ensures node != root && n == node.parent && n != node && (n.left == node ==> n.right != node)
      {
        SoleParent(node, n);
      }
      RightRotateLinks(node);
      RotatedShape(false, node, temp);
    }

    // ---- colours and black heights ----

    ghost predicate Red(n: Node?)
      reads n
    {
      n != null && n.red
    }

    ghost function Bh(n: Node?): int
      reads this`sentinel, n
    {
      if n == null || n == sentinel then 0 else n.bh
    }

    ghost predicate Balanced(n: Node)
      reads this`sentinel, n, n.left, n.right
    {
      Bh(n.left) == Bh(n.right) && n.bh == Bh(n.left) + (if n.red then 0 else 1)
    }

    // A red node has no red child, except that v may be one.
    ghost predicate Calm(n: Node, v: Node?)
      reads n, n.left, n.right
    {
      n.red ==> (n.left == v || !Red(n.left)) && (n.right == v || !Red(n.right))
    }

    ghost predicate InsertInv(v: Node)
      reads this`root, this`sentinel, this`nodes, this`order, nodes, sentinel
    {
      && Shape() && !sentinel.red && v in nodes && v.red && (root.red ==> root == v)
      && (forall n {:trigger Balanced(n)} :: n in nodes ==> NodeOk(n) && Balanced(n))
      && (forall n {:trigger Calm(n, v)} :: n in nodes ==> NodeOk(n) && Calm(n, v))
    }

    // ---- insert fixup ----

    twostate predicate SameLinks()
      reads this`root, this`sentinel, this`nodes, this`order, nodes, sentinel
    {
      && sentinel.red == old(sentinel.red)
      && nodes == old(nodes) && order == old(order) && sentinel == old(sentinel) && root == old(root)
      && (forall n :: n in old(nodes) ==>
        && n.left == old(n.left) && n.right == old(n.right) && n.parent == old(n.parent)
        && n.lo == old(n.lo) && n.pos == old(n.pos) && n.hi == old(n.hi))
    }

    twostate lemma SameShape()
      requires old(Shape()) && SameLinks()
      ensures Shape()
    {
      forall n | n in nodes
        ensures NodeOk(n)
      {
        assert old(NodeOk(n));
      }
    }

    // The red parent p and uncle u of the red node v have turned black, and their parent g red.
    twostate predicate Recoloured(v: Node, p: Node, u: Node, g: Node)
      requires v in old(nodes) && p in old(nodes) && u in old(nodes) && g in old(nodes)
      reads this`root, this`sentinel, this`nodes, this`order, nodes, sentinel
    {
      && SameLinks()
      && p == old(v.parent) && g == old(p.parent) && u != p && (u == old(g.left) || u == old(g.right))
      && old(p.red) && old(u.red) && p != old(root) && v != old(root)
      && (forall n :: n in old(nodes) ==> n.red == (n == g || (n != p && n != u && old(n.red))))
      && (forall n :: n in old(nodes) ==> n.bh == old(n.bh) + (if n == p || n == u then 1 else 0))
    }

    twostate lemma RecolouredBalanced(v: Node, new p: Node, new u: Node, new g: Node)
      requires old(InsertInv(v)) && p in old(nodes) && u in old(nodes) && g in old(nodes) && Recoloured(v, p, u, g)
      ensures forall n {:trigger Balanced(n)} :: n in nodes ==> Balanced(n)
    {
      assert old(NodeOk(v)); assert old(NodeOk(p)); assert old(NodeOk(u)); assert old(NodeOk(g));
      assert old(Balanced(p)); assert old(Balanced(u)); assert old(Balanced(g));
      assert old(Calm(g, v));
      forall n | n in nodes
        ensures Balanced(n)
      {
        assert old(Balanced(n)); assert old(NodeOk(n));
      }
    }

    twostate lemma RecolouredCalm(v: Node, new p: Node, new u: Node, new g: Node)
      requires old(InsertInv(v)) && p in old(nodes) && u in old(nodes) && g in old(nodes) && Recoloured(v, p, u, g)
      ensures forall n {:trigger Calm(n, g)} :: n in nodes ==> Calm(n, g)
    {
      assert old(NodeOk(v)); assert old(NodeOk(p)); assert old(NodeOk(u)); assert old(NodeOk(g));
      forall n | n in nodes
        ensures Calm(n, g)
      {
        assert old(Calm(n, v)); assert old(NodeOk(n));
      }
    }

    twostate lemma RecolouredInv(v: Node, new p: Node, new u: Node, new g: Node)
      requires old(InsertInv(v)) && p in old(nodes) && u in old(nodes) && g in old(nodes) && Recoloured(v, p, u, g)
      ensures InsertInv(g)
    {
      SameShape();
      RecolouredBalanced(v, p, u, g);
      RecolouredCalm(v, p, u, g);
    }

    method Recolour(node: Node, uncle: Node) returns (next: Node)
      requires InsertInv(node) && node.parent in nodes && node.parent.parent in nodes
      requires node != root && node.parent != root && node.parent.red && uncle in nodes && uncle.red
      requires uncle == node.parent.parent.left || uncle == node.parent.parent.right
      requires uncle != node.parent
      modifies nodes`red, nodes`bh
      ensures next == node.parent.parent && InsertInv(next)
    {
      ghost var p, g := node.parent, node.parent.parent;
      assert p != g && uncle != g by { assert NodeOk(p); assert NodeOk(uncle); assert NodeOk(g); }
      node.parent.red := false;
      uncle.red := false;
      node.parent.parent.red := true;
      next := node.parent.parent;
      p.bh := p.bh + 1;
      uncle.bh := uncle.bh + 1;
      RecolouredInv(node, p, uncle, g);
    }

    // The red node v, an inner grandchild, has been rotated above its red parent p.
    twostate predicate Straightened(d: bool, v: Node, p: Node)
      requires v in old(nodes) && p in old(nodes)
      reads this`root, this`sentinel, this`nodes, this`order, nodes, sentinel, v, p
    {
      && p == old(v.parent) && v != old(root) && p != old(root) && old(p.red)
      && Turn(d, p, v) && sentinel.red == old(sentinel.red)
      && (forall n :: n in old(nodes) ==> n.red == old(n.red) && n.bh == old(n.bh))
    }

    twostate lemma StraightenedBalanced(new d: bool, v: Node, new p: Node)
      requires old(InsertInv(v)) && p in old(nodes) && Straightened(d, v, p)
      ensures forall n {:trigger Balanced(n)} :: n in nodes ==> Balanced(n)
    {
      assert old(NodeOk(v)); assert old(NodeOk(p)); assert old(Balanced(v)); assert old(Balanced(p));
      forall n | n in nodes
        ensures Balanced(n)
      {
        assert old(NodeOk(n)); assert old(Balanced(n));
      }
    }

    twostate lemma StraightenedCalm(new d: bool, v: Node, new p: Node)
      requires old(InsertInv(v)) && p in old(nodes) && Straightened(d, v, p)
      ensures forall n {:trigger Calm(n, p)} :: n in nodes ==> Calm(n, p)
    {
      assert old(NodeOk(v)); assert old(NodeOk(p)); assert old(Calm(v, v)); assert old(Calm(p, v));
      forall n | n in nodes
        ensures Calm(n, p)
      {
        assert old(NodeOk(n)); assert old(Calm(n, v));
      }
    }

    twostate lemma StraightenedInv(new d: bool, v: Node, new p: Node)
      requires old(InsertInv(v)) && p in old(nodes) && Straightened(d, v, p) && Shape()
      ensures InsertInv(p) && p.parent == v
    {
      StraightenedBalanced(d, v, p);
      StraightenedCalm(d, v, p);
    }

    // The red parent p of v has turned black and been rotated above its parent g, now red.
    twostate predicate Lifted(d: bool, v: Node, p: Node, g: Node)
      requires v in old(nodes) && p in old(nodes) && g in old(nodes)
      reads this`root, this`sentinel, this`nodes, this`order, nodes, sentinel, v, p, g
    {
      && p == old(v.parent) && g == old(p.parent) && v != old(root) && p != old(root) && old(p.red)
      && v == old(Kid(p, !d)) && !old(Red(Kid(g, d)))
      && Turn(d, g, p) && sentinel.red == old(sentinel.red)
      && (forall n :: n in old(nodes) ==> n.red == (n == g || (n != p && old(n.red))))
      && (forall n :: n in old(nodes) ==> n.bh == old(n.bh) + (if n == p then 1 else if n == g then -1 else 0))
    }

    twostate lemma LiftedBalanced(new d: bool, v: Node, new p: Node, new g: Node)
      requires old(InsertInv(v)) && p in old(nodes) && g in old(nodes) && Lifted(d, v, p, g)
      ensures forall n {:trigger Balanced(n)} :: n in nodes ==> Balanced(n)
    {
      assert old(NodeOk(v)); assert old(NodeOk(p)); assert old(NodeOk(g));
      assert old(Balanced(p)); assert old(Balanced(g)); assert old(Calm(g, v));
      forall n | n in nodes
        ensures Balanced(n)
      {
        assert old(NodeOk(n)); assert old(Balanced(n));
      }
    }

    twostate lemma LiftedCalm(new d: bool, v: Node, new p: Node, new g: Node)
      requires old(InsertInv(v)) && p in old(nodes) && g in old(nodes) && Lifted(d, v, p, g)
      ensures forall n {:trigger Calm(n, v)} :: n in nodes ==> Calm(n, v)
    {
      assert old(NodeOk(v)); assert old(NodeOk(p)); assert old(NodeOk(g)); assert old(Calm(p, v));
      forall n | n in nodes
        ensures Calm(n, v)
      {
        assert old(NodeOk(n)); assert old(Calm(n, v));
      }
    }

    twostate lemma LiftedInv(new d: bool, v: Node, new p: Node, new g: Node)
      requires old(InsertInv(v)) && p in old(nodes) && g in old(nodes) && Lifted(d, v, p, g) && Shape()
      ensures InsertInv(v) && v.parent == p && !p.red
    {
      LiftedBalanced(d, v, p, g);
      LiftedCalm(d, v, p, g);
      assert old(NodeOk(v)); assert old(NodeOk(p)); assert old(Calm(g, v));
    }

    // up turns black and down red, their black heights following.
    method Exchange(up: Node, down: Node)
      requires up in nodes && down in nodes && up != down
      modifies nodes`red, nodes`bh
      ensures forall n :: n in nodes ==>
        && n.red == (n == down || (n != up && old(n.red)))
        && n.bh == old(n.bh) + (if n == up then 1 else if n == down then -1 else 0)
    {
      up.red := false;
      down.red := true;
      up.bh := up.bh + 1;
      down.bh := down.bh - 1;
    }

    method LiftRight(node: Node)
      requires InsertInv(node) && node.parent in nodes && node.parent.parent in nodes
      requires node != root && node.parent != root && node.parent.red
      requires node == node.parent.left && node.parent == node.parent.parent.left && !Red(node.parent.parent.right)
      modifies this`root, nodes`left, nodes`right, nodes`parent, nodes`red, nodes`lo, nodes`hi, nodes`bh
      ensures InsertInv(node) && node.parent in nodes && !node.parent.red
    {
      ghost var p, g := node.parent, node.parent.parent;
      assert p != g && g.left != sentinel by { assert NodeOk(p); assert NodeOk(g); }
      Exchange(node.parent, node.parent.parent);
      SameShape();
      RightRotate(node.parent.parent);
      LiftedInv(false, node, p, g);
    }

    method LiftLeft(node: Node)
      requires InsertInv(node) && node.parent in nodes && node.parent.parent in nodes
      requires node != root && node.parent != root && node.parent.red
      requires node == node.parent.right && node.parent == node.parent.parent.right && !Red(node.parent.parent.left)
      modifies this`root, nodes`left, nodes`right, nodes`parent, nodes`red, nodes`lo, nodes`hi, nodes`bh
      ensures InsertInv(node) && node.parent in nodes && !node.parent.red
    {
      ghost var p, g := node.parent, node.parent.parent;
      assert p != g && g.right != sentinel by { assert NodeOk(p); assert NodeOk(g); }
      Exchange(node.parent, node.parent.parent);
      SameShape();
      LeftRotate(node.parent.parent);
      LiftedInv(true, node, p, g);
    }

    method StraightenLeft(v: Node) returns (node: Node)
      requires InsertInv(v) && v.parent in nodes && v.parent.parent in nodes
      requires v != root && v.parent != root && v.parent.red
      requires v == v.parent.right && v.parent == v.parent.parent.left
      modifies this`root, nodes`left, nodes`right, nodes`parent, nodes`lo, nodes`hi
      ensures InsertInv(node) && node == old(v.parent) && node.parent == v && v.parent == old(v.parent.parent)
      ensures node == v.left && v == v.parent.left && v.parent.right == old(v.parent.parent.right)
      ensures v.parent in nodes && v != root && node != root
    {
      ghost var g := v.parent.parent;
      assert NodeOk(v); assert NodeOk(v.parent); assert NodeOk(g);
      node := v.parent;
      LeftRotate(node);
      StraightenedInv(true, v, node);
      assert NodeOk(g);
    }

    method StraightenRight(v: Node) returns (node: Node)
      requires InsertInv(v) && v.parent in nodes && v.parent.parent in nodes
      requires v != root && v.parent != root && v.parent.red
      requires v == v.parent.left && v.parent == v.parent.parent.right
      modifies this`root, nodes`left, nodes`right, nodes`parent, nodes`lo, nodes`hi
      ensures InsertInv(node) && node == old(v.parent) && node.parent == v && v.parent == old(v.parent.parent)
      ensures node == v.right && v == v.parent.right && v.parent.left == old(v.parent.parent.left)
      ensures v.parent in nodes && v != root && node != root
    {
      ghost var g := v.parent.parent;
      assert NodeOk(v); assert NodeOk(v.parent); assert NodeOk(g);
      node := v.parent;
      RightRotate(node);
      StraightenedInv(false, v, node);
      assert NodeOk(g);
    }

    ghost function Size(n: Node): int
      reads n
    {
      n.hi - n.lo
    }

    // ---- the whole invariant ----

    ghost predicate RedBlack()
      reads this`root, this`sentinel, this`nodes, this`order, nodes, sentinel, root
    {
      && Shape() && !sentinel.red && !root.red
      && (forall n {:trigger Balanced(n)} :: n in nodes ==> NodeOk(n) && Balanced(n))
      && (forall n {:trigger Calm(n, null)} :: n in nodes ==> NodeOk(n) && Calm(n, null))
    }

    twostate lemma RootPainted(v: Node)
      requires old(InsertInv(v)) && SameLinks() && (v == root || !old(Red(v.parent)))
      requires forall n :: n in old(nodes) ==> n.red == (n != root && old(n.red))
      requires forall n :: n in old(nodes) ==> n.bh == old(n.bh) + (if n == root && old(root.red) then 1 else 0)
      ensures RedBlack()
    {
      SameShape();
      forall n | n in nodes
        ensures NodeOk(n) && Balanced(n)
      {
        assert old(NodeOk(n)); assert old(Balanced(n)); assert NodeOk(n);
      }
      forall n | n in nodes
        ensures Calm(n, null)
      {
        assert old(NodeOk(n)); assert old(Calm(n, v));
      }
    }

    method PaintRoot(ghost v: Node)
      requires InsertInv(v) && (v == root || !Red(v.parent))
      modifies nodes`red, nodes`bh
      ensures RedBlack()
    {
      assert NodeOk(v);
      ghost var wasRed := root.red;
      root.red := false;
      root.bh := root.bh + if wasRed then 1 else 0;
      RootPainted(v);
    }

    // One turn of the re-balancing loop of insert when the red parent is a left child.
    method InsertFixLeft(v: Node) returns (node: Node, ghost rotations: nat)
      requires InsertInv(v) && v != root && v.parent in nodes && v.parent.red
      requires v.parent != root && v.parent.parent in nodes && v.parent == v.parent.parent.left
      modifies this`root, nodes`left, nodes`right, nodes`parent, nodes`red, nodes`lo, nodes`hi, nodes`bh
      ensures InsertInv(node) && rotations <= 2
      ensures if rotations == 0 then Size(node) > old(Size(v)) else node == root || !Red(node.parent)
    {
      assert NodeOk(v); assert NodeOk(v.parent); assert NodeOk(v.parent.parent);
      node := v;
      rotations := 0;
      var temp := node.parent.parent.right;
      if temp.red {
        node := Recolour(node, temp);
      } else {
        if node == node.parent.right {
          node := StraightenLeft(node);
          rotations := rotations + 1;
        }
        LiftRight(node);
        rotations := rotations + 1;
      }
    }

    // One turn of the re-balancing loop of insert when the red parent is a right child.
    method InsertFixRight(v: Node) returns (node: Node, ghost rotations: nat)
      requires InsertInv(v) && v != root && v.parent in nodes && v.parent.red
      requires v.parent != root && v.parent.parent in nodes && v.parent == v.parent.parent.right
      modifies this`root, nodes`left, nodes`right, nodes`parent, nodes`red, nodes`lo, nodes`hi, nodes`bh
      ensures InsertInv(node) && rotations <= 2
      ensures if rotations == 0 then Size(node) > old(Size(v)) else node == root || !Red(node.parent)
    {
      assert NodeOk(v); assert NodeOk(v.parent); assert NodeOk(v.parent.parent);
      node := v;
      rotations := 0;
      var temp := node.parent.parent.left;
      if temp.red {
        node := Recolour(node, temp);
      } else {
        if node == node.parent.left {
          node := StraightenRight(node);
          rotations := rotations + 1;
        }
        LiftLeft(node);
        rotations := rotations + 1;
      }
    }

    // src/nc_rbtree.c, the re-balancing loop of insert
    method InsertFixup(start: Node) returns (ghost rotations: nat)
      requires InsertInv(start)
      modifies this`root, nodes`left, nodes`right, nodes`parent, nodes`red, nodes`lo, nodes`hi, nodes`bh
      ensures RedBlack() && rotations <= 2
    {
      var node := start;
      rotations := 0;
      assert NodeOk(node);
      while node != root && node.parent.red
        invariant InsertInv(node) && (node != root ==> node.parent in nodes)
        invariant rotations <= 2 && (rotations > 0 ==> node == root || !Red(node.parent))
        decreases if node == root || !node.parent.red then 0 else |order| - Size(node) + 1
      {
        assert NodeOk(node); assert NodeOk(node.parent);
        ghost var turns: nat;
        if node.parent == node.parent.parent.left {
          node, turns := InsertFixLeft(node);
        } else {
          node, turns := InsertFixRight(node);
        }
        rotations := rotations + turns;
        assert NodeOk(node);
      }
      PaintRoot(node);
    }

    // ---- attaching a new leaf ----

    ghost function Gap(t: Node, d: bool): int
      reads t
    {
      if d then t.pos else t.pos + 1
    }

    // v has become t's child on side d, a red leaf, and every position has made room for it.
    twostate predicate Attached(d: bool, v: Node, t: Node)
      requires t in old(nodes)
      reads this`root, this`sentinel, this`nodes, this`order, nodes, sentinel, v
    {
      var k := old(Gap(t, d));
      && old(Shape()) && v !in old(nodes) && v != old(sentinel) && old(Kid(t, d)) == old(sentinel)
      && 0 <= k <= |old(order)|
      && sentinel == old(sentinel) && root == old(root) && sentinel.red == old(sentinel.red)
      && nodes == old(nodes) + {v}
      && order == old(order)[..k] + [v] + old(order)[k..]
      && v.left == sentinel && v.right == sentinel && v.parent == t && v.lo == k && v.pos == k && v.hi == k + 1
      && v.red && v.bh == 0
      && (forall n :: n in old(nodes) ==>
        && n.left == (if n == t && d then v else old(n.left))
        && n.right == (if n == t && !d then v else old(n.right))
        && n.parent == old(n.parent) && n.red == old(n.red) && n.bh == old(n.bh)
        && n.lo == old(n.lo) + (if old(n.lo) > old(t.pos) then 1 else 0)
        && n.hi == old(n.hi) + (if old(n.hi) > old(t.pos) then 1 else 0)
        && n.pos == old(n.pos) + (if old(n.pos) >= k then 1 else 0))
    }

    twostate lemma AttachedFrame(new d: bool, v: Node, new t: Node)
      requires t in old(nodes) && Attached(d, v, t)
      ensures Frame()
    {
      assert old(NodeOk(t));
      forall i | 0 <= i < |order|
        ensures order[i] in nodes && order[i].pos == i
      {
        var k := old(Gap(t, d));
        assert i > k ==> order[i] == old(order)[i - 1];
        assert i < k ==> order[i] == old(order)[i];
      }
    }

    twostate lemma AttachedPos(new d: bool, v: Node, new t: Node)
      requires t in old(nodes) && Attached(d, v, t)
      ensures forall n {:trigger PosOk(n)} :: n in nodes ==> PosOk(n)
    {
      assert old(NodeOk(t));
      forall n | n in nodes
        ensures PosOk(n)
      {
        if n != v {
          assert old(NodeOk(n));
          assert old(order)[old(n.pos)] == n;
        }
      }
    }

    twostate lemma AttachedLeft(new d: bool, v: Node, new t: Node)
      requires t in old(nodes) && Attached(d, v, t)
      ensures forall n {:trigger LeftOk(n)} :: n in nodes ==> LeftOk(n)
    {
      assert old(NodeOk(t));
      forall n | n in nodes
        ensures LeftOk(n)
      {
        if n != v {
          assert old(NodeOk(n));
          assert old(order)[old(n.pos)] == n;
        }
      }
    }

    twostate lemma AttachedRight(new d: bool, v: Node, new t: Node)
      requires t in old(nodes) && Attached(d, v, t)
      ensures forall n {:trigger RightOk(n)} :: n in nodes ==> RightOk(n)
    {
      assert old(NodeOk(t));
      forall n | n in nodes
        ensures RightOk(n)
      {
        if n != v {
          assert old(NodeOk(n));
          assert old(order)[old(n.pos)] == n;
        }
      }
    }

    twostate lemma AttachedShape(new d: bool, v: Node, new t: Node)
      requires t in old(nodes) && Attached(d, v, t)
      ensures Shape()
    {
      AttachedFrame(d, v, t);
      AttachedPos(d, v, t);
      AttachedLeft(d, v, t);
      AttachedRight(d, v, t);
      forall n | n in nodes
        ensures NodeOk(n)
      {
        assert PosOk(n) && LeftOk(n) && RightOk(n);
        if n != v {
          assert old(NodeOk(n));
        }
      }
    }

    twostate lemma AttachedColours(new d: bool, v: Node, new t: Node)
      requires t in old(nodes) && Attached(d, v, t) && old(RedBlack())
      ensures forall n {:trigger Balanced(n)} :: n in nodes ==> Balanced(n)
      ensures forall n {:trigger Calm(n, v)} :: n in nodes ==> Calm(n, v)
    {
      hide PosOk;
      forall n | n in nodes
        ensures Balanced(n) && Calm(n, v)
      {
        if n != v {
          assert old(NodeOk(n)); assert old(Balanced(n)); assert old(Calm(n, null));
        }
      }
    }

    twostate lemma AttachedInv(new d: bool, v: Node, new t: Node)
      requires t in old(nodes) && Attached(d, v, t) && old(RedBlack())
      ensures InsertInv(v)
    {
      hide PosOk, LeftOk, RightOk, UpOk, Balanced, Calm;
      AttachedShape(d, v, t);
      AttachedColours(d, v, t);
    }

    ghost method MakeRoom(t: int, k: int)
      modifies nodes`lo, nodes`pos, nodes`hi
      ensures forall n :: n in nodes ==>
        && n.lo == old(n.lo) + (if old(n.lo) > t then 1 else 0)
        && n.hi == old(n.hi) + (if old(n.hi) > t then 1 else 0)
        && n.pos == old(n.pos) + (if old(n.pos) >= k then 1 else 0)
    {
      forall n | n in nodes {
        n.lo := n.lo + if n.lo > t then 1 else 0;
      }
      forall n | n in nodes {
        n.hi := n.hi + if n.hi > t then 1 else 0;
      }
      forall n | n in nodes {
        n.pos := n.pos + if n.pos >= k then 1 else 0;
      }
    }

    method LinkLeaf(node: Node, temp: Node, goLeft: bool)
      requires node !in nodes && node != sentinel && temp in nodes
      modifies nodes`left, nodes`right, node`left, node`right, node`parent, node`red
      ensures node.parent == temp && node.left == sentinel && node.right == sentinel && node.red
      ensures forall n :: n in nodes ==>
        && n.left == (if n == temp && goLeft then node else old(n.left))
        && n.right == (if n == temp && !goLeft then node else old(n.right))
        && n.parent == old(n.parent) && n.red == old(n.red)
    {
      if goLeft {
        temp.left := node;
      } else {
        temp.right := node;
      }
      node.parent := temp;
      node.left := sentinel;
      node.right := sentinel;
      node.red := true;
    }

    method Graft(node: Node, temp: Node, goLeft: bool)
      requires Shape() && node !in nodes && node != sentinel && temp in nodes
      requires Kid(temp, goLeft) == sentinel
      modifies this`nodes, this`order, nodes`left, nodes`right, nodes`lo, nodes`pos, nodes`hi
      modifies node`left, node`right, node`parent, node`red, node`lo, node`pos, node`hi, node`bh
      ensures temp in old(nodes) && Attached(goLeft, node, temp)
    {
      assert 0 <= temp.pos < |order| && sentinel !in nodes by { assert NodeOk(temp); }
      hide Shape;
      ghost var t, k := temp.pos, Gap(temp, goLeft);
      LinkLeaf(node, temp, goLeft);
      MakeRoom(t, k);
      node.lo, node.pos, node.hi, node.bh := k, k, k + 1, 0;
      nodes := nodes + {node};
      order := order[..k] + [node] + order[k..];
    }

    method Attach(node: Node, temp: Node, goLeft: bool)
      requires RedBlack() && node !in nodes && node != sentinel && temp in nodes
      requires Kid(temp, goLeft) == sentinel
      modifies this`nodes, this`order, nodes`left, nodes`right, nodes`lo, nodes`pos, nodes`hi
      modifies node`left, node`right, node`parent, node`red, node`lo, node`pos, node`hi, node`bh
      ensures InsertInv(node)
      ensures nodes == old(nodes) + {node}
      ensures var k := old(Gap(temp, goLeft));
        0 <= k <= |old(order)| && order == old(order)[..k] + [node] + old(order)[k..]
    {
      hide Shape, Balanced, Calm, InsertInv;
      Graft(node, temp, goLeft);
      AttachedInv(goLeft, node, temp);
    }

    // ---- delete fixup ----

    // n, the parent of t, counts one black node fewer on t's side than on the other.
    ghost predicate Short(n: Node, t: Node)
      reads this`sentinel, n, n.left, n.right, t
    {
      var other := if n.left == t then n.right else n.left;
      Bh(t) + 1 == Bh(other) && n.bh == Bh(other) + (if n.red then 0 else 1)
    }

    ghost predicate Even(n: Node, t: Node)
      reads this`root, this`sentinel, n, n.left, n.right, t
    {
      if t != root && n == t.parent then Short(n, t) else Balanced(n)
    }

    // A red node other than t has no red child, except that t may be one.
    ghost predicate Quiet(n: Node, t: Node)
      reads n, n.left, n.right
    {
      n.red && n != t ==> (n.left == t || !Red(n.left)) && (n.right == t || !Red(n.right))
    }

    ghost predicate AtSlot(t: Node)
      reads this`root, this`sentinel, this`nodes, this`order, nodes, sentinel
    {
      && (t == sentinel || t in nodes)
      && (t != root ==> t.parent in nodes && (t.parent.left == t || t.parent.right == t))
    }

    ghost predicate DeleteInv(t: Node)
      reads this`root, this`sentinel, this`nodes, this`order, nodes, sentinel
    {
      && Shape() && !sentinel.red && root in nodes && AtSlot(t) && (root.red ==> root == t)
      && (forall n {:trigger Even(n, t)} :: n in nodes ==> NodeOk(n) && Even(n, t))
      && (forall n {:trigger Quiet(n, t)} :: n in nodes ==> NodeOk(n) && Quiet(n, t))
    }

    twostate predicate SameSentinel()
      reads this`sentinel, sentinel
    {
      sentinel == old(sentinel) && sentinel.red == old(sentinel.red) && sentinel.parent == old(sentinel.parent)
    }

    // The red sibling w of t has turned black and been rotated above the parent p, now red.
    twostate predicate RedSibling(d: bool, t: Node, p: Node, w: Node)
      requires p in old(nodes) && w in old(nodes)
      reads this`root, this`sentinel, this`nodes, this`order, nodes, sentinel, p, w
    {
      && old(DeleteInv(t)) && t != old(root) && p == old(t.parent) && t == old(Kid(p, d)) && !old(t.red) && old(w.red)
      && Turn(d, p, w) && SameSentinel()
      && (forall n :: n in old(nodes) ==> n.red == (n == p || (n != w && old(n.red))))
      && (forall n :: n in old(nodes) ==> n.bh == old(n.bh) + (if n == p then -1 else if n == w then 1 else 0))
    }

    twostate lemma RedSiblingEven(new d: bool, t: Node, new p: Node, new w: Node)
      requires p in old(nodes) && w in old(nodes) && RedSibling(d, t, p, w)
      ensures forall n {:trigger Even(n, t)} :: n in nodes ==> Even(n, t)
    {
      assert old(NodeOk(p)); assert old(NodeOk(w)); assert old(Even(p, t)); assert old(Even(w, t));
      assert old(Quiet(p, t));
      assert old(t in nodes ==> NodeOk(t));
      forall n | n in nodes
        ensures Even(n, t)
      {
        assert old(NodeOk(n)); assert old(Even(n, t));
      }
    }

    twostate lemma RedSiblingQuiet(new d: bool, t: Node, new p: Node, new w: Node)
      requires p in old(nodes) && w in old(nodes) && RedSibling(d, t, p, w)
      ensures forall n {:trigger Quiet(n, t)} :: n in nodes ==> Quiet(n, t)
    {
      assert old(NodeOk(p)); assert old(NodeOk(w)); assert old(Quiet(p, t)); assert old(Quiet(w, t));
      forall n | n in nodes
        ensures Quiet(n, t)
      {
        assert old(NodeOk(n)); assert old(Quiet(n, t));
      }
    }

    twostate lemma RedSiblingInv(new d: bool, t: Node, new p: Node, new w: Node)
      requires p in old(nodes) && w in old(nodes) && RedSibling(d, t, p, w) && Shape()
      ensures DeleteInv(t) && t != root && t.parent == p && Kid(p, d) == t && p.red
    {
      assert old(NodeOk(p)); assert old(NodeOk(w)); assert old(t in nodes ==> NodeOk(t)); assert old(Quiet(w, t));
      RedSiblingEven(d, t, p, w);
      RedSiblingQuiet(d, t, p, w);
    }

    // The black sibling w of t, with no red child, has turned red: now p is the short one.
    twostate predicate PushedUp(t: Node, p: Node, w: Node)
      requires p in old(nodes) && w in old(nodes)
      reads this`root, this`sentinel, this`nodes, this`order, nodes, sentinel
    {
      && old(DeleteInv(t)) && t != old(root) && p == old(t.parent) && w != t && !old(t.red)
      && (w == old(p.left) || w == old(p.right)) && !old(w.red) && !old(Red(w.left)) && !old(Red(w.right))
      && SameLinks() && SameSentinel()
      && (forall n :: n in old(nodes) ==> n.red == (n == w || old(n.red)))
      && (forall n :: n in old(nodes) ==> n.bh == old(n.bh) - (if n == p || n == w then 1 else 0))
    }

    twostate lemma PushedUpEven(t: Node, new p: Node, new w: Node)
      requires p in old(nodes) && w in old(nodes) && PushedUp(t, p, w)
      ensures forall n {:trigger Even(n, p)} :: n in nodes ==> Even(n, p)
    {
      hide Quiet;
      assert old(NodeOk(p)); assert old(NodeOk(w));
      assert Even(p, p) && Even(w, p) by {
        assert old(Even(p, t)); assert old(Even(w, t));
      }
      forall n | n in nodes
        ensures Even(n, p)
      {
        if n != p && n != w {
          assert old(NodeOk(n)); assert old(Even(n, t));
        }
      }
    }

    twostate lemma PushedUpQuiet(t: Node, new p: Node, new w: Node)
      requires p in old(nodes) && w in old(nodes) && PushedUp(t, p, w)
      ensures forall n {:trigger Quiet(n, p)} :: n in nodes ==> Quiet(n, p)
    {
      assert old(NodeOk(p)); assert old(NodeOk(w));
      forall n | n in nodes
        ensures Quiet(n, p)
      {
        assert old(NodeOk(n)); assert old(Quiet(n, t));
      }
    }

    twostate lemma PushedUpInv(t: Node, new p: Node, new w: Node)
      requires p in old(nodes) && w in old(nodes) && PushedUp(t, p, w)
      ensures DeleteInv(p)
    {
      SameShape();
      assert old(NodeOk(p)); assert old(NodeOk(w));
      PushedUpEven(t, p, w);
      PushedUpQuiet(t, p, w);
    }

    // The red near nephew a has turned black and been rotated above its parent w, now red.
    twostate predicate NearNephew(d: bool, t: Node, p: Node, w: Node, a: Node)
      requires p in old(nodes) && w in old(nodes) && a in old(nodes)
      reads this`root, this`sentinel, this`nodes, this`order, nodes, sentinel, p, w, a
    {
      && old(DeleteInv(t)) && t != old(root) && p == old(t.parent) && t == old(Kid(p, d)) && !old(t.red)
      && w == old(Kid(p, !d)) && !old(w.red) && old(a.red) && !old(Red(Kid(w, !d)))
      && Turn(!d, w, a) && SameSentinel()
      && (forall n :: n in old(nodes) ==> n.red == (n == w || (n != a && old(n.red))))
      && (forall n :: n in old(nodes) ==> n.bh == old(n.bh) + (if n == w then -1 else if n == a then 1 else 0))
    }

    twostate lemma NearNephewPair(new d: bool, t: Node, new p: Node, new w: Node, new a: Node)
      requires p in old(nodes) && w in old(nodes) && a in old(nodes) && NearNephew(d, t, p, w, a)
      ensures a.bh == old(w.bh) && Even(w, t) && Even(a, t)
    {
      hide Quiet;
      assert old(NodeOk(p)); assert old(NodeOk(w)); assert old(NodeOk(a)); assert old(t in nodes ==> NodeOk(t));
      assert old(Even(w, t)); assert old(Even(a, t));
    }

    twostate lemma NearNephewOther(new d: bool, t: Node, new p: Node, new w: Node, new a: Node, new n: Node)
      requires p in old(nodes) && w in old(nodes) && a in old(nodes) && NearNephew(d, t, p, w, a)
      requires n in nodes && n != w && n != a && a.bh == old(w.bh)
      ensures Even(n, t)
    {
      hide Quiet;
      assert old(NodeOk(p)); assert old(NodeOk(w)); assert old(NodeOk(a)); assert old(NodeOk(n));
      assert old(Even(n, t));
    }

    twostate lemma NearNephewEven(new d: bool, t: Node, new p: Node, new w: Node, new a: Node)
      requires p in old(nodes) && w in old(nodes) && a in old(nodes) && NearNephew(d, t, p, w, a)
      ensures forall n {:trigger Even(n, t)} :: n in nodes ==> Even(n, t)
    {
      hide Even, NearNephew;
      NearNephewPair(d, t, p, w, a);
      forall n | n in nodes
        ensures Even(n, t)
      {
        if n != w && n != a {
          NearNephewOther(d, t, p, w, a, n);
        }
      }
    }

    twostate lemma NearNephewQuiet(new d: bool, t: Node, new p: Node, new w: Node, new a: Node)
      requires p in old(nodes) && w in old(nodes) && a in old(nodes) && NearNephew(d, t, p, w, a)
      ensures forall n {:trigger Quiet(n, t)} :: n in nodes ==> Quiet(n, t)
    {
      assert old(NodeOk(p)); assert old(NodeOk(w)); assert old(NodeOk(a)); assert old(Quiet(a, t));
      forall n | n in nodes
        ensures Quiet(n, t)
      {
        assert old(NodeOk(n)); assert old(Quiet(n, t));
      }
    }

    twostate lemma NearNephewInv(new d: bool, t: Node, new p: Node, new w: Node, new a: Node)
      requires p in old(nodes) && w in old(nodes) && a in old(nodes) && NearNephew(d, t, p, w, a) && Shape()
      ensures DeleteInv(t) && t != root && t.parent == p && Kid(p, d) == t && Kid(p, !d) == a
      ensures !a.red && Kid(a, !d) == w && w.red
    {
      assert old(NodeOk(p)); assert old(NodeOk(w)); assert old(NodeOk(a)); assert old(t in nodes ==> NodeOk(t));
      NearNephewEven(d, t, p, w, a);
      NearNephewQuiet(d, t, p, w, a);
    }

    // The sibling w has taken over p's colour and place, p and the far nephew f being black now.
    twostate predicate Closed(d: bool, t: Node, p: Node, w: Node, f: Node)
      requires p in old(nodes) && w in old(nodes) && f in old(nodes)
      reads this`root, this`sentinel, this`nodes, this`order, nodes, sentinel, p, w, f
    {
      && old(DeleteInv(t)) && t != old(root) && p == old(t.parent) && t == old(Kid(p, d)) && !old(t.red)
      && w == old(Kid(p, !d)) && !old(w.red) && f == old(Kid(w, !d)) && old(f.red)
      && Turn(d, p, w) && SameSentinel()
      && (forall n :: n in old(nodes) ==> n.red == (if n == w then old(p.red) else n != p && n != f && old(n.red)))
      && (forall n :: n in old(nodes) ==> n.bh == (if n == w then old(p.bh) else if n == p then old(w.bh) else
                                                   old(n.bh) + if n == f then 1 else 0))
    }

    twostate lemma ClosedThree(new d: bool, t: Node, new p: Node, new w: Node, new f: Node)
      requires p in old(nodes) && w in old(nodes) && f in old(nodes) && Closed(d, t, p, w, f)
      ensures Balanced(w) && Balanced(p) && Balanced(f)
    {
      hide Quiet;
      assert old(NodeOk(p)); assert old(NodeOk(w)); assert old(NodeOk(f)); assert old(t in nodes ==> NodeOk(t));
      assert old(Even(w, t)); assert old(Even(f, t)); assert old(Even(p, t));
    }

    twostate lemma ClosedOther(new d: bool, t: Node, new p: Node, new w: Node, new f: Node, new n: Node)
      requires p in old(nodes) && w in old(nodes) && f in old(nodes) && Closed(d, t, p, w, f)
      requires n in nodes && n != w && n != p && n != f
      ensures Balanced(n)
    {
      hide Quiet;
      assert old(NodeOk(p)); assert old(NodeOk(w)); assert old(NodeOk(f)); assert old(NodeOk(n));
      assert old(Even(n, t)); assert old(Even(p, t)); assert old(Even(w, t));
    }

    twostate lemma ClosedBalanced(new d: bool, t: Node, new p: Node, new w: Node, new f: Node)
      requires p in old(nodes) && w in old(nodes) && f in old(nodes) && Closed(d, t, p, w, f)
      ensures forall n {:trigger Balanced(n)} :: n in nodes ==> Balanced(n)
    {
      hide Balanced, Closed;
      ClosedThree(d, t, p, w, f);
      forall n | n in nodes
        ensures Balanced(n)
      {
        if n != w && n != p && n != f {
          ClosedOther(d, t, p, w, f, n);
        }
      }
    }

    twostate lemma ClosedCalm(new d: bool, t: Node, new p: Node, new w: Node, new f: Node)
      requires p in old(nodes) && w in old(nodes) && f in old(nodes) && Closed(d, t, p, w, f)
      ensures forall n {:trigger Calm(n, null)} :: n in nodes ==> Calm(n, null)
    {
      assert old(NodeOk(p)); assert old(NodeOk(w)); assert old(NodeOk(f));
      forall n | n in nodes
        ensures Calm(n, null)
      {
        assert old(NodeOk(n)); assert old(Quiet(n, t));
      }
    }

    twostate lemma ClosedInv(new d: bool, t: Node, new p: Node, new w: Node, new f: Node)
      requires p in old(nodes) && w in old(nodes) && f in old(nodes) && Closed(d, t, p, w, f) && Shape()
      ensures DeleteInv(root) && !root.red
    {
      assert old(NodeOk(p)); assert old(NodeOk(w));
      ClosedBalanced(d, t, p, w, f);
      ClosedCalm(d, t, p, w, f);
      forall n | n in nodes
        ensures Even(n, root)
      {
        assert Balanced(n);
      }
      forall n | n in nodes
        ensures Quiet(n, root)
      {
        assert NodeOk(n); assert Calm(n, null);
      }
    }

    method PushUp(temp: Node, w: Node) returns (next: Node)
      requires DeleteInv(temp) && temp != root && !temp.red && w in nodes && w != temp
      requires (w == temp.parent.left || w == temp.parent.right) && !w.red && !Red(w.left) && !Red(w.right)
      modifies nodes`red, nodes`bh
      ensures next == temp.parent && DeleteInv(next) && next.red == old(next.red)
    {
      ghost var p := temp.parent;
      assert p != w by { assert NodeOk(p); assert NodeOk(w); }
      w.red := true;
      next := temp.parent;
      w.bh := w.bh - 1;
      p.bh := p.bh - 1;
      PushedUpInv(temp, p, w);
    }

    method SiblingRedLeft(temp: Node, sib: Node) returns (w: Node)
      requires DeleteInv(temp) && temp != root && !temp.red && temp == temp.parent.left
      requires sib == temp.parent.right && sib in nodes && sib.red
      modifies this`root, nodes`left, nodes`right, nodes`parent, nodes`red, nodes`lo, nodes`hi, nodes`bh
      ensures DeleteInv(temp) && temp != root && temp.parent == old(temp.parent) && temp == temp.parent.left
      ensures w == temp.parent.right && !Red(w) && temp.parent.red && !temp.red
      ensures Size(temp.parent) <= old(Size(temp.parent)) && temp.lo == old(temp.lo) && temp.hi == old(temp.hi)
    {
      ghost var p := temp.parent;
      w := sib;
      assert p != w && temp != p && temp != w by {
        assert NodeOk(p); assert NodeOk(w); assert temp in nodes ==> NodeOk(temp);
      }
      assert !Red(w.left) && !Red(w.right) by { assert Quiet(w, temp); assert NodeOk(w); }
      Exchange(w, temp.parent);
      SameShape();
      LeftRotate(temp.parent);
      RedSiblingInv(true, temp, p, w);
      w := temp.parent.right;
    }

    method NearNephewLeft(temp: Node, sib: Node) returns (w: Node)
      requires DeleteInv(temp) && temp != root && !temp.red && temp == temp.parent.left
      requires sib == temp.parent.right && sib in nodes && !sib.red && Red(sib.left) && !Red(sib.right)
      modifies this`root, nodes`left, nodes`right, nodes`parent, nodes`red, nodes`lo, nodes`hi, nodes`bh
      ensures DeleteInv(temp) && temp != root && temp.parent == old(temp.parent) && temp == temp.parent.left
      ensures w == temp.parent.right && w in nodes && !w.red && Red(w.right) && !temp.red
    {
      ghost var p, a := temp.parent, sib.left;
      w := sib;
      assert p != w && w != a && a in nodes && temp != w by { assert NodeOk(p); assert NodeOk(w); }
      Exchange(w.left, w);
      SameShape();
      RightRotate(w);
      NearNephewInv(true, temp, p, sib, a);
      w := temp.parent.right;
    }

    // w takes over the colour of p, and p and f turn black.
    method HandOver(p: Node, w: Node, f: Node)
      requires p in nodes && w in nodes && f in nodes && p != w && w != f && p != f
      modifies nodes`red, nodes`bh
      ensures forall n :: n in nodes ==>
        && n.red == (if n == w then old(p.red) else n != p && n != f && old(n.red))
        && n.bh == (if n == w then old(p.bh) else if n == p then old(w.bh) else old(n.bh) + if n == f then 1 else 0)
    {
      w.red := p.red;
      p.red := false;
      f.red := false;
      p.bh, w.bh := w.bh, p.bh;
      f.bh := f.bh + 1;
    }

    method CloseLeft(temp: Node, w: Node)
      requires DeleteInv(temp) && temp != root && !temp.red && temp == temp.parent.left
      requires w == temp.parent.right && w in nodes && !w.red && Red(w.right)
      modifies this`root, nodes`left, nodes`right, nodes`parent, nodes`red, nodes`lo, nodes`hi, nodes`bh
      ensures DeleteInv(root) && !root.red
    {
      ghost var p, f := temp.parent, w.right;
      assert p != w && w != f && f != p && f in nodes by { assert NodeOk(p); assert NodeOk(w); assert NodeOk(f); }
      HandOver(temp.parent, w, w.right);
      SameShape();
      LeftRotate(temp.parent);
      ClosedInv(true, temp, p, w, f);
    }

    method SiblingRedRight(temp: Node, sib: Node) returns (w: Node)
      requires DeleteInv(temp) && temp != root && !temp.red && temp == temp.parent.right
      requires sib == temp.parent.left && sib in nodes && sib.red
      modifies this`root, nodes`left, nodes`right, nodes`parent, nodes`red, nodes`lo, nodes`hi, nodes`bh
      ensures DeleteInv(temp) && temp != root && temp.parent == old(temp.parent) && temp == temp.parent.right
      ensures w == temp.parent.left && !Red(w) && temp.parent.red && !temp.red
      ensures Size(temp.parent) <= old(Size(temp.parent)) && temp.lo == old(temp.lo) && temp.hi == old(temp.hi)
    {
      ghost var p := temp.parent;
      w := sib;
      assert p != w && temp != p && temp != w by {
        assert NodeOk(p); assert NodeOk(w); assert temp in nodes ==> NodeOk(temp);
      }
      assert !Red(w.left) && !Red(w.right) by { assert Quiet(w, temp); assert NodeOk(w); }
      Exchange(w, temp.parent);
      SameShape();
      RightRotate(temp.parent);
      RedSiblingInv(false, temp, p, w);
      w := temp.parent.left;
    }

    method NearNephewRight(temp: Node, sib: Node) returns (w: Node)
      requires DeleteInv(temp) && temp != root && !temp.red && temp == temp.parent.right
      requires sib == temp.parent.left && sib in nodes && !sib.red && Red(sib.right) && !Red(sib.left)
      modifies this`root, nodes`left, nodes`right, nodes`parent, nodes`red, nodes`lo, nodes`hi, nodes`bh
      ensures DeleteInv(temp) && temp != root && temp.parent == old(temp.parent) && temp == temp.parent.right
      ensures w == temp.parent.left && w in nodes && !w.red && Red(w.left) && !temp.red
    {
      ghost var p, a := temp.parent, sib.right;
      w := sib;
      assert p != w && w != a && a in nodes && temp != w by { assert NodeOk(p); assert NodeOk(w); }
      Exchange(w.right, w);
      SameShape();
      LeftRotate(w);
      NearNephewInv(false, temp, p, sib, a);
      w := temp.parent.left;
    }

    method CloseRight(temp: Node, w: Node)
      requires DeleteInv(temp) && temp != root && !temp.red && temp == temp.parent.right
      requires w == temp.parent.left && w in nodes && !w.red && Red(w.left)
      modifies this`root, nodes`left, nodes`right, nodes`parent, nodes`red, nodes`lo, nodes`hi, nodes`bh
      ensures DeleteInv(root) && !root.red
    {
      ghost var p, f := temp.parent, w.left;
      assert p != w && w != f && f != p && f in nodes by { assert NodeOk(p); assert NodeOk(w); assert NodeOk(f); }
      HandOver(temp.parent, w, w.left);
      SameShape();
      RightRotate(temp.parent);
      ClosedInv(false, temp, p, w, f);
    }

    ghost function Span(t: Node): int
      reads this`sentinel, t
    {
      if t == sentinel then 0 else Size(t)
    }

    lemma HeightNonNegative(t: Node, n: Node)
      requires DeleteInv(t) && (n in nodes || n == sentinel)
      ensures Bh(n) >= 0
      decreases Span(n)
    {
      if n == sentinel {
      } else {
        assert NodeOk(n); assert Even(n, t);
        if n.left != sentinel { assert NodeOk(n.left); }
        if n.right != sentinel { assert NodeOk(n.right); }
        HeightNonNegative(t, n.left);
        HeightNonNegative(t, n.right);
      }
    }

    lemma SiblingExists(t: Node)
      requires DeleteInv(t) && t != root
      ensures t.parent.left in nodes || t.parent.left == t
      ensures t.parent.right in nodes || t.parent.right == t
      ensures t.parent.left != t.parent.right
    {
      assert NodeOk(t.parent); assert Even(t.parent, t);
      HeightNonNegative(t, t);
    }

    // One turn of the delete fixup loop when temp is a left child.
    method DeleteFixLeft(t: Node) returns (temp: Node, ghost rotations: nat)
      requires DeleteInv(t) && t != root && !t.red && t == t.parent.left
      modifies this`root, nodes`left, nodes`right, nodes`parent, nodes`red, nodes`lo, nodes`hi, nodes`bh
      ensures DeleteInv(temp) && rotations <= 3
      ensures if rotations == 0 then Span(temp) > old(Span(t)) else temp == root || temp.red
    {
      temp := t;
      rotations := 0;
      assert NodeOk(temp.parent);
      SiblingExists(temp);
      var w := temp.parent.right;
      if w.red {
        w := SiblingRedLeft(temp, w);
        rotations := rotations + 1;
        SiblingExists(temp);
      }
      assert NodeOk(w) && NodeOk(temp.parent);
      if !w.left.red && !w.right.red {
        temp := PushUp(temp, w);
      } else {
        if !w.right.red {
          w := NearNephewLeft(temp, w);
          rotations := rotations + 1;
        }
        CloseLeft(temp, w);
        rotations := rotations + 1;
        temp := root;
      }
    }

    // One turn of the delete fixup loop when temp is a right child.
    method DeleteFixRight(t: Node) returns (temp: Node, ghost rotations: nat)
      requires DeleteInv(t) && t != root && !t.red && t == t.parent.right
      modifies this`root, nodes`left, nodes`right, nodes`parent, nodes`red, nodes`lo, nodes`hi, nodes`bh
      ensures DeleteInv(temp) && rotations <= 3
      ensures if rotations == 0 then Span(temp) > old(Span(t)) else temp == root || temp.red
    {
      temp := t;
      rotations := 0;
      assert NodeOk(temp.parent);
      SiblingExists(temp);
      var w := temp.parent.left;
      if w.red {
        w := SiblingRedRight(temp, w);
        rotations := rotations + 1;
        SiblingExists(temp);
      }
      assert NodeOk(w) && NodeOk(temp.parent);
      if !w.left.red && !w.right.red {
        temp := PushUp(temp, w);
      } else {
        if !w.left.red {
          w := NearNephewRight(temp, w);
          rotations := rotations + 1;
        }
        CloseRight(temp, w);
        rotations := rotations + 1;
        temp := root;
      }
    }

    twostate lemma TempPainted(t: Node)
      requires old(DeleteInv(t)) && SameLinks() && (t == root || old(t.red))
      requires forall n :: n in old(nodes) ==> n.red == (n != t && old(n.red))
      requires forall n :: n in old(nodes) ==> n.bh == old(n.bh) + (if n == t && old(t.red) then 1 else 0)
      ensures RedBlack()
    {
      SameShape();
      assert old(NodeOk(t)); assert old(Even(t, t));
      forall n | n in nodes
        ensures NodeOk(n) && Balanced(n)
      {
        assert old(NodeOk(n)); assert old(Even(n, t)); assert NodeOk(n);
      }
      forall n | n in nodes
        ensures Calm(n, null)
      {
        assert old(NodeOk(n)); assert old(Quiet(n, t));
      }
    }

    method PaintTemp(temp: Node)
      requires DeleteInv(temp) && (temp == root || temp.red)
      modifies nodes`red, nodes`bh
      ensures RedBlack()
    {
      ghost var wasRed := temp.red;
      temp.red := false;
      temp.bh := temp.bh + if wasRed then 1 else 0;
      TempPainted(temp);
    }

    method DeleteFixup(start: Node) returns (ghost rotations: nat)
      requires DeleteInv(start)
      modifies this`root, nodes`left, nodes`right, nodes`parent, nodes`red, nodes`lo, nodes`hi, nodes`bh
      ensures RedBlack() && rotations <= 3
    {
      var temp := start;
      rotations := 0;
      while temp != root && !temp.red
        invariant DeleteInv(temp)
        invariant rotations <= 3 && (rotations > 0 ==> temp == root || temp.red)
        decreases if temp == root || temp.red then 0 else |order| - Span(temp) + 1
      {
        assert temp in nodes ==> NodeOk(temp);
        ghost var turns: nat;
        if temp == temp.parent.left {
          temp, turns := DeleteFixLeft(temp);
        } else {
          temp, turns := DeleteFixRight(temp);
        }
        rotations := rotations + turns;
        assert temp in nodes ==> NodeOk(temp);
      }
      PaintTemp(temp);
    }

    // ---- unlinking a node ----

    // The links that lead to s now lead to t, and those that lead to z lead to s.
    static ghost function Redirect(m: Node?, z: Node, s: Node, t: Node): Node?
    {
      if m == s then t else if m == z then s else m
    }

    // What delete takes out of the tree: z itself when it has a child missing, or else the
    // successor of z, which then stands in for z. t is the child of s that moves up.
    ghost predicate Cut(z: Node, s: Node, t: Node)
      requires z in nodes && s in nodes
      reads this`root, this`sentinel, this`nodes, this`order, nodes
    {
      if s == z then
        z != root && ((z.left == sentinel && t == z.right) || (z.right == sentinel && t == z.left))
      else
        && z.left != sentinel && z.right != sentinel && s.left == sentinel && t == s.right
        && s.pos == z.pos + 1 && s.hi <= z.hi
    }

    ghost function NewParent(z: Node, s: Node): Node?
      reads z, s
    {
      if s != z && s.parent == z then s else s.parent
    }

    twostate predicate Spliced(z: Node, s: Node, t: Node)
      requires z in old(nodes) && s in old(nodes)
      reads this`root, this`sentinel, this`nodes, this`order, nodes, sentinel, s, t
    {
      && old(RedBlack()) && old(Cut(z, s, t)) && 0 <= old(z.pos) < |old(order)|
      && sentinel == old(sentinel) && sentinel.red == old(sentinel.red)
      && nodes == old(nodes) - {z}
      && order == old(order)[..old(z.pos)] + old(order)[old(z.pos) + 1..]
      && root == (if old(root) == z then s else old(root))
      && t.parent == old(NewParent(z, s))
      && (forall n :: n in nodes && n != s ==>
        && n.left == Redirect(old(n.left), z, s, t) && n.right == Redirect(old(n.right), z, s, t)
        && (n != t ==> n.parent == (if s != z && (n == old(z.left) || n == old(z.right)) then s else old(n.parent)))
        && n.red == old(n.red) && n.bh == old(n.bh)
        && n.lo == old(n.lo) - (if old(n.lo) > old(s.pos) then 1 else 0)
        && n.hi == old(n.hi) - (if old(n.hi) > old(s.pos) then 1 else 0)
        && n.pos == old(n.pos) - (if old(n.pos) > old(s.pos) then 1 else 0))
      && (s != z ==>
        && s.left == old(z.left) && s.right == Redirect(old(z.right), z, s, t) && s.parent == old(z.parent)
        && s.red == old(z.red) && s.bh == old(z.bh)
        && s.lo == old(z.lo) && s.pos == old(z.pos) && s.hi == old(z.hi) - 1)
    }

    twostate lemma SplicedFrame(new z: Node, new s: Node, t: Node)
      requires z in old(nodes) && s in old(nodes) && Spliced(z, s, t)
      ensures Frame()
    {
      assert old(NodeOk(z)); assert old(NodeOk(s));
      assert old(NodeOk(root));
      forall i | 0 <= i < |order|
        ensures order[i] in nodes && order[i].pos == i
      {
        var k := old(z.pos);
        assert i >= k ==> order[i] == old(order)[i + 1];
        assert i < k ==> order[i] == old(order)[i];
      }
    }

    twostate lemma SplicedPos(new z: Node, new s: Node, t: Node)
      requires z in old(nodes) && s in old(nodes) && Spliced(z, s, t)
      ensures forall n {:trigger PosOk(n)} :: n in nodes ==> PosOk(n)
    {
      assert old(NodeOk(z)); assert old(NodeOk(s)); assert old(t in nodes ==> NodeOk(t));
      forall n | n in nodes
        ensures PosOk(n)
      {
        assert old(NodeOk(n));
        assert old(order)[old(n.pos)] == n && old(order)[old(z.pos)] == z && old(order)[old(s.pos)] == s;
        if n != s {
          assert old(n.pos) != old(z.pos) && old(n.pos) != old(s.pos);
        }
      }
    }

    twostate lemma SplicedLeftAt(new z: Node, new s: Node, t: Node, new n: Node)
      requires z in old(nodes) && s in old(nodes) && Spliced(z, s, t) && n in nodes && n != s
      ensures LeftOk(n)
    {
      assert old(NodeOk(z)); assert old(NodeOk(s)); assert old(NodeOk(n));
    }

    twostate lemma SplicedLeft(new z: Node, new s: Node, t: Node)
      requires z in old(nodes) && s in old(nodes) && Spliced(z, s, t)
      ensures forall n {:trigger LeftOk(n)} :: n in nodes ==> LeftOk(n)
    {
      assert s != z ==> LeftOk(s) by {
        assert old(NodeOk(z)); assert old(NodeOk(s)); assert old(t in nodes ==> NodeOk(t));
      }
      forall n | n in nodes && n != s
        ensures LeftOk(n)
      {
        SplicedLeftAt(z, s, t, n);
      }
    }

    twostate lemma SplicedRightAt(new z: Node, new s: Node, t: Node, new n: Node)
      requires z in old(nodes) && s in old(nodes) && Spliced(z, s, t) && n in nodes && n != s
      ensures RightOk(n)
    {
      hide Balanced, Calm;
      assert old(NodeOk(z)); assert old(NodeOk(s)); assert old(NodeOk(n));
      var m := old(n.right);
      if m == s {
      } else if m == z {
      } else if m != sentinel {
        assert m in nodes;
      }
    }

    twostate lemma SplicedRight(new z: Node, new s: Node, t: Node)
      requires z in old(nodes) && s in old(nodes) && Spliced(z, s, t)
      ensures forall n {:trigger RightOk(n)} :: n in nodes ==> RightOk(n)
    {
      assert s != z ==> RightOk(s) by {
        assert old(NodeOk(z)); assert old(NodeOk(s)); assert old(t in nodes ==> NodeOk(t));
      }
      forall n | n in nodes && n != s
        ensures RightOk(n)
      {
        SplicedRightAt(z, s, t, n);
      }
    }

    twostate lemma SplicedUp(new z: Node, new s: Node, t: Node)
      requires z in old(nodes) && s in old(nodes) && Spliced(z, s, t)
      ensures forall n {:trigger UpOk(n)} :: n in nodes ==> UpOk(n)
    {
      assert old(NodeOk(z)); assert old(NodeOk(s)); assert old(t in nodes ==> NodeOk(t));
      assert s != z ==> UpOk(s);
      forall n | n in nodes
        ensures UpOk(n)
      {
        if n != s {
          assert old(NodeOk(n));
        }
      }
    }

    twostate lemma SplicedShape(new z: Node, new s: Node, t: Node)
      requires z in old(nodes) && s in old(nodes) && Spliced(z, s, t)
      ensures Shape()
    {
      SplicedFrame(z, s, t);
      SplicedPos(z, s, t);
      SplicedLeft(z, s, t);
      SplicedRight(z, s, t);
      SplicedUp(z, s, t);
      forall n | n in nodes
        ensures NodeOk(n)
      {
        assert PosOk(n) && LeftOk(n) && RightOk(n) && UpOk(n);
      }
    }

    twostate lemma SplicedShort(new z: Node, new s: Node, t: Node)
      requires z in old(nodes) && s in old(nodes) && Spliced(z, s, t) && !old(s.red) && root != t
      requires t.parent in nodes && t.parent != s
      ensures Even(t.parent, t)
    {
      hide Calm;
      var n := t.parent;
      assert old(NodeOk(z)); assert old(NodeOk(s)); assert old(NodeOk(n));
      assert old(Balanced(z)); assert old(Balanced(s)); assert old(Balanced(n));
    }

    twostate lemma SplicedEvenAt(new z: Node, new s: Node, t: Node, new n: Node)
      requires z in old(nodes) && s in old(nodes) && Spliced(z, s, t) && !old(s.red) && root != t
      requires n in nodes && n != s && n != t.parent
      ensures Even(n, t)
    {
      hide Calm;
      assert old(NodeOk(z)); assert old(NodeOk(s)); assert old(NodeOk(n));
      assert old(Balanced(z)); assert old(Balanced(s)); assert old(Balanced(n));
    }

    twostate lemma SplicedEven(new z: Node, new s: Node, t: Node)
      requires z in old(nodes) && s in old(nodes) && Spliced(z, s, t) && !old(s.red) && root != t
      ensures forall n {:trigger Even(n, t)} :: n in nodes ==> Even(n, t)
    {
      assert s != z ==> Even(s, t) by {
        assert old(NodeOk(z)); assert old(NodeOk(s)); assert old(Balanced(z)); assert old(Balanced(s));
      }
      forall n | n in nodes && n != s
        ensures Even(n, t)
      {
        if n == t.parent {
          SplicedShort(z, s, t);
        } else {
          SplicedEvenAt(z, s, t, n);
        }
      }
    }

    twostate lemma SplicedBalancedAt(new z: Node, new s: Node, t: Node, new n: Node)
      requires z in old(nodes) && s in old(nodes) && Spliced(z, s, t) && old(s.red) && n in nodes && n != s
      ensures Balanced(n)
    {
      assert old(NodeOk(z)); assert old(NodeOk(s)); assert old(NodeOk(n));
      assert old(Balanced(z)); assert old(Balanced(s)); assert old(Balanced(n));
    }

    twostate lemma SplicedBalanced(new z: Node, new s: Node, t: Node)
      requires z in old(nodes) && s in old(nodes) && Spliced(z, s, t) && old(s.red)
      ensures forall n {:trigger Balanced(n)} :: n in nodes ==> Balanced(n)
    {
      assert s != z ==> Balanced(s) by {
        assert old(NodeOk(z)); assert old(NodeOk(s)); assert old(t in nodes ==> NodeOk(t));
        assert old(Balanced(z)); assert old(Balanced(s));
      }
      forall n | n in nodes && n != s
        ensures Balanced(n)
      {
        SplicedBalancedAt(z, s, t, n);
      }
    }

    twostate lemma SplicedQuiet(new z: Node, new s: Node, t: Node)
      requires z in old(nodes) && s in old(nodes) && Spliced(z, s, t)
      ensures forall n {:trigger Quiet(n, t)} :: n in nodes ==> Quiet(n, t)
      ensures old(s.red) ==> forall n {:trigger Calm(n, null)} :: n in nodes ==> Calm(n, null)
    {
      assert old(NodeOk(z)); assert old(NodeOk(s)); assert old(Calm(z, null)); assert old(Calm(s, null));
      forall n | n in nodes
        ensures Quiet(n, t) && (old(s.red) ==> Calm(n, null))
      {
        assert old(NodeOk(n)); assert old(Calm(n, null));
      }
    }

    ghost method CloseRoom(a: int)
      modifies nodes`lo, nodes`pos, nodes`hi
      ensures forall n :: n in nodes ==>
        && n.lo == old(n.lo) - (if old(n.lo) > a then 1 else 0)
        && n.hi == old(n.hi) - (if old(n.hi) > a then 1 else 0)
        && n.pos == old(n.pos) - (if old(n.pos) > a then 1 else 0)
    {
      forall n | n in nodes {
        n.lo := n.lo - if n.lo > a then 1 else 0;
      }
      forall n | n in nodes {
        n.hi := n.hi - if n.hi > a then 1 else 0;
      }
      forall n | n in nodes {
        n.pos := n.pos - if n.pos > a then 1 else 0;
      }
    }

    twostate lemma SplicedSlot(new z: Node, new s: Node, t: Node)
      requires z in old(nodes) && s in old(nodes) && Spliced(z, s, t) && Shape()
      ensures AtSlot(t) && root in nodes && root != t && !root.red
    {
      assert old(NodeOk(z)); assert old(NodeOk(s)); assert old(t in nodes ==> NodeOk(t)); assert old(NodeOk(root));
    }

    twostate lemma SplicedInv(new z: Node, new s: Node, t: Node)
      requires z in old(nodes) && s in old(nodes) && Spliced(z, s, t)
      ensures Shape() && (if old(s.red) then RedBlack() else DeleteInv(t))
    {
      SplicedShape(z, s, t);
      SplicedQuiet(z, s, t);
      SplicedSlot(z, s, t);
      if old(s.red) {
        SplicedBalanced(z, s, t);
      } else {
        SplicedEven(z, s, t);
      }
    }

    // x is not the root and exactly one link, its parent's, leads to it.
    ghost predicate Hangs(x: Node)
      reads this`root, this`sentinel, this`nodes, this`order, nodes, x
    {
      && x.parent in nodes && x.parent != x && (x.parent.left == x) != (x.parent.right == x)
      && forall n :: n in nodes && (n.left == x || n.right == x) ==> n == x.parent
    }

    ghost predicate Placed(x: Node)
      reads this`root, this`sentinel, this`nodes, this`order, nodes, x
    {
      if x == root then forall n :: n in nodes ==> n.left != x && n.right != x else Hangs(x)
    }

    lemma NodeHangs(x: Node)
      requires Shape() && x in nodes && x != root
      ensures Hangs(x)
    {
      assert NodeOk(x);
      forall n | n in nodes && (n.left == x || n.right == x)
        ensures n == x.parent && n != x && (n.left == x) != (n.right == x)
      {
        SoleParent(x, n);
      }
    }

    lemma NodePlaced(x: Node)
      requires Shape() && x in nodes
      ensures Placed(x)
    {
      if x != root {
        NodeHangs(x);
      } else {
        forall n | n in nodes
          ensures n.left != x && n.right != x
        {
          if n.left == x || n.right == x {
            SoleParent(x, n);
          }
        }
      }
    }

    // Lines 235-239: temp takes the place of subst below its parent.
    method Bypass(subst: Node, temp: Node)
      requires subst in nodes && Hangs(subst)
      modifies nodes`left, nodes`right
      ensures forall n :: n in nodes ==>
        && n.left == (if old(n.left) == subst then temp else old(n.left))
        && n.right == (if old(n.right) == subst then temp else old(n.right))
    {
      if subst == subst.parent.left {
        subst.parent.left := temp;
      } else {
        subst.parent.right := temp;
      }
    }

    static ghost predicate Blank(node: Node)
      reads node`left, node`right, node`parent, node`key, node`data
    {
      node.left == null && node.right == null && node.parent == null && node.key == 0 && node.data == null
    }

    static method NodeInit(node: Node)
      modifies node`left, node`right, node`parent, node`key, node`data
      ensures Blank(node)
    {
      node.left := null;
      node.right := null;
      node.parent := null;
      node.key := 0;
      node.data := null;
    }

    method SelfLinks(node: Node, temp: Node)
      requires node in nodes && Hangs(node) && temp != node && (temp == sentinel || temp in nodes)
      modifies nodes`left, nodes`right, nodes`parent, sentinel`parent
      ensures temp.parent == old(node.parent)
      ensures forall n :: n in nodes && n != node ==>
        && n.left == (if old(n.left) == node then temp else old(n.left))
        && n.right == (if old(n.right) == node then temp else old(n.right))
        && (n != temp ==> n.parent == old(n.parent))
    {
      Bypass(node, temp);
      temp.parent := node.parent;
    }

    // The positions after z is gone, s standing in for it when it is another node.
    ghost method Renumber(z: Node, s: Node)
      requires z in nodes && s in nodes
      modifies nodes`lo, nodes`pos, nodes`hi, nodes`bh
      ensures forall n :: n in nodes && n != z && n != s ==>
        && n.lo == old(n.lo) - (if old(n.lo) > old(s.pos) then 1 else 0)
        && n.hi == old(n.hi) - (if old(n.hi) > old(s.pos) then 1 else 0)
        && n.pos == old(n.pos) - (if old(n.pos) > old(s.pos) then 1 else 0)
        && n.bh == old(n.bh)
      ensures s != z ==> s.lo == old(z.lo) && s.pos == old(z.pos) && s.hi == old(z.hi) - 1 && s.bh == old(z.bh)
    {
      var lo, pos, hi, bh := z.lo, z.pos, z.hi, z.bh;
      CloseRoom(s.pos);
      if s != z {
        s.lo, s.pos, s.hi, s.bh := lo, pos, hi - 1, bh;
      }
    }

    // The node that is unlinked leaves the listing and is blank (line 275).
    method Retire(node: Node, ghost subst: Node)
      requires node in nodes && subst in nodes && 0 <= node.pos < |order|
      modifies this`nodes, this`order, nodes`lo, nodes`pos, nodes`hi, nodes`bh
      modifies node`left, node`right, node`parent, node`key, node`data
      ensures Blank(node) && nodes == old(nodes) - {node}
      ensures order == old(order)[..old(node.pos)] + old(order)[old(node.pos) + 1..]
      ensures forall n :: n in nodes && n != subst ==>
        && n.lo == old(n.lo) - (if old(n.lo) > old(subst.pos) then 1 else 0)
        && n.hi == old(n.hi) - (if old(n.hi) > old(subst.pos) then 1 else 0)
        && n.pos == old(n.pos) - (if old(n.pos) > old(subst.pos) then 1 else 0)
        && n.bh == old(n.bh)
      ensures subst != node ==>
        && subst.lo == old(node.lo) && subst.pos == old(node.pos) && subst.hi == old(node.hi) - 1
        && subst.bh == old(node.bh)
    {
      ghost var k := node.pos;
      Renumber(node, subst);
      NodeInit(node);
      nodes := nodes - {node};
      order := order[..k] + order[k + 1..];
    }

    method UnlinkSelf(node: Node, temp: Node)
      requires RedBlack() && node in nodes && Cut(node, node, temp)
      modifies this`nodes, this`order, nodes`left, nodes`right, nodes`parent, nodes`lo, nodes`pos, nodes`hi, nodes`bh
      modifies sentinel`parent, node`key, node`data
      ensures node in old(nodes) && Spliced(node, node, temp) && Blank(node)
    {
      NodeHangs(node);
      assert temp != node && (temp == sentinel || temp in nodes) && 0 <= node.pos < |order| by { assert NodeOk(node); }
      hide RedBlack, Cut;
      SelfLinks(node, temp);
      Retire(node, node);
    }

    // Lines 251-272: subst takes over the links and the colour of node.
    method StandIn(node: Node, subst: Node)
      requires node in nodes && subst in nodes && node != subst && sentinel !in nodes
      requires node.left in nodes && node.left != node && node.left != subst
      requires node.right == sentinel || (node.right in nodes && node.right != node && node.right != subst)
      requires Placed(node) && (node != root ==> node.parent != subst)
      modifies this`root, nodes`left, nodes`right, nodes`parent, nodes`red
      ensures subst.left == old(node.left) && subst.right == old(node.right) && subst.parent == old(node.parent)
      ensures subst.red == old(node.red) && root == (if old(root) == node then subst else old(root))
      ensures forall n :: n in nodes && n != subst ==>
        && n.left == (if old(n.left) == node then subst else old(n.left))
        && n.right == (if old(n.right) == node then subst else old(n.right))
        && n.parent == (if n == old(node.left) || n == old(node.right) then subst else old(n.parent))
        && n.red == old(n.red)
    {
      subst.left := node.left;
      subst.right := node.right;
      subst.parent := node.parent;
      subst.red := node.red;
      if node == root {
        root := subst;
      } else {
        if node == node.parent.left {
          node.parent.left := subst;
        } else {
          node.parent.right := subst;
        }
      }
      if subst.left != sentinel {
        subst.left.parent := subst;
      }
      if subst.right != sentinel {
        subst.right.parent := subst;
      }
    }

    lemma CutApart(z: Node, s: Node, t: Node)
      requires Shape() && z in nodes && s in nodes && z != s && Cut(z, s, t)
      ensures s != root && z.left in nodes && z.left != z && z.left != s && z.right in nodes && z.right != z
      ensures t == sentinel || t in nodes
      ensures t != z && t != s && t != z.left && z.right != z.left
      ensures z != root ==> z.parent != s
      ensures s.parent != z ==> z.right != s && z.right != t
      ensures s.parent == z ==> z.right == s
    {
      assert NodeOk(z); assert NodeOk(s); assert t in nodes ==> NodeOk(t); assert NodeOk(root);
    }

    // Lines 235-249: the link to subst leads to its child.
    method Detach(node: Node, subst: Node, temp: Node)
      requires subst in nodes && Hangs(subst) && sentinel !in nodes && node != subst
      requires temp == sentinel || temp in nodes
      modifies nodes`left, nodes`right, nodes`parent, sentinel`parent
      ensures temp.parent == old(NewParent(node, subst))
      ensures forall n :: n in nodes ==>
        && n.left == (if old(n.left) == subst then temp else old(n.left))
        && n.right == (if old(n.right) == subst then temp else old(n.right))
        && (n != temp ==> n.parent == old(n.parent))
    {
      Bypass(subst, temp);
      if subst.parent == node {
        temp.parent := subst;
      } else {
        temp.parent := subst.parent;
      }
    }

    method UnlinkLinks(node: Node, subst: Node, temp: Node)
      requires Shape() && node in nodes && subst in nodes && node != subst && Cut(node, subst, temp)
      modifies this`root, nodes`left, nodes`right, nodes`parent, nodes`red, sentinel`parent
      ensures root == (if old(root) == node then subst else old(root)) && temp.parent == old(NewParent(node, subst))
      ensures forall n :: n in nodes && n != subst ==>
        && n.left == Redirect(old(n.left), node, subst, temp) && n.right == Redirect(old(n.right), node, subst, temp)
        && (n != temp ==> n.parent == (if n == old(node.left) || n == old(node.right) then subst else old(n.parent)))
        && n.red == old(n.red)
      ensures subst.left == old(node.left) && subst.right == Redirect(old(node.right), node, subst, temp)
      ensures subst.parent == old(node.parent) && subst.red == old(node.red)
    {
      CutApart(node, subst, temp);
      NodeHangs(subst);
      NodePlaced(node);
      Detach(node, subst, temp);
      assert Placed(node);
      StandIn(node, subst);
    }

    method UnlinkSubst(node: Node, subst: Node, temp: Node)
      requires RedBlack() && node in nodes && subst in nodes && node != subst && Cut(node, subst, temp)
      modifies this`root, this`nodes, this`order, sentinel`parent, node`key, node`data
      modifies nodes`left, nodes`right, nodes`parent, nodes`red, nodes`lo, nodes`pos, nodes`hi, nodes`bh
      ensures Spliced(node, subst, temp) && Blank(node)
    {
      assert 0 <= node.pos < |order| && subst.pos == node.pos + 1 by { assert NodeOk(node); }
      assert temp != node && (temp == sentinel || temp in nodes) by { CutApart(node, subst, temp); }
      hide RedBlack, Cut;
      UnlinkLinks(node, subst, temp);
      Retire(node, subst);
    }

    // ---- paths and heights ----

    ghost predicate IsPath(p: seq<Node>)
      reads this`root, this`sentinel, this`nodes, this`order, nodes
    {
      && |p| > 0 && p[0] == root && (forall i :: 0 <= i < |p| ==> p[i] in nodes)
      && (forall i :: 0 <= i < |p| - 1 ==> p[i + 1] == p[i].left || p[i + 1] == p[i].right)
    }

    // How many more nodes a path through n may visit, n itself not counted.
    ghost function Slack(n: Node): int
      reads n
    {
      2 * n.bh - if n.red then 0 else 1
    }

    lemma PathSlack(p: seq<Node>)
      requires RedBlack() && IsPath(p)
      ensures |p| + Slack(p[|p| - 1]) <= 2 * root.bh
    {
      if |p| <= 1 {
      } else {
        var q := p[..|p| - 1];
        PathSlack(q);
        var n := q[|q| - 1];
        assert p[|p| - 2 + 1] == n.left || p[|p| - 2 + 1] == n.right;
        assert NodeOk(n); assert Balanced(n); assert Calm(n, null);
      }
    }

    lemma SubtreeSize(n: Node)
      requires RedBlack() && (n in nodes || n == sentinel)
      ensures Bh(n) >= 0 && Pow(2, Bh(n)) <= Span(n) + 1
      decreases Span(n)
    {
      if n == sentinel {
      } else {
        assert NodeOk(n); assert Balanced(n);
        if n.left != sentinel { assert NodeOk(n.left); }
        if n.right != sentinel { assert NodeOk(n.right); }
        SubtreeSize(n.left);
        SubtreeSize(n.right);
      }
    }

    lemma PathBound(p: seq<Node>)
      requires RedBlack() && IsPath(p)
      ensures Logarithmic(|p|, |order|)
    {
      var last := p[|p| - 1];
      PathSlack(p);
      SubtreeSize(last);
      assert Slack(last) >= 0 by { assert NodeOk(last); assert Balanced(last); SubtreeSize(last.left); }
      SubtreeSize(root);
      PowMonotone(2, |p|, 2 * root.bh);
      PowDouble(2, root.bh);
      SquareMonotone(Pow(2, root.bh), |order| + 1);
    }

    ghost function PathTo(n: Node): (p: seq<Node>)
      requires Shape() && n in nodes
      reads this`root, this`sentinel, this`nodes, this`order, nodes
      ensures IsPath(p) && p[|p| - 1] == n
      decreases |order| - Size(n)
    {
      assert NodeOk(n);
      if n == root then [n]
      else
        assert NodeOk(n.parent);
        PathTo(n.parent) + [n]
    }

    // The listing with its keys, and the run of operations it is the outcome of.
    ghost function Contents(): (r: seq<Entry<Node>>)
      reads this`order, order`key
    {
      Entries(order)
    }

    ghost predicate Logged()
      reads this`log, this`order, order`key
    {
      Legal(log) && Contents() == Run(log)
    }

    ghost predicate Valid()
      reads this, nodes, sentinel, root, order`key
    {
      RedBlack() && Logged()
    }

    constructor (node: Node)
      modifies node
      ensures Valid() && log == [] && nodes == {} && sentinel == node
    {
      root := node;
      sentinel := node;
      nodes := {};
      order := [];
      log := [];
      new;
      NodeInit(node);
      node.red := false;
    }

    lemma Sorted(i: int, j: int)
      requires Logged() && 0 <= i < j < |order|
      ensures order[i].key <= order[j].key
    {
      RunInOrder(log);
      assert Before(log, Contents()[i], Contents()[j]);
    }

    method NodeMin(start: Node) returns (node: Node, ghost steps: nat)
      requires RedBlack() && start in nodes
      ensures node in nodes && node.left == sentinel && node.pos == start.lo && node.hi <= start.hi
      ensures Logarithmic(steps, |order|)
    {
      node := start;
      steps := 1;
      ghost var path := PathTo(start);
      assert NodeOk(start);
      while node.left != sentinel
        invariant node in nodes && node.lo == start.lo && node.hi <= start.hi
        invariant IsPath(path) && path[|path| - 1] == node && steps <= |path|
        decreases Size(node)
      {
        assert NodeOk(node); assert NodeOk(node.left);
        node := node.left;
        path := path + [node];
        steps := steps + 1;
      }
      assert NodeOk(node);
      PathBound(path);
      PowMonotone(2, steps, |path|);
    }

    method Min() returns (node: Node?)
      requires Valid()
      ensures if Run(log) == [] then node == null else node == Run(log)[0].item
    {
      var n := root;
      if n == sentinel {
        return null;
      }
      assert NodeOk(n);
      ghost var steps: nat;
      node, steps := NodeMin(n);
      assert NodeOk(node);
      assert Contents()[0].item == order[0];
    }

    // ---- insert ----

    // A key goes at position k: after every key not larger, before every larger one.
    ghost predicate Fits(k: int, key: int)
      reads this`order, order`key
    {
      && 0 <= k <= |order|
      && (forall i :: 0 <= i < k ==> order[i].key <= key)
      && (forall i :: k <= i < |order| ==> key < order[i].key)
    }

    // The same of a subtree's span: the position is inside it.
    ghost predicate Within(lo: int, hi: int, key: int)
      reads this`order, order`key
    {
      && (forall i :: 0 <= i < |order| && i < lo ==> order[i].key <= key)
      && (forall i :: 0 <= i < |order| && hi <= i ==> key < order[i].key)
    }

    lemma Narrow(t: Node, key: int)
      requires RedBlack() && Logged() && t in nodes && Within(t.lo, t.hi, key)
      ensures key < t.key ==> Within(t.lo, t.pos, key)
      ensures key >= t.key ==> Within(t.pos + 1, t.hi, key)
    {
      assert NodeOk(t);
      forall i | 0 <= i < |order| && i != t.pos
        ensures i < t.pos ==> order[i].key <= t.key
        ensures i > t.pos ==> t.key <= order[i].key
      {
        if i < t.pos { Sorted(i, t.pos); } else { Sorted(t.pos, i); }
      }
    }

    ghost predicate Slot(t: Node, d: bool, key: int)
      reads this`root, this`sentinel, this`nodes, this`order, nodes, order`key
    {
      t in nodes && Kid(t, d) == sentinel && Fits(Gap(t, d), key)
    }

    // Where a turn of the descent leads: to the slot, or to a smaller subtree with the slot in it.
    lemma Descend(t: Node, key: int, p: seq<Node>)
      requires RedBlack() && Logged() && t in nodes && Within(t.lo, t.hi, key) && IsPath(p) && p[|p| - 1] == t
      ensures var d := key < t.key; var child := Kid(t, d);
        if child == sentinel then Slot(t, d, key)
        else child in nodes && Within(child.lo, child.hi, key) && 0 <= Size(child) < Size(t) && IsPath(p + [child])
    {
      assert NodeOk(t);
      Narrow(t, key);
      var child := Kid(t, key < t.key);
      if child != sentinel {
        assert NodeOk(child);
      }
    }

    // Lines 141-149: the node below which the new key belongs, and on which side.
    method FindSlot(key: int) returns (temp: Node, goLeft: bool, ghost steps: nat)
      requires Valid() && root != sentinel
      ensures Slot(temp, goLeft, key) && Logarithmic(steps, |order|)
    {
      temp := root;
      steps := 1;
      ghost var path := [root];
      while true
        invariant temp in nodes && Within(temp.lo, temp.hi, key)
        invariant IsPath(path) && path[|path| - 1] == temp && steps == |path|
        decreases Size(temp)
      {
        Descend(temp, key, path);
        goLeft := key < temp.key;
        var child := if goLeft then temp.left else temp.right;
        if child == sentinel {
          break;
        }
        temp := child;
        path := path + [temp];
        steps := steps + 1;
      }
      PathBound(path);
    }

    method PlantRoot(node: Node)
      requires RedBlack() && root == sentinel && node != sentinel
      modifies this`root, this`nodes, this`order
      modifies node`left, node`right, node`parent, node`red, node`lo, node`pos, node`hi, node`bh
      ensures RedBlack() && nodes == {node} && order == [node]
    {
      node.parent := null;
      node.left := sentinel;
      node.right := sentinel;
      node.red := false;
      root := node;
      node.lo, node.pos, node.hi, node.bh := 0, 0, 1, 1;
      nodes := {node};
      order := [node];
    }

    lemma Listed(n: Node)
      requires Shape() && n in nodes
      ensures 0 <= n.pos < |order|
    {
      assert NodeOk(n);
    }

    lemma EmptyTree()
      requires Shape() && root == sentinel
      ensures nodes == {} && order == []
    {
      forall n | n in nodes
        ensures false
      {
        Listed(n);
      }
    }

    method InsertNode(node: Node) returns (ghost k: int, ghost steps: nat, ghost rotations: nat)
      requires Valid() && node !in nodes && node != sentinel
      modifies this`root, this`nodes, this`order
      modifies nodes`left, nodes`right, nodes`parent, nodes`red, nodes`lo, nodes`pos, nodes`hi, nodes`bh
      modifies node`left, node`right, node`parent, node`red, node`lo, node`pos, node`hi, node`bh
      ensures RedBlack() && nodes == old(nodes) + {node} && old(Fits(k, node.key))
      ensures order == old(order)[..k] + [node] + old(order)[k..]
      ensures rotations <= 2 && Logarithmic(steps, |old(order)|)
    {
      k, steps, rotations := 0, 0, 0;
      if root == sentinel {
        EmptyTree();
        PlantRoot(node);
      } else {
        var temp, goLeft;
        temp, goLeft, steps := FindSlot(node.key);
        k := Gap(temp, goLeft);
        Attach(node, temp, goLeft);
        rotations := InsertFixup(node);
      }
    }

    lemma NotListed(node: Node)
      requires Shape() && node !in nodes
      ensures node !in order
    {
    }

    // The run goes on with the insert that put node at position k.
    ghost method LogInsert(node: Node, k: int, before: seq<Node>)
      requires 0 <= k <= |before| && order == before[..k] + [node] + before[k..] && node !in before
      requires Legal(log) && Entries(before) == Run(log)
      requires forall i :: 0 <= i < k ==> before[i].key <= node.key
      requires forall i :: k <= i < |before| ==> node.key < before[i].key
      modifies this`log
      ensures Logged() && log == old(log) + [Op.Insert(node, node.key)]
    {
      var s, e := Entries(before), Entry(node, node.key);
      PutAt(s, k, e);
      EntriesAre(order, s[..k] + [e] + s[k..]);
      log := log + [Op.Insert(node, node.key)];
      assert log[..|log| - 1] == old(log);
    }

    method Insert(node: Node) returns (ghost steps: nat, ghost rotations: nat)
      requires Valid() && node !in nodes && node != sentinel
      modifies this`root, this`nodes, this`order, this`log
      modifies nodes`left, nodes`right, nodes`parent, nodes`red, nodes`lo, nodes`pos, nodes`hi, nodes`bh
      modifies node`left, node`right, node`parent, node`red, node`lo, node`pos, node`hi, node`bh
      ensures Valid() && nodes == old(nodes) + {node}
      ensures log == old(log) + [Op.Insert(node, node.key)]
      ensures rotations <= 2 && Logarithmic(steps, |old(order)|)
    {
      ghost var before, k := order, 0;
      NotListed(node);
      k, steps, rotations := InsertNode(node);
      LogInsert(node, k, before);
    }

    ghost predicate OnlyChild(z: Node, t: Node)
      reads this`sentinel, z
    {
      (z.left == sentinel && t == z.right) || (z.right == sentinel && t == z.left)
    }

    // Lines 213-222: the node to take out of the tree and its only child.
    method PickSubst(node: Node) returns (subst: Node, temp: Node)
      requires RedBlack() && node in nodes
      ensures subst in nodes
      ensures if subst == root then subst == node && OnlyChild(node, temp) else Cut(node, subst, temp)
    {
      assert NodeOk(node);
      if node.left == sentinel {
        temp := node.right;
        subst := node;
      } else if node.right == sentinel {
        temp := node.left;
        subst := node;
      } else {
        assert NodeOk(node.right);
        ghost var steps: nat;
        subst, steps := NodeMin(node.right);
        assert NodeOk(subst);
        temp := subst.right;
      }
    }

    // The root z has gone and its only child t is the root, black.
    twostate predicate Uprooted(z: Node, t: Node)
      requires z in old(nodes)
      reads this`root, this`sentinel, this`nodes, this`order, nodes, sentinel, t
    {
      && old(RedBlack()) && z == old(root) && old(OnlyChild(z, t)) && 0 <= old(z.pos) < |old(order)|
      && sentinel == old(sentinel) && !sentinel.red
      && nodes == old(nodes) - {z} && root == t
      && order == old(order)[..old(z.pos)] + old(order)[old(z.pos) + 1..]
      && (forall n :: n in nodes ==>
        && n.left == old(n.left) && n.right == old(n.right) && n.parent == old(n.parent)
        && n.red == (n != t && old(n.red)) && n.bh == old(n.bh) + (if n == t && old(t.red) then 1 else 0)
        && n.lo == old(n.lo) - (if old(n.lo) > old(z.pos) then 1 else 0)
        && n.hi == old(n.hi) - (if old(n.hi) > old(z.pos) then 1 else 0)
        && n.pos == old(n.pos) - (if old(n.pos) > old(z.pos) then 1 else 0))
    }

    twostate lemma UprootedFrame(new z: Node, t: Node)
      requires z in old(nodes) && Uprooted(z, t)
      ensures Frame()
    {
      assert old(NodeOk(z));
      forall i | 0 <= i < |order|
        ensures order[i] in nodes && order[i].pos == i
      {
        var k := old(z.pos);
        assert i >= k ==> order[i] == old(order)[i + 1];
        assert i < k ==> order[i] == old(order)[i];
      }
    }

    twostate lemma UprootedNode(new z: Node, t: Node, new n: Node)
      requires z in old(nodes) && Uprooted(z, t) && n in nodes
      ensures NodeOk(n)
    {
      assert old(NodeOk(z)); assert old(NodeOk(n));
      assert old(order)[old(n.pos)] == n && old(order)[old(z.pos)] == z;
    }

    twostate lemma UprootedInv(new z: Node, t: Node)
      requires z in old(nodes) && Uprooted(z, t)
      ensures RedBlack()
    {
      UprootedFrame(z, t);
      assert old(NodeOk(z));
      forall n | n in nodes
        ensures NodeOk(n) && Balanced(n) && Calm(n, null)
      {
        UprootedNode(z, t, n);
        assert old(NodeOk(n)); assert old(Balanced(n)); assert old(Calm(n, null));
      }
    }

    // The listing without the node that was at its position.
    twostate predicate Removed(node: Node)
      reads this`order
    {
      && 0 <= old(node.pos) < |old(order)|
      && order == old(order)[..old(node.pos)] + old(order)[old(node.pos) + 1..]
    }

    // Lines 224-231: the root itself goes, and its only child becomes the root.
    method Uproot(node: Node, temp: Node)
      requires RedBlack() && node in nodes && node == root && OnlyChild(node, temp)
      modifies this`root, this`nodes, this`order, sentinel`red, node`key, node`data
      modifies nodes`left, nodes`right, nodes`parent, nodes`red, nodes`lo, nodes`pos, nodes`hi, nodes`bh
      ensures node in old(nodes) && Uprooted(node, temp)
      ensures nodes == old(nodes) - {node} && Removed(node) && Blank(node)
    {
      assert NodeOk(node);
      hide RedBlack;
      ghost var k := node.pos;
      root := temp;
      ghost var wasRed := temp.red;
      temp.red := false;
      Renumber(node, node);
      if temp != sentinel {
        temp.bh := temp.bh + if wasRed then 1 else 0;
      }
      NodeInit(node);
      nodes := nodes - {node};
      order := order[..k] + order[k + 1..];
    }

    method DeleteRoot(node: Node, temp: Node)
      requires RedBlack() && node in nodes && node == root && OnlyChild(node, temp)
      modifies this`root, this`nodes, this`order, sentinel`red, node`key, node`data
      modifies nodes`left, nodes`right, nodes`parent, nodes`red, nodes`lo, nodes`pos, nodes`hi, nodes`bh
      ensures RedBlack() && nodes == old(nodes) - {node} && Removed(node) && Blank(node)
    {
      hide RedBlack, Uprooted;
      Uproot(node, temp);
      UprootedInv(node, temp);
    }

    method Unlink(node: Node, subst: Node, temp: Node)
      requires RedBlack() && node in nodes && subst in nodes && Cut(node, subst, temp)
      modifies this`root, this`nodes, this`order, sentinel`parent, node`key, node`data
      modifies nodes`left, nodes`right, nodes`parent, nodes`red, nodes`lo, nodes`pos, nodes`hi, nodes`bh
      ensures nodes == old(nodes) - {node} && Removed(node) && Blank(node)
      ensures if old(subst.red) then RedBlack() else DeleteInv(temp)
    {
      if subst == node {
        UnlinkSelf(node, temp);
      } else {
        UnlinkSubst(node, subst, temp);
      }
      SplicedInv(node, subst, temp);
    }

    method DeleteNode(node: Node) returns (ghost rotations: nat)
      requires RedBlack() && node in nodes
      modifies this`root, this`nodes, this`order, sentinel`parent, sentinel`red, node`key, node`data
      modifies nodes`left, nodes`right, nodes`parent, nodes`red, nodes`lo, nodes`pos, nodes`hi, nodes`bh
      ensures RedBlack() && rotations <= 3
      ensures nodes == old(nodes) - {node} && Removed(node) && Blank(node)
    {
      rotations := 0;
      var subst, temp := PickSubst(node);
      if subst == root {
        DeleteRoot(node, temp);
        return;
      }
      var red := subst.red;
      Unlink(node, subst, temp);
      if red {
        return;
      }
      rotations := DeleteFixup(temp);
    }

    // The run goes on with the delete that took node out of position k.
    ghost method LogDelete(node: Node, k: int, before: seq<Entry<Node>>)
      requires 0 <= k <= |order| && |before| == |order| + 1 && before[k].item == node && node !in order
      requires Legal(log) && before == Run(log)
      requires forall i :: 0 <= i < k ==> before[i] == Entry(order[i], order[i].key)
      requires forall i :: k < i < |before| ==> before[i] == Entry(order[i - 1], order[i - 1].key)
      modifies this`log
      ensures Logged() && log == old(log) + [Op.Delete(node)]
    {
      assert Take(before, node) == before[..k] + before[k + 1..] by {
        TakeAt(before, k);
      }
      EntriesAre(order, before[..k] + before[k + 1..]);
      log := log + [Op.Delete(node)];
      assert log[..|log| - 1] == old(log);
    }

    method Delete(node: Node) returns (ghost rotations: nat)
      requires Valid() && node in nodes
      modifies this`root, this`nodes, this`order, this`log, sentinel`parent, sentinel`red, node`key, node`data
      modifies nodes`left, nodes`right, nodes`parent, nodes`red, nodes`lo, nodes`pos, nodes`hi, nodes`bh
      ensures Valid() && nodes == old(nodes) - {node}
      ensures log == old(log) + [Op.Delete(node)]
      ensures Blank(node) && rotations <= 3
    {
      assert NodeOk(node);
      ghost var before, k := Contents(), node.pos;
      rotations := DeleteNode(node);
      LogDelete(node, k, before);
    }
  }
}
