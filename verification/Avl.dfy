/**
 * sys/src/libavl/avl.c: balanced search trees of caller-supplied nodes with parent links.
 *
 * A node is an object; the shape of a tree is a ghost value that `Shows` ties to the heap.  Where the
 * source passes the address of the slot a subtree hangs from, the method returns the new subtree
 * and its caller stores it.
 */
module Avls {
  type Links = s: seq<Avl?> | |s| == 2 witness [null, null]

  class Avl {
    const key: int
    var c: Links
    var p: Avl?
    var balance: int

    constructor (key: int)
      ensures this.key == key
    {
      this.key, c, p, balance := key, [null, null], null, 0;
    }
  }

  /** The caller's order. */
  function Cmp(a: Avl, b: Avl): int { if a.key < b.key then -1 else if a.key > b.key then 1 else 0 }

  // ----- shapes -----

  datatype Tree = Leaf | Node(left: Tree, n: Avl, bal: int, right: Tree)

  /** Which child: 0 left, 1 right. */
  type Side = a: int | 0 <= a < 2

  /** The balance that leans to side `a`. */
  function Dir(a: Side): int { if a == 1 then 1 else -1 }

  /** A balance as seen from side `a`. */
  function Toward(a: Side, bal: int): int { if a == 1 then bal else -bal }

  function Other(a: Side): Side { 1 - a }

  ghost function Nodes(t: Tree): set<Avl> { if t.Leaf? then {} else Nodes(t.left) + {t.n} + Nodes(t.right) }

  ghost function Height(t: Tree): nat {
    if t.Leaf? then 0 else 1 + if Height(t.left) < Height(t.right) then Height(t.right) else Height(t.left)
  }

  ghost function Sub(t: Tree, a: Side): Tree
    requires t.Node?
  {
    if a == 0 then t.left else t.right
  }

  /** The tree with `x` on side `a` and `y` on the other. */
  ghost function Make(a: Side, x: Tree, n: Avl, bal: int, y: Tree): (t: Tree)
    ensures t.Node?
  {
    if a == 0 then Node(x, n, bal, y) else Node(y, n, bal, x)
  }

  /** The heap below `q`, whose parent is `p`, has shape `t`. */
  ghost predicate Shows(t: Tree, q: Avl?, p: Avl?)
    reads Nodes(t)
  {
    match t
    case Leaf => q == null
    case Node(l, n, b, r) =>
      && q == n && n.p == p && n.balance == b
      && n !in Nodes(l) && n !in Nodes(r) && Nodes(l) !! Nodes(r)
      && Shows(l, n.c[0], n) && Shows(r, n.c[1], n)
  }

  /** Every balance is the difference in height, and within one. */
  ghost predicate Balanced(t: Tree) {
    t.Node? ==> t.bal == Height(t.right) - Height(t.left) && -1 <= t.bal <= 1 && Balanced(t.left) && Balanced(t.right)
  }

  ghost predicate Below(t: Tree, k: int) { forall x :: x in Nodes(t) ==> x.key < k }
  ghost predicate Above(t: Tree, k: int) { forall x :: x in Nodes(t) ==> k < x.key }

  ghost predicate Ordered(t: Tree) {
    t.Node? ==> Below(t.left, t.n.key) && Above(t.right, t.n.key) && Ordered(t.left) && Ordered(t.right)
  }

  // ----- rotation -----

  /** A tree whose child on side `a` is a node. */
  ghost predicate Leans(t: Tree, a: Side) { t.Node? && Sub(t, a).Node? }

  ghost function Rotated(a: Side, t: Tree): (u: Tree)
    requires Leans(t, a)
    ensures u.Node?
  {
    var r := Sub(t, a);
    Make(a, Sub(r, a), r.n, r.bal, Make(a, Sub(r, Other(a)), t.n, t.bal, Sub(t, Other(a))))
  }

  lemma NodesSub(t: Tree, a: Side)
    requires t.Node?
    ensures Nodes(t) == Nodes(Sub(t, a)) + {t.n} + Nodes(Sub(t, Other(a)))
  {
  }

  lemma RotatedKeeps(a: Side, t: Tree)
    requires Leans(t, a)
    ensures Nodes(Rotated(a, t)) == Nodes(t)
    ensures Ordered(t) ==> Ordered(Rotated(a, t))
  {
    var r, u := Sub(t, a), Rotated(a, t);
    var x, y, z := Sub(r, a), Sub(r, Other(a)), Sub(t, Other(a));
    NodesSub(t, a);
    NodesSub(r, a);
    NodesSub(u, a);
    NodesSub(Sub(u, Other(a)), a);
    if Ordered(t) {
      assert r.n in Nodes(r) && Ordered(r);
      if a == 0 {
        assert Ordered(Node(y, t.n, t.bal, z));
        assert Above(Node(y, t.n, t.bal, z), r.n.key);
      } else {
        assert Ordered(Node(z, t.n, t.bal, y));
        assert Below(Node(z, t.n, t.bal, y), r.n.key);
      }
    }
  }

  /** What `Shows` says of a node and its two sides. */
  ghost predicate ShowsNode(t: Tree, p: Avl?)
    requires t.Node?
    reads Nodes(t)
  {
    && t.n.p == p && t.n.balance == t.bal
    && t.n !in Nodes(t.left) && t.n !in Nodes(t.right) && Nodes(t.left) !! Nodes(t.right)
  }

  lemma ShowsSub(t: Tree, q: Avl?, p: Avl?, a: Side)
    requires t.Node?
    ensures Shows(t, q, p) <==> q == t.n && ShowsNode(t, p) && Shows(Sub(t, a), t.n.c[a], t.n) && Shows(Sub(t, Other(a)), t.n.c[Other(a)], t.n)
  {
  }

  /** The parts of a tree about to be rotated: the child `r` with `x` and `y`, and `z` beside it. */
  ghost predicate Parts(a: Side, s: Avl, r: Avl, x: Tree, y: Tree, z: Tree)
    reads s, r, Nodes(x), Nodes(y), Nodes(z)
  {
    && s != r && s !in Nodes(x) && s !in Nodes(y) && s !in Nodes(z) && r !in Nodes(x) && r !in Nodes(y) && r !in Nodes(z)
    && Nodes(x) !! Nodes(y) && Nodes(x) !! Nodes(z) && Nodes(y) !! Nodes(z)
    && s.c[a] == r && r.p == s && Shows(x, r.c[a], r) && Shows(y, r.c[Other(a)], r) && Shows(z, s.c[Other(a)], s)
  }

  lemma TakeApart(a: Side, t: Tree, s: Avl)
    requires Shows(t, s, s.p) && Leans(t, a)
    ensures Parts(a, s, Sub(t, a).n, Sub(Sub(t, a), a), Sub(Sub(t, a), Other(a)), Sub(t, Other(a)))
    ensures s == t.n && s.balance == t.bal && Sub(t, a).n.balance == Sub(t, a).bal
  {
    ShowsSub(t, s, s.p, a);
    ShowsSub(Sub(t, a), s.c[a], s, a);
    NodesSub(Sub(t, a), a);
  }

  /** `rotate`, its pointer assignments. */
  method Relink(a: Side, s: Avl, r: Avl, ghost x: Tree, ghost y: Tree, ghost z: Tree)
    requires Parts(a, s, r, x, y, z) && s.p != r
    modifies s`c, s`p, r`c, r`p, Nodes(y)`p
    ensures Shows(x, r.c[a], r) && Shows(y, s.c[a], s) && Shows(z, s.c[Other(a)], s)
    ensures r.c[Other(a)] == s && r.p == old(s.p) && s.p == r
  {
    ghost var zq := s.c[Other(a)];
    var n := r.c[Other(a)];
    s.c := s.c[a := n];
    assert Shows(x, r.c[a], r) && Shows(y, n, r) && Shows(z, zq, s);
    if n != null {
      assert n == y.n && n in Nodes(y);
      assert n !in Nodes(x) && n !in Nodes(z);
      assert Shows(y.left, n.c[0], n) && Shows(y.right, n.c[1], n);
      n.p := s;
      assert Shows(y.left, n.c[0], n) && Shows(y.right, n.c[1], n);
    }
    assert Shows(x, r.c[a], r) && Shows(y, n, s) && Shows(z, zq, s);
    r.c := r.c[Other(a) := s];
    r.p := s.p;
    s.p := r;
  }

  /** `rotate`: lift the child on side `a` over its parent. */
  method Rotate(a: Side, s: Avl, ghost t: Tree) returns (r: Avl)
    requires Shows(t, s, s.p) && Leans(t, a) && s.p !in Nodes(t)
    modifies Nodes(t)
    ensures Shows(Rotated(a, t), r, old(s.p)) && r == Sub(t, a).n
  {
    ghost var x, y, z := Sub(Sub(t, a), a), Sub(Sub(t, a), Other(a)), Sub(t, Other(a));
    ghost var inner := Make(a, y, t.n, t.bal, z);
    TakeApart(a, t, s);
    NodesSub(t, a);
    NodesSub(Sub(t, a), a);
    r := s.c[a];
    Relink(a, s, r, x, y, z);
    ShowsSub(inner, s, r, a);
    ShowsSub(Rotated(a, t), r, old(s.p), a);
  }

  method SetBalance(q: Avl, b: int, ghost t: Tree)
    requires Shows(t, q, q.p) && t.Node?
    modifies q`balance
    ensures Shows(t.(bal := b), q, q.p) && q.balance == b
  {
    assert Shows(t.left, q.c[0], q) && Shows(t.right, q.c[1], q);
    q.balance := b;
    assert Shows(t.left, q.c[0], q) && Shows(t.right, q.c[1], q);
  }

  // ----- rebalancing -----

  ghost function SingleTree(a: Side, t: Tree): (u: Tree)
    requires Leans(t, a)
    ensures u.Node?
  {
    var u := Rotated(a, t.(bal := 0));
    u.(bal := 0)
  }

  method Singlerot(a: Side, s: Avl, ghost t: Tree) returns (r: Avl)
    requires Shows(t, s, s.p) && Leans(t, a) && s.p !in Nodes(t)
    modifies Nodes(t)
    ensures Shows(SingleTree(a, t), r, old(s.p))
  {
    SetBalance(s, 0, t);
    r := Rotate(a, s, t.(bal := 0));
    SetBalance(r, 0, Rotated(a, t.(bal := 0)));
  }

  /** The shape of a node whose grandchild between the two is a node. */
  ghost predicate LeansBack(t: Tree, a: Side) { Leans(t, a) && Sub(Sub(t, a), Other(a)).Node? }

  /** ... and with the balances it sets. */
  ghost function DoubleTree(a: Side, t: Tree): (u: Tree)
    requires LeansBack(t, a)
  {
    var r := Sub(t, a);
    var p := Sub(r, Other(a));
    var bs := if p.bal == Dir(a) then -Dir(a) else 0;
    var br := if p.bal == -Dir(a) then Dir(a) else 0;
    Make(a, Make(a, Sub(r, a), r.n, br, Sub(p, a)), p.n, 0, Make(a, Sub(p, Other(a)), t.n, bs, Sub(t, Other(a))))
  }

  ghost function WithChild(a: Side, t: Tree, x: Tree): (u: Tree)
    requires t.Node?
  {
    Make(a, x, t.n, t.bal, Sub(t, Other(a)))
  }

  method SetChildBalance(a: Side, p: Avl, q: Avl, b: int, ghost t: Tree)
    requires Shows(t, p, p.p) && Leans(t, a) && q == p.c[a]
    modifies q`balance
    ensures Shows(WithChild(a, t, Sub(t, a).(bal := b)), p, p.p)
  {
    ghost var x, y := Sub(t, a), Sub(t, Other(a));
    ghost var u := WithChild(a, t, x.(bal := b));
    ShowsSub(t, p, p.p, a);
    assert allocated(Nodes(y)) && allocated(Nodes(x));
    SetBalance(q, b, x);
    assert Shows(y, p.c[Other(a)], p);
    ShowsSub(u, p, p.p, a);
  }

  /** `doublerot`: lift the grandchild between the child on side `a` and the node over both. */
  method Doublerot(a: Side, s: Avl, ghost t: Tree) returns (p: Avl)
    requires Shows(t, s, s.p) && LeansBack(t, a) && s.p !in Nodes(t)
    modifies Nodes(t)
    ensures Shows(DoubleTree(a, t), p, old(s.p))
  {
    ghost var tr, tz, sp := Sub(t, a), Sub(t, Other(a)), s.p;
    ghost var tp := Sub(tr, Other(a));
    var r := s.c[a];
    ghost var t1 := LiftChild(a, s, t);
    p := Rotate(a, s, t1);
    ghost var t2 := Rotated(a, t1);
    var bs := if p.balance == Dir(a) then -Dir(a) else 0;
    var br := if p.balance == -Dir(a) then Dir(a) else 0;
    ShowsSub(t2, p, sp, a);
    assert r.p == p && s.p == p;
    SetChildBalance(Other(a), p, s, bs, t2);
    ghost var t3 := WithChild(Other(a), t2, Sub(t2, Other(a)).(bal := bs));
    SetChildBalance(a, p, r, br, t3);
    ghost var t4 := WithChild(a, t3, Sub(t3, a).(bal := br));
    SetBalance(p, 0, t4);
  }

  /** The first rotation of `doublerot`, inside the child. */
  method LiftChild(a: Side, s: Avl, ghost t: Tree) returns (ghost t1: Tree)
    requires Shows(t, s, s.p) && LeansBack(t, a) && s.p !in Nodes(t)
    modifies s`c, Nodes(Sub(t, a))
    ensures t1 == Make(a, Rotated(Other(a), Sub(t, a)), t.n, t.bal, Sub(t, Other(a)))
    ensures Shows(t1, s, s.p) && Nodes(t1) == Nodes(t) && s.p == old(s.p)
  {
    ghost var tr, tz := Sub(t, a), Sub(t, Other(a));
    ShowsSub(t, s, s.p, a);
    NodesSub(t, a);
    RotatedKeeps(Other(a), tr);
    assert allocated(Nodes(tz));
    var q := Rotate(Other(a), s.c[a], tr);
    assert Shows(tz, s.c[Other(a)], s);
    s.c := s.c[a := q];
    t1 := Make(a, Rotated(Other(a), tr), t.n, t.bal, tz);
    ShowsSub(t1, s, s.p, a);
    NodesSub(t1, a);
  }

  // ----- what rebalancing does to a shape -----

  ghost function Max(x: int, y: int): int { if x < y then y else x }

  lemma HeightSub(t: Tree, a: Side)
    requires t.Node?
    ensures Height(t) == 1 + Max(Height(Sub(t, a)), Height(Sub(t, Other(a))))
    ensures Balanced(t) <==> Toward(a, t.bal) == Height(Sub(t, a)) - Height(Sub(t, Other(a))) && -1 <= t.bal <= 1 && Balanced(Sub(t, a)) && Balanced(Sub(t, Other(a)))
  {
  }

  /** The same elements, still in order, and the same height or one more than `h`. */
  ghost predicate SameElements(t: Tree, u: Tree) { Nodes(u) == Nodes(t) && (Ordered(t) ==> Ordered(u)) }

  lemma BalKeeps(t: Tree, b: int)
    requires t.Node?
    ensures SameElements(t, t.(bal := b)) && Height(t.(bal := b)) == Height(t)
  {
  }

  lemma SingleKeeps(a: Side, t: Tree)
    requires Leans(t, a)
    ensures SameElements(t, SingleTree(a, t))
  {
    BalKeeps(t, 0);
    RotatedKeeps(a, t.(bal := 0));
    BalKeeps(Rotated(a, t.(bal := 0)), 0);
  }

  lemma WithChildKeeps(a: Side, t: Tree, x: Tree)
    requires t.Node? && SameElements(Sub(t, a), x)
    ensures SameElements(t, WithChild(a, t, x))
  {
  }

  lemma DoubleKeeps(a: Side, t: Tree)
    requires LeansBack(t, a)
    ensures SameElements(t, DoubleTree(a, t))
  {
    var r := Sub(t, a);
    var p := Sub(r, Other(a));
    var bs := if p.bal == Dir(a) then -Dir(a) else 0;
    var br := if p.bal == -Dir(a) then Dir(a) else 0;
    RotatedKeeps(Other(a), r);
    var t1 := WithChild(a, t, Rotated(Other(a), r));
    WithChildKeeps(a, t, Rotated(Other(a), r));
    RotatedKeeps(a, t1);
    var t2 := Rotated(a, t1);
    BalKeeps(Sub(t2, Other(a)), bs);
    WithChildKeeps(Other(a), t2, Sub(t2, Other(a)).(bal := bs));
    var t3 := WithChild(Other(a), t2, Sub(t2, Other(a)).(bal := bs));
    BalKeeps(Sub(t3, a), br);
    WithChildKeeps(a, t3, Sub(t3, a).(bal := br));
    BalKeeps(WithChild(a, t3, Sub(t3, a).(bal := br)), 0);
  }

  /** Side `a` of `t` has just gained one on the other side, and the balance does not show it yet. */
  ghost predicate Stale(t: Tree, a: Side) {
    && t.Node? && Balanced(t.left) && Balanced(t.right) && -1 <= t.bal <= 1
    && Height(Sub(t, a)) - Height(Sub(t, Other(a))) == Toward(a, t.bal) + 1
  }

  lemma StaleLeans(t: Tree, a: Side)
    requires Stale(t, a) && t.bal == Dir(a)
    ensures Leans(t, a) && (Sub(t, a).bal == -Dir(a) ==> LeansBack(t, a))
    ensures Height(Sub(t, a)) == Height(Sub(t, Other(a))) + 2
  {
    HeightSub(Sub(t, a), a);
  }

  lemma MakeBalanced(a: Side, x: Tree, n: Avl, b: int, y: Tree)
    requires Balanced(x) && Balanced(y) && Toward(a, b) == Height(x) - Height(y) && -1 <= b <= 1
    ensures Balanced(Make(a, x, n, b, y)) && Height(Make(a, x, n, b, y)) == 1 + Max(Height(x), Height(y))
  {
  }

  /** A child that leans the same way: one rotation restores the balance and takes one off the height. */
  lemma SingleBalances(t: Tree, a: Side)
    requires Stale(t, a) && t.bal == Dir(a) && Leans(t, a) && Sub(t, a).bal == Dir(a)
    ensures Balanced(SingleTree(a, t)) && Height(SingleTree(a, t)) == Height(t) - 1
  {
    var r := Sub(t, a);
    var x, y, z := Sub(r, a), Sub(r, Other(a)), Sub(t, Other(a));
    HeightSub(t, a);
    HeightSub(r, a);
    MakeBalanced(a, y, t.n, 0, z);
    MakeBalanced(a, x, r.n, 0, Make(a, y, t.n, 0, z));
  }

  ghost function EvenTree(a: Side, t: Tree): (u: Tree)
    requires Leans(t, a)
    ensures u.Node?
  {
    var u := Rotated(a, t);
    u.(bal := -Dir(a))
  }

  /** A child that does not lean: one rotation restores the balance and keeps the height. */
  lemma EvenBalances(t: Tree, a: Side)
    requires Stale(t, a) && t.bal == Dir(a) && Leans(t, a) && Sub(t, a).bal == 0
    ensures Balanced(EvenTree(a, t)) && Height(EvenTree(a, t)) == Height(t)
  {
    var r := Sub(t, a);
    var x, y, z := Sub(r, a), Sub(r, Other(a)), Sub(t, Other(a));
    HeightSub(t, a);
    HeightSub(r, a);
    MakeBalanced(a, y, t.n, t.bal, z);
    MakeBalanced(a, x, r.n, -Dir(a), Make(a, y, t.n, t.bal, z));
  }

  /** A child that leans the other way: two rotations restore the balance and take one off the height. */
  lemma DoubleBalances(t: Tree, a: Side)
    requires Stale(t, a) && t.bal == Dir(a) && LeansBack(t, a) && Sub(t, a).bal == -Dir(a)
    ensures Balanced(DoubleTree(a, t)) && Height(DoubleTree(a, t)) == Height(t) - 1
  {
    var r := Sub(t, a);
    var p := Sub(r, Other(a));
    HeightSub(t, a);
    HeightSub(r, a);
    HeightSub(p, a);
    var x, y, v, z := Sub(r, a), Sub(p, a), Sub(p, Other(a)), Sub(t, Other(a));
    assert Height(p) == Height(z) + 1 && Height(x) == Height(z) && Balanced(p);
    var bs := if p.bal == Dir(a) then -Dir(a) else 0;
    var br := if p.bal == -Dir(a) then Dir(a) else 0;
    MakeBalanced(a, x, r.n, br, y);
    MakeBalanced(a, v, t.n, bs, z);
    MakeBalanced(a, Make(a, x, r.n, br, y), p.n, 0, Make(a, v, t.n, bs, z));
  }

  // ----- the fix routines -----

  /** What `insertfix` makes of a tree whose side `a` has grown, and whether the whole has grown. */
  ghost function InsertFixed(a: Side, t: Tree): (u: Tree)
    requires Stale(t, a)
  {
    if t.bal == 0 then t.(bal := Dir(a))
    else if t.bal == -Dir(a) then t.(bal := 0)
    else
      StaleLeans(t, a);
      if Sub(t, a).bal == Dir(a) || !LeansBack(t, a) then SingleTree(a, t) else DoubleTree(a, t)
  }

  lemma {:induction false} InsertFixedOk(a: Side, t: Tree)
    requires Stale(t, a) && (t.bal == Dir(a) && Leans(t, a) ==> Sub(t, a).bal != 0)
    ensures var u := InsertFixed(a, t);
      SameElements(t, u) && Balanced(u) && (t.bal == 0 ==> u.bal != 0) &&
      Height(u) == Max(Height(Sub(t, a)) - 1, Height(Sub(t, Other(a)))) + 1 + if t.bal == 0 then 1 else 0
  {
    var u := InsertFixed(a, t);
    HeightSub(t, a);
    if t.bal == 0 || t.bal == -Dir(a) {
      BalKeeps(t, u.bal);
      HeightSub(u, a);
    } else {
      StaleLeans(t, a);
      HeightSub(Sub(t, a), a);
      if Sub(t, a).bal == Dir(a) {
        SingleKeeps(a, t);
        SingleBalances(t, a);
      } else {
        DoubleKeeps(a, t);
        DoubleBalances(t, a);
      }
    }
  }

  /** `insertfix`: side `a` has grown.  The flag says whether the whole tree has. */
  method Insertfix(a: Side, s: Avl, ghost t: Tree) returns (r: Avl, fix: bool)
    requires Shows(t, s, s.p) && Stale(t, a) && s.p !in Nodes(t)
    requires t.bal == Dir(a) && Leans(t, a) ==> Sub(t, a).bal != 0
    modifies Nodes(t)
    ensures Shows(InsertFixed(a, t), r, old(s.p)) && (fix <==> t.bal == 0)
  {
    if s.balance == 0 {
      SetBalance(s, Dir(a), t);
      return s, true;
    }
    if s.balance == -Dir(a) {
      SetBalance(s, 0, t);
      return s, false;
    }
    StaleLeans(t, a);
    ShowsSub(t, s, s.p, a);
    assert Balanced(Sub(t, a));
    if s.c[a].balance == Dir(a) {
      r := Singlerot(a, s, t);
    } else {
      r := Doublerot(a, s, t);
    }
    fix := false;
  }

  /** What `deletefix` makes of a tree whose other side has shrunk. */
  ghost function DeleteFixed(a: Side, t: Tree): (u: Tree)
    requires Stale(t, a)
  {
    if t.bal == Dir(a) && (StaleLeans(t, a); Sub(t, a).bal == 0) then StaleLeans(t, a); EvenTree(a, t)
    else InsertFixed(a, t)
  }

  /** Whether the whole tree has shrunk. */
  ghost predicate Shrinks(a: Side, t: Tree)
    requires Stale(t, a)
  {
    t.bal == -Dir(a) || (t.bal == Dir(a) && (StaleLeans(t, a); Sub(t, a).bal != 0))
  }

  lemma {:induction false} DeleteFixedOk(a: Side, t: Tree)
    requires Stale(t, a)
    ensures var u := DeleteFixed(a, t);
      SameElements(t, u) && Balanced(u) &&
      Height(u) == Max(Height(Sub(t, a)), Height(Sub(t, Other(a))) + 1) + 1 - if Shrinks(a, t) then 1 else 0
  {
    HeightSub(t, a);
    if t.bal == Dir(a) {
      StaleLeans(t, a);
      if Sub(t, a).bal == 0 {
        RotatedKeeps(a, t);
        BalKeeps(Rotated(a, t), -Dir(a));
        EvenBalances(t, a);
      } else {
        InsertFixedOk(a, t);
      }
    } else {
      InsertFixedOk(a, t);
    }
  }

  /** `deletefix`: the other side has shrunk.  The flag says whether the whole tree has. */
  method Deletefix(a: Side, s: Avl, ghost t: Tree) returns (r: Avl, fix: bool)
    requires Shows(t, s, s.p) && Stale(t, a) && s.p !in Nodes(t)
    modifies Nodes(t)
    ensures Shows(DeleteFixed(a, t), r, old(s.p)) && (fix <==> Shrinks(a, t))
  {
    if s.balance == 0 {
      SetBalance(s, Dir(a), t);
      return s, false;
    }
    if s.balance == -Dir(a) {
      SetBalance(s, 0, t);
      return s, true;
    }
    StaleLeans(t, a);
    ShowsSub(t, s, s.p, a);
    assert Balanced(Sub(t, a));
    if s.c[a].balance == 0 {
      r := Rotate(a, s, t);
      SetBalance(r, -Dir(a), Rotated(a, t));
      return r, false;
    }
    if s.c[a].balance == Dir(a) {
      r := Singlerot(a, s, t);
    } else {
      r := Doublerot(a, s, t);
    }
    fix := true;
  }

  // ----- insertion -----

  /** Hang a subtree from another node. */
  method Reparent(q: Avl?, p: Avl?, ghost was: Avl?, ghost t: Tree)
    requires Shows(t, q, was)
    modifies Nodes(t)`p
    ensures Shows(t, q, p)
  {
    if q != null {
      assert Shows(t.left, q.c[0], q) && Shows(t.right, q.c[1], q);
      q.p := p;
      assert Shows(t.left, q.c[0], q) && Shows(t.right, q.c[1], q);
    }
  }

  /** Put node `k` in the place of node `q`. */
  method Replace(q: Avl, k: Avl, ghost t: Tree)
    requires Shows(t, q, q.p) && k !in Nodes(t) && t.Node?
    modifies k, Nodes(t.left)`p, Nodes(t.right)`p
    ensures Shows(t.(n := k), k, q.p)
    ensures q.p == old(q.p) && q.c == old(q.c)
  {
    k.c, k.p, k.balance := q.c, q.p, q.balance;
    assert Shows(t.left, q.c[0], q) && Shows(t.right, q.c[1], q);
    assert allocated(Nodes(t.left)) && allocated(Nodes(t.right));
    Reparent(q.c[0], k, q, t.left);
    assert Shows(t.right, q.c[1], q);
    Reparent(q.c[1], k, q, t.right);
    assert Shows(t.left, q.c[0], k);
  }

  /** The tree `u` is `t` with node `k` added, in the place of `old` if that is a node with the same key. */
  ghost predicate Inserted(t: Tree, k: Avl, out: Avl?, u: Tree) {
    Ordered(u) && Balanced(u) && u.Node? && Added(t, k, out, u)
  }

  ghost predicate Added(t: Tree, k: Avl, out: Avl?, u: Tree) {
    if out == null then Nodes(u) == Nodes(t) + {k} && forall x :: x in Nodes(t) ==> x.key != k.key
    else out in Nodes(t) && out.key == k.key && Nodes(u) == Nodes(t) - {out} + {k}
  }

  lemma {:induction false} InsertedBelow(a: Side, t: Tree, k: Avl, out: Avl?, x: Tree)
    requires t.Node? && Ordered(t) && Inserted(Sub(t, a), k, out, x) && k !in Nodes(t)
    requires if a == 0 then k.key < t.n.key else k.key > t.n.key
    ensures Ordered(WithChild(a, t, x)) && Added(t, k, out, WithChild(a, t, x))
  {
    if a == 0 {
      assert Below(x, t.n.key);
    } else {
      assert Above(x, t.n.key);
    }
    AddedBelow(a, t, k, out, x);
  }

  lemma {:induction false} AddedBelow(a: Side, t: Tree, k: Avl, out: Avl?, x: Tree)
    requires t.Node? && Ordered(t) && Added(Sub(t, a), k, out, x)
    requires if a == 0 then k.key < t.n.key else k.key > t.n.key
    ensures Added(t, k, out, WithChild(a, t, x))
  {
    NodesSub(t, a);
    NodesSub(WithChild(a, t, x), a);
    forall y | y in Nodes(Sub(t, Other(a))) ensures y.key != k.key {
    }
  }

  /** Storing the new child in its slot. */
  method Store(a: Side, q: Avl, x: Avl?, ghost u: Tree, ghost t: Tree)
    requires t.Node? && q == t.n && ShowsNode(t, q.p) && Shows(Sub(t, Other(a)), q.c[Other(a)], q)
    requires Shows(u, x, q) && q !in Nodes(u) && Nodes(u) !! Nodes(Sub(t, Other(a)))
    modifies q`c
    ensures Shows(WithChild(a, t, u), q, q.p)
  {
    q.c := q.c[a := x];
    ShowsSub(WithChild(a, t, u), q, q.p, a);
  }

  /** What `insert` makes of `t` once the subtree on side `a` has become `v`. */
  ghost function AfterInsert(a: Side, t: Tree, v: Tree, grew: bool): (u: Tree)
    requires t.Node? && (grew ==> Stale(WithChild(a, t, v), a))
  {
    if grew then InsertFixed(a, WithChild(a, t, v)) else WithChild(a, t, v)
  }

  lemma {:induction false} GrownIsStale(a: Side, t: Tree, v: Tree)
    requires t.Node? && Balanced(t) && Balanced(v) && Height(v) == Height(Sub(t, a)) + 1
    ensures Stale(WithChild(a, t, v), a)
  {
    HeightSub(t, a);
    HeightSub(WithChild(a, t, v), a);
  }

  lemma {:induction false} AfterInsertOk(a: Side, t: Tree, v: Tree, grew: bool, k: Avl, out: Avl?)
    requires t.Node? && Ordered(t) && Balanced(t) && k !in Nodes(t) && Inserted(Sub(t, a), k, out, v)
    requires if a == 0 then k.key < t.n.key else k.key > t.n.key
    requires Height(v) == Height(Sub(t, a)) + if grew then 1 else 0
    requires grew && Sub(t, a).Node? ==> v.bal != 0
    ensures grew ==> Stale(WithChild(a, t, v), a) && (t.bal == Dir(a) ==> v.bal != 0)
    ensures Inserted(t, k, out, AfterInsert(a, t, v, grew)) && (grew && t.bal == 0 ==> AfterInsert(a, t, v, grew).bal != 0)
    ensures Height(AfterInsert(a, t, v, grew)) == Height(t) + if grew && t.bal == 0 then 1 else 0
  {
    var t1 := WithChild(a, t, v);
    InsertedBelow(a, t, k, out, v);
    HeightSub(t, a);
    HeightSub(t1, a);
    if grew {
      GrownIsStale(a, t, v);
      InsertFixedOk(a, t1);
    }
  }

  /** The way back up: store the new child and rebalance if it has grown. */
  method InsertUp(a: Side, q: Avl, child: Avl, grew: bool, ghost t: Tree, ghost v: Tree) returns (r: Avl, fix: bool)
    requires t.Node? && q == t.n && ShowsNode(t, q.p) && Shows(Sub(t, Other(a)), q.c[Other(a)], q)
    requires Shows(v, child, q) && q !in Nodes(v) && Nodes(v) !! Nodes(Sub(t, Other(a)))
    requires q.p != q && q.p !in Nodes(v) && q.p !in Nodes(Sub(t, Other(a)))
    requires grew ==> Stale(WithChild(a, t, v), a) && v.Node? && (t.bal == Dir(a) ==> v.bal != 0)
    modifies q, Nodes(v), Nodes(Sub(t, Other(a)))
    ensures Shows(AfterInsert(a, t, v, grew), r, old(q.p)) && (fix <==> grew && t.bal == 0)
  {
    ghost var t1 := WithChild(a, t, v);
    NodesSub(t1, a);
    Store(a, q, child, v, t);
    if grew {
      r, fix := Insertfix(a, q, t1);
    } else {
      r, fix := q, false;
    }
  }

  /** `insert`: below `q`, whose parent is `p`.  The flag says whether the subtree has become taller. */
  method Insert(q: Avl?, p: Avl?, k: Avl, ghost t: Tree) returns (r: Avl, fix: bool, out: Avl?, ghost u: Tree)
    requires Shows(t, q, p) && Ordered(t) && Balanced(t) && k !in Nodes(t) && p !in Nodes(t) && p != k
    modifies Nodes(t), k
    ensures Shows(u, r, p) && Inserted(t, k, out, u)
    ensures Height(u) == Height(t) + if fix then 1 else 0
    ensures fix && t.Node? ==> u.bal != 0
    decreases t, 1
  {
    if q == null {
      k.c, k.balance, k.p := [null, null], 0, p;
      return k, true, null, Node(Leaf, k, 0, Leaf);
    }
    var c := Cmp(k, q);
    if c == 0 {
      ReplacedOk(t, k);
      Replace(q, k, t);
      return k, false, q, t.(n := k);
    }
    var a: Side := if c > 0 then 1 else 0;
    r, fix, out, u := InsertDown(a, q, p, k, t);
  }

  lemma {:induction false} SlotFree(a: Side, t: Tree, k: Avl, out: Avl?, v: Tree, p: Avl?)
    requires t.Node? && Added(Sub(t, a), k, out, v) && k !in Nodes(t) && p !in Nodes(t) && p != k
    requires t.n !in Nodes(t.left) && t.n !in Nodes(t.right) && Nodes(t.left) !! Nodes(t.right)
    ensures t.n !in Nodes(v) && Nodes(v) !! Nodes(Sub(t, Other(a))) && p != t.n && p !in Nodes(v) && p !in Nodes(Sub(t, Other(a)))
    ensures Nodes(v) <= Nodes(t) + {k} && Nodes(Sub(t, Other(a))) <= Nodes(t)
  {
    NodesSub(t, a);
  }

  /** The recursive call and the way back up from it. */
  method InsertDown(a: Side, q: Avl, p: Avl?, k: Avl, ghost t: Tree) returns (r: Avl, fix: bool, out: Avl?, ghost u: Tree)
    requires Shows(t, q, p) && Ordered(t) && Balanced(t) && k !in Nodes(t) && p !in Nodes(t) && p != k
    requires if a == 0 then k.key < q.key else k.key > q.key
    modifies Nodes(t), k
    ensures Shows(u, r, p) && Inserted(t, k, out, u)
    ensures Height(u) == Height(t) + if fix then 1 else 0
    ensures fix ==> u.bal != 0
    decreases t, 0
  {
    ghost var x, y := Sub(t, a), Sub(t, Other(a));
    ShowsSub(t, q, p, a);
    NodesSub(t, a);
    assert allocated(Nodes(y));
    var child, grew;
    ghost var v;
    child, grew, out, v := Insert(q.c[a], q, k, x);
    assert ShowsNode(t, p) && Shows(y, q.c[Other(a)], q);
    SlotFree(a, t, k, out, v, p);
    AfterInsertOk(a, t, v, grew, k, out);
    r, fix := InsertUp(a, q, child, grew, t, v);
    u := AfterInsert(a, t, v, grew);
  }

  lemma ReplacedOk(t: Tree, k: Avl)
    requires t.Node? && Ordered(t) && Balanced(t) && k !in Nodes(t) && k.key == t.n.key && t.n !in Nodes(t.left) && t.n !in Nodes(t.right)
    ensures Inserted(t, k, t.n, t.(n := k)) && Height(t.(n := k)) == Height(t)
  {
  }

  // ----- deletion -----

  /** The tree `u` is `t` without the node `e`, or `t` if that is null. */
  ghost predicate Cut(t: Tree, e: Avl?, u: Tree) {
    if e == null then Nodes(u) == Nodes(t) else e in Nodes(t) && Nodes(u) == Nodes(t) - {e}
  }

  ghost predicate Removed(t: Tree, e: Avl?, u: Tree) { Ordered(u) && Balanced(u) && Cut(t, e, u) }

  /** What is made of `t` once the subtree on side `a` has become `v`. */
  ghost function AfterDelete(a: Side, t: Tree, v: Tree, shrank: bool): (u: Tree)
    requires t.Node? && (shrank ==> Stale(WithChild(a, t, v), Other(a)))
  {
    if shrank then DeleteFixed(Other(a), WithChild(a, t, v)) else WithChild(a, t, v)
  }

  ghost predicate ShrinksToo(a: Side, t: Tree, v: Tree, shrank: bool)
    requires t.Node? && (shrank ==> Stale(WithChild(a, t, v), Other(a)))
  {
    shrank && Shrinks(Other(a), WithChild(a, t, v))
  }

  lemma {:induction false} ShrunkIsStale(a: Side, t: Tree, v: Tree)
    requires t.Node? && Balanced(t) && Balanced(v) && Height(v) + 1 == Height(Sub(t, a))
    ensures Stale(WithChild(a, t, v), Other(a))
  {
    HeightSub(t, a);
    HeightSub(WithChild(a, t, v), Other(a));
  }

  lemma {:induction false} CutBelow(a: Side, t: Tree, e: Avl?, v: Tree)
    requires t.Node? && Ordered(t) && Ordered(v) && Cut(Sub(t, a), e, v)
    ensures Ordered(WithChild(a, t, v)) && Cut(t, e, WithChild(a, t, v))
  {
    NodesSub(t, a);
    NodesSub(WithChild(a, t, v), a);
    if e != null {
      assert e != t.n;
      forall y | y in Nodes(Sub(t, Other(a))) ensures y != e {
        assert y.key != e.key;
      }
    }
    if a == 0 {
      assert Below(v, t.n.key);
    } else {
      assert Above(v, t.n.key);
    }
  }

  lemma {:induction false} AfterDeleteOk(a: Side, t: Tree, v: Tree, shrank: bool, e: Avl?)
    requires t.Node? && Ordered(t) && Balanced(t) && Removed(Sub(t, a), e, v)
    requires Height(v) + (if shrank then 1 else 0) == Height(Sub(t, a))
    ensures shrank ==> Stale(WithChild(a, t, v), Other(a))
    ensures Removed(t, e, AfterDelete(a, t, v, shrank))
    ensures Height(AfterDelete(a, t, v, shrank)) + (if ShrinksToo(a, t, v, shrank) then 1 else 0) == Height(t)
  {
    if shrank {
      ShrunkIsStale(a, t, v);
      AfterShrinkOk(a, t, v, e);
    } else {
      CutBelow(a, t, e, v);
      SameHeightKeeps(a, t, v);
    }
  }

  lemma {:induction false} AfterShrinkOk(a: Side, t: Tree, v: Tree, e: Avl?)
    requires t.Node? && Ordered(t) && Balanced(t) && Removed(Sub(t, a), e, v)
    requires Height(v) + 1 == Height(Sub(t, a)) && Stale(WithChild(a, t, v), Other(a))
    ensures var b, t1 := Other(a), WithChild(a, t, v);
      Removed(t, e, DeleteFixed(b, t1)) && Height(DeleteFixed(b, t1)) + (if Shrinks(b, t1) then 1 else 0) == Height(t)
  {
    CutBelow(a, t, e, v);
    ShrunkHeight(a, t, v);
    DeleteFixedOk(Other(a), WithChild(a, t, v));
  }

  lemma {:induction false} ShrunkHeight(a: Side, t: Tree, v: Tree)
    requires t.Node? && Height(v) + 1 == Height(Sub(t, a))
    ensures var t1 := WithChild(a, t, v); Height(t) == Max(Height(Sub(t1, Other(a))), Height(Sub(t1, a)) + 1) + 1
  {
    HeightSub(t, a);
  }

  lemma {:induction false} SameHeightKeeps(a: Side, t: Tree, v: Tree)
    requires t.Node? && Balanced(t) && Balanced(v) && Height(v) == Height(Sub(t, a))
    ensures Balanced(WithChild(a, t, v)) && Height(WithChild(a, t, v)) == Height(t)
  {
    HeightSub(t, a);
    HeightSub(WithChild(a, t, v), a);
  }

  /** The way back up: store the new child and rebalance if it has shrunk. */
  method DeleteUp(a: Side, q: Avl, child: Avl?, shrank: bool, ghost t: Tree, ghost v: Tree) returns (r: Avl, fix: bool)
    requires t.Node? && q == t.n && ShowsNode(t, q.p) && Shows(Sub(t, Other(a)), q.c[Other(a)], q)
    requires Shows(v, child, q) && q !in Nodes(v) && Nodes(v) !! Nodes(Sub(t, Other(a)))
    requires q.p != q && q.p !in Nodes(v) && q.p !in Nodes(Sub(t, Other(a)))
    requires shrank ==> Stale(WithChild(a, t, v), Other(a))
    modifies q, Nodes(v), Nodes(Sub(t, Other(a)))
    ensures Shows(AfterDelete(a, t, v, shrank), r, old(q.p)) && (fix <==> ShrinksToo(a, t, v, shrank))
  {
    ghost var t1 := WithChild(a, t, v);
    NodesSub(t1, a);
    Store(a, q, child, v, t);
    if shrank {
      r, fix := Deletefix(Other(a), q, t1);
    } else {
      r, fix := q, false;
    }
  }

  lemma {:induction false} SlotFreed(a: Side, t: Tree, e: Avl?, v: Tree, p: Avl?)
    requires t.Node? && Cut(Sub(t, a), e, v) && p !in Nodes(t)
    requires t.n !in Nodes(t.left) && t.n !in Nodes(t.right) && Nodes(t.left) !! Nodes(t.right)
    ensures t.n !in Nodes(v) && Nodes(v) !! Nodes(Sub(t, Other(a))) && p != t.n && p !in Nodes(v) && p !in Nodes(Sub(t, Other(a)))
    ensures Nodes(v) <= Nodes(t) && Nodes(Sub(t, Other(a))) <= Nodes(t) && e !in Nodes(v)
    ensures e != null ==> e in Nodes(t) && e != t.n && e !in Nodes(Sub(t, Other(a)))
  {
    NodesSub(t, a);
  }

  /** `deletemin`: cut out the node with the least key. */
  method Deletemin(q: Avl, p: Avl?, ghost t: Tree) returns (r: Avl?, fix: bool, e: Avl, ghost u: Tree)
    requires Shows(t, q, p) && Ordered(t) && Balanced(t) && p !in Nodes(t)
    modifies Nodes(t)
    ensures Shows(u, r, p) && Removed(t, e, u) && Above(u, e.key)
    ensures Height(u) + (if fix then 1 else 0) == Height(t)
    decreases t
  {
    ghost var x, y := t.left, t.right;
    ShowsSub(t, q, p, 0);
    NodesSub(t, 0);
    if q.c[0] == null {
      Reparent(q.c[1], q.p, q, y);
      return q.c[1], true, q, y;
    }
    assert allocated(Nodes(y));
    var child, shrank;
    ghost var v;
    child, shrank, e, v := Deletemin(q.c[0], q, x);
    assert ShowsNode(t, p) && Shows(y, q.c[1], q);
    SlotFreed(0, t, e, v, p);
    AfterDeleteOk(0, t, v, shrank, e);
    r, fix := DeleteUp(0, q, child, shrank, t, v);
    u := AfterDelete(0, t, v, shrank);
    LeastStays(t, e, v, u);
  }

  lemma {:induction false} LeastStays(t: Tree, e: Avl, v: Tree, u: Tree)
    requires t.Node? && Ordered(t) && Cut(t.left, e, v) && Above(v, e.key) && Cut(t, e, u)
    ensures Above(u, e.key)
  {
    assert e in Nodes(t.left);
    forall x | x in Nodes(u) ensures e.key < x.key {
      assert x in Nodes(t);
      if x in Nodes(t.left) {
        assert x in Nodes(v);
      }
    }
  }

  /** `delete`, at the node to be cut out: its successor, the least node on its right, takes its place. */
  method DeleteHere(q: Avl, p: Avl?, ghost t: Tree) returns (r: Avl?, fix: bool, ghost u: Tree)
    requires Shows(t, q, p) && Ordered(t) && Balanced(t) && p !in Nodes(t)
    modifies Nodes(t)
    ensures Shows(u, r, p) && Removed(t, q, u)
    ensures Height(u) + (if fix then 1 else 0) == Height(t)
  {
    ghost var x, y := t.left, t.right;
    ShowsSub(t, q, p, 0);
    NodesSub(t, 0);
    HeightSub(t, 0);
    if q.c[1] == null {
      Reparent(q.c[0], q.p, q, x);
      return q.c[0], true, x;
    }
    assert allocated(Nodes(x));
    var child, shrank, e;
    ghost var v;
    child, shrank, e, v := Deletemin(q.c[1], q, y);
    assert ShowsNode(t, p) && Shows(x, q.c[0], q);
    r, fix, u := PutSuccessor(q, p, e, child, shrank, t, v);
  }

  /** The tree with the successor in the place of the node. */
  ghost function Succeeded(t: Tree, e: Avl, v: Tree): (u: Tree)
    requires t.Node?
    ensures u.Node?
  {
    Node(t.left, e, t.bal, v)
  }

  lemma {:induction false} SucceededOrdered(t: Tree, e: Avl, v: Tree)
    requires t.Node? && Ordered(t) && Removed(t.right, e, v) && Above(v, e.key)
    requires t.n !in Nodes(t.left) && t.n !in Nodes(t.right)
    ensures Ordered(Succeeded(t, e, v)) && Cut(t, t.n, Succeeded(t, e, v))
  {
    assert e in Nodes(t.right);
    forall x | x in Nodes(t.left) ensures x.key < e.key && x != e {
      assert x.key < t.n.key;
    }
  }

  lemma {:induction false} SucceededHeight(t: Tree, e: Avl, v: Tree, shrank: bool)
    requires t.Node? && Balanced(t) && Balanced(v) && Height(v) + (if shrank then 1 else 0) == Height(t.right)
    ensures var u := Succeeded(t, e, v); if shrank then Stale(u, 0) else Balanced(u) && Height(u) == Height(t)
    ensures shrank ==> Height(t) == Max(Height(t.left), Height(v) + 1) + 1
  {
    if shrank {
      ShrunkIsStale(1, t, v);
      ShrunkHeight(1, t, v);
    } else {
      SameHeightKeeps(1, t, v);
    }
  }

  /** Copying the node into its successor, once that has been cut out. */
  method PutInPlace(q: Avl, p: Avl?, e: Avl, child: Avl?, ghost t: Tree, ghost v: Tree)
    requires t.Node? && q == t.n && ShowsNode(t, p) && Shows(t.left, q.c[0], q) && Shows(v, child, q)
    requires p !in Nodes(t) && Cut(t.right, e, v)
    modifies Nodes(t)
    ensures Shows(Succeeded(t, e, v), e, p) && e.p == p && Nodes(Succeeded(t, e, v)) <= Nodes(t) && p !in Nodes(Succeeded(t, e, v))
  {
    ghost var t1 := WithChild(1, t, v);
    SlotFreed(1, t, e, v, p);
    Store(1, q, child, v, t);
    assert e !in Nodes(t1) && Nodes(t1) <= Nodes(t);
    Replace(q, e, t1);
    assert Succeeded(t, e, v) == t1.(n := e);
  }

  method PutSuccessor(q: Avl, p: Avl?, e: Avl, child: Avl?, shrank: bool, ghost t: Tree, ghost v: Tree) returns (r: Avl, fix: bool, ghost u: Tree)
    requires t.Node? && q == t.n && ShowsNode(t, p) && Shows(t.left, q.c[0], q) && Shows(v, child, q)
    requires Ordered(t) && Balanced(t) && p !in Nodes(t) && Removed(t.right, e, v) && Above(v, e.key)
    requires Height(v) + (if shrank then 1 else 0) == Height(t.right)
    modifies Nodes(t)
    ensures Shows(u, r, p) && Removed(t, q, u)
    ensures Height(u) + (if fix then 1 else 0) == Height(t)
  {
    SucceededOrdered(t, e, v);
    SucceededHeight(t, e, v, shrank);
    PutInPlace(q, p, e, child, t, v);
    u := Succeeded(t, e, v);
    if shrank {
      DeleteFixedOk(0, u);
      r, fix := Deletefix(0, e, u);
      u := DeleteFixed(0, u);
    } else {
      r, fix := e, false;
    }
  }

  /** `delete`: below `q`.  The flag says whether the subtree has become lower. */
  method Delete(q: Avl?, p: Avl?, k: Avl, ghost t: Tree) returns (r: Avl?, fix: bool, out: Avl?, ghost u: Tree)
    requires Shows(t, q, p) && Ordered(t) && Balanced(t) && p !in Nodes(t)
    modifies Nodes(t)
    ensures Shows(u, r, p) && Removed(t, out, u)
    ensures if out == null then forall x :: x in Nodes(t) ==> x.key != k.key else out.key == k.key
    ensures Height(u) + (if fix then 1 else 0) == Height(t)
    decreases t
  {
    if q == null {
      return null, false, null, t;
    }
    var c := Cmp(k, q);
    if c == 0 {
      out := q;
      r, fix, u := DeleteHere(q, p, t);
      return;
    }
    var a: Side := if c > 0 then 1 else 0;
    ghost var x, y := Sub(t, a), Sub(t, Other(a));
    ShowsSub(t, q, p, a);
    NodesSub(t, a);
    assert allocated(Nodes(y));
    var child, shrank;
    ghost var v;
    child, shrank, out, v := Delete(q.c[a], q, k, x);
    assert ShowsNode(t, p) && Shows(y, q.c[Other(a)], q);
    SlotFreed(a, t, out, v, p);
    AfterDeleteOk(a, t, v, shrank, out);
    r, fix := DeleteUp(a, q, child, shrank, t, v);
    u := AfterDelete(a, t, v, shrank);
  }

  // ----- how low the tree stays -----

  ghost function Fib(n: nat): nat { if n < 2 then n else Fib(n - 2) + Fib(n - 1) }

  /** Apart trees, as `Shows` keeps them: no node occurs twice. */
  ghost predicate Apart(t: Tree) {
    t.Node? ==> t.n !in Nodes(t.left) && t.n !in Nodes(t.right) && Nodes(t.left) !! Nodes(t.right) && Apart(t.left) && Apart(t.right)
  }

  ghost function Size(t: Tree): nat { if t.Leaf? then 0 else Size(t.left) + 1 + Size(t.right) }

  lemma {:induction false} SizeIsCount(t: Tree)
    requires Apart(t)
    ensures Size(t) == |Nodes(t)|
  {
    if t.Node? {
      SizeIsCount(t.left);
      SizeIsCount(t.right);
      assert |Nodes(t.left) + {t.n}| == |Nodes(t.left)| + 1;
      assert |(Nodes(t.left) + {t.n}) + Nodes(t.right)| == |Nodes(t.left) + {t.n}| + |Nodes(t.right)|;
    }
  }

  lemma {:induction false} SizeBound(t: Tree)
    requires Balanced(t)
    ensures Size(t) + 1 >= Fib(Height(t) + 2)
  {
    if t.Node? {
      SizeBound(t.left);
      SizeBound(t.right);
      FibSum(Height(t.left), Height(t.right), Size(t.left), Size(t.right));
    } else {
      assert Fib(2) == 1;
    }
  }

  function Pow2(n: nat): nat { if n == 0 then 1 else 2 * Pow2(n - 1) }

  lemma {:induction false} FibDoubles(h: nat)
    ensures Fib(h + 2) >= Pow2(h / 2)
    ensures Fib(h + 3) >= Fib(h + 2)
  {
    if h >= 2 {
      FibDoubles(h - 2);
      assert h / 2 - 1 == (h - 2) / 2;
      assert Fib(h + 2) == Fib(h) + Fib(h + 1) && Fib(h + 3) == Fib(h + 1) + Fib(h + 2);
    }
  }

  lemma {:induction false} ShowsApart(t: Tree, q: Avl?, p: Avl?)
    requires Shows(t, q, p)
    ensures Apart(t)
    decreases t
  {
    if t.Node? {
      ShowsApart(t.left, t.n.c[0], t.n);
      ShowsApart(t.right, t.n.c[1], t.n);
    }
  }

  /** A balanced tree of height `h` has at least `Fib(h + 2) - 1` nodes (Knuth, volume 3, section 6.2.3, theorem A). */
  lemma {:induction false} HeightIsLogarithmic(t: Tree)
    requires Balanced(t) && Apart(t)
    ensures |Nodes(t)| + 1 >= Fib(Height(t) + 2)
  {
    SizeBound(t);
    SizeIsCount(t);
  }

  lemma {:induction false} FibSum(l: nat, r: nat, m: nat, n: nat)
    requires -1 <= r - l <= 1 && m + 1 >= Fib(l + 2) && n + 1 >= Fib(r + 2)
    ensures (m + 1 + n) + 1 >= Fib(1 + (if l < r then r else l) + 2)
  {
    FibSplit(l, r);
  }

  lemma {:induction false} FibSplit(l: nat, r: nat)
    requires -1 <= r - l <= 1
    ensures Fib((if l < r then r else l) + 3) <= Fib(l + 2) + Fib(r + 2)
  {
    if l == r {
      assert Fib(l + 3) == Fib(l + 1) + Fib(l + 2);
      FibGrows(l + 1);
    } else if l < r {
      assert Fib(r + 3) == Fib(r + 1) + Fib(r + 2);
    } else {
      assert Fib(l + 3) == Fib(l + 1) + Fib(l + 2);
    }
  }

  lemma {:induction false} FibGrows(n: nat)
    ensures Fib(n) <= Fib(n + 1)
  {
  }

  // ----- finding one's way -----

  /** Node `x` lies beyond `q` towards side `a`. */
  predicate Beyond(a: Side, q: Avl, x: Avl) { if a == 1 then x.key > q.key else x.key < q.key }

  ghost predicate SubOf(older u: Tree, t: Tree) { u == t || (t.Node? && (SubOf(u, t.left) || SubOf(u, t.right))) }

  lemma {:induction false} SubShows(t: Tree, q: Avl?, p: Avl?, u: Tree)
    requires Shows(t, q, p) && SubOf(u, t) && u.Node?
    ensures Nodes(u) <= Nodes(t) && Shows(u, u.n, u.n.p)
    ensures if u == t then u.n.p == p else ParentOf(t, u, u.n.p)
    decreases t
  {
    if u != t {
      var a: Side := if SubOf(u, t.left) then 0 else 1;
      SubShows(Sub(t, a), t.n.c[a], t.n, u);
      if u == Sub(t, a) {
        assert IsParent(t, t, u);
      } else {
        var w :| SubOf(w, Sub(t, a)) && IsParent(Sub(t, a), w, u) && w.n == u.n.p;
        assert SubOf(w, t) && IsParent(t, w, u);
      }
    }
  }

  ghost predicate IsParent(t: Tree, w: Tree, u: Tree) { SubOf(w, t) && w.Node? && (w.left == u || w.right == u) }

  ghost predicate ParentOf(t: Tree, u: Tree, p: Avl?) { exists w :: SubOf(w, t) && IsParent(t, w, u) && w.n == p }

  lemma {:induction false} FindNode(t: Tree, x: Avl) returns (u: Tree)
    requires x in Nodes(t)
    ensures SubOf(u, t) && u.Node? && u.n == x
    decreases t
  {
    if x == t.n {
      u := t;
    } else if x in Nodes(t.left) {
      u := FindNode(t.left, x);
    } else {
      u := FindNode(t.right, x);
    }
  }

  /** The keys outside a subtree are all below or all above those inside. */
  lemma {:induction false} Interval(t: Tree, u: Tree)
    requires Ordered(t) && SubOf(u, t)
    ensures Ordered(u) && Nodes(u) <= Nodes(t)
    ensures forall x :: x in Nodes(t) && x !in Nodes(u) ==> Below(u, x.key) || Above(u, x.key)
    decreases t
  {
    if u != t {
      var a: Side := if SubOf(u, t.left) then 0 else 1;
      var s, o := Sub(t, a), Sub(t, Other(a));
      Interval(s, u);
      NodesSub(t, a);
      forall x | x in Nodes(t) && x !in Nodes(u) ensures Below(u, x.key) || Above(u, x.key) {
        if x !in Nodes(s) {
          assert a == 0 ==> x.key >= t.n.key;
          assert a == 1 ==> x.key <= t.n.key;
        }
      }
    }
  }

  /** Node `n` is the last of `u` towards side `d`. */
  ghost predicate Last(u: Tree, d: Side, n: Avl) {
    n in Nodes(u) && forall x :: x in Nodes(u) ==> x == n || Beyond(d, x, n)
  }

  /** Follow the links on side `d` to the end. */
  method Follow(q: Avl, d: Side, ghost t: Tree, ghost p: Avl?) returns (n: Avl)
    requires Shows(t, q, p) && Ordered(t)
    ensures Last(t, d, n)
  {
    n := q;
    ghost var u, up := t, p;
    NodesSub(t, d);
    while n.c[d] != null
      invariant Shows(u, n, up) && Ordered(u) && Nodes(u) <= Nodes(t) && u.Node?
      invariant forall x :: x in Nodes(t) && x !in Nodes(u) ==> forall y :: y in Nodes(u) ==> Beyond(d, x, y)
      decreases u
    {
      ShowsSub(u, n, up, d);
      NodesSub(u, d);
      n, u, up := n.c[d], Sub(u, d), n;
    }
    ShowsSub(u, n, up, d);
    NodesSub(u, d);
  }

  /** What `avlnext` (side 1) and `avlprev` (side 0) promise: the nearest node beyond, if there is one. */
  ghost predicate Nearest(t: Tree, a: Side, q: Avl, r: Avl?) {
    if r == null then forall x :: x in Nodes(t) ==> !Beyond(a, q, x)
    else r in Nodes(t) && Beyond(a, q, r) && forall x :: x in Nodes(t) && Beyond(a, q, x) ==> x == r || Beyond(a, r, x)
  }

  /** Nothing in `u`, which holds `q`, lies beyond `q`. */
  ghost predicate Spent(u: Tree, a: Side, q: Avl) { q in Nodes(u) && forall x :: x in Nodes(u) ==> !Beyond(a, q, x) }

  lemma {:induction false} SpentUp(t: Tree, w: Tree, u: Tree, a: Side, q: Avl)
    requires Ordered(t) && SubOf(w, t) && w.Node? && Spent(u, a, q)
    ensures Sub(w, a) == u ==> Spent(w, a, q)
    ensures Sub(w, Other(a)) == u ==> Nearest(t, a, q, w.n)
  {
    Interval(t, w);
    NodesSub(w, a);
    assert w.n in Nodes(w);
    if Sub(w, Other(a)) == u {
      forall x | x in Nodes(t) && Beyond(a, q, x) ensures x == w.n || Beyond(a, w.n, x) {
        if x !in Nodes(w) {
          assert q in Nodes(w);
        }
      }
    }
  }

  lemma {:induction false} RightmostOfSub(t: Tree, u: Tree, a: Side, n: Avl)
    requires Ordered(t) && SubOf(u, t) && u.Node? && Last(Sub(u, a), Other(a), n)
    ensures Nearest(t, a, u.n, n)
  {
    Interval(t, u);
    NodesSub(u, a);
    assert u.n in Nodes(u) && n in Nodes(u);
    forall x | x in Nodes(t) && Beyond(a, u.n, x) ensures x == n || Beyond(a, n, x) {
    }
  }

  /** `walk1`: down if there is something on side `a`, else up to the first ancestor reached from its other side. */
  method Walk1(a: Side, q0: Avl, root: Avl?, ghost t: Tree) returns (p: Avl?)
    requires Shows(t, root, null) && Ordered(t) && q0 in Nodes(t)
    ensures Nearest(t, a, q0, p)
  {
    ghost var u := FindNode(t, q0);
    SubShows(t, root, null, u);
    Interval(t, u);
    ShowsSub(u, q0, q0.p, a);
    NodesSub(u, a);
    if q0.c[a] != null {
      p := Follow(q0.c[a], Other(a), Sub(u, a), q0);
      RightmostOfSub(t, u, a, p);
    } else {
      p := WalkUp(a, q0, root, t, u);
    }
  }

  method WalkUp(a: Side, q0: Avl, root: Avl?, ghost t: Tree, ghost u0: Tree) returns (p: Avl?)
    requires Shows(t, root, null) && Ordered(t) && SubOf(u0, t) && u0.Node? && u0.n == q0 && Spent(u0, a, q0)
    ensures Nearest(t, a, q0, p)
  {
    ghost var u := u0;
    SubShows(t, root, null, u);
    var q := q0;
    p := q.p;
    while p != null && p.c[a] == q
      invariant Shows(t, root, null) && SubOf(u, t) && u.Node? && u.n == q && p == q.p && Spent(u, a, q0) && Shows(u, q, p)
      invariant if u == t then p == null else ParentOf(t, u, p)
      decreases Nodes(t) - Nodes(u)
    {
      u := Climb(t, root, u, a, q0);
      q := p;
      p := p.p;
    }
    if p != null {
      LastClimb(t, root, u, a, q0, p);
    }
  }

  /** One step up from a subtree reached on side `a` of its parent. */
  lemma {:induction false} Climb(t: Tree, root: Avl?, u: Tree, a: Side, q0: Avl) returns (w: Tree)
    requires Shows(t, root, null) && Ordered(t) && SubOf(u, t) && u.Node? && Spent(u, a, q0)
    requires u.n.p != null && u != t && ParentOf(t, u, u.n.p) && u.n.p.c[a] == u.n
    ensures SubOf(w, t) && w.Node? && w.n == u.n.p && Spent(w, a, q0) && Shows(w, w.n, w.n.p) && Nodes(u) < Nodes(w) <= Nodes(t)
    ensures if w == t then w.n.p == null else ParentOf(t, w, w.n.p)
  {
    w :| SubOf(w, t) && IsParent(t, w, u) && w.n == u.n.p;
    SubShows(t, root, null, w);
    ShowsSub(w, w.n, w.n.p, a);
    SpentUp(t, w, u, a, q0);
    assert w.n in Nodes(w) && w.n !in Nodes(u);
  }

  /** The step up from a subtree that is not on side `a` of its parent ends the walk. */
  lemma {:induction false} LastClimb(t: Tree, root: Avl?, u: Tree, a: Side, q0: Avl, p: Avl)
    requires Shows(t, root, null) && Ordered(t) && SubOf(u, t) && u.Node? && Spent(u, a, q0)
    requires u != t && ParentOf(t, u, p) && p.c[a] != u.n && Shows(u, u.n, p)
    ensures Nearest(t, a, q0, p)
  {
    var w :| SubOf(w, t) && IsParent(t, w, u) && w.n == p;
    SubShows(t, root, null, w);
    ShowsSub(w, w.n, w.n.p, a);
    SpentUp(t, w, u, a, q0);
  }

  /** What `avllookup` promises: the node with the key; failing that, the nearest above for `d > 0`, below for `d < 0`. */
  ghost predicate Looked(t: Tree, k: Avl, d: int, n: Avl?) {
    if n == null then forall x :: x in Nodes(t) ==> x.key != k.key && (d > 0 ==> x.key < k.key) && (d < 0 ==> x.key > k.key)
    else
      && n in Nodes(t)
      && (n.key == k.key
          || (d > 0 && k.key < n.key && forall x :: x in Nodes(t) ==> x.key < k.key || n.key <= x.key)
          || (d < 0 && n.key < k.key && forall x :: x in Nodes(t) ==> x.key > k.key || n.key >= x.key))
  }

  // ----- trees -----

  class Avltree {
    var root: Avl?
    ghost var shape: Tree

    ghost predicate Valid()
      reads this, Nodes(shape)
    {
      Shows(shape, root, null) && Ordered(shape) && Balanced(shape)
    }

    ghost function Elements(): set<Avl>
      reads this
    {
      Nodes(shape)
    }

    /** The height of a tree is at most twice the logarithm, to base two, of its size and one. */
    lemma {:induction false} HeightBound()
      requires Valid()
      ensures |Elements()| + 1 >= Fib(Height(shape) + 2) >= Pow2(Height(shape) / 2)
    {
      ShowsApart(shape, root, null);
      HeightIsLogarithmic(shape);
      FibDoubles(Height(shape));
    }

    constructor ()
      ensures Valid() && Elements() == {}
    {
      root, shape := null, Leaf;
    }

    method Avllookup(k: Avl, d: int) returns (n: Avl?)
      requires Valid()
      ensures Looked(shape, k, d, n)
    {
      n := null;
      var h := root;
      ghost var u, up: Avl? := shape, null;
      while h != null
        invariant Shows(u, h, up) && Ordered(u) && Nodes(u) <= Nodes(shape)
        invariant forall x :: x in Nodes(shape) && x !in Nodes(u) ==> x.key != k.key
        invariant d > 0 ==> forall x :: x in Nodes(shape) && x !in Nodes(u) && x.key > k.key ==> n != null && n.key <= x.key
        invariant d < 0 ==> forall x :: x in Nodes(shape) && x !in Nodes(u) && x.key < k.key ==> n != null && n.key >= x.key
        invariant n != null ==> n in Nodes(shape) && d != 0 && (if d > 0 then n.key > k.key && Below(u, n.key) else n.key < k.key && Above(u, n.key))
        decreases u
      {
        var c := Cmp(k, h);
        if c < 0 {
          if d > 0 { n := h; }
          h, u, up := h.c[0], u.left, h;
          continue;
        }
        if c > 0 {
          if d < 0 { n := h; }
          h, u, up := h.c[1], u.right, h;
          continue;
        }
        return h;
      }
    }

    method Avlinsert(k: Avl) returns (out: Avl?)
      requires Valid() && k !in Elements()
      modifies this, Elements(), k
      ensures Valid() && Added(old(shape), k, out, shape)
    {
      var fix;
      root, fix, out, shape := Insert(root, null, k, shape);
    }

    method Avldelete(k: Avl) returns (out: Avl?)
      requires Valid()
      modifies this, Elements()
      ensures Valid() && Cut(old(shape), out, shape)
      ensures if out == null then forall x :: x in old(Elements()) ==> x.key != k.key else out.key == k.key
    {
      if root == null {
        return null;
      }
      var fix;
      root, fix, out, shape := Delete(root, null, k, shape);
    }

    /** `avlmin` (side 0) and `avlmax` (side 1). */
    method Bottom(d: Side) returns (n: Avl?)
      requires Valid()
      ensures if n == null then Elements() == {} else Last(shape, d, n)
    {
      if root == null {
        return null;
      }
      n := Follow(root, d, shape, null);
    }

    method Avlnext(q: Avl) returns (r: Avl?)
      requires Valid() && q in Elements()
      ensures Nearest(shape, 1, q, r)
    {
      r := Walk1(1, q, root, shape);
    }

    method Avlprev(q: Avl) returns (r: Avl?)
      requires Valid() && q in Elements()
      ensures Nearest(shape, 0, q, r)
    {
      r := Walk1(0, q, root, shape);
    }
  }
}
