/**
 State generation: `state` (register a kernel or merge it with an equal one), `apack` (lay a row of
 gotos over the action table), and the second pass of `output`.
 */
module YaccStates {
  import opened Sets
  import opened YaccClosure
  import opened YaccLr
  import opened YaccSizes

  const DONE := 0
  const MUSTDO := 1
  const MUSTLOOKAHEAD := 2

  /** The states so far and the chains by which `state` finds them. */
  datatype Gen = Gen(states: seq<seq<Item>>, tystate: seq<int>, tstates: seq<int>, ntstates: seq<int>, mstates: seq<int>)

  // ----- kernels -----

  ghost predicate Sorted(ker: seq<Item>) {
    forall a, b :: 0 <= a < b < |ker| ==> ker[a].pitem < ker[b].pitem
  }

  /** All items of the kernel were reached over symbol `c`. */
  ghost predicate Over(x: Ctx, ker: seq<Item>, c: int) {
    forall k :: 0 <= k < |ker| ==> 2 <= ker[k].pitem < |x.mem| && x.mem[ker[k].pitem - 1] == c
  }

  ghost predicate Reached(x: Ctx, k: set<int>)
    requires CtxOk(x)
  {
    exists path :: PathOk(path) && After(x, path) == k
  }

  /** A kernel fit to be registered. */
  ghost predicate KernelGood(x: Ctx, ker: seq<Item>)
    requires CtxOk(x)
  {
    KernelOk(x, ker) && ker != [] && KernelJustified(x, ker) && Reached(x, KerSet(ker))
  }

  ghost predicate SameItems(a: seq<Item>, b: seq<Item>) {
    |a| == |b| && forall k :: 0 <= k < |a| ==> a[k].pitem == b[k].pitem
  }

  lemma SameItemsSameSet(a: seq<Item>, b: seq<Item>)
    requires SameItems(a, b)
    ensures KerSet(a) == KerSet(b)
  {
    forall it | it in KerSet(a) ensures it in KerSet(b) {
      var k :| 0 <= k < |a| && a[k].pitem == it;
      assert b[k].pitem == it;
    }
    forall it | it in KerSet(b) ensures it in KerSet(a) {
      var k :| 0 <= k < |b| && b[k].pitem == it;
      assert a[k].pitem == it;
    }
  }

  /** Sorted kernels with the same items are the same list of items. */
  lemma {:induction false} SameSetSameItems(a: seq<Item>, b: seq<Item>)
    requires Sorted(a) && Sorted(b) && KerSet(a) == KerSet(b)
    ensures SameItems(a, b)
    decreases |a|
  {
    NonemptyKernel(a);
    NonemptyKernel(b);
    if a != [] {
      assert a[|a| - 1].pitem in KerSet(b);
      assert b[|b| - 1].pitem in KerSet(a);
      var i, j := |a| - 1, |b| - 1;
      var k :| 0 <= k < |b| && b[k].pitem == a[i].pitem;
      var l :| 0 <= l < |a| && a[l].pitem == b[j].pitem;
      assert a[i].pitem == b[j].pitem;
      DropLast(a);
      DropLast(b);
      SameSetSameItems(a[..i], b[..j]);
      assert forall m :: 0 <= m < i ==> a[m] == a[..i][m] && b[m] == b[..j][m];
    }
  }

  lemma NonemptyKernel(a: seq<Item>)
    ensures a != [] ==> KerSet(a) != {}
  {
    if a != [] {
      assert a[0].pitem in KerSet(a);
    }
  }

  lemma DropLast(a: seq<Item>)
    requires Sorted(a) && a != []
    ensures KerSet(a[..|a| - 1]) == KerSet(a) - {a[|a| - 1].pitem}
  {
    var n := |a| - 1;
    forall it | it in KerSet(a[..n]) ensures it in KerSet(a) - {a[n].pitem} {
      var k :| 0 <= k < n && a[..n][k].pitem == it;
      assert a[k].pitem == it;
    }
    forall it | it in KerSet(a) - {a[n].pitem} ensures it in KerSet(a[..n]) {
      var k :| 0 <= k < |a| && a[k].pitem == it;
      assert a[..n][k].pitem == it;
    }
  }

  // ----- chains -----

  /** State `j` is on the chain that starts at `head`. */
  ghost predicate InChain(m: seq<int>, head: int, j: int)
    decreases if head < 0 then 0 else head
  {
    0 < head < |m| && (head == j || (m[head] < head && InChain(m, m[head], j)))
  }

  function Head(g: Gen, c: int): int
    requires IsSymbol(g, c)
  {
    if c >= NTBASE then g.ntstates[c - NTBASE] else g.tstates[c]
  }

  predicate IsSymbol(g: Gen, c: int) {
    |g.tstates| <= NTBASE && (0 <= c < |g.tstates| || NTBASE <= c < NTBASE + |g.ntstates|)
  }

  ghost predicate OnChain(g: Gen, c: int, j: int)
    requires IsSymbol(g, c)
  {
    InChain(g.mstates, Head(g, c), j)
  }

  lemma {:induction false} ChainUntouched(m: seq<int>, v: int, head: int, j: int)
    requires head < |m|
    ensures InChain(m + [v], head, j) == InChain(m, head, j)
    decreases if head < 0 then 0 else head
  {
    if 0 < head < |m| && head != j && m[head] < head {
      ChainUntouched(m, v, m[head], j);
    }
  }

  // ----- the invariant -----

  ghost predicate StateOk(x: Ctx, g: Gen, j: int)
    requires CtxOk(x) && 0 <= j < |g.states|
  {
    && KernelGood(x, g.states[j]) && Sorted(g.states[j])
    && (j == 0 ==> g.states[0] == [Item(START, {})])
    && (j > 0 ==> exists c :: IsSymbol(g, c) && c > 1 && Over(x, g.states[j], c) && OnChain(g, c, j))
  }

  ghost predicate ChainEntryOk(x: Ctx, g: Gen, c: int, j: int)
    requires CtxOk(x) && IsSymbol(g, c)
  {
    OnChain(g, c, j) ==> 0 < j < |g.states| && c > 1 && Over(x, g.states[j], c)
  }

  ghost predicate Different(g: Gen, i: int, j: int)
    requires 0 <= i < |g.states| && 0 <= j < |g.states|
  {
    KerSet(g.states[i]) != KerSet(g.states[j])
  }

  ghost predicate GenOk(x: Ctx, g: Gen) {
    && CtxOk(x) && IsItem(x, START) && |x.starts| >= 1
    && |g.tstates| == x.ntokens + 1 <= NTBASE && |g.ntstates| == |x.starts|
    && 1 <= |g.states| == |g.tystate| == |g.mstates| < NSTATES
    && (forall c :: IsSymbol(g, c) ==> 0 <= Head(g, c) < |g.states|)
    && (forall k :: 1 <= k < |g.mstates| ==> 0 <= g.mstates[k] < k)
    && (forall j {:trigger StateOk(x, g, j)} :: 0 <= j < |g.states| ==> StateOk(x, g, j))
    && (forall c, j {:trigger ChainEntryOk(x, g, c, j)} :: IsSymbol(g, c) ==> ChainEntryOk(x, g, c, j))
    && (forall i, j {:trigger Different(g, i, j)} :: 0 <= i < j < |g.states| ==> Different(g, i, j))
  }

  /** State `j` has the kernel `k`. */
  ghost predicate IsState(g: Gen, j: int, k: set<int>) {
    0 <= j < |g.states| && KerSet(g.states[j]) == k
  }

  ghost predicate HasState(g: Gen, k: set<int>) { exists j :: IsState(g, j, k) }

  /** `h` has all the states of `g`, each with the same items. */
  ghost predicate Extends(g: Gen, h: Gen) {
    |g.states| <= |h.states| && forall j :: 0 <= j < |g.states| ==> SameItems(g.states[j], h.states[j])
  }

  // ----- merging -----

  function Merged(ker: seq<Item>, cand: seq<Item>): seq<Item>
    requires |ker| == |cand|
  {
    seq(|ker|, k requires 0 <= k < |ker| => Item(ker[k].pitem, ker[k].look + cand[k].look))
  }

  /** Join the lookaheads of `cand` to state `j`. */
  function Merge(g: Gen, j: int, cand: seq<Item>): Gen
    requires 0 <= j < |g.states| == |g.tystate| && |g.states[j]| == |cand|
  {
    var m := Merged(g.states[j], cand);
    if m == g.states[j] then g else g.(states := g.states[j := m], tystate := g.tystate[j := MUSTDO])
  }

  lemma {:induction false} MergedGood(x: Ctx, ker: seq<Item>, cand: seq<Item>)
    requires CtxOk(x) && KernelGood(x, ker) && KernelGood(x, cand) && SameItems(ker, cand)
    ensures KernelGood(x, Merged(ker, cand)) && SameItems(ker, Merged(ker, cand)) && KerSet(Merged(ker, cand)) == KerSet(ker)
  {
    var m := Merged(ker, cand);
    SameItemsSameSet(ker, cand);
    SameItemsSameSet(ker, m);
    forall i | 0 <= i < |m| ensures IsItem(x, m[i].pitem) && TokenSet(x, m[i].look) {
      assert IsItem(x, ker[i].pitem) && TokenSet(x, cand[i].look) && TokenSet(x, ker[i].look);
    }
    forall i, t | 0 <= i < |m| && t in m[i].look ensures Justified(x, KerSet(m), m[i].pitem, t) {
      if t in ker[i].look {
        assert Justified(x, KerSet(ker), ker[i].pitem, t);
      } else {
        assert Justified(x, KerSet(cand), cand[i].pitem, t);
      }
    }
  }

  lemma {:induction false} MergeStates(x: Ctx, g: Gen, j: int, m: seq<Item>, i: int)
    requires CtxOk(x) && 0 < j < |g.states| && 0 <= i < |g.states| && StateOk(x, g, i) && StateOk(x, g, j)
    requires KernelGood(x, m) && SameItems(g.states[j], m) && |g.tystate| == |g.states|
    ensures StateOk(x, g.(states := g.states[j := m], tystate := g.tystate[j := MUSTDO]), i)
  {
    var h := g.(states := g.states[j := m], tystate := g.tystate[j := MUSTDO]);
    if i > 0 {
      var c :| IsSymbol(g, c) && c > 1 && Over(x, g.states[i], c) && OnChain(g, c, i);
      assert IsSymbol(h, c) && c > 1 && Over(x, h.states[i], c) && OnChain(h, c, i);
    }
  }

  lemma {:induction false} MergeKeeps(x: Ctx, g: Gen, j: int, cand: seq<Item>)
    requires GenOk(x, g) && 0 < j < |g.states| && KernelGood(x, cand) && SameItems(g.states[j], cand)
    ensures GenOk(x, Merge(g, j, cand)) && Extends(g, Merge(g, j, cand))
  {
    var h, m := Merge(g, j, cand), Merged(g.states[j], cand);
    if h != g {
      assert StateOk(x, g, j);
      MergedGood(x, g.states[j], cand);
      forall i | 0 <= i < |h.states| ensures StateOk(x, h, i) {
        assert StateOk(x, g, i);
        MergeStates(x, g, j, m, i);
      }
      forall c, i | IsSymbol(h, c) ensures ChainEntryOk(x, h, c, i) {
        assert ChainEntryOk(x, g, c, i);
        assert OnChain(h, c, i) == OnChain(g, c, i);
      }
      forall a, b | 0 <= a < b < |h.states| ensures Different(h, a, b) {
        assert Different(g, a, b);
      }
      forall c | IsSymbol(h, c) ensures 0 <= Head(h, c) < |h.states| {
        assert IsSymbol(g, c) && Head(h, c) == Head(g, c);
      }
    }
  }

  // ----- adding -----

  /** Register `ker` as a new state entered over `c`. */
  function Add(g: Gen, c: int, ker: seq<Item>): Gen
    requires IsSymbol(g, c)
  {
    var n := |g.states|;
    var h := g.(states := g.states + [ker], tystate := g.tystate + [MUSTDO], mstates := g.mstates + [Head(g, c)]);
    if c >= NTBASE then h.(ntstates := g.ntstates[c - NTBASE := n]) else h.(tstates := g.tstates[c := n])
  }

  lemma {:induction false} AddChains(x: Ctx, g: Gen, c: int, ker: seq<Item>, d: int, j: int)
    requires GenOk(x, g) && IsSymbol(g, c) && IsSymbol(g, d)
    ensures IsSymbol(Add(g, c, ker), d)
    ensures OnChain(Add(g, c, ker), d, j) <==> OnChain(g, d, j) || (d == c && j == |g.states|)
  {
    var h := Add(g, c, ker);
    ChainUntouched(g.mstates, Head(g, c), Head(g, d), j);
    assert ChainEntryOk(x, g, d, j);
    if d == c {
      assert Head(h, d) == |g.states| && h.mstates[|g.states|] == Head(g, c);
    } else {
      assert Head(h, d) == Head(g, d);
    }
  }

  lemma {:induction false} AddKeeps(x: Ctx, g: Gen, c: int, ker: seq<Item>)
    requires GenOk(x, g) && IsSymbol(g, c) && c > 1 && |g.states| + 1 < NSTATES
    requires KernelGood(x, ker) && Sorted(ker) && Over(x, ker, c)
    requires forall j :: OnChain(g, c, j) ==> 0 <= j < |g.states| && !SameItems(g.states[j], ker)
    ensures GenOk(x, Add(g, c, ker)) && Extends(g, Add(g, c, ker))
  {
    var n, h := |g.states|, Add(g, c, ker);
    forall d | IsSymbol(h, d) ensures IsSymbol(g, d) && 0 <= Head(h, d) < |h.states| {
      assert IsSymbol(g, d) && 0 <= Head(g, d) < |g.states|;
    }
    forall j | 0 <= j < |h.states| ensures StateOk(x, h, j) {
      if j < n {
        assert StateOk(x, g, j) && h.states[j] == g.states[j];
        if j > 0 {
          var d :| IsSymbol(g, d) && d > 1 && Over(x, g.states[j], d) && OnChain(g, d, j);
          AddChains(x, g, c, ker, d, j);
          assert IsSymbol(h, d) && d > 1 && Over(x, h.states[j], d) && OnChain(h, d, j);
        }
      } else {
        AddChains(x, g, c, ker, c, j);
        assert IsSymbol(h, c) && c > 1 && Over(x, h.states[j], c) && OnChain(h, c, j);
      }
    }
    forall d, j | IsSymbol(h, d) ensures ChainEntryOk(x, h, d, j) {
      AddChains(x, g, c, ker, d, j);
      assert ChainEntryOk(x, g, d, j);
    }
    forall a, b | 0 <= a < b < |h.states| ensures Different(h, a, b) {
      if b < n {
        assert Different(g, a, b);
      } else {
        NewIsDifferent(x, g, c, ker, a);
      }
    }
  }

  /** A kernel that equals none on its own chain equals no state at all. */
  lemma {:induction false} NewIsDifferent(x: Ctx, g: Gen, c: int, ker: seq<Item>, a: int)
    requires GenOk(x, g) && IsSymbol(g, c) && 0 <= a < |g.states|
    requires KernelGood(x, ker) && Sorted(ker) && Over(x, ker, c)
    requires forall j :: OnChain(g, c, j) ==> 0 <= j < |g.states| && !SameItems(g.states[j], ker)
    ensures KerSet(g.states[a]) != KerSet(ker)
  {
    assert StateOk(x, g, a);
    if a == 0 {
      assert g.states[0][0].pitem == START;
      assert START in KerSet(g.states[0]);
      assert forall it :: it in KerSet(ker) ==> it >= 2;
    } else {
      var d :| IsSymbol(g, d) && d > 1 && Over(x, g.states[a], d) && OnChain(g, d, a);
      if d == c {
        if KerSet(g.states[a]) == KerSet(ker) {
          SameSetSameItems(g.states[a], ker);
        }
      } else {
        assert g.states[a][0].pitem in KerSet(g.states[a]);
        assert forall it :: it in KerSet(ker) ==> x.mem[it - 1] == c;
      }
    }
  }

  // ----- sorting a kernel -----

  ghost predicate DistinctItems(ker: seq<Item>) {
    forall i, j :: 0 <= i < j < |ker| ==> ker[i].pitem != ker[j].pitem
  }

  /** From `k + 1` on the list is sorted, and nothing before it is larger. */
  ghost predicate SortedAbove(a: seq<Item>, k: int) {
    forall i, j :: 0 <= i < j < |a| && j > k ==> a[i].pitem <= a[j].pitem
  }

  /** `a[k]` is at least everything from `l + 1` up to it. */
  ghost predicate Tops(a: seq<Item>, l: int, k: int) {
    forall x :: l < x < k < |a| && 0 <= x ==> a[x].pitem <= a[k].pitem
  }

  lemma SwapKeeps(a: seq<Item>, b: seq<Item>, k: int, l: int)
    requires 0 <= l < k < |a| && SortedAbove(a, k) && Tops(a, l, k) && a[l].pitem > a[k].pitem
    requires b == a[k := a[l]][l := a[k]]
    ensures SortedAbove(b, k) && Tops(b, l - 1, k) && multiset(b) == multiset(a)
  {
  }

  lemma ToppedIsSorted(a: seq<Item>, k: int)
    requires 0 < k < |a| && SortedAbove(a, k) && Tops(a, -1, k)
    ensures SortedAbove(a, k - 1)
  {
  }

  lemma TopsOneMore(a: seq<Item>, l: int, k: int)
    requires 0 <= l < k < |a| && Tops(a, l, k) && a[l].pitem <= a[k].pitem
    ensures Tops(a, l - 1, k)
  {
  }

  /** One comparison of the sort, with the exchange it may call for. */
  method Exchange(a: array<Item>, l: int, k: int)
    requires 0 <= l < k < a.Length && SortedAbove(a[..], k) && Tops(a[..], l, k)
    modifies a
    ensures SortedAbove(a[..], k) && Tops(a[..], l - 1, k) && multiset(a[..]) == multiset(old(a[..]))
  {
    ghost var before := a[..];
    if a[l].pitem > a[k].pitem {
      a[k], a[l] := a[l], a[k];
      SwapKeeps(before, a[..], k, l);
    } else {
      TopsOneMore(before, l, k);
    }
  }

  /** The inner loop of the sort: make `a[k]` the biggest up to `k`. */
  method BringUp(a: array<Item>, k: int)
    requires 0 < k < a.Length && SortedAbove(a[..], k)
    modifies a
    ensures SortedAbove(a[..], k - 1) && multiset(a[..]) == multiset(old(a[..]))
  {
    var l := k - 1;
    while l >= 0
      invariant -1 <= l < k
      invariant multiset(a[..]) == multiset(old(a[..])) && SortedAbove(a[..], k) && Tops(a[..], l, k)
      decreases l
    {
      Exchange(a, l, k);
      l := l - 1;
    }
    ToppedIsSorted(a[..], k);
  }

  /** The sort at the head of `state`: bring the biggest to `k`, for `k` from the end down. */
  method SortKernel(cand: seq<Item>) returns (r: seq<Item>)
    requires DistinctItems(cand)
    ensures Sorted(r) && multiset(r) == multiset(cand)
  {
    var a := new Item[|cand|](i requires 0 <= i < |cand| => cand[i]);
    assert a[..] == cand;
    var k := a.Length - 1;
    while k > 0
      invariant -1 <= k < a.Length
      invariant multiset(a[..]) == multiset(cand) && SortedAbove(a[..], k)
      decreases k
    {
      BringUp(a, k);
      k := k - 1;
    }
    r := a[..];
    PermutedDistinct(r, cand);
  }

  lemma {:induction false} PermutedDistinct(r: seq<Item>, cand: seq<Item>)
    requires multiset(r) == multiset(cand) && DistinctItems(cand)
    ensures DistinctItems(r)
  {
    forall i, j | 0 <= i < j < |r| ensures r[i].pitem != r[j].pitem {
      if r[i].pitem == r[j].pitem {
        TwiceInMultiset(r, i, j);
        assert r[i] in multiset(cand) && r[j] in multiset(cand);
        var a :| 0 <= a < |cand| && cand[a] == r[i];
        var b :| 0 <= b < |cand| && cand[b] == r[j];
        OnceInMultiset(cand, a);
      }
    }
  }

  lemma {:induction false} TwiceInMultiset(r: seq<Item>, i: int, j: int)
    requires 0 <= i < j < |r|
    ensures r[i] == r[j] ==> multiset(r)[r[i]] >= 2
  {
    assert r == r[..i] + [r[i]] + r[i + 1..j] + [r[j]] + r[j + 1..];
  }

  lemma {:induction false} OnceInMultiset(r: seq<Item>, a: int)
    requires DistinctItems(r) && 0 <= a < |r|
    ensures multiset(r)[r[a]] == 1
  {
    assert r == r[..a] + [r[a]] + r[a + 1..];
    assert r[a] !in r[..a] && r[a] !in r[a + 1..];
  }

  lemma {:induction false} SortedGood(x: Ctx, cand: seq<Item>, r: seq<Item>)
    requires CtxOk(x) && KernelGood(x, cand) && Sorted(r) && multiset(r) == multiset(cand)
    ensures KernelGood(x, r) && KerSet(r) == KerSet(cand)
    ensures forall c :: Over(x, cand, c) ==> Over(x, r, c)
  {
    SameMembers(cand, r);
    SameMembersSameSet(cand, r);
    assert |r| == |multiset(r)| == |multiset(cand)| == |cand|;
    forall k | 0 <= k < |r| ensures IsItem(x, r[k].pitem) && TokenSet(x, r[k].look) {
      assert r[k] in cand;
    }
    forall k, t | 0 <= k < |r| && t in r[k].look ensures Justified(x, KerSet(r), r[k].pitem, t) {
      assert r[k] in cand;
      var m :| 0 <= m < |cand| && cand[m] == r[k];
    }
    forall c | Over(x, cand, c) ensures Over(x, r, c) {
      forall k | 0 <= k < |r| ensures 2 <= r[k].pitem < |x.mem| && x.mem[r[k].pitem - 1] == c {
        assert r[k] in cand;
      }
    }
  }

  lemma SameMembers(a: seq<Item>, b: seq<Item>)
    requires multiset(a) == multiset(b)
    ensures forall e :: e in a <==> e in b
  {
    forall e ensures e in a <==> e in b {
      assert e in a <==> e in multiset(a);
      assert e in b <==> e in multiset(b);
    }
  }

  lemma SameMembersSameSet(a: seq<Item>, b: seq<Item>)
    requires forall e :: e in a <==> e in b
    ensures KerSet(a) == KerSet(b)
  {
    forall it | it in KerSet(a) ensures it in KerSet(b) {
      var k :| 0 <= k < |a| && a[k].pitem == it;
      assert a[k] in b;
    }
    forall it | it in KerSet(b) ensures it in KerSet(a) {
      var k :| 0 <= k < |b| && b[k].pitem == it;
      assert b[k] in a;
    }
  }

  // ----- progress -----

  ghost function SlackTriples(x: Ctx, st: seq<seq<Item>>): set<(int, int, int)> {
    set j, k, t | 0 <= j < |st| && 0 <= k < |st[j]| && 1 <= t <= x.ntokens && t !in st[j][k].look :: (j, k, t)
  }

  /** How many lookaheads the kernels could still gain. */
  ghost function KernelSlack(x: Ctx, st: seq<seq<Item>>): nat { |SlackTriples(x, st)| }

  lemma UnionGains(a: set<int>, b: set<int>)
    ensures b <= a ==> a + b == a
  {
  }

  lemma {:induction false} MergeSlack(x: Ctx, st: seq<seq<Item>>, j: int, cand: seq<Item>)
    requires 0 <= j < |st| && |st[j]| == |cand| && forall k :: 0 <= k < |cand| ==> TokenSet(x, cand[k].look)
    ensures KernelSlack(x, st[j := Merged(st[j], cand)]) <= KernelSlack(x, st)
    ensures Merged(st[j], cand) != st[j] ==> KernelSlack(x, st[j := Merged(st[j], cand)]) < KernelSlack(x, st)
  {
    var m := Merged(st[j], cand);
    var s0, s1 := SlackTriples(x, st), SlackTriples(x, st[j := m]);
    assert s0 == s1 + (s0 - s1);
    if m != st[j] {
      assert exists k :: 0 <= k < |m| && m[k] != st[j][k];
      var k :| 0 <= k < |m| && m[k] != st[j][k];
      UnionGains(st[j][k].look, cand[k].look);
      var t := Outside(cand[k].look, st[j][k].look);
      assert (j, k, t) in s0 - s1;
    }
  }

  // ----- apack -----

  /** The nonzero entries of the row can be read at `off`. */
  ghost predicate RowAt(amem: seq<int>, off: int, row: seq<int>) {
    forall e :: 0 <= e < |row| && row[e] != 0 ==> 0 <= off + e < |amem| && amem[off + e] == row[e]
  }

  ghost predicate RowFits(amem: seq<int>, off: int, row: seq<int>, n: int)
    requires n <= |row|
  {
    forall e :: 0 <= e < n && row[e] != 0 ==> 0 <= off + e < |amem| && (amem[off + e] == 0 || amem[off + e] == row[e])
  }

  /** Entry `e` of the row is free to stand in its cell, or would stand past the end. */
  ghost predicate AgreesAt(amem: seq<int>, off: int, row: seq<int>, e: int)
    requires 0 <= e < |row|
  {
    row[e] != 0 && 0 <= off + e < |amem| ==> amem[off + e] == 0 || amem[off + e] == row[e]
  }

  ghost predicate Sticks(amem: seq<int>, off: int, row: seq<int>, e: int)
    requires 0 <= e < |row|
  {
    row[e] != 0 && off + e >= |amem|
  }

  /** No offset will do for the row. */
  ghost predicate NoRoom(amem: seq<int>, row: seq<int>) { forall off {:trigger RowFits(amem, off, row, |row|)} :: !RowFits(amem, off, row, |row|) }

  ghost predicate ZeroRow(row: seq<int>) { forall e :: 0 <= e < |row| ==> row[e] == 0 }

  /** The row fits at `off` and not before; a row of zeros goes to 0. */
  ghost predicate FirstAt(amem: seq<int>, off: int, row: seq<int>) {
    if ZeroRow(row) then off == 0
    else forall m {:trigger RowFits(amem, m, row, |row|)} :: m < off ==> !RowFits(amem, m, row, |row|)
  }

  /** Only cells of the row at `off` have changed. */
  ghost predicate LaidOver(a0: seq<int>, a1: seq<int>, off: int, row: seq<int>) {
    |a0| == |a1| && forall c {:trigger a1[c]} :: 0 <= c < |a0| && a1[c] != a0[c] ==> 0 <= c - off < |row| && a1[c] == row[c - off]
  }

  lemma {:induction false} UnfitStays(a0: seq<int>, a1: seq<int>, off: int, row: seq<int>)
    requires Kept(a0, a1) && !RowFits(a0, off, row, |row|)
    ensures !RowFits(a1, off, row, |row|)
  {
    var e :| 0 <= e < |row| && row[e] != 0 && !(0 <= off + e < |a0| && (a0[off + e] == 0 || a0[off + e] == row[e]));
    assert row[e] != 0;
  }

  lemma {:induction false} FirstStays(a0: seq<int>, a1: seq<int>, off: int, row: seq<int>)
    requires Kept(a0, a1) && FirstAt(a0, off, row)
    ensures FirstAt(a1, off, row)
  {
    if !ZeroRow(row) {
      forall m | m < off ensures !RowFits(a1, m, row, |row|) {
        UnfitStays(a0, a1, m, row);
      }
    }
  }

  /** A row that is in the table at its first place is laid there again. */
  lemma {:induction false} SameFirst(amem: seq<int>, off: int, off1: int, row: seq<int>)
    requires RowAt(amem, off, row) && FirstAt(amem, off, row) && FirstAt(amem, off1, row) && RowFits(amem, off1, row, |row|)
    ensures off == off1
  {
    assert RowFits(amem, off, row, |row|);
  }

  /** Does the row agree with the action table at this offset?  `overrun` is set when it sticks out past the end. */
  method FitsAt(amem: array<int>, row: seq<int>, lead: nat, off: int) returns (fits: bool, overrun: bool)
    requires lead <= |row| && off + lead >= 0 && forall e :: 0 <= e < lead ==> row[e] == 0
    ensures fits && !overrun ==> RowFits(amem[..], off, row, |row|)
    ensures fits && overrun ==> exists e :: 0 <= e < |row| && Sticks(amem[..], off, row, e)
    ensures !fits ==> exists e :: 0 <= e < |row| && !AgreesAt(amem[..], off, row, e)
  {
    overrun := false;
    for pp := lead to |row|
      invariant !overrun ==> RowFits(amem[..], off, row, pp)
      invariant overrun ==> exists e :: 0 <= e < pp && Sticks(amem[..], off, row, e)
    {
      if row[pp] != 0 {
        if off + pp >= amem.Length {
          overrun := true;
          assert Sticks(amem[..], off, row, pp);
        } else if row[pp] != amem[off + pp] && amem[off + pp] != 0 {
          assert !AgreesAt(amem[..], off, row, pp);
          return false, overrun;
        }
      }
    }
    fits := true;
  }

  /** A row that sticks out at one offset sticks out at every later one. */
  lemma {:induction false} SticksLater(amem: seq<int>, row: seq<int>, off: int, lead: nat)
    requires lead < |row| && row[lead] != 0 && off + lead >= 0
    requires exists e :: 0 <= e < |row| && Sticks(amem, off, row, e)
    requires forall m {:trigger RowFits(amem, m, row, |row|)} :: m + lead >= 0 && m < off ==> !RowFits(amem, m, row, |row|)
    ensures NoRoom(amem, row)
  {
    var e :| 0 <= e < |row| && Sticks(amem, off, row, e);
    forall m ensures !RowFits(amem, m, row, |row|) {
      if m + lead < 0 {
        assert row[lead] != 0 && m + lead < 0;
      } else if m >= off {
        assert row[e] != 0 && m + e >= |amem|;
      }
    }
  }

  lemma {:induction false} DisagreeingIsUnfit(amem: seq<int>, row: seq<int>, off: int)
    requires exists e :: 0 <= e < |row| && !AgreesAt(amem, off, row, e)
    ensures !RowFits(amem, off, row, |row|)
  {
    var e :| 0 <= e < |row| && !AgreesAt(amem, off, row, e);
    assert row[e] != 0;
  }

  method WriteRow(amem: array<int>, row: seq<int>, lead: nat, off: int)
    requires lead <= |row| && off + lead >= 0 && forall e :: 0 <= e < lead ==> row[e] == 0
    requires RowFits(amem[..], off, row, |row|)
    modifies amem
    ensures Kept(old(amem[..]), amem[..]) && RowAt(amem[..], off, row) && LaidOver(old(amem[..]), amem[..], off, row)
  {
    for pp := lead to |row|
      invariant Kept(old(amem[..]), amem[..]) && LaidOver(old(amem[..]), amem[..], off, row)
      invariant forall e :: 0 <= e < pp && row[e] != 0 ==> amem[off + e] == row[e]
      invariant forall e :: pp <= e < |row| && row[e] != 0 ==> amem[off + e] == old(amem[off + e])
    {
      if row[pp] != 0 {
        amem[off + pp] := row[pp];
      }
    }
  }

  lemma {:induction false} FrontUnfit(amem: seq<int>, row: seq<int>, lead: nat, off: int)
    requires lead < |row| && row[lead] != 0
    requires forall m {:trigger RowFits(amem, m, row, |row|)} :: m + lead >= 0 && m < off ==> !RowFits(amem, m, row, |row|)
    ensures FirstAt(amem, off, row)
  {
    assert !ZeroRow(row);
    forall m | m < off ensures !RowFits(amem, m, row, |row|) {
      if m + lead < 0 {
        assert row[lead] != 0;
      }
    }
  }

  /** `apack`: lay the row over the action table at the first offset where it fits, and say at which; this fails
      exactly if no offset will do. */
  method Apack(amem: array<int>, row: seq<int>) returns (ok: bool, off: int)
    modifies amem
    ensures ok ==> Kept(old(amem[..]), amem[..]) && RowAt(amem[..], off, row) && LaidOver(old(amem[..]), amem[..], off, row)
    ensures ok ==> RowFits(old(amem[..]), off, row, |row|) && FirstAt(old(amem[..]), off, row)
    ensures ok <==> !NoRoom(old(amem[..]), row)
    ensures !ok ==> amem[..] == old(amem[..])
  {
    var lead := 0;
    while lead < |row| && row[lead] == 0
      invariant lead <= |row| && forall e :: 0 <= e < lead ==> row[e] == 0
    {
      lead := lead + 1;
    }
    if lead == |row| {
      assert RowFits(amem[..], 0, row, |row|);
      return true, 0;
    }
    off := -lead;
    for rr := 0 to amem.Length
      invariant off == rr - lead && amem[..] == old(amem[..])
      invariant forall m {:trigger RowFits(amem[..], m, row, |row|)} :: m + lead >= 0 && m < off ==> !RowFits(amem[..], m, row, |row|)
    {
      var fits, overrun := FitsAt(amem, row, lead, off);
      if fits {
        if overrun {
          SticksLater(amem[..], row, off, lead);
          return false, 0;
        }
        FrontUnfit(amem[..], row, lead, off);
        WriteRow(amem, row, lead, off);
        return true, off;
      }
      DisagreeingIsUnfit(amem[..], row, off);
      off := off + 1;
    }
    assert Sticks(amem[..], off, row, lead);
    SticksLater(amem[..], row, off, lead);
    return false, 0;
  }

  // ----- one goto -----

  /** The kernel reached over `c` from the closed working set `w`. */
  ghost predicate IsGotoKernel(x: Ctx, w: seq<Wset>, c: int, cand: seq<Item>) {
    && (forall k :: 0 <= k < |cand| ==> Carried(x, w, c, cand[k]))
    && (forall v :: 0 <= v < |w| && IsItem(x, w[v].pitem) && x.mem[w[v].pitem] == c ==> Item(w[v].pitem + 1, w[v].ws) in cand)
    && DistinctItems(cand)
  }

  ghost predicate CarriedFrom(x: Ctx, w: seq<Wset>, c: int, it: Item, v: int) {
    0 <= v < |w| && IsItem(x, w[v].pitem) && x.mem[w[v].pitem] == c && it == Item(w[v].pitem + 1, w[v].ws)
  }

  ghost predicate Carried(x: Ctx, w: seq<Wset>, c: int, it: Item) {
    exists v :: CarriedFrom(x, w, c, it, v)
  }

  lemma {:induction false} GotoKernelSet(x: Ctx, k: set<int>, w: seq<Wset>, c: int, cand: seq<Item>)
    requires CtxOk(x) && Items(w) == Closure0(x, k) && IsGotoKernel(x, w, c, cand)
    ensures KerSet(cand) == Goto0(x, k, c)
  {
    forall it | it in KerSet(cand) ensures it in Goto0(x, k, c) {
      var i :| 0 <= i < |cand| && cand[i].pitem == it;
      var v :| CarriedFrom(x, w, c, cand[i], v);
      assert w[v].pitem in Items(w);
    }
    forall it | it in Goto0(x, k, c) ensures it in KerSet(cand) {
      assert it - 1 in Items(w);
      var v :| 0 <= v < |w| && w[v].pitem == it - 1;
      var e := Item(w[v].pitem + 1, w[v].ws);
      assert e in cand;
      var i :| 0 <= i < |cand| && cand[i] == e;
      assert cand[i].pitem == it;
    }
  }

  /** Everything `stagen` hands to `state` is fit to be registered. */
  lemma {:induction false} GotoKernelGood(x: Ctx, ker: seq<Item>, w: seq<Wset>, c: int, cand: seq<Item>)
    requires CtxOk(x) && IsItem(x, START) && KernelGood(x, ker) && c > 1 && cand != []
    requires Distinct(w) && LeastItems(x, ker, Items(w)) && LeastFamily(x, ker, FamilyOf(w))
    requires forall v :: 0 <= v < |w| ==> TokenSet(x, w[v].ws)
    requires IsGotoKernel(x, w, c, cand)
    ensures KernelGood(x, cand) && Over(x, cand, c) && KerSet(cand) == Goto0(x, KerSet(ker), c)
  {
    var k := KerSet(ker);
    var path :| PathOk(path) && After(x, path) == k;
    LeastItemsIsClosure0(x, ker, Items(w));
    GotoKernelSet(x, k, w, c, cand);
    AfterStep(x, path, c);
    assert PathOk(path + [c]) && After(x, path + [c]) == KerSet(cand);
    FamilyAt(w);
    ClosureJustified(x, ker, FamilyOf(w), path);
    forall i | 0 <= i < |cand|
      ensures IsItem(x, cand[i].pitem) && TokenSet(x, cand[i].look) && cand[i].pitem >= 2 && x.mem[cand[i].pitem - 1] == c
      ensures forall t :: t in cand[i].look ==> Justified(x, KerSet(cand), cand[i].pitem, t)
    {
      var v :| CarriedFrom(x, w, c, cand[i], v);
      forall t | t in cand[i].look ensures Justified(x, KerSet(cand), cand[i].pitem, t) {
        assert w[v].pitem in FamilyOf(w) && t in FamilyOf(w)[w[v].pitem];
        GotoJustified(x, k, w[v].pitem, t, c);
      }
    }
  }

  /** The working set with the entries that have `c` after the dot marked. */
  function Mark(x: Ctx, w: seq<Wset>, c: int): (m: seq<Wset>)
    requires forall v :: 0 <= v < |w| ==> 0 < w[v].pitem < |x.mem|
    ensures |m| == |w| && forall v :: 0 <= v < |w| ==> m[v] == (if x.mem[w[v].pitem] == c then w[v].(flag := true) else w[v])
  {
    seq(|w|, v requires 0 <= v < |w| => if x.mem[w[v].pitem] == c then w[v].(flag := true) else w[v])
  }

  /** What has been collected from the entries before `q`; `src` says where each item came from. */
  ghost predicate Collected(x: Ctx, w: seq<Wset>, c: int, q: int, cand: seq<Item>, src: seq<int>)
    requires q <= |w|
  {
    && |src| == |cand|
    && (forall k :: 0 <= k < |cand| ==> CarriedFrom(x, w, c, cand[k], src[k]) && src[k] < q)
    && (forall k, l :: 0 <= k < l < |src| ==> src[k] < src[l])
    && (forall v :: 0 <= v < q && IsItem(x, w[v].pitem) && x.mem[w[v].pitem] == c ==> v in src)
  }

  lemma {:induction false} CollectedAll(x: Ctx, w: seq<Wset>, c: int, cand: seq<Item>, src: seq<int>)
    requires Distinct(w) && Collected(x, w, c, |w|, cand, src)
    ensures IsGotoKernel(x, w, c, cand)
  {
    forall k | 0 <= k < |cand| ensures Carried(x, w, c, cand[k]) {
      assert CarriedFrom(x, w, c, cand[k], src[k]);
    }
    forall v | 0 <= v < |w| && IsItem(x, w[v].pitem) && x.mem[w[v].pitem] == c ensures Item(w[v].pitem + 1, w[v].ws) in cand {
      assert v in src;
      var k :| 0 <= k < |src| && src[k] == v;
      assert CarriedFrom(x, w, c, cand[k], src[k]);
    }
    forall k, l | 0 <= k < l < |cand| ensures cand[k].pitem != cand[l].pitem {
      assert CarriedFrom(x, w, c, cand[k], src[k]) && CarriedFrom(x, w, c, cand[l], src[l]);
      assert w[src[k]].pitem != w[src[l]].pitem;
    }
  }

  /** Collect the kernel reached over `c`; the entries used are marked. */
  method Collect(x: Ctx, w: seq<Wset>, p: nat, c: int) returns (cand: seq<Item>, w1: seq<Wset>)
    requires CtxOk(x) && p < |w| && Distinct(w) && c > 1
    requires forall v :: 0 <= v < |w| ==> 0 < w[v].pitem < |x.mem|
    requires x.mem[w[p].pitem] == c && forall v :: 0 <= v < p ==> x.mem[w[v].pitem] != c
    ensures IsGotoKernel(x, w, c, cand) && cand != []
    ensures w1 == Mark(x, w, c)
  {
    cand, w1 := [], w;
    ghost var src: seq<int> := [];
    for q := p to |w|
      invariant |w1| == |w|
      invariant forall v :: 0 <= v < |w| ==> w1[v] == if v < q then Mark(x, w, c)[v] else w[v]
      invariant Collected(x, w, c, q, cand, src)
      invariant q > p ==> cand != []
    {
      if x.mem[w[q].pitem] == c {
        var e := Item(w[q].pitem + 1, w[q].ws);
        assert CarriedFrom(x, w, c, e, q);
        cand, src := cand + [e], src + [q];
        w1 := w1[q := w[q].(flag := true)];
      }
    }
    CollectedAll(x, w, c, cand, src);
  }

  // ----- the generator -----

  /** Every goto of the kernel over a symbol above 1 leads to a registered state. */
  ghost predicate GotosRegistered(x: Ctx, g: Gen, k: set<int>)
    requires CtxOk(x)
  {
    forall c {:trigger Goto0(x, k, c)} :: c > 1 && Goto0(x, k, c) != {} ==> HasState(g, Goto0(x, k, c))
  }

  ghost function NtGoto(x: Ctx, k: set<int>, c: int): set<int>
    requires CtxOk(x)
  {
    Goto0(x, k, NTBASE + c)
  }

  /** The goto row of nonterminal gotos at `off` has the right state wherever there is a goto. */
  ghost predicate RowRight(x: Ctx, g: Gen, amem: seq<int>, off: int, k: set<int>)
    requires CtxOk(x)
  {
    forall c {:trigger NtGoto(x, k, c)} :: 1 <= c < |x.starts| && NtGoto(x, k, c) != {} ==>
      0 <= off + c < |amem| && amem[off + c] != 0 && IsState(g, amem[off + c], NtGoto(x, k, c))
  }

  // ----- when yacc gives up -----

  /** The closure of some kernel that a path leads to does not fit the working set. */
  ghost predicate Unfit(x: Ctx)
    requires CtxOk(x)
  {
    exists k: set<int> {:trigger Reached(x, k)} :: Reached(x, k) && k != {} && !Fits(x, k)
  }

  ghost predicate ReachedAt(x: Ctx, ks: seq<set<int>>, i: nat)
    requires CtxOk(x) && i < |ks|
  {
    ks[i] != {} && Reached(x, ks[i])
  }

  ghost predicate AllReached(x: Ctx, ks: seq<set<int>>)
    requires CtxOk(x)
  {
    && (forall i: nat {:trigger ReachedAt(x, ks, i)} :: i < |ks| ==> ReachedAt(x, ks, i))
    && (forall i: nat, j: nat :: i < j < |ks| ==> ks[i] != ks[j])
  }

  /** Paths lead to as many different kernels as there are places for states, or more. */
  ghost predicate Crowded(x: Ctx)
    requires CtxOk(x)
  {
    exists ks: seq<set<int>> {:trigger AllReached(x, ks)} :: |ks| >= NSTATES && AllReached(x, ks)
  }

  /** The row of nonterminal gotos of kernel `k`. */
  ghost predicate GotoRowOf(x: Ctx, g: Gen, k: set<int>, row: seq<int>)
    requires CtxOk(x)
  {
    && |row| + 1 == |x.starts|
    && forall c {:trigger NtGoto(x, k, c)} :: 1 <= c < |x.starts| ==>
         if NtGoto(x, k, c) == {} then row[c - 1] == 0 else row[c - 1] != 0 && IsState(g, row[c - 1], NtGoto(x, k, c))
  }

  /** The row of state `j` is in the action table, at the first place where it fits. */
  ghost predicate RowLaid(x: Ctx, g: Gen, amem: seq<int>, indgo: seq<int>, j: int)
    requires CtxOk(x)
  {
    && 0 <= j < |g.states| && j < |indgo|
    && exists row {:trigger GotoRowOf(x, g, KerSet(g.states[j]), row)} ::
         GotoRowOf(x, g, KerSet(g.states[j]), row) && RowAt(amem, indgo[j] + 1, row) && FirstAt(amem, indgo[j] + 1, row)
  }

  /** Cell `p` of the action table holds the goto of state `j` over nonterminal `c`. */
  ghost predicate OwnedBy(x: Ctx, g: Gen, indgo: seq<int>, p: int, j: int, c: int)
    requires CtxOk(x)
  {
    0 <= j < |g.states| && j < |indgo| && 1 <= c < |x.starts| && p == indgo[j] + c && NtGoto(x, KerSet(g.states[j]), c) != {}
  }

  ghost predicate Owned(x: Ctx, g: Gen, indgo: seq<int>, seen: set<int>, p: int)
    requires CtxOk(x)
  {
    exists j, c {:trigger OwnedBy(x, g, indgo, p, j, c)} :: j in seen && OwnedBy(x, g, indgo, p, j, c)
  }

  /** The action table holds the rows of the states `seen`, each at the first place where it fits, and nothing else. */
  ghost predicate TableOf(x: Ctx, g: Gen, amem: seq<int>, indgo: seq<int>, seen: set<int>)
    requires CtxOk(x)
  {
    && |amem| == ACTSIZE && |indgo| == NSTATES
    && (forall j {:trigger RowLaid(x, g, amem, indgo, j)} :: j in seen ==> RowLaid(x, g, amem, indgo, j))
    && (forall p {:trigger amem[p]} :: 0 <= p < |amem| && amem[p] != 0 ==> Owned(x, g, indgo, seen, p))
  }

  /** There is no room in the action table, which holds just the rows of some states, for the row of another. */
  ghost predicate Cramped(x: Ctx, g: Gen, amem: seq<int>, indgo: seq<int>)
    requires CtxOk(x)
  {
    GenOk(x, g) && exists seen: set<int>, i: int, row: seq<int> {:trigger TableOf(x, g, amem, indgo, seen), GotoRowOf(x, g, KerSet(g.states[i]), row)} ::
      TableOf(x, g, amem, indgo, seen) && 0 <= i < |g.states| && i !in seen && GotoRowOf(x, g, KerSet(g.states[i]), row) && NoRoom(amem, row)
  }

  lemma {:induction false} OneState(x: Ctx, g: Gen, a: int, b: int, k: set<int>)
    requires GenOk(x, g) && IsState(g, a, k) && IsState(g, b, k)
    ensures a == b
  {
    assert a < b ==> Different(g, a, b);
    assert b < a ==> Different(g, b, a);
  }

  /** There is only one row for a kernel. */
  lemma {:induction false} OneRow(x: Ctx, g: Gen, k: set<int>, row: seq<int>, row1: seq<int>)
    requires GenOk(x, g) && GotoRowOf(x, g, k, row) && GotoRowOf(x, g, k, row1)
    ensures row == row1
  {
    forall e | 0 <= e < |row| ensures row[e] == row1[e] {
      if NtGoto(x, k, e + 1) != {} {
        OneState(x, g, row[e], row1[e], NtGoto(x, k, e + 1));
      }
    }
  }

  lemma {:induction false} RowOfOn(x: Ctx, g: Gen, h: Gen, k: set<int>, row: seq<int>)
    requires CtxOk(x) && GotoRowOf(x, g, k, row) && Extends(g, h)
    ensures GotoRowOf(x, h, k, row)
  {
    forall c | 1 <= c < |x.starts|
      ensures if NtGoto(x, k, c) == {} then row[c - 1] == 0 else row[c - 1] != 0 && IsState(h, row[c - 1], NtGoto(x, k, c))
    {
      if NtGoto(x, k, c) != {} {
        IsStateOn(g, h, row[c - 1], NtGoto(x, k, c));
      }
    }
  }

  /** Rows stay where they are while states and lookaheads are gained and further cells are filled. */
  lemma {:induction false} RowLaidOn(x: Ctx, g: Gen, h: Gen, a0: seq<int>, a1: seq<int>, i0: seq<int>, i1: seq<int>, j: int)
    requires CtxOk(x) && RowLaid(x, g, a0, i0, j) && Extends(g, h) && Kept(a0, a1) && j < |i1| && i1[j] == i0[j]
    ensures RowLaid(x, h, a1, i1, j)
  {
    SameItemsSameSet(g.states[j], h.states[j]);
    var row :| GotoRowOf(x, g, KerSet(g.states[j]), row) && RowAt(a0, i0[j] + 1, row) && FirstAt(a0, i0[j] + 1, row);
    RowOfOn(x, g, h, KerSet(g.states[j]), row);
    FirstStays(a0, a1, i0[j] + 1, row);
    assert GotoRowOf(x, h, KerSet(h.states[j]), row);
  }

  lemma {:induction false} TableOn(x: Ctx, g: Gen, h: Gen, amem: seq<int>, indgo: seq<int>, seen: set<int>)
    requires CtxOk(x) && TableOf(x, g, amem, indgo, seen) && Extends(g, h)
    ensures TableOf(x, h, amem, indgo, seen)
  {
    forall j | j in seen ensures RowLaid(x, h, amem, indgo, j) {
      RowLaidOn(x, g, h, amem, amem, indgo, indgo, j);
    }
    forall p | 0 <= p < |amem| && amem[p] != 0 ensures Owned(x, h, indgo, seen, p) {
      assert Owned(x, g, indgo, seen, p);
      var j, c :| j in seen && OwnedBy(x, g, indgo, p, j, c);
      SameItemsSameSet(g.states[j], h.states[j]);
      assert OwnedBy(x, h, indgo, p, j, c);
    }
  }

  lemma {:induction false} LaidAgain(x: Ctx, g: Gen, amem: seq<int>, indgo: seq<int>, i: nat, row: seq<int>, off: int)
    requires GenOk(x, g) && RowLaid(x, g, amem, indgo, i) && GotoRowOf(x, g, KerSet(g.states[i]), row)
    requires RowFits(amem, off, row, |row|) && FirstAt(amem, off, row)
    ensures indgo[i] == off - 1
  {
    var row1 :| GotoRowOf(x, g, KerSet(g.states[i]), row1) && RowAt(amem, indgo[i] + 1, row1) && FirstAt(amem, indgo[i] + 1, row1);
    OneRow(x, g, KerSet(g.states[i]), row, row1);
    SameFirst(amem, indgo[i] + 1, off, row);
  }

  lemma {:induction false} RowsLaid(x: Ctx, g: Gen, a0: seq<int>, a1: seq<int>, indgo: seq<int>, seen: set<int>, i: nat, row: seq<int>, off: int)
    requires CtxOk(x) && i < |g.states| && i < |indgo| && GotoRowOf(x, g, KerSet(g.states[i]), row)
    requires forall j {:trigger RowLaid(x, g, a0, indgo, j)} :: j in seen ==> RowLaid(x, g, a0, indgo, j)
    requires Kept(a0, a1) && RowAt(a1, off, row) && FirstAt(a0, off, row)
    ensures forall j {:trigger RowLaid(x, g, a1, indgo[i := off - 1], j)} :: j in seen + {i} ==> RowLaid(x, g, a1, indgo[i := off - 1], j)
  {
    var i1 := indgo[i := off - 1];
    forall j | j in seen + {i} ensures RowLaid(x, g, a1, i1, j) {
      if j == i {
        FirstStays(a0, a1, off, row);
        assert GotoRowOf(x, g, KerSet(g.states[i]), row);
      } else {
        assert RowLaid(x, g, a0, indgo, j);
        assert forall j :: 0 <= j < |g.states| ==> SameItems(g.states[j], g.states[j]);
        RowLaidOn(x, g, g, a0, a1, indgo, i1, j);
      }
    }
  }

  /** The row of state `i` has been laid over the table; if it was there, nothing has changed. */
  lemma {:induction false} TableWith(x: Ctx, g: Gen, a0: seq<int>, a1: seq<int>, indgo: seq<int>, seen: set<int>, i: nat, row: seq<int>, off: int)
    requires GenOk(x, g) && TableOf(x, g, a0, indgo, seen) && i < |g.states| && GotoRowOf(x, g, KerSet(g.states[i]), row)
    requires Kept(a0, a1) && RowAt(a1, off, row) && LaidOver(a0, a1, off, row) && RowFits(a0, off, row, |row|) && FirstAt(a0, off, row)
    ensures TableOf(x, g, a1, indgo[i := off - 1], seen + {i})
    ensures i in seen ==> indgo[i] == off - 1
  {
    var i1 := indgo[i := off - 1];
    if i in seen {
      assert RowLaid(x, g, a0, indgo, i);
      LaidAgain(x, g, a0, indgo, i, row, off);
    }
    RowsLaid(x, g, a0, a1, indgo, seen, i, row, off);
    forall p | 0 <= p < |a1| && a1[p] != 0 ensures Owned(x, g, i1, seen + {i}, p) {
      TableCell(x, g, a0, a1, indgo, seen, i, row, off, p);
    }
  }

  lemma {:induction false} TableCell(x: Ctx, g: Gen, a0: seq<int>, a1: seq<int>, indgo: seq<int>, seen: set<int>, i: nat, row: seq<int>, off: int, p: int)
    requires CtxOk(x) && TableOf(x, g, a0, indgo, seen) && i < |g.states| && i < |indgo| && GotoRowOf(x, g, KerSet(g.states[i]), row)
    requires LaidOver(a0, a1, off, row) && 0 <= p < |a1| && a1[p] != 0 && (i in seen ==> indgo[i] == off - 1)
    ensures Owned(x, g, indgo[i := off - 1], seen + {i}, p)
  {
    var i1 := indgo[i := off - 1];
    if a1[p] == a0[p] {
      assert Owned(x, g, indgo, seen, p);
      var j, c :| j in seen && OwnedBy(x, g, indgo, p, j, c);
      assert OwnedBy(x, g, i1, p, j, c);
    } else {
      var c := p - off + 1;
      assert NtGoto(x, KerSet(g.states[i]), c) == NtGoto(x, KerSet(g.states[i]), c);
      assert OwnedBy(x, g, i1, p, i, c);
    }
  }

  /** There is room for a row that is already in the table. */
  lemma {:induction false} LaidHasRoom(x: Ctx, g: Gen, amem: seq<int>, indgo: seq<int>, i: int, row: seq<int>)
    requires GenOk(x, g) && RowLaid(x, g, amem, indgo, i) && GotoRowOf(x, g, KerSet(g.states[i]), row)
    ensures !NoRoom(amem, row)
  {
    var row1 :| GotoRowOf(x, g, KerSet(g.states[i]), row1) && RowAt(amem, indgo[i] + 1, row1) && FirstAt(amem, indgo[i] + 1, row1);
    OneRow(x, g, KerSet(g.states[i]), row, row1);
    assert RowFits(amem, indgo[i] + 1, row, |row|);
  }

  lemma {:induction false} FullIsCrowded(x: Ctx, g: Gen, c: int, ker: seq<Item>)
    requires GenOk(x, g) && IsSymbol(g, c) && |g.states| + 1 >= NSTATES
    requires KernelGood(x, ker) && Sorted(ker) && Over(x, ker, c)
    requires forall j :: OnChain(g, c, j) ==> 0 <= j < |g.states| && !SameItems(g.states[j], ker)
    ensures Crowded(x)
  {
    var ks := seq(|g.states|, i requires 0 <= i < |g.states| => KerSet(g.states[i])) + [KerSet(ker)];
    forall i: nat | i < |ks| ensures ReachedAt(x, ks, i) {
      if i < |g.states| {
        assert StateOk(x, g, i);
        assert g.states[i][0].pitem in KerSet(g.states[i]);
      } else {
        assert ker[0].pitem in KerSet(ker);
      }
    }
    forall i: nat, j: nat | i < j < |ks| ensures ks[i] != ks[j] {
      if j < |g.states| {
        assert Different(g, i, j);
      } else {
        NewIsDifferent(x, g, c, ker, i);
      }
    }
    assert AllReached(x, ks);
  }

  /** If every kernel that a path leads to is a state, there is a place for each. */
  lemma {:induction false} NotCrowded(x: Ctx, g: Gen, ks: seq<set<int>>)
    requires GenOk(x, g) && AllReached(x, ks)
    requires forall path :: PathOk(path) && After(x, path) != {} ==> HasState(g, After(x, path))
    ensures |ks| <= |g.states|
  {
    var used := Places(x, g, ks);
    BelowCount(|g.states|, used);
  }

  lemma {:induction false} BelowCount(n: nat, s: set<nat>)
    requires forall j: nat :: j in s ==> j < n
    ensures |s| <= n
  {
    if n == 0 {
      assert s == {};
    } else {
      BelowCount(n - 1, s - {n - 1});
    }
  }

  /** The numbers of the states with these kernels. */
  lemma {:induction false} Places(x: Ctx, g: Gen, ks: seq<set<int>>) returns (used: set<nat>)
    requires GenOk(x, g) && AllReached(x, ks)
    requires forall path :: PathOk(path) && After(x, path) != {} ==> HasState(g, After(x, path))
    ensures |used| == |ks| && forall j: nat :: j in used ==> j < |g.states| && KerSet(g.states[j]) in ks
  {
    if ks == [] {
      used := {};
    } else {
      var n := |ks| - 1;
      var rest := ks[..n];
      forall i: nat | i < n ensures ReachedAt(x, rest, i) {
        assert ReachedAt(x, ks, i);
      }
      used := Places(x, g, rest);
      assert ReachedAt(x, ks, n);
      var path :| PathOk(path) && After(x, path) == ks[n];
      var j: nat :| IsState(g, j, ks[n]);
      assert j !in used;
      used := used + {j};
    }
  }

  ghost predicate Finished(x: Ctx, g: Gen, amem: seq<int>, indgo: seq<int>, j: int)
    requires CtxOk(x)
  {
    && 0 <= j < |g.states| && j < |indgo|
    && GotosRegistered(x, g, KerSet(g.states[j]))
    && RowRight(x, g, amem, indgo[j], KerSet(g.states[j]))
    && Fits(x, KerSet(g.states[j]))
  }

  lemma IsStateOn(g: Gen, h: Gen, j: int, k: set<int>)
    requires IsState(g, j, k) && Extends(g, h)
    ensures IsState(h, j, k)
  {
    SameItemsSameSet(g.states[j], h.states[j]);
  }

  lemma {:induction false} FinishedOn(x: Ctx, g: Gen, h: Gen, a0: seq<int>, a1: seq<int>, i0: seq<int>, i1: seq<int>, j: int)
    requires CtxOk(x) && Finished(x, g, a0, i0, j) && Extends(g, h) && Kept(a0, a1)
    requires j < |i1| && i1[j] == i0[j]
    ensures Finished(x, h, a1, i1, j)
  {
    SameItemsSameSet(g.states[j], h.states[j]);
    var k := KerSet(g.states[j]);
    forall c | c > 1 && Goto0(x, k, c) != {} ensures HasState(h, Goto0(x, k, c)) {
      var t :| IsState(g, t, Goto0(x, k, c));
      IsStateOn(g, h, t, Goto0(x, k, c));
    }
    forall c | 1 <= c < |x.starts| && NtGoto(x, k, c) != {}
      ensures 0 <= i1[j] + c < |a1| && a1[i1[j] + c] != 0 && IsState(h, a1[i1[j] + c], NtGoto(x, k, c))
    {
      IsStateOn(g, h, a0[i0[j] + c], NtGoto(x, k, c));
    }
  }

  /** The gotos done so far in the current state: over each symbol of `done` the target is registered,
      and `temp1` has the targets of the nonterminals among them and 0 elsewhere. */
  ghost predicate GotosSoFar(x: Ctx, g: Gen, k: set<int>, done: set<int>, temp1: seq<int>)
    requires CtxOk(x)
  {
    && |temp1| == |x.starts|
    && (forall c {:trigger Goto0(x, k, c)} :: c in done ==> HasState(g, Goto0(x, k, c)))
    && (forall c :: 0 <= c < |temp1| && NTBASE + c in done ==> temp1[c] != 0 && IsState(g, temp1[c], NtGoto(x, k, c)))
    && (forall c :: 0 <= c < |temp1| && NTBASE + c !in done ==> temp1[c] == 0)
  }

  lemma {:induction false} GotosSoFarOn(x: Ctx, g: Gen, h: Gen, k: set<int>, done: set<int>, temp1: seq<int>)
    requires CtxOk(x) && GotosSoFar(x, g, k, done, temp1) && Extends(g, h)
    ensures GotosSoFar(x, h, k, done, temp1)
  {
    forall c | c in done ensures HasState(h, Goto0(x, k, c)) {
      var j :| IsState(g, j, Goto0(x, k, c));
      IsStateOn(g, h, j, Goto0(x, k, c));
    }
    forall c | 0 <= c < |temp1| && NTBASE + c in done ensures temp1[c] != 0 && IsState(h, temp1[c], NtGoto(x, k, c)) {
      IsStateOn(g, h, temp1[c], NtGoto(x, k, c));
    }
  }

  /** How far the generator still has to go: states to come, lookaheads to come, states to do. */
  function CountMustdo(t: seq<int>): nat {
    if t == [] then 0 else (if t[0] == MUSTDO then 1 else 0) + CountMustdo(t[1..])
  }

  lemma {:induction false} CountMustdoDrops(t: seq<int>, i: nat, v: int)
    requires i < |t| && v != MUSTDO
    ensures CountMustdo(t[i := v]) <= CountMustdo(t)
    ensures t[i] == MUSTDO ==> CountMustdo(t[i := v]) < CountMustdo(t)
  {
    var t1 := t[i := v];
    if i == 0 {
      assert t1[1..] == t[1..];
    } else {
      assert t1[1..] == t[1..][i - 1 := v];
      CountMustdoDrops(t[1..], i - 1, v);
    }
  }

  /** Something was gained: a state, or a lookahead. */
  ghost predicate Gained(x: Ctx, g: Gen, h: Gen) {
    |g.states| < |h.states| || (|g.states| == |h.states| && KernelSlack(x, h.states) < KernelSlack(x, g.states))
  }

  /** Nothing was gained, and no state is to be done that was not before. */
  ghost predicate Idle(x: Ctx, g: Gen, h: Gen) {
    |g.states| == |h.states| && KernelSlack(x, h.states) == KernelSlack(x, g.states) && CountMustdo(h.tystate) <= CountMustdo(g.tystate)
  }

  ghost predicate Closer(x: Ctx, g: Gen, h: Gen) { Gained(x, g, h) || Idle(x, g, h) }

  // ----- what a call of `state` changes -----

  /** Token `t` is a lookahead of item `it`. */
  ghost predicate HasLook(ker: seq<Item>, it: int, t: int) {
    exists k {:trigger ker[k]} :: 0 <= k < |ker| && ker[k].pitem == it && t in ker[k].look
  }

  /** State `r` has the lookaheads it had, if it was there, and those of `cand`, and no others; it must be done
      if it is new or has gained any; no other state has changed. */
  ghost predicate Took(g: Gen, h: Gen, r: int, cand: seq<Item>) {
    && |g.tystate| == |g.states| <= |h.states| == |h.tystate| && 0 <= r < |h.states|
    && (forall it, t {:trigger HasLook(h.states[r], it, t)} ::
          HasLook(h.states[r], it, t) <==> (r < |g.states| && HasLook(g.states[r], it, t)) || HasLook(cand, it, t))
    && (forall j {:trigger h.states[j]} :: 0 <= j < |h.states| && j != r ==> j < |g.states| && h.states[j] == g.states[j] && h.tystate[j] == g.tystate[j])
    && h.tystate[r] == (if r < |g.states| && h.states[r] == g.states[r] then g.tystate[r] else MUSTDO)
  }

  lemma {:induction false} MergedLooks(a: seq<Item>, b: seq<Item>, it: int, t: int)
    requires SameItems(a, b)
    ensures HasLook(Merged(a, b), it, t) <==> HasLook(a, it, t) || HasLook(b, it, t)
  {
    var m := Merged(a, b);
    if HasLook(a, it, t) {
      var k :| 0 <= k < |a| && a[k].pitem == it && t in a[k].look;
      assert m[k].pitem == it && t in m[k].look;
    }
    if HasLook(b, it, t) {
      var k :| 0 <= k < |b| && b[k].pitem == it && t in b[k].look;
      assert m[k].pitem == it && t in m[k].look;
    }
    if HasLook(m, it, t) {
      var k :| 0 <= k < |m| && m[k].pitem == it && t in m[k].look;
      assert t in a[k].look || t in b[k].look;
    }
  }

  lemma {:induction false} SameLooks(a: seq<Item>, b: seq<Item>, it: int, t: int)
    requires multiset(a) == multiset(b)
    ensures HasLook(a, it, t) ==> HasLook(b, it, t)
  {
    if HasLook(a, it, t) {
      var k :| 0 <= k < |a| && a[k].pitem == it && t in a[k].look;
      assert a[k] in multiset(b);
      var m :| 0 <= m < |b| && b[m] == a[k];
    }
  }

  lemma {:induction false} MergeTook(g: Gen, r: int, ker: seq<Item>, cand: seq<Item>)
    requires 0 <= r < |g.states| == |g.tystate| && SameItems(g.states[r], ker) && multiset(ker) == multiset(cand)
    ensures Took(g, Merge(g, r, ker), r, cand)
  {
    var h := Merge(g, r, ker);
    assert h.states[r] == Merged(g.states[r], ker);
    forall it, t ensures HasLook(h.states[r], it, t) <==> HasLook(g.states[r], it, t) || HasLook(cand, it, t) {
      MergedLooks(g.states[r], ker, it, t);
      SameLooks(ker, cand, it, t);
      SameLooks(cand, ker, it, t);
    }
  }

  lemma {:induction false} AddTook(g: Gen, c: int, ker: seq<Item>, cand: seq<Item>)
    requires IsSymbol(g, c) && |g.states| == |g.tystate| && multiset(ker) == multiset(cand)
    ensures Took(g, Add(g, c, ker), |g.states|, cand)
  {
    forall it, t ensures HasLook(ker, it, t) <==> HasLook(cand, it, t) {
      SameLooks(ker, cand, it, t);
      SameLooks(cand, ker, it, t);
    }
  }

  /** Walk the chain of `c` for a state with exactly these items; 0 when there is none. */
  method Lookup(x: Ctx, g: Gen, c: int, ker: seq<Item>) returns (i: int)
    requires GenOk(x, g) && IsSymbol(g, c)
    ensures 0 <= i < |g.states|
    ensures i != 0 ==> OnChain(g, c, i) && SameItems(g.states[i], ker)
    ensures i == 0 ==> forall j :: OnChain(g, c, j) ==> 0 <= j < |g.states| && !SameItems(g.states[j], ker)
  {
    i := Head(g, c);
    forall j | OnChain(g, c, j) ensures 0 <= j < |g.states| {
      assert ChainEntryOk(x, g, c, j);
    }
    while i != 0
      invariant 0 <= i < |g.states|
      invariant forall j :: OnChain(g, c, j) ==> InChain(g.mstates, i, j) || !SameItems(g.states[j], ker)
      invariant forall j :: InChain(g.mstates, i, j) ==> OnChain(g, c, j)
      decreases i
    {
      assert InChain(g.mstates, i, i);
      var same := Compare(g.states[i], ker);
      if same {
        return;
      }
      i := g.mstates[i];
    }
  }

  method Compare(a: seq<Item>, b: seq<Item>) returns (same: bool)
    ensures same <==> SameItems(a, b)
  {
    if |a| != |b| {
      return false;
    }
    for k := 0 to |a|
      invariant forall l :: 0 <= l < k ==> a[l].pitem == b[l].pitem
    {
      if a[k].pitem != b[k].pitem {
        return false;
      }
    }
    return true;
  }

  ghost predicate Ahead(x: Ctx, g: Gen, h: Gen) {
    Gained(x, g, h) || (Idle(x, g, h) && CountMustdo(h.tystate) < CountMustdo(g.tystate))
  }

  lemma {:induction false} EmptyGoesNowhere(x: Ctx, c: int)
    requires CtxOk(x)
    ensures Goto0(x, {}, c) == {}
  {
    var none: set<int> := {};
    assert ClosedItems(x, none);
    assert Closure0(x, none) <= none by { Closure0Closed(x, none); }
  }

  lemma {:induction false} PathRegistered(x: Ctx, g: Gen, path: seq<int>)
    requires GenOk(x, g) && PathOk(path) && After(x, path) != {}
    requires forall j :: 0 <= j < |g.states| ==> GotosRegistered(x, g, KerSet(g.states[j]))
    ensures HasState(g, After(x, path))
    decreases |path|
  {
    if path == [] {
      assert StateOk(x, g, 0);
      assert g.states[0][0].pitem == START;
      assert KerSet(g.states[0]) == {START};
      assert IsState(g, 0, After(x, path));
    } else {
      var p, c := path[..|path| - 1], path[|path| - 1];
      EmptyGoesNowhere(x, c);
      PathRegistered(x, g, p);
      var j :| IsState(g, j, After(x, p));
      assert GotosRegistered(x, g, KerSet(g.states[j]));
      assert Goto0(x, KerSet(g.states[j]), c) == After(x, path);
    }
  }

  // ----- the second pass -----

  /** A registered kernel is found on the chain of the symbol it is reached over. */
  lemma {:induction false} RegisteredIsOnChain(x: Ctx, g: Gen, j: int, ker: seq<Item>, c: int)
    requires GenOk(x, g) && IsState(g, j, KerSet(ker)) && Sorted(ker) && ker != [] && Over(x, ker, c)
    ensures j > 0 && IsSymbol(g, c) && OnChain(g, c, j) && SameItems(g.states[j], ker)
  {
    assert StateOk(x, g, j);
    SameSetSameItems(g.states[j], ker);
    assert g.states[j][0].pitem == ker[0].pitem >= 2;
    var d :| IsSymbol(g, d) && d > 1 && Over(x, g.states[j], d) && OnChain(g, d, j);
    assert d == c;
  }

  /** What `output` finds for each token above 1: the state the goto leads to, or 0. */
  ghost predicate ShiftsRight(x: Ctx, g: Gen, k: set<int>, temp1: seq<int>)
    requires CtxOk(x)
  {
    && |temp1| == x.ntokens + 1
    && forall c {:trigger Goto0(x, k, c)} :: 1 < c <= x.ntokens ==>
         if Goto0(x, k, c) == {} then temp1[c] == 0 else temp1[c] != 0 && IsState(g, temp1[c], Goto0(x, k, c))
  }

  /** `state` with lookaheads off: the state with these items, 0 if there is none (a fatal error in yacc). */
  method FindState(x: Ctx, g: Gen, c: int, cand: seq<Item>) returns (r: int)
    requires GenOk(x, g) && IsSymbol(g, c) && DistinctItems(cand) && cand != [] && Over(x, cand, c)
    ensures HasState(g, KerSet(cand)) ==> r != 0 && IsState(g, r, KerSet(cand))
  {
    var ker := SortKernel(cand);
    SameMembers(cand, ker);
    SameMembersSameSet(cand, ker);
    assert |ker| == |multiset(ker)| == |multiset(cand)| == |cand|;
    forall k | 0 <= k < |ker| ensures 2 <= ker[k].pitem < |x.mem| && x.mem[ker[k].pitem - 1] == c {
      assert ker[k] in cand;
    }
    assert Over(x, ker, c);
    forall j | IsState(g, j, KerSet(cand)) ensures OnChain(g, c, j) && SameItems(g.states[j], ker) {
      RegisteredIsOnChain(x, g, j, ker, c);
    }
    r := Lookup(x, g, c, ker);
    if r != 0 {
      SameItemsSameSet(g.states[r], ker);
    }
  }

  ghost predicate ShiftsSoFar(x: Ctx, g: Gen, k: set<int>, w: seq<Wset>, u: int, temp1: seq<int>)
    requires CtxOk(x) && u <= |w|
  {
    && |temp1| == x.ntokens + 1
    && (forall c {:trigger Goto0(x, k, c)} :: 1 < c <= x.ntokens && temp1[c] != 0 ==> IsState(g, temp1[c], Goto0(x, k, c)) && Goto0(x, k, c) != {})
    && (forall v :: 0 <= v < u && IsItem(x, w[v].pitem) && 1 < x.mem[w[v].pitem] <= x.ntokens ==> temp1[x.mem[w[v].pitem]] != 0)
  }

  /** The goto over one token: collect its kernel and find the state. */
  method ShiftOver(x: Ctx, g: Gen, ghost k: set<int>, w: seq<Wset>, u: nat, c: int) returns (r: int)
    requires GenOk(x, g) && GotosRegistered(x, g, k) && 1 < c <= x.ntokens
    requires Distinct(w) && Items(w) == Closure0(x, k) && u < |w|
    requires forall v :: 0 <= v < |w| ==> 0 < w[v].pitem < |x.mem|
    requires x.mem[w[u].pitem] == c && forall v :: 0 <= v < u ==> x.mem[w[v].pitem] != c
    ensures r != 0 && IsState(g, r, Goto0(x, k, c)) && Goto0(x, k, c) != {}
  {
    var cand, _ := Collect(x, w, u, c);
    GotoKernelSet(x, k, w, c, cand);
    NonemptyKernel(cand);
    forall n | 0 <= n < |cand| ensures 2 <= cand[n].pitem < |x.mem| && x.mem[cand[n].pitem - 1] == c {
      var v :| CarriedFrom(x, w, c, cand[n], v);
    }
    r := FindState(x, g, c, cand);
  }

  /** The token gotos of state `i` in `output`: with the states complete, `state` never fails to find its
      kernel, so "yacc state/nolook error" cannot happen; nor, as the state was closed before, can the
      working set overflow. */
  method OutputShifts(x: Ctx, g: Gen, i: nat) returns (temp1: seq<int>)
    requires GenOk(x, g) && i < |g.states| && GotosRegistered(x, g, KerSet(g.states[i])) && Fits(x, KerSet(g.states[i]))
    ensures ShiftsRight(x, g, KerSet(g.states[i]), temp1)
  {
    assert StateOk(x, g, i);
    var ok, w := Closure(x, g.states[i], g.tystate[i] != MUSTLOOKAHEAD);
    if !ok {
      OverflowIsUnfit(x, g.states[i]);
      assert false;
    }
    LeastItemsIsClosure0(x, g.states[i], Items(w));
    temp1 := AllShifts(x, g, KerSet(g.states[i]), w);
  }

  /** A goto for every token that comes after a dot. */
  method AllShifts(x: Ctx, g: Gen, ghost k: set<int>, w: seq<Wset>) returns (temp1: seq<int>)
    requires GenOk(x, g) && GotosRegistered(x, g, k) && Distinct(w) && Items(w) == Closure0(x, k)
    requires forall v :: 0 <= v < |w| ==> 0 < w[v].pitem < |x.mem|
    ensures ShiftsRight(x, g, k, temp1)
  {
    temp1 := seq(x.ntokens + 1, _ => 0);
    for u := 0 to |w|
      invariant ShiftsSoFar(x, g, k, w, u, temp1)
    {
      var c := x.mem[w[u].pitem];
      assert CellOk(x, c);
      if 1 < c < NTBASE && temp1[c] == 0 {
        var r := ShiftOver(x, g, k, w, u, c);
        temp1 := temp1[c := r];
      }
    }
    ShiftsDone(x, g, k, w, temp1);
  }

  lemma {:induction false} ShiftsDone(x: Ctx, g: Gen, k: set<int>, w: seq<Wset>, temp1: seq<int>)
    requires CtxOk(x) && Items(w) == Closure0(x, k) && ShiftsSoFar(x, g, k, w, |w|, temp1)
    ensures ShiftsRight(x, g, k, temp1)
  {
    forall c | 1 < c <= x.ntokens && Goto0(x, k, c) != {} ensures temp1[c] != 0 {
      var it :| it in Goto0(x, k, c);
      assert it - 1 in Items(w);
      var v :| 0 <= v < |w| && w[v].pitem == it - 1;
      assert IsItem(x, w[v].pitem);
    }
  }
}
