/**
 The in-memory sort of sort(1): `sort4`, the radix sort `rsort4` that chases permutation cycles in
 place, and the insertion sort `bsort4` that picks up the pieces.
 */
module SortRadix {

  const THRESHOLD := 14
  const PAST := 256    // the class of a key that has no byte at the current position

  type Byte = b: int | 0 <= b < 256

  /** What the array points to: a record (a line, or the head of a merged file) seen through its key. */
  datatype Rec = Rec(key: seq<Byte>, id: int)

  // ----- comparing keys -----

  /** `kcmp`: compare byte by byte over the length of the shorter key. */
  function Kcmp(a: seq<Byte>, b: seq<Byte>): int {
    if a == [] || b == [] then 0
    else if a[0] != b[0] then a[0] - b[0]
    else Kcmp(a[1..], b[1..])
  }

  ghost predicate ProperPrefix(a: seq<Byte>, b: seq<Byte>) { |a| < |b| && b[..|a|] == a }

  /** The keys come from lines without NUL bytes: none is a proper prefix of another. */
  ghost predicate PrefixFree(s: seq<Rec>) {
    forall i, j {:trigger Apart(s, i, j)} :: 0 <= i < |s| && 0 <= j < |s| ==> Apart(s, i, j)
  }

  ghost predicate Apart(s: seq<Rec>, i: int, j: int)
    requires 0 <= i < |s| && 0 <= j < |s|
  {
    !ProperPrefix(s[i].key, s[j].key)
  }

  ghost predicate SortedRecs(s: seq<Rec>) {
    forall i, j :: 0 <= i < j < |s| ==> Kcmp(s[i].key, s[j].key) <= 0
  }

  /** Lexicographic order, a prefix before what it begins: a total order that agrees with `Kcmp`
      on prefix-free keys. */
  ghost predicate LexLe(a: seq<Byte>, b: seq<Byte>) {
    a == [] || (b != [] && (a[0] < b[0] || (a[0] == b[0] && LexLe(a[1..], b[1..]))))
  }

  lemma {:induction false} LexTrans(a: seq<Byte>, b: seq<Byte>, c: seq<Byte>)
    requires LexLe(a, b) && LexLe(b, c)
    ensures LexLe(a, c)
  {
    if a != [] && a[0] == b[0] == c[0] {
      LexTrans(a[1..], b[1..], c[1..]);
    }
  }

  lemma {:induction false} LexTotal(a: seq<Byte>, b: seq<Byte>)
    ensures LexLe(a, b) || LexLe(b, a)
  {
    if a != [] && b != [] && a[0] == b[0] {
      LexTotal(a[1..], b[1..]);
    }
  }

  lemma {:induction false} LexRefl(a: seq<Byte>)
    ensures LexLe(a, a)
  {
    if a != [] {
      LexRefl(a[1..]);
    }
  }

  lemma {:induction false} LexGivesKcmp(a: seq<Byte>, b: seq<Byte>)
    requires LexLe(a, b)
    ensures Kcmp(a, b) <= 0
  {
    if a != [] && a[0] == b[0] {
      LexGivesKcmp(a[1..], b[1..]);
    }
  }

  lemma {:induction false} KcmpGivesLex(a: seq<Byte>, b: seq<Byte>)
    requires Kcmp(a, b) <= 0 && !ProperPrefix(b, a)
    ensures LexLe(a, b)
  {
    PrefixCons(b, a);
    if a != [] && b != [] && a[0] == b[0] {
      KcmpGivesLex(a[1..], b[1..]);
    }
  }

  lemma PrefixCons(b: seq<Byte>, a: seq<Byte>)
    ensures b == [] && a != [] ==> ProperPrefix(b, a)
    ensures b != [] && a != [] && a[0] == b[0] && ProperPrefix(b[1..], a[1..]) ==> ProperPrefix(b, a)
  {
    if b != [] && a != [] && a[0] == b[0] && ProperPrefix(b[1..], a[1..]) {
      assert a[..|b|] == [a[0]] + a[1..][..|b| - 1];
      assert b == [b[0]] + b[1..];
    }
  }

  /** `Kcmp` of two keys that agree on their first `b` bytes is decided by the rest. */
  lemma {:induction false} KcmpDrop(x: seq<Byte>, y: seq<Byte>, b: nat)
    requires b <= |x| && b <= |y| && x[..b] == y[..b]
    ensures Kcmp(x, y) == Kcmp(x[b..], y[b..])
    ensures LexLe(x, y) == LexLe(x[b..], y[b..])
  {
    if b == 0 {
      assert x[0..] == x && y[0..] == y;
    } else {
      assert x[0] == x[..b][0] && y[0] == y[..b][0];
      assert x[1..][..b - 1] == x[..b][1..] && y[1..][..b - 1] == y[..b][1..];
      KcmpDrop(x[1..], y[1..], b - 1);
      assert x[1..][b - 1..] == x[b..] && y[1..][b - 1..] == y[b..];
    }
  }

  ghost predicate LexAt(s: seq<Rec>, i: int, j: int)
    requires 0 <= i < |s| && 0 <= j < |s|
  {
    LexLe(s[i].key, s[j].key)
  }

  ghost predicate LexSorted(s: seq<Rec>) {
    forall i, j {:trigger LexAt(s, i, j)} :: 0 <= i < j < |s| ==> LexAt(s, i, j)
  }

  lemma LexSortedIsSorted(s: seq<Rec>)
    requires LexSorted(s)
    ensures SortedRecs(s)
  {
    forall i, j | 0 <= i < j < |s| ensures Kcmp(s[i].key, s[j].key) <= 0 {
      assert LexAt(s, i, j);
      LexGivesKcmp(s[i].key, s[j].key);
    }
  }

  // ----- sequences with the same elements -----

  lemma {:induction false} SameElements(s: seq<Rec>, t: seq<Rec>)
    requires multiset(s) == multiset(t)
    ensures |s| == |t| && forall e :: e in s <==> e in t
  {
    assert |s| == |multiset(s)| && |t| == |multiset(t)|;
    forall e ensures e in s <==> e in t {
      assert e in s <==> e in multiset(s);
      assert e in t <==> e in multiset(t);
    }
  }

  lemma {:induction false} PrefixFreePermuted(s: seq<Rec>, t: seq<Rec>)
    requires multiset(s) == multiset(t) && PrefixFree(s)
    ensures PrefixFree(t)
  {
    SameElements(s, t);
    forall i, j | 0 <= i < |t| && 0 <= j < |t| ensures Apart(t, i, j) {
      assert t[i] in s && t[j] in s;
      var x :| 0 <= x < |s| && s[x] == t[i];
      var y :| 0 <= y < |s| && s[y] == t[j];
      assert Apart(s, x, y);
    }
  }

  // ----- bsort4 -----

  /** Keys in a piece agree on their first `b` bytes. */
  ghost predicate CommonPrefix(s: seq<Rec>, b: nat) {
    forall i, j {:trigger Agree(s, i, j, b)} :: 0 <= i < |s| && 0 <= j < |s| ==> Agree(s, i, j, b)
  }

  ghost predicate Agree(s: seq<Rec>, i: int, j: int, b: nat)
    requires 0 <= i < |s| && 0 <= j < |s|
  {
    b <= |s[i].key| && b <= |s[j].key| && s[i].key[..b] == s[j].key[..b]
  }

  /** The comparison inside `bsort4`: the bytes from `b` on, over the shorter length. */
  method CompareFrom(x: seq<Byte>, y: seq<Byte>, b: nat) returns (c: int)
    requires b <= |x| && b <= |y| && x[..b] == y[..b]
    ensures c <= 0 <==> Kcmp(x, y) <= 0
  {
    KcmpDrop(x, y, b);
    var n1, n2 := |x| - b, |y| - b;
    if n1 > n2 {
      n1 := n2;
    }
    if n1 <= 0 {
      return 0;
    }
    c := x[b] as int - y[b] as int;
    if c == 0 {
      c := Memcmp(x[b..], y[b..], n1);
    }
  }

  method Memcmp(x: seq<Byte>, y: seq<Byte>, n: nat) returns (c: int)
    requires n <= |x| && n <= |y| && (n == |x| || n == |y|)
    ensures c == Kcmp(x, y)
  {
    for i := 0 to n
      invariant Kcmp(x, y) == Kcmp(x[i..], y[i..])
    {
      if x[i] != y[i] {
        return x[i] as int - y[i] as int;
      }
      assert x[i..][1..] == x[i + 1..] && y[i..][1..] == y[i + 1..];
    }
    return 0;
  }

  /** Sorted but for the element at `i`, which is no larger than anything after it. */
  ghost predicate SortedBut(s: seq<Rec>, i: int) {
    forall x, y {:trigger LexAt(s, x, y)} :: 0 <= x < y < |s| && y != i ==> LexAt(s, x, y)
  }

  lemma {:induction false} SwapDown(s: seq<Rec>, i: int)
    requires 0 < i < |s| && SortedBut(s, i) && LexLe(s[i].key, s[i - 1].key)
    ensures SortedBut(s[i := s[i - 1]][i - 1 := s[i]], i - 1)
    ensures multiset(s[i := s[i - 1]][i - 1 := s[i]]) == multiset(s)
  {
    var t := s[i := s[i - 1]][i - 1 := s[i]];
    forall x, y | 0 <= x < y < |t| && y != i - 1 ensures LexAt(t, x, y) {
      if y == i {
        if x < i - 1 { assert LexAt(s, x, i - 1); }
      } else if x == i {
        assert LexAt(s, i - 1, y);
      } else if x == i - 1 {
        assert LexAt(s, i, y);
      } else {
        assert LexAt(s, x, y);
      }
    }
  }

  lemma {:induction false} InPlace(s: seq<Rec>, i: int)
    requires 0 <= i < |s| && SortedBut(s, i) && (i > 0 ==> LexLe(s[i - 1].key, s[i].key))
    ensures LexSorted(s)
  {
    forall x, y | 0 <= x < y < |s| ensures LexAt(s, x, y) {
      if y == i && x < i - 1 {
        assert LexAt(s, x, i - 1);
        LexTrans(s[x].key, s[i - 1].key, s[i].key);
      }
    }
  }

  /** Two elements of a permutation of a piece: they agree on `b` bytes, neither is a prefix of the other. */
  lemma {:induction false} TwoOf(s0: seq<Rec>, s: seq<Rec>, b: nat, i: int, j: int)
    requires multiset(s) == multiset(s0) && CommonPrefix(s0, b) && PrefixFree(s0)
    requires 0 <= i < |s| && 0 <= j < |s|
    ensures Agree(s, i, j, b) && Apart(s, i, j)
  {
    SameElements(s0, s);
    assert s[i] in s0 && s[j] in s0;
    var x :| 0 <= x < |s0| && s0[x] == s[i];
    var y :| 0 <= y < |s0| && s0[y] == s[j];
    assert Agree(s0, x, y, b) && Apart(s0, x, y);
  }

  /** In the middle of an insertion: the element at `i` is on its way down. */
  ghost predicate Inserting(s0: seq<Rec>, s: seq<Rec>, i: int) {
    multiset(s) == multiset(s0) && 0 <= i < |s| && SortedBut(s, i)
  }

  lemma {:induction false} InsertStop(s0: seq<Rec>, s: seq<Rec>, b: nat, i: int)
    requires Inserting(s0, s, i) && (i == 0 || Kcmp(s[i - 1].key, s[i].key) <= 0)
    requires CommonPrefix(s0, b) && PrefixFree(s0)
    ensures LexSorted(s)
  {
    if i > 0 {
      TwoOf(s0, s, b, i, i - 1);
      KcmpGivesLex(s[i - 1].key, s[i].key);
    }
    InPlace(s, i);
  }

  lemma NotKcmpGivesLex(a: seq<Byte>, b: seq<Byte>)
    requires Kcmp(a, b) > 0
    ensures LexLe(b, a)
  {
    LexTotal(a, b);
    if LexLe(a, b) {
      LexGivesKcmp(a, b);
    }
  }

  lemma {:induction false} PermutedFacts(s: seq<Rec>, t: seq<Rec>, b: nat)
    requires multiset(s) == multiset(t) && CommonPrefix(s, b) && PrefixFree(s)
    ensures CommonPrefix(t, b) && PrefixFree(t)
  {
    SameElements(s, t);
    PrefixFreePermuted(s, t);
    forall i, j | 0 <= i < |t| && 0 <= j < |t| ensures Agree(t, i, j, b) {
      assert t[i] in s && t[j] in s;
      var x :| 0 <= x < |s| && s[x] == t[i];
      var y :| 0 <= y < |s| && s[y] == t[j];
      assert Agree(s, x, y, b);
    }
  }

  lemma PieceFacts(s: seq<Rec>, b: nat, n: nat)
    requires CommonPrefix(s, b) && PrefixFree(s) && n <= |s|
    ensures CommonPrefix(s[..n], b) && PrefixFree(s[..n])
  {
    forall i, j | 0 <= i < n && 0 <= j < n ensures Agree(s[..n], i, j, b) && Apart(s[..n], i, j) {
      assert Agree(s, i, j, b) && Apart(s, i, j);
    }
  }

  lemma SortedPlusOne(s: seq<Rec>, t: seq<Rec>)
    requires |t| == |s| + 1 && t[..|s|] == s && LexSorted(s)
    ensures SortedBut(t, |s|)
  {
    forall x, y | 0 <= x < y < |t| && y != |s| ensures LexAt(t, x, y) {
      assert LexAt(s, x, y) && s[x] == t[..|s|][x] && s[y] == t[..|s|][y];
    }
  }

  /** Nothing outside `lo..hi` has changed. */
  ghost predicate SameOutside(s: seq<Rec>, t: seq<Rec>, lo: int, hi: int) {
    |s| == |t| && forall k {:trigger SameAt(s, t, k)} :: 0 <= k < |s| && (k < lo || hi <= k) ==> SameAt(s, t, k)
  }

  ghost predicate SameAt(s: seq<Rec>, t: seq<Rec>, k: int)
    requires 0 <= k < |s| == |t|
  {
    t[k] == s[k]
  }

  /** Two stretches of places outside `lo..hi` hold the same. */
  lemma {:induction false} SameStretch(s: seq<Rec>, t: seq<Rec>, lo: int, hi: int, l: nat, h: nat)
    requires SameOutside(s, t, lo, hi) && l <= h <= |s| && (h <= lo || hi <= l)
    ensures t[l..h] == s[l..h]
  {
    forall k | l <= k < h ensures t[k] == s[k] {
      assert SameAt(s, t, k);
    }
  }

  /** A change inside a part is a change inside the whole. */
  lemma {:induction false} Inside(s: seq<Rec>, t: seq<Rec>, lo: nat, hi: nat, l: nat, h: nat)
    requires lo <= l <= h <= hi <= |s| && SameOutside(s, t, l, h)
    ensures SameOutside(s, t, lo, hi)
    ensures multiset(t[l..h]) == multiset(s[l..h]) ==> multiset(t[lo..hi]) == multiset(s[lo..hi])
  {
    assert t[lo..hi] == t[lo..l] + t[l..h] + t[h..hi];
    assert s[lo..hi] == s[lo..l] + s[l..h] + s[h..hi];
    SameStretch(s, t, l, h, lo, l);
    SameStretch(s, t, l, h, h, hi);
    forall k | 0 <= k < |s| && (k < lo || hi <= k) ensures SameAt(s, t, k) {
    }
  }

  ghost predicate Swapped(s: seq<Rec>, t: seq<Rec>, i: int) {
    && 0 < i < |s| == |t| && t[i] == s[i - 1] && t[i - 1] == s[i]
    && forall k :: 0 <= k < |s| && k != i && k != i - 1 ==> t[k] == s[k]
  }

  lemma {:induction false} SwappedSlice(s: seq<Rec>, t: seq<Rec>, lo: nat, hi: nat, i: nat)
    requires lo < i < hi <= |s| && Swapped(s, t, i)
    ensures Swapped(s[lo..hi], t[lo..hi], i - lo) && SameOutside(s, t, lo, hi)
  {
  }

  lemma {:induction false} SwappedInserting(s0: seq<Rec>, s: seq<Rec>, t: seq<Rec>, i: int)
    requires Inserting(s0, s, i) && Swapped(s, t, i) && Kcmp(s[i - 1].key, s[i].key) > 0
    ensures Inserting(s0, t, i - 1)
  {
    NotKcmpGivesLex(s[i - 1].key, s[i].key);
    SwapDown(s, i);
    assert t == s[i := s[i - 1]][i - 1 := s[i]];
  }

  /** One exchange of the insertion loop, seen in the whole array. */
  lemma {:induction false} ExchangeKeeps(s0: seq<Rec>, s: seq<Rec>, t: seq<Rec>, lo: nat, hi: nat, i: nat)
    requires lo < i < hi <= |s| && Swapped(s, t, i)
    requires Inserting(s0, s[lo..hi], i - lo) && Kcmp(s[i - 1].key, s[i].key) > 0
    ensures Inserting(s0, t[lo..hi], i - 1 - lo) && SameOutside(s, t, lo, hi)
  {
    SwappedSlice(s, t, lo, hi, i);
    SwappedInserting(s0, s[lo..hi], t[lo..hi], i - lo);
  }

  lemma OutsideTrans(s: seq<Rec>, t: seq<Rec>, u: seq<Rec>, lo: int, hi: int)
    requires SameOutside(s, t, lo, hi) && SameOutside(t, u, lo, hi)
    ensures SameOutside(s, u, lo, hi)
  {
    forall k | 0 <= k < |s| && (k < lo || hi <= k) ensures SameAt(s, u, k) {
      assert SameAt(s, t, k) && SameAt(t, u, k);
    }
  }

  ghost predicate AgreeKeys(x: seq<Byte>, y: seq<Byte>, b: nat) {
    b <= |x| && b <= |y| && x[..b] == y[..b]
  }

  lemma NeighboursAgree(s0: seq<Rec>, s: seq<Rec>, lo: nat, hi: nat, b: nat, i: nat)
    requires lo < i < hi <= |s| && multiset(s[lo..hi]) == multiset(s0) && CommonPrefix(s0, b) && PrefixFree(s0)
    ensures AgreeKeys(s[i - 1].key, s[i].key, b)
  {
    TwoOf(s0, s[lo..hi], b, i - 1 - lo, i - lo);
  }

  /** Exchange `a[i - 1]` and `a[i]` unless they are in order. */
  method Exchange(a: array<Rec>, i: nat, b: nat) returns (stop: bool)
    requires 0 < i < a.Length
    requires AgreeKeys(a[i - 1].key, a[i].key, b)
    modifies a
    ensures stop <==> Kcmp(old(a[i - 1].key), old(a[i].key)) <= 0
    ensures if stop then a[..] == old(a[..]) else Swapped(old(a[..]), a[..], i)
  {
    var c := CompareFrom(a[i - 1].key, a[i].key, b);
    stop := c <= 0;
    if !stop {
      a[i], a[i - 1] := a[i - 1], a[i];
    }
  }

  /** Move `a[j]` down to its place in the sorted `a[lo..j]`. */
  method Insert(a: array<Rec>, lo: nat, j: nat, b: nat)
    requires lo <= j < a.Length
    requires Inserting(a[..][lo..j + 1], a[..][lo..j + 1], j - lo)
    requires CommonPrefix(a[..][lo..j + 1], b) && PrefixFree(a[..][lo..j + 1])
    modifies a
    ensures LexSorted(a[..][lo..j + 1]) && multiset(a[..][lo..j + 1]) == multiset(old(a[..])[lo..j + 1])
    ensures SameOutside(old(a[..]), a[..], lo, j + 1)
  {
    ghost var s0 := a[..];
    var i: nat := j;
    var stop := false;
    while i > lo && !stop
      invariant InsertState(s0, a[..], lo, j, i)
      invariant stop ==> i > lo && Kcmp(a[i - 1].key, a[i].key) <= 0
      decreases i, !stop
    {
      ghost var s := a[..];
      NeighboursAgree(s0[lo..j + 1], s, lo, j + 1, b, i);
      stop := Exchange(a, i, b);
      if !stop {
        InsertDown(s0, s, a[..], lo, j, i);
        i := i - 1;
      }
    }
    InsertEnd(s0, a[..], lo, j, i, b);
  }

  /** Part way through an insertion: what was at `j` is now at `i`. */
  ghost predicate InsertState(s0: seq<Rec>, s: seq<Rec>, lo: nat, j: nat, i: nat) {
    lo <= i <= j < |s| && SameOutside(s0, s, lo, j + 1) && Inserting(s0[lo..j + 1], s[lo..j + 1], i - lo)
  }

  lemma {:induction false} InsertDown(s0: seq<Rec>, s: seq<Rec>, t: seq<Rec>, lo: nat, j: nat, i: nat)
    requires InsertState(s0, s, lo, j, i) && lo < i && Swapped(s, t, i) && Kcmp(s[i - 1].key, s[i].key) > 0
    ensures InsertState(s0, t, lo, j, i - 1)
  {
    ExchangeKeeps(s0[lo..j + 1], s, t, lo, j + 1, i);
    OutsideTrans(s0, s, t, lo, j + 1);
  }

  lemma {:induction false} InsertEnd(s0: seq<Rec>, s: seq<Rec>, lo: nat, j: nat, i: nat, b: nat)
    requires InsertState(s0, s, lo, j, i) && (lo < i ==> Kcmp(s[i - 1].key, s[i].key) <= 0)
    requires CommonPrefix(s0[lo..j + 1], b) && PrefixFree(s0[lo..j + 1])
    ensures LexSorted(s[lo..j + 1]) && multiset(s[lo..j + 1]) == multiset(s0[lo..j + 1])
  {
    InsertStop(s0[lo..j + 1], s[lo..j + 1], b, i - lo);
  }

  lemma {:induction false} ReadyToInsert(s0: seq<Rec>, s: seq<Rec>, lo: nat, j: nat, hi: nat, b: nat)
    requires lo <= j < hi <= |s| && multiset(s[lo..hi]) == multiset(s0)
    requires CommonPrefix(s0, b) && PrefixFree(s0) && LexSorted(s[lo..j])
    ensures Inserting(s[lo..j + 1], s[lo..j + 1], j - lo)
    ensures CommonPrefix(s[lo..j + 1], b) && PrefixFree(s[lo..j + 1])
  {
    PermutedFacts(s0, s[lo..hi], b);
    PieceFacts(s[lo..hi], b, j + 1 - lo);
    assert s[lo..hi][..j + 1 - lo] == s[lo..j + 1] && s[lo..j + 1][..j - lo] == s[lo..j];
    SortedPlusOne(s[lo..j], s[lo..j + 1]);
  }

  /** `bsort4`: insertion sort of `a[lo..hi]`, whose keys agree on their first `b` bytes. */
  method Bsort4(a: array<Rec>, lo: nat, hi: nat, b: nat)
    requires lo <= hi <= a.Length
    requires CommonPrefix(a[..][lo..hi], b) && PrefixFree(a[..][lo..hi])
    modifies a
    ensures LexSorted(a[..][lo..hi]) && multiset(a[..][lo..hi]) == multiset(old(a[..])[lo..hi])
    ensures SameOutside(old(a[..]), a[..], lo, hi)
  {
    ghost var s0 := a[..];
    var j := lo;
    while j < hi
      invariant lo <= j <= hi && SortedTo(s0, a[..], lo, hi, j)
    {
      ghost var s := a[..];
      ReadyToInsert(s0[lo..hi], s, lo, j, hi, b);
      Insert(a, lo, j, b);
      SortedMore(s0, s, a[..], lo, hi, j);
      j := j + 1;
    }
  }

  /** Part way through `bsort4`: the records before `j` are sorted. */
  ghost predicate SortedTo(s0: seq<Rec>, s: seq<Rec>, lo: nat, hi: nat, j: nat) {
    && lo <= j <= hi <= |s| && SameOutside(s0, s, lo, hi)
    && multiset(s[lo..hi]) == multiset(s0[lo..hi]) && LexSorted(s[lo..j])
  }

  lemma {:induction false} SortedMore(s0: seq<Rec>, s: seq<Rec>, t: seq<Rec>, lo: nat, hi: nat, j: nat)
    requires SortedTo(s0, s, lo, hi, j) && j < hi && SameOutside(s, t, lo, j + 1)
    requires LexSorted(t[lo..j + 1]) && multiset(t[lo..j + 1]) == multiset(s[lo..j + 1])
    ensures SortedTo(s0, t, lo, hi, j + 1)
  {
    Inside(s, t, lo, hi, lo, j + 1);
    OutsideTrans(s0, s, t, lo, hi);
  }

  // ----- classes -----

  /** The class of a record at byte `b`: that byte, or `PAST` when the key is too short. */
  function Class(r: Rec, b: nat): (c: int)
    ensures 0 <= c <= PAST
  {
    if b < |r.key| then r.key[b] else PAST
  }

  function Classes(s: seq<Rec>, b: nat): (r: seq<int>)
    ensures |r| == |s| && forall i :: 0 <= i < |s| ==> r[i] == Class(s[i], b)
  {
    seq(|s|, i requires 0 <= i < |s| => Class(s[i], b))
  }

  /** How many records of `s` are in class `c`. */
  ghost function CountOf(s: seq<Rec>, b: nat, c: int): nat { multiset(Classes(s, b))[c] }

  lemma {:induction false} CountAppend(s: seq<Rec>, t: seq<Rec>, b: nat, c: int)
    ensures CountOf(s + t, b, c) == CountOf(s, b, c) + CountOf(t, b, c)
  {
    assert Classes(s + t, b) == Classes(s, b) + Classes(t, b);
  }

  lemma {:induction false} CountLast(s: seq<Rec>, b: nat, c: int)
    requires s != []
    ensures CountOf(s, b, c) == CountOf(s[..|s| - 1], b, c) + if Class(s[|s| - 1], b) == c then 1 else 0
  {
    var n := |s| - 1;
    assert Classes(s, b) == Classes(s[..n], b) + [Class(s[n], b)];
  }

  lemma {:induction false} CountAll(s: seq<Rec>, b: nat, c: int)
    requires forall i :: 0 <= i < |s| ==> Class(s[i], b) == c
    ensures CountOf(s, b, c) == |s|
  {
    if s != [] {
      var n := |s| - 1;
      CountAll(s[..n], b, c);
      CountAppend(s[..n], [s[n]], b, c);
      assert s == s[..n] + [s[n]] && Classes([s[n]], b) == [c];
    }
  }

  lemma {:induction false} CountNone(s: seq<Rec>, b: nat, c: int, i: int)
    requires CountOf(s, b, c) == 0 && 0 <= i < |s|
    ensures Class(s[i], b) != c
  {
    assert Classes(s, b)[i] in multiset(Classes(s, b));
  }

  /** If a stretch holds as many records of class `c` as there are, there are none outside it. */
  lemma {:induction false} AllInside(s: seq<Rec>, b: nat, c: int, lo: nat, hi: nat, p: int)
    requires lo <= hi <= |s| && 0 <= p < |s| && (p < lo || hi <= p)
    requires forall i :: lo <= i < hi ==> Class(s[i], b) == c
    requires CountOf(s, b, c) == hi - lo
    ensures Class(s[p], b) != c
  {
    var x, y, z := s[..lo], s[lo..hi], s[hi..];
    assert s == x + y + z;
    CountAppend(x, y, b, c);
    CountAppend(x + y, z, b, c);
    CountAll(y, b, c);
    if p < lo {
      CountNone(x, b, c, p);
    } else {
      CountNone(z, b, c, p - hi);
    }
  }

  lemma {:induction false} CountPermuted(s: seq<Rec>, t: seq<Rec>, b: nat, i: int, j: int)
    requires 0 <= i < |s| && 0 <= j < |s| && t == s[i := s[j]][j := s[i]]
    ensures forall c :: CountOf(t, b, c) == CountOf(s, b, c)
    ensures multiset(t) == multiset(s)
  {
    var x, y := Classes(s, b), Classes(t, b);
    assert y == x[i := x[j]][j := x[i]];
    SwapKeeps(x, i, j);
    SwapKeeps(s, i, j);
  }

  lemma {:induction false} SwapKeeps<T>(s: seq<T>, i: int, j: int)
    requires 0 <= i < |s| && 0 <= j < |s|
    ensures multiset(s[i := s[j]][j := s[i]]) == multiset(s)
  {
    var t := s[i := s[j]];
    assert multiset(t) == multiset(s) - multiset{s[i]} + multiset{s[j]};
    assert t[j] == s[j] && multiset(t[j := s[i]]) == multiset(t) - multiset{s[j]} + multiset{s[i]};
  }

  // ----- where the classes go -----

  function SumTo(cnt: seq<int>, n: nat): int
    requires n <= |cnt|
  {
    if n == 0 then 0 else SumTo(cnt, n - 1) + cnt[n - 1]
  }

  lemma {:induction false} SumMonotone(cnt: seq<int>, m: nat, n: nat)
    requires m <= n <= |cnt| && forall k :: 0 <= k < |cnt| ==> cnt[k] >= 0
    ensures SumTo(cnt, m) <= SumTo(cnt, n)
    decreases n
  {
    if m < n {
      SumMonotone(cnt, m, n - 1);
    }
  }

  ghost predicate Counts(s: seq<Rec>, b: nat, cnt: seq<int>) {
    |cnt| == 257 && forall c {:trigger CountOf(s, b, c)} :: 0 <= c <= PAST ==> cnt[c] == CountOf(s, b, c)
  }

  /** The first position of class `c`: short keys come first, then the bytes in order. */
  function Start(cnt: seq<int>, c: int): int
    requires |cnt| == 257 && 0 <= c <= PAST
  {
    if c == PAST then 0 else cnt[PAST] + SumTo(cnt, c)
  }

  function End(cnt: seq<int>, c: int): int
    requires |cnt| == 257 && 0 <= c <= PAST
  {
    Start(cnt, c) + cnt[c]
  }

  ghost predicate Natural(cnt: seq<int>) { |cnt| == 257 && forall k :: 0 <= k < |cnt| ==> cnt[k] >= 0 }

  /** Different classes have disjoint places. */
  lemma {:induction false} PlacesDisjoint(cnt: seq<int>, c: int, d: int)
    requires Natural(cnt) && 0 <= c <= PAST && 0 <= d <= PAST && c != d
    ensures End(cnt, c) <= Start(cnt, d) || End(cnt, d) <= Start(cnt, c)
  {
    SumMonotone(cnt, 0, if c < PAST then c else 0);
    SumMonotone(cnt, 0, if d < PAST then d else 0);
    if c < d < PAST {
      SumMonotone(cnt, c + 1, d);
    } else if d < c < PAST {
      SumMonotone(cnt, d + 1, c);
    }
  }

  /** The counts, one record at a time. */
  function Tally(s: seq<Rec>, b: nat): (cnt: seq<int>)
    ensures |cnt| == 257
    decreases |s|
  {
    if s == [] then seq(257, _ => 0)
    else
      var t, c := Tally(s[..|s| - 1], b), Class(s[|s| - 1], b);
      t[c := t[c] + 1]
  }

  lemma {:induction false} TallyAt(s: seq<Rec>, b: nat, c: int)
    requires 0 <= c <= PAST
    ensures Tally(s, b)[c] == CountOf(s, b, c)
    decreases |s|
  {
    if s != [] {
      var n := |s| - 1;
      TallyAt(s[..n], b, c);
      CountLast(s, b, c);
    }
  }

  lemma TallyCounts(s: seq<Rec>, b: nat)
    ensures Counts(s, b, Tally(s, b)) && Natural(Tally(s, b))
  {
    forall c | 0 <= c <= PAST ensures Tally(s, b)[c] == CountOf(s, b, c) {
      TallyAt(s, b, c);
    }
  }

  lemma {:induction false} TallySum(s: seq<Rec>, b: nat)
    ensures Tally(s, b)[PAST] + SumTo(Tally(s, b), PAST) == |s|
    decreases |s|
  {
    if s == [] {
      SumZero(Tally(s, b), PAST);
    } else {
      var n := |s| - 1;
      var t, c := Tally(s[..n], b), Class(s[n], b);
      TallySum(s[..n], b);
      SumUpdate(t, PAST, c, t[c] + 1);
    }
  }

  lemma {:induction false} SumOfCounts(s: seq<Rec>, b: nat, cnt: seq<int>)
    requires Counts(s, b, cnt)
    ensures cnt[PAST] + SumTo(cnt, PAST) == |s|
  {
    forall c | 0 <= c <= PAST ensures cnt[c] == Tally(s, b)[c] {
      TallyAt(s, b, c);
    }
    assert cnt == Tally(s, b);
    TallySum(s, b);
  }

  lemma {:induction false} SumZero(cnt: seq<int>, n: nat)
    requires n <= |cnt|
    ensures (forall k :: 0 <= k < n ==> cnt[k] == 0) ==> SumTo(cnt, n) == 0
  {
    if n > 0 {
      SumZero(cnt, n - 1);
    }
  }

  lemma {:induction false} SumUpdate(cnt: seq<int>, n: nat, c: nat, v: int)
    requires n <= |cnt| && c < |cnt|
    ensures SumTo(cnt[c := v], n) == SumTo(cnt, n) + if c < n then v - cnt[c] else 0
  {
    if n > 0 {
      SumUpdate(cnt, n - 1, c, v);
    }
  }

  lemma {:induction false} TallyNext(s: seq<Rec>, b: nat, k: nat)
    requires k < |s|
    ensures Tally(s[..k + 1], b) == Tally(s[..k], b)[Class(s[k], b) := Tally(s[..k], b)[Class(s[k], b)] + 1]
  {
    assert s[..k + 1][..k] == s[..k];
  }

  // ----- pass 1 -----

  /** Count the records of each class, and find the lowest and highest byte. */
  method CountPass(a: array<Rec>, lo: nat, hi: nat, b: nat, count: array<int>) returns (lowc: nat, higc: nat)
    requires lo <= hi <= a.Length && count.Length == 257 && forall c :: 0 <= c < 257 ==> count[c] == 0
    modifies count
    ensures Counts(a[..][lo..hi], b, count[..]) && Natural(count[..])
    ensures lowc <= PAST && higc < PAST && forall c :: 0 <= c < PAST && count[c] > 0 ==> lowc <= c <= higc
  {
    lowc, higc := PAST, 0;
    ghost var s := a[..][lo..hi];
    for t := lo to hi
      invariant lowc <= PAST && higc < PAST
      invariant count[..] == Tally(s[..t - lo], b)
      invariant forall c :: 0 <= c < PAST && count[c] != 0 ==> lowc <= c <= higc
    {
      var c := Class(a[t], b);
      TallyNext(s, b, t - lo);
      var n := count[c];
      count[c] := n + 1;
      if c < PAST && n == 0 {
        if c < lowc { lowc := c; }
        if c > higc { higc := c; }
      }
    }
    assert s[..hi - lo] == s;
    TallyCounts(s, b);
  }

  // ----- pass 2 -----

  /** A class that is present, and how many records it has. */
  datatype Part = Part(n: int, c: int)

  ghost predicate Entry(clist: seq<Part>, cnt: seq<int>, i: int, from: int)
    requires |cnt| == 257 && 0 <= i < |clist|
  {
    0 <= clist[i].c < from && clist[i].c < PAST && clist[i].n == cnt[clist[i].c] > 0
  }

  ghost predicate InOrder(clist: seq<Part>, i: int, j: int)
    requires 0 <= i < j < |clist|
  {
    clist[i].c < clist[j].c
  }

  ghost predicate Has(clist: seq<Part>, cnt: seq<int>, c: int)
    requires |cnt| == 257 && 0 <= c < PAST
  {
    cnt[c] > 0 ==> Part(cnt[c], c) in clist
  }

  /** `clist` is the ascending list of the byte classes that are present. */
  ghost predicate Listed(clist: seq<Part>, cnt: seq<int>, from: int)
    requires |cnt| == 257
  {
    && (forall i {:trigger Entry(clist, cnt, i, from)} :: 0 <= i < |clist| ==> Entry(clist, cnt, i, from))
    && (forall i, j {:trigger InOrder(clist, i, j)} :: 0 <= i < j < |clist| ==> InOrder(clist, i, j))
    && (forall c {:trigger Has(clist, cnt, c)} :: 0 <= c < from && c < PAST ==> Has(clist, cnt, c))
  }

  lemma {:induction false} ListMore(clist: seq<Part>, cnt: seq<int>, c: int)
    requires |cnt| == 257 && 0 <= c < PAST && Listed(clist, cnt, c) && cnt[c] >= 0
    ensures Listed(if cnt[c] == 0 then clist else clist + [Part(cnt[c], c)], cnt, c + 1)
  {
    var more, from := if cnt[c] == 0 then clist else clist + [Part(cnt[c], c)], c + 1;
    forall i | 0 <= i < |more| ensures Entry(more, cnt, i, from) {
      assert i < |clist| ==> Entry(clist, cnt, i, c);
    }
    forall i, j | 0 <= i < j < |more| ensures InOrder(more, i, j) {
      assert j < |clist| ==> InOrder(clist, i, j);
      assert i < |clist| ==> Entry(clist, cnt, i, c);
    }
    forall d | 0 <= d < from && d < PAST ensures Has(more, cnt, d) {
      if d < c {
        assert Has(clist, cnt, d);
      } else if cnt[d] > 0 {
        assert more[|more| - 1] == Part(cnt[d], d);
      }
    }
  }

  lemma {:induction false} ListEnd(clist: seq<Part>, cnt: seq<int>, c: int)
    requires |cnt| == 257 && 0 <= c <= PAST && Listed(clist, cnt, c) && forall d :: c <= d < PAST ==> cnt[d] == 0
    ensures Listed(clist, cnt, PAST)
  {
    forall i | 0 <= i < |clist| ensures Entry(clist, cnt, i, PAST) {
      assert Entry(clist, cnt, i, c);
    }
    forall d | 0 <= d < PAST ensures Has(clist, cnt, d) {
      assert d < c ==> Has(clist, cnt, d);
    }
  }

  /** `part` points to the first unfilled place of each class that is present. */
  ghost predicate PartOk(part: seq<int>, cnt: seq<int>, count: seq<int>, lo: int) {
    && |part| == |cnt| == |count| == 257
    && forall c {:trigger part[c]} :: 0 <= c <= PAST && cnt[c] > 0 ==> part[c] == lo + End(cnt, c) - count[c]
  }

  method LayoutPass(cnt: seq<int>, lo: nat, lowc: nat, higc: nat) returns (part: seq<int>, clist: seq<Part>)
    requires Natural(cnt) && lowc <= PAST && higc < PAST
    requires forall c :: 0 <= c < PAST && cnt[c] > 0 ==> lowc <= c <= higc
    ensures PartOk(part, cnt, cnt, lo) && Listed(clist, cnt, PAST)
  {
    clist := [];
    part := seq(257, _ => 0);
    var t := lo;
    part := part[PAST := t];
    t := t + cnt[PAST];
    SumZero(cnt, lowc);
    var c := lowc;
    while c <= higc
      invariant lowc <= c && (c <= higc + 1 || c == lowc)
      invariant |part| == 257 && part[PAST] == lo
      invariant c <= PAST && t == lo + cnt[PAST] + SumTo(cnt, c)
      invariant forall d {:trigger part[d]} :: 0 <= d < c && cnt[d] > 0 ==> part[d] == lo + Start(cnt, d)
      invariant Listed(clist, cnt, c)
      decreases higc + 1 - c
    {
      var n := cnt[c];
      ListMore(clist, cnt, c);
      if n != 0 {
        clist := clist + [Part(n, c)];
        part := part[c := t];
        t := t + n;
      }
      c := c + 1;
    }
    ListEnd(clist, cnt, c);
  }

  // ----- pass 3 -----

  /** The place `p` of class `c`, if already filled, holds a record of class `c`. */
  ghost predicate FilledAt(v: seq<Rec>, b: nat, cnt: seq<int>, count: seq<int>, c: int, p: int)
    requires |cnt| == |count| == 257 && 0 <= c <= PAST && 0 <= p < |v|
  {
    Start(cnt, c) <= p < End(cnt, c) - count[c] ==> Class(v[p], b) == c
  }

  /** The array part way through the chase: class `c` still has `count[c]` places to fill. */
  ghost predicate Chasing(v: seq<Rec>, b: nat, cnt: seq<int>, count: seq<int>) {
    && Natural(cnt) && Counts(v, b, cnt) && |count| == 257
    && (forall c :: 0 <= c <= PAST ==> 0 <= count[c] <= cnt[c])
    && (forall c, p {:trigger FilledAt(v, b, cnt, count, c, p)} :: 0 <= c <= PAST && 0 <= p < |v| ==> FilledAt(v, b, cnt, count, c, p))
  }

  lemma {:induction false} PlacesInside(v: seq<Rec>, b: nat, cnt: seq<int>, c: int)
    requires Natural(cnt) && Counts(v, b, cnt) && 0 <= c <= PAST
    ensures 0 <= Start(cnt, c) <= End(cnt, c) <= |v|
  {
    SumOfCounts(v, b, cnt);
    if c < PAST {
      SumMonotone(cnt, 0, c);
      SumMonotone(cnt, c + 1, PAST);
    } else {
      SumMonotone(cnt, 0, PAST);
    }
  }

  /** When a class has no place left to fill, all its records are in its places. */
  lemma {:induction false} FullClass(v: seq<Rec>, b: nat, cnt: seq<int>, count: seq<int>, n: int, p: int)
    requires Chasing(v, b, cnt, count) && 0 <= n <= PAST && count[n] == 0
    requires 0 <= p < |v| && (p < Start(cnt, n) || End(cnt, n) <= p)
    ensures Class(v[p], b) != n
  {
    PlacesInside(v, b, cnt, n);
    forall i | Start(cnt, n) <= i < End(cnt, n) ensures Class(v[i], b) == n {
      assert FilledAt(v, b, cnt, count, n, i);
    }
    assert cnt[n] == CountOf(v, b, n);
    AllInside(v, b, n, Start(cnt, n), End(cnt, n), p);
  }

  /** The record in the hole of class `c` always has a place to go. */
  lemma {:induction false} RoomLeft(v: seq<Rec>, b: nat, cnt: seq<int>, count: seq<int>, c: int)
    requires Chasing(v, b, cnt, count) && 0 <= c <= PAST && count[c] > 0
    ensures 0 <= End(cnt, c) - count[c] < |v|
    ensures var n := Class(v[End(cnt, c) - count[c]], b); count[n] > 0 && 0 <= End(cnt, n) - count[n] < |v|
  {
    PlacesInside(v, b, cnt, c);
    var h := End(cnt, c) - count[c];
    var n := Class(v[h], b);
    PlacesInside(v, b, cnt, n);
    if n != c {
      PlacesDisjoint(cnt, c, n);
      if count[n] == 0 {
        FullClass(v, b, cnt, count, n, h);
      }
    }
  }

  /** Put the record in the hole of class `c` where it belongs, and take what was there into the hole. */
  lemma {:induction false} ChaseStep(v: seq<Rec>, b: nat, cnt: seq<int>, count: seq<int>, c: int)
    requires Chasing(v, b, cnt, count) && 0 <= c <= PAST && count[c] > 0
    ensures 0 <= End(cnt, c) - count[c] < |v|
    ensures var h := End(cnt, c) - count[c]; var n := Class(v[h], b);
      0 <= End(cnt, n) - count[n] < |v| && count[n] > 0 && (n != c ==> h != End(cnt, n) - count[n]) &&
      var u := End(cnt, n) - count[n]; var w := v[h := v[u]][u := v[h]];
      Chasing(w, b, cnt, count[n := count[n] - 1]) && multiset(w) == multiset(v)
  {
    RoomLeft(v, b, cnt, count, c);
    var h := End(cnt, c) - count[c];
    var n := Class(v[h], b);
    var u := End(cnt, n) - count[n];
    var w, left := v[h := v[u]][u := v[h]], count[n := count[n] - 1];
    CountPermuted(v, w, b, h, u);
    if n != c { PlacesDisjoint(cnt, c, n); }
    CountsKept(v, w, b, cnt);
    forall d, p | 0 <= d <= PAST && 0 <= p < |w| ensures FilledAt(w, b, cnt, left, d, p) {
      assert FilledAt(v, b, cnt, count, d, p);
      StillFilled(v, w, b, cnt, count, c, d, p);
    }
  }

  lemma CountsKept(v: seq<Rec>, w: seq<Rec>, b: nat, cnt: seq<int>)
    requires Counts(v, b, cnt) && forall c :: CountOf(w, b, c) == CountOf(v, b, c)
    ensures Counts(w, b, cnt)
  {
    forall d | 0 <= d <= PAST ensures cnt[d] == CountOf(w, b, d) {
      assert cnt[d] == CountOf(v, b, d);
    }
  }

  lemma {:induction false} StillFilled(v: seq<Rec>, w: seq<Rec>, b: nat, cnt: seq<int>, count: seq<int>, c: int, d: int, p: int)
    requires Natural(cnt) && |count| == 257 && 0 <= c <= PAST && 0 <= d <= PAST && 0 <= p < |v| && 0 <= count[d]
    requires 0 <= End(cnt, c) - count[c] < |v| && 0 < count[c] <= cnt[c]
    requires var n := Class(v[End(cnt, c) - count[c]], b); 0 <= End(cnt, n) - count[n] < |v| && 0 < count[n] <= cnt[n]
    requires var h := End(cnt, c) - count[c]; var n := Class(v[h], b); w == v[h := v[End(cnt, n) - count[n]]][End(cnt, n) - count[n] := v[h]]
    requires FilledAt(v, b, cnt, count, d, p)
    ensures var n := Class(v[End(cnt, c) - count[c]], b); FilledAt(w, b, cnt, count[n := count[n] - 1], d, p)
  {
    var n := Class(v[End(cnt, c) - count[c]], b);
    if d != c { PlacesDisjoint(cnt, c, d); }
    if d != n { PlacesDisjoint(cnt, n, d); }
  }

  /** The array with the record in hand put into the hole is `v`. */
  ghost predicate InHand(s: seq<Rec>, lo: nat, hi: nat, v: seq<Rec>, h: int, t1: Rec) {
    lo <= hi <= |s| && |v| == hi - lo && 0 <= h < |v| && v[h] == t1 && s[lo..hi][h := t1] == v
  }

  lemma {:induction false} PartMoves(part: seq<int>, cnt: seq<int>, count: seq<int>, lo: int, n: int)
    requires PartOk(part, cnt, count, lo) && 0 <= n <= PAST && cnt[n] > 0
    ensures PartOk(part[n := part[n] + 1], cnt, count[n := count[n] - 1], lo)
  {
    var p1, c1 := part[n := part[n] + 1], count[n := count[n] - 1];
    forall c | 0 <= c <= PAST && cnt[c] > 0 ensures p1[c] == lo + End(cnt, c) - c1[c] {
      assert part[c] == lo + End(cnt, c) - count[c];
    }
  }

  /** Store the record in hand at the next place of its class and pick up what was there. */
  method Place(a: array<Rec>, lo: nat, hi: nat, b: nat, count: array<int>, part0: seq<int>, t1: Rec, ghost c: int, ghost cnt: seq<int>, ghost v: seq<Rec>)
    returns (part: seq<int>, n: int, u1: Rec, ghost w: seq<Rec>)
    requires count.Length == 257 && 0 <= c < PAST && count[c] > 0
    requires Chasing(v, b, cnt, count[..]) && PartOk(part0, cnt, count[..], lo)
    requires InHand(a[..], lo, hi, v, End(cnt, c) - count[c], t1)
    modifies a, count
    ensures n == Class(t1, b) && 0 <= n <= PAST && old(count[n]) > 0 && count[..] == old(count[..])[n := old(count[n]) - 1]
    ensures Chasing(w, b, cnt, count[..]) && PartOk(part, cnt, count[..], lo)
    ensures multiset(w) == multiset(v) && SameOutside(old(a[..]), a[..], lo, hi)
    ensures if n == c then a[..][lo..hi] == w else InHand(a[..], lo, hi, w, End(cnt, c) - count[c], u1)
  {
    ghost var s, cs := a[..], count[..];
    w := PlaceOk(s, lo, hi, b, cs, part0, t1, c, cnt, v);
    n := Class(t1, b);
    var u := part0[n];
    part := part0[n := u + 1];
    count[n] := count[n] - 1;
    u1 := a[u];
    a[u] := t1;
    assert count[..] == cs[n := cs[n] - 1] && a[..] == s[u := t1];
  }

  lemma {:induction false} PlaceOk(s: seq<Rec>, lo: nat, hi: nat, b: nat, cs: seq<int>, part: seq<int>, t1: Rec, c: int, cnt: seq<int>, v: seq<Rec>)
    returns (w: seq<Rec>)
    requires |cs| == 257 && 0 <= c < PAST && cs[c] > 0 && Chasing(v, b, cnt, cs) && PartOk(part, cnt, cs, lo)
    requires InHand(s, lo, hi, v, End(cnt, c) - cs[c], t1)
    ensures var n := Class(t1, b); lo <= part[n] < hi && cs[n] > 0
    ensures var n := Class(t1, b); Chasing(w, b, cnt, cs[n := cs[n] - 1]) && PartOk(part[n := part[n] + 1], cnt, cs[n := cs[n] - 1], lo)
    ensures multiset(w) == multiset(v) && SameOutside(s, s[part[Class(t1, b)] := t1], lo, hi)
    ensures Stored(s, s[part[Class(t1, b)] := t1], lo, hi, b, cs, part, t1, c, cnt, w)
  {
    var h, n := End(cnt, c) - cs[c], Class(t1, b);
    ChaseStep(v, b, cnt, cs, c);
    var k := End(cnt, n) - cs[n];
    w := v[h := v[k]][k := v[h]];
    assert cnt[n] > 0 && part[n] == lo + k;
    PartMoves(part, cnt, cs, lo, n);
    StoreInSlice(s, s[lo + k := t1], lo, hi, h, k, t1, v);
  }

  /** The array is whole again, or the record that was at the place is in hand. */
  ghost predicate Stored(s: seq<Rec>, t: seq<Rec>, lo: nat, hi: nat, b: nat, cs: seq<int>, part: seq<int>, t1: Rec, c: int, cnt: seq<int>, w: seq<Rec>)
    requires |cs| == |part| == |cnt| == 257 && 0 <= c < PAST && lo <= part[Class(t1, b)] < hi <= |s| && |t| == |s|
  {
    var n := Class(t1, b);
    if n == c then t[lo..hi] == w else InHand(t, lo, hi, w, End(cnt, c) - cs[c], s[part[n]])
  }

  /** Follow one cycle: from the hole of class `c` until a record of class `c` turns up. */
  method ChaseCycle(a: array<Rec>, lo: nat, hi: nat, b: nat, count: array<int>, part0: seq<int>, c: int, ghost cnt: seq<int>) returns (part: seq<int>)
    requires lo <= hi <= a.Length && count.Length == 257 && 0 <= c < PAST && count[c] > 0
    requires Chasing(a[..][lo..hi], b, cnt, count[..]) && PartOk(part0, cnt, count[..], lo)
    modifies a, count
    ensures Chasing(a[..][lo..hi], b, cnt, count[..]) && PartOk(part, cnt, count[..], lo)
    ensures count[c] == old(count[c]) - 1 && forall d :: 0 <= d <= PAST ==> count[d] <= old(count[d])
    ensures multiset(a[..][lo..hi]) == multiset(old(a[..])[lo..hi]) && SameOutside(old(a[..]), a[..], lo, hi)
  {
    part := part0;
    ghost var v := a[..][lo..hi];
    RoomLeft(v, b, cnt, count[..], c);
    assert part[c] == lo + End(cnt, c) - count[c];
    var t1 := a[part[c]];
    while true
      invariant Chasing(v, b, cnt, count[..]) && PartOk(part, cnt, count[..], lo)
      invariant count[c] == old(count[c]) && forall d :: 0 <= d <= PAST ==> count[d] <= old(count[d])
      invariant InHand(a[..], lo, hi, v, End(cnt, c) - count[c], t1)
      invariant multiset(v) == multiset(old(a[..])[lo..hi]) && SameOutside(old(a[..]), a[..], lo, hi)
      decreases SumTo(count[..], 257)
    {
      ghost var s, cs := a[..], count[..];
      SumDrops(v, b, cnt, cs, Class(t1, b));
      var n: int;
      var u1: Rec;
      part, n, u1, v := Place(a, lo, hi, b, count, part, t1, c, cnt, v);
      OutsideTrans(old(a[..]), s, a[..], lo, hi);
      if n == c {
        break;
      }
      t1 := u1;
    }
  }

  lemma {:induction false} SumDrops(v: seq<Rec>, b: nat, cnt: seq<int>, count: seq<int>, n: int)
    requires Chasing(v, b, cnt, count) && 0 <= n <= PAST
    ensures 0 <= SumTo(count, 257) && SumTo(count[n := count[n] - 1], 257) < SumTo(count, 257)
  {
    SumMonotone(count, 0, 257);
    SumUpdate(count, 257, n, count[n] - 1);
  }

  lemma {:induction false} StoreInSlice(s: seq<Rec>, t: seq<Rec>, lo: nat, hi: nat, h: nat, k: nat, t1: Rec, v: seq<Rec>)
    requires lo <= hi <= |s| && h < hi - lo && k < hi - lo && t == s[lo + k := t1]
    requires s[lo..hi][h := t1] == v && v[h] == t1
    ensures SameOutside(s, t, lo, hi)
    ensures k == h ==> t[lo..hi] == v
    ensures k != h ==> s[lo + k] == v[k] && t[lo..hi][h := v[k]] == v[h := v[k]][k := v[h]]
  {
    assert v[k] == if k == h then t1 else s[lo + k];
  }

  /** Every place of class `c` holds a record of class `c`. */
  ghost predicate InClass(v: seq<Rec>, b: nat, cnt: seq<int>, c: int, p: int)
    requires |cnt| == 257 && 0 <= c <= PAST && 0 <= p < |v|
  {
    Start(cnt, c) <= p < End(cnt, c) ==> Class(v[p], b) == c
  }

  ghost predicate Partitioned(v: seq<Rec>, b: nat, cnt: seq<int>) {
    && Natural(cnt) && Counts(v, b, cnt)
    && forall c, p {:trigger InClass(v, b, cnt, c, p)} :: 0 <= c <= PAST && 0 <= p < |v| ==> InClass(v, b, cnt, c, p)
  }

  /** When no byte class has a place left to fill, the short keys are in their places too. */
  lemma {:induction false} ChaseDone(v: seq<Rec>, b: nat, cnt: seq<int>, count: seq<int>)
    requires Chasing(v, b, cnt, count) && forall c :: 0 <= c < PAST ==> count[c] == 0
    ensures Partitioned(v, b, cnt)
  {
    forall c, p | 0 <= c <= PAST && 0 <= p < |v| ensures InClass(v, b, cnt, c, p) {
      if c < PAST {
        assert FilledAt(v, b, cnt, count, c, p);
      } else {
        var n := Class(v[p], b);
        if n < PAST && Start(cnt, c) <= p < End(cnt, c) {
          PlacesDisjoint(cnt, c, n);
          FullClass(v, b, cnt, count, n, p);
        }
      }
    }
  }

  /** Pass 3: chase every cycle.  Afterwards each record is among those of its class. */
  method ChasePass(a: array<Rec>, lo: nat, hi: nat, b: nat, count: array<int>, part0: seq<int>, clist: seq<Part>, ghost cnt: seq<int>)
    requires lo <= hi <= a.Length && count.Length == 257 && count[..] == cnt
    requires Chasing(a[..][lo..hi], b, cnt, cnt) && PartOk(part0, cnt, cnt, lo) && Listed(clist, cnt, PAST)
    modifies a, count
    ensures Partitioned(a[..][lo..hi], b, cnt)
    ensures forall c :: 0 <= c < PAST ==> count[c] == 0
    ensures multiset(a[..][lo..hi]) == multiset(old(a[..])[lo..hi]) && SameOutside(old(a[..]), a[..], lo, hi)
  {
    var part := part0;
    for i := 0 to |clist|
      invariant Chasing(a[..][lo..hi], b, cnt, count[..]) && PartOk(part, cnt, count[..], lo)
      invariant forall k :: 0 <= k < i ==> 0 <= clist[k].c < PAST && count[clist[k].c] == 0
      invariant multiset(a[..][lo..hi]) == multiset(old(a[..])[lo..hi]) && SameOutside(old(a[..]), a[..], lo, hi)
    {
      assert Entry(clist, cnt, i, PAST);
      ghost var s := a[..];
      part := EmptyClass(a, lo, hi, b, count, part, clist[i].c, cnt);
      OutsideTrans(old(a[..]), s, a[..], lo, hi);
    }
    forall c | 0 <= c < PAST ensures count[c] == 0 {
      if cnt[c] > 0 {
        assert Has(clist, cnt, c);
        var k :| 0 <= k < |clist| && clist[k] == Part(cnt[c], c);
      }
    }
    ChaseDone(a[..][lo..hi], b, cnt, count[..]);
  }

  method EmptyClass(a: array<Rec>, lo: nat, hi: nat, b: nat, count: array<int>, part0: seq<int>, c: int, ghost cnt: seq<int>) returns (part: seq<int>)
    requires lo <= hi <= a.Length && count.Length == 257 && 0 <= c < PAST
    requires Chasing(a[..][lo..hi], b, cnt, count[..]) && PartOk(part0, cnt, count[..], lo)
    modifies a, count
    ensures Chasing(a[..][lo..hi], b, cnt, count[..]) && PartOk(part, cnt, count[..], lo)
    ensures count[c] == 0 && forall d :: 0 <= d <= PAST ==> count[d] <= old(count[d])
    ensures multiset(a[..][lo..hi]) == multiset(old(a[..])[lo..hi]) && SameOutside(old(a[..]), a[..], lo, hi)
  {
    part := part0;
    while count[c] != 0
      invariant Chasing(a[..][lo..hi], b, cnt, count[..]) && PartOk(part, cnt, count[..], lo)
      invariant 0 <= count[c] && forall d :: 0 <= d <= PAST ==> count[d] <= old(count[d])
      invariant multiset(a[..][lo..hi]) == multiset(old(a[..])[lo..hi]) && SameOutside(old(a[..]), a[..], lo, hi)
      decreases count[c]
    {
      ghost var s := a[..];
      part := ChaseCycle(a, lo, hi, b, count, part, c, cnt);
      OutsideTrans(old(a[..]), s, a[..], lo, hi);
    }
  }

  // ----- pass 4 -----

  /** Each record lies among the places of its own class. */
  lemma {:induction false} InOwnPlace(v: seq<Rec>, b: nat, cnt: seq<int>, p: int)
    requires Partitioned(v, b, cnt) && 0 <= p < |v|
    ensures Start(cnt, Class(v[p], b)) <= p < End(cnt, Class(v[p], b))
  {
    var n := Class(v[p], b);
    PlacesInside(v, b, cnt, n);
    if !(Start(cnt, n) <= p < End(cnt, n)) {
      forall i | Start(cnt, n) <= i < End(cnt, n) ensures Class(v[i], b) == n {
        assert InClass(v, b, cnt, n, i);
      }
      assert cnt[n] == CountOf(v, b, n);
      AllInside(v, b, n, Start(cnt, n), End(cnt, n), p);
    }
  }

  /** A class whose places come earlier is smaller. */
  lemma {:induction false} EarlierIsSmaller(cnt: seq<int>, c: int, d: int, i: int, j: int)
    requires Natural(cnt) && 0 <= c <= PAST && 0 <= d <= PAST && c != d && i < j
    requires Start(cnt, c) <= i < End(cnt, c) && Start(cnt, d) <= j < End(cnt, d)
    ensures c == PAST || c < d < PAST
  {
    if c < PAST {
      SumMonotone(cnt, 0, c);
      if d < c {
        SumMonotone(cnt, d + 1, c);
      }
    }
  }

  /** Records of different classes are in order when their classes are. */
  lemma {:induction false} ClassOrder(x: seq<Byte>, y: seq<Byte>, b: nat)
    requires AgreeKeys(x, y, b)
    requires |x| == b || (b < |x| && b < |y| && x[b] < y[b])
    ensures LexLe(x, y)
  {
    KcmpDrop(x, y, b);
  }

  /** The places of class `c` are sorted among themselves. */
  ghost predicate ClassSorted(v: seq<Rec>, cnt: seq<int>, c: int)
    requires |cnt| == 257 && 0 <= c <= PAST
  {
    0 <= Start(cnt, c) <= End(cnt, c) <= |v| && LexSorted(v[Start(cnt, c)..End(cnt, c)])
  }

  lemma {:induction false} SortedByClasses(v: seq<Rec>, b: nat, cnt: seq<int>)
    requires Partitioned(v, b, cnt) && CommonPrefix(v, b)
    requires forall c {:trigger ClassSorted(v, cnt, c)} :: 0 <= c < PAST && cnt[c] > 0 ==> ClassSorted(v, cnt, c)
    ensures LexSorted(v)
  {
    forall i, j | 0 <= i < j < |v| ensures LexAt(v, i, j) {
      var c, d := Class(v[i], b), Class(v[j], b);
      InOwnPlace(v, b, cnt, i);
      InOwnPlace(v, b, cnt, j);
      assert Agree(v, i, j, b);
      if c != d {
        EarlierIsSmaller(cnt, c, d, i, j);
        ClassOrder(v[i].key, v[j].key, b);
      } else if c == PAST {
        ClassOrder(v[i].key, v[j].key, b);
      } else {
        assert ClassSorted(v, cnt, c);
        var s := v[Start(cnt, c)..End(cnt, c)];
        assert LexAt(s, i - Start(cnt, c), j - Start(cnt, c));
      }
    }
  }

  lemma OneMore(x: seq<Byte>, y: seq<Byte>, b: nat)
    requires b < |x| && b < |y| && x[..b] == y[..b] && x[b] == y[b]
    ensures x[..b + 1] == y[..b + 1]
  {
    assert x[..b + 1] == x[..b] + [x[b]];
    assert y[..b + 1] == y[..b] + [y[b]];
  }

  /** The records of one byte class agree on one byte more. */
  lemma {:induction false} PieceOfClass(v: seq<Rec>, b: nat, cnt: seq<int>, c: int)
    requires Partitioned(v, b, cnt) && CommonPrefix(v, b) && PrefixFree(v) && 0 <= c < PAST
    ensures 0 <= Start(cnt, c) <= End(cnt, c) <= |v|
    ensures CommonPrefix(v[Start(cnt, c)..End(cnt, c)], b + 1) && PrefixFree(v[Start(cnt, c)..End(cnt, c)])
    ensures forall i :: Start(cnt, c) <= i < End(cnt, c) ==> |v[i].key| > b
  {
    PlacesInside(v, b, cnt, c);
    var l, h := Start(cnt, c), End(cnt, c);
    var s := v[l..h];
    forall i | l <= i < h ensures |v[i].key| > b && v[i].key[b] == c {
      assert InClass(v, b, cnt, c, i);
    }
    var b1 := b + 1;
    forall i, j | 0 <= i < |s| && 0 <= j < |s| ensures Agree(s, i, j, b1) {
      assert Agree(v, l + i, l + j, b);
      OneMore(s[i].key, s[j].key, b);
    }
    forall i, j | 0 <= i < |s| && 0 <= j < |s| ensures Apart(s, i, j) {
      assert Apart(v, l + i, l + j);
    }
  }

  /** Sorting one class leaves every place with a record of the same class, ... */
  lemma {:induction false} SortClassAt(v: seq<Rec>, w: seq<Rec>, b: nat, cnt: seq<int>, c: int, p: int)
    requires Partitioned(v, b, cnt) && 0 <= c <= PAST && 0 <= p < |v|
    requires 0 <= Start(cnt, c) <= End(cnt, c) <= |v|
    requires SameOutside(v, w, Start(cnt, c), End(cnt, c))
    requires multiset(w[Start(cnt, c)..End(cnt, c)]) == multiset(v[Start(cnt, c)..End(cnt, c)])
    ensures Class(w[p], b) == Class(v[p], b)
  {
    var l, h := Start(cnt, c), End(cnt, c);
    if p < l || h <= p {
      assert SameAt(v, w, p);
    } else {
      assert w[p] == w[l..h][p - l] && w[p] in multiset(w[l..h]);
      assert w[p] in v[l..h];
      var q :| 0 <= q < h - l && v[l..h][q] == w[p];
      assert InClass(v, b, cnt, c, l + q) && InClass(v, b, cnt, c, p);
    }
  }

  /** ... so the partition stands, ... */
  lemma {:induction false} SortClassKeeps(v: seq<Rec>, w: seq<Rec>, b: nat, cnt: seq<int>, c: int)
    requires Partitioned(v, b, cnt) && 0 <= c <= PAST
    requires 0 <= Start(cnt, c) <= End(cnt, c) <= |v|
    requires SameOutside(v, w, Start(cnt, c), End(cnt, c))
    requires multiset(w[Start(cnt, c)..End(cnt, c)]) == multiset(v[Start(cnt, c)..End(cnt, c)])
    ensures Partitioned(w, b, cnt)
  {
    forall p | 0 <= p < |w| ensures Class(w[p], b) == Class(v[p], b) {
      SortClassAt(v, w, b, cnt, c, p);
    }
    forall d, p | 0 <= d <= PAST && 0 <= p < |w| ensures InClass(w, b, cnt, d, p) {
      assert InClass(v, b, cnt, d, p);
    }
    assert Classes(w, b) == Classes(v, b);
    forall d | 0 <= d <= PAST ensures cnt[d] == CountOf(w, b, d) {
      assert cnt[d] == CountOf(v, b, d);
    }
  }

  /** ... and the classes sorted before stay sorted. */
  lemma {:induction false} SortClassOthers(v: seq<Rec>, w: seq<Rec>, cnt: seq<int>, c: int, d: int)
    requires Natural(cnt) && 0 <= c <= PAST && 0 <= d <= PAST && d != c && ClassSorted(v, cnt, d)
    requires SameOutside(v, w, Start(cnt, c), End(cnt, c))
    ensures ClassSorted(w, cnt, d)
  {
    PlacesDisjoint(cnt, c, d);
    SameStretch(v, w, Start(cnt, c), End(cnt, c), Start(cnt, d), End(cnt, d));
  }

  lemma {:induction false} SumGap(cnt: seq<int>, m: nat, n: nat)
    requires m <= n <= |cnt| && forall k :: m <= k < n ==> cnt[k] == 0
    ensures SumTo(cnt, n) == SumTo(cnt, m)
    decreases n
  {
    if m < n {
      SumGap(cnt, m, n - 1);
    }
  }

  /** The classes before entry `i` of the list end where the class of entry `i` starts. */
  ghost function NextClass(clist: seq<Part>, i: nat): int
    requires i <= |clist|
  {
    if i == 0 then 0 else clist[i - 1].c + 1
  }

  lemma {:induction false} NotBetween(clist: seq<Part>, cnt: seq<int>, i: nat, p: Part)
    requires |cnt| == 257 && Listed(clist, cnt, PAST) && i < |clist| && NextClass(clist, i) <= p.c < clist[i].c
    ensures p !in clist
  {
    forall k | 0 <= k < |clist| ensures clist[k] != p {
      if k < i - 1 {
        assert InOrder(clist, k, i - 1);
      } else if i < k {
        assert InOrder(clist, i, k);
      }
    }
  }

  lemma {:induction false} ReachClass(clist: seq<Part>, cnt: seq<int>, i: nat)
    requires Natural(cnt) && Listed(clist, cnt, PAST) && i < |clist|
    ensures 0 <= NextClass(clist, i) <= clist[i].c < PAST && clist[i].n == cnt[clist[i].c] > 0
    ensures SumTo(cnt, clist[i].c) == SumTo(cnt, NextClass(clist, i))
  {
    assert Entry(clist, cnt, i, PAST);
    var m := NextClass(clist, i);
    if i > 0 {
      assert Entry(clist, cnt, i - 1, PAST) && InOrder(clist, i - 1, i);
    }
    forall d | m <= d < clist[i].c ensures cnt[d] == 0 {
      assert Has(clist, cnt, d);
      NotBetween(clist, cnt, i, Part(cnt[d], d));
    }
    SumGap(cnt, m, clist[i].c);
  }

  /** Keys no longer than `bound`. */
  ghost predicate Bounded(v: seq<Rec>, bound: nat) { forall i :: 0 <= i < |v| ==> |v[i].key| <= bound }

  lemma BoundedPermuted(v: seq<Rec>, w: seq<Rec>, bound: nat)
    requires multiset(v) == multiset(w) && Bounded(v, bound)
    ensures Bounded(w, bound)
  {
    SameElements(v, w);
    forall i | 0 <= i < |w| ensures |w[i].key| <= bound {
      assert w[i] in v;
    }
  }

  ghost predicate Cleared(count: seq<int>) { |count| == 257 && forall c :: 0 <= c < 257 ==> count[c] == 0 }

  /** What is known of a piece of the array when it is handed to `rsort4` at byte `b`. */
  ghost predicate Piece(v: seq<Rec>, b: nat, bound: nat) {
    CommonPrefix(v, b) && PrefixFree(v) && Bounded(v, bound) && b <= bound
  }

  lemma PiecePermuted(v: seq<Rec>, w: seq<Rec>, b: nat, bound: nat)
    requires multiset(v) == multiset(w) && Piece(v, b, bound)
    ensures Piece(w, b, bound)
  {
    PermutedFacts(v, w, b);
    BoundedPermuted(v, w, bound);
  }

  /** The records of one class, as a piece for the next byte. */
  lemma {:induction false} ClassPiece(v: seq<Rec>, b: nat, bound: nat, cnt: seq<int>, c: int)
    requires Partitioned(v, b, cnt) && Piece(v, b, bound) && 0 <= c < PAST && cnt[c] > 0
    ensures 0 <= Start(cnt, c) < End(cnt, c) <= |v| && b < bound
    ensures Piece(v[Start(cnt, c)..End(cnt, c)], b + 1, bound)
  {
    PieceOfClass(v, b, cnt, c);
    assert |v[Start(cnt, c)].key| > b;
  }

  /** From `s` to `t` the places `lo` up to `hi` were sorted, and nothing else was touched. */
  ghost predicate SortedPart(s: seq<Rec>, t: seq<Rec>, lo: int, hi: int) {
    && 0 <= lo <= hi <= |s| && SameOutside(s, t, lo, hi)
    && multiset(t[lo..hi]) == multiset(s[lo..hi]) && LexSorted(t[lo..hi])
  }

  lemma SliceOfSlice(s: seq<Rec>, lo: nat, hi: nat, l: nat, h: nat)
    requires lo <= hi <= |s| && l <= h <= hi - lo
    ensures s[lo..hi][l..h] == s[lo + l..lo + h]
  {
    var x, y := s[lo..hi][l..h], s[lo + l..lo + h];
    assert forall i :: 0 <= i < |x| ==> x[i] == y[i];
  }

  lemma SingleSorted(s: seq<Rec>, l: nat)
    requires l < |s|
    ensures SortedPart(s, s, l, l + 1)
  {
  }

  /** From `v` to `w` the places of class `c` were sorted, and the partition stands. */
  ghost predicate ClassStep(v: seq<Rec>, w: seq<Rec>, b: nat, cnt: seq<int>, c: int) {
    && Partitioned(w, b, cnt) && 0 <= c < PAST && ClassSorted(w, cnt, c)
    && multiset(w) == multiset(v) && SameOutside(v, w, Start(cnt, c), End(cnt, c))
  }

  lemma {:induction false} SameInside(s: seq<Rec>, t: seq<Rec>, lo: nat, hi: nat, l: nat, h: nat)
    requires lo <= hi <= |s| && SameOutside(s, t, lo + l, lo + h)
    ensures SameOutside(s[lo..hi], t[lo..hi], l, h)
  {
    forall k | 0 <= k < hi - lo && (k < l || h <= k) ensures SameAt(s[lo..hi], t[lo..hi], k) {
      assert SameAt(s, t, lo + k);
    }
  }

  /** Sorting the part of the array that a class occupies, from the point of view of the piece. */
  lemma {:induction false} SortedClass(s: seq<Rec>, t: seq<Rec>, lo: nat, hi: nat, b: nat, cnt: seq<int>, c: int)
    requires lo <= hi <= |s| && Partitioned(s[lo..hi], b, cnt) && 0 <= c < PAST
    requires 0 <= Start(cnt, c) <= End(cnt, c) <= hi - lo
    requires SortedPart(s, t, lo + Start(cnt, c), lo + End(cnt, c))
    ensures ClassStep(s[lo..hi], t[lo..hi], b, cnt, c) && SameOutside(s, t, lo, hi)
  {
    var l, h := Start(cnt, c), End(cnt, c);
    Inside(s, t, lo, hi, lo + l, lo + h);
    SliceOfSlice(s, lo, hi, l, h);
    SliceOfSlice(t, lo, hi, l, h);
    SameInside(s, t, lo, hi, l, h);
    SortClassKeeps(s[lo..hi], t[lo..hi], b, cnt, c);
  }

  /** One class handed on: to `rsort4` when it is large, to `bsort4` when it has more than one record. */
  method SortPart(a: array<Rec>, b: nat, count: array<int>, n: nat, t: nat, ghost bound: nat)
    requires t + n <= a.Length && Cleared(count[..]) && n > 0
    requires Piece(a[..][t..t + n], b, bound)
    modifies a, count
    ensures Cleared(count[..]) && SortedPart(old(a[..]), a[..], t, t + n)
    decreases bound - b, 3
  {
    if n > THRESHOLD {
      Rsort4(a, t, t + n, b, count, bound);
    } else if n > 1 {
      Bsort4(a, t, t + n, b);
    } else {
      SingleSorted(a[..], t);
    }
  }

  ghost predicate EntrySortedAt(v: seq<Rec>, cnt: seq<int>, clist: seq<Part>, k: int)
    requires |cnt| == 257 && 0 <= k < |clist|
  {
    0 <= clist[k].c < PAST && ClassSorted(v, cnt, clist[k].c)
  }

  /** The invariant of pass 4: the classes before entry `i` of the list are sorted. */
  ghost predicate Sorting(s: seq<Rec>, v: seq<Rec>, b: nat, bound: nat, cnt: seq<int>, clist: seq<Part>, i: nat) {
    && Partitioned(v, b, cnt) && Piece(v, b, bound) && Listed(clist, cnt, PAST) && i <= |clist|
    && multiset(v) == multiset(s)
    && forall k {:trigger EntrySortedAt(v, cnt, clist, k)} :: 0 <= k < i ==> EntrySortedAt(v, cnt, clist, k)
  }

  lemma {:induction false} SortingStep(s: seq<Rec>, v: seq<Rec>, w: seq<Rec>, b: nat, bound: nat, cnt: seq<int>, clist: seq<Part>, i: nat)
    requires Sorting(s, v, b, bound, cnt, clist, i) && i < |clist|
    requires ClassStep(v, w, b, cnt, clist[i].c)
    ensures Sorting(s, w, b, bound, cnt, clist, i + 1)
  {
    PiecePermuted(v, w, b, bound);
    forall k | 0 <= k < i ensures EntrySortedAt(w, cnt, clist, k) {
      assert EntrySortedAt(v, cnt, clist, k) && InOrder(clist, k, i);
      SortClassOthers(v, w, cnt, clist[i].c, clist[k].c);
    }
  }

  /** Where entry `i` of the list starts in the array. */
  ghost function EntryStart(lo: nat, cnt: seq<int>, clist: seq<Part>, i: nat): int
    requires i <= |clist| && |cnt| == 257 && 0 <= NextClass(clist, i) <= PAST
  {
    lo + cnt[PAST] + SumTo(cnt, NextClass(clist, i))
  }

  lemma {:induction false} EntryReady(s: seq<Rec>, lo: nat, hi: nat, b: nat, bound: nat, cnt: seq<int>, clist: seq<Part>, i: nat)
    requires lo <= hi <= |s| && Partitioned(s[lo..hi], b, cnt) && Piece(s[lo..hi], b, bound) && Listed(clist, cnt, PAST) && i < |clist|
    ensures 0 <= NextClass(clist, i) <= PAST && 0 <= NextClass(clist, i + 1) <= PAST && b < bound
    ensures var t, n := EntryStart(lo, cnt, clist, i), clist[i].n;
      lo <= t <= t + n <= hi && n > 0 && Piece(s[t..t + n], b + 1, bound) && t + n == EntryStart(lo, cnt, clist, i + 1)
  {
    var c := clist[i].c;
    ReachClass(clist, cnt, i);
    ClassPiece(s[lo..hi], b, bound, cnt, c);
    SliceOfSlice(s, lo, hi, Start(cnt, c), End(cnt, c));
  }

  lemma {:induction false} EntrySorted(s0: seq<Rec>, s: seq<Rec>, t: seq<Rec>, lo: nat, hi: nat, b: nat, bound: nat, cnt: seq<int>, clist: seq<Part>, i: nat)
    requires lo <= hi <= |s| == |s0| && Sorting(s0[lo..hi], s[lo..hi], b, bound, cnt, clist, i) && i < |clist|
    requires 0 <= NextClass(clist, i) <= PAST && SameOutside(s0, s, lo, hi)
    requires var l := EntryStart(lo, cnt, clist, i); SortedPart(s, t, l, l + clist[i].n)
    ensures |t| == |s| && Sorting(s0[lo..hi], t[lo..hi], b, bound, cnt, clist, i + 1) && SameOutside(s0, t, lo, hi)
  {
    var c := clist[i].c;
    ReachClass(clist, cnt, i);
    PlacesInside(s[lo..hi], b, cnt, c);
    SortedClass(s, t, lo, hi, b, cnt, c);
    SortingStep(s0[lo..hi], s[lo..hi], t[lo..hi], b, bound, cnt, clist, i);
    OutsideTrans(s0, s, t, lo, hi);
  }

  /** Pass 4: sort each class by the bytes that follow. */
  method SortClasses(a: array<Rec>, lo: nat, hi: nat, b: nat, count: array<int>, clist: seq<Part>, n0: int, ghost cnt: seq<int>, ghost bound: nat)
    requires lo <= hi <= a.Length && Cleared(count[..])
    requires Sorting(a[..][lo..hi], a[..][lo..hi], b, bound, cnt, clist, 0) && n0 == cnt[PAST]
    modifies a, count
    ensures Cleared(count[..]) && SortedPart(old(a[..]), a[..], lo, hi)
    decreases bound - b, 1
  {
    ghost var s0 := a[..];
    var t := lo + n0;
    for i := 0 to |clist|
      invariant 0 <= NextClass(clist, i) <= PAST && t == EntryStart(lo, cnt, clist, i)
      invariant Cleared(count[..]) && Sorting(s0[lo..hi], a[..][lo..hi], b, bound, cnt, clist, i)
      invariant SameOutside(s0, a[..], lo, hi)
    {
      ghost var s := a[..];
      var n := clist[i].n;
      EntryReady(s, lo, hi, b, bound, cnt, clist, i);
      SortPart(a, b + 1, count, n, t, bound);
      EntrySorted(s0, s, a[..], lo, hi, b, bound, cnt, clist, i);
      t := t + n;
    }
    AllClassesSorted(a[..][lo..hi], b, cnt, clist);
  }

  lemma {:induction false} AllClassesSorted(v: seq<Rec>, b: nat, cnt: seq<int>, clist: seq<Part>)
    requires Partitioned(v, b, cnt) && CommonPrefix(v, b) && Listed(clist, cnt, PAST)
    requires forall k {:trigger EntrySortedAt(v, cnt, clist, k)} :: 0 <= k < |clist| ==> EntrySortedAt(v, cnt, clist, k)
    ensures LexSorted(v)
  {
    forall c | 0 <= c < PAST && cnt[c] > 0 ensures ClassSorted(v, cnt, c) {
      assert Has(clist, cnt, c);
      var k :| 0 <= k < |clist| && clist[k] == Part(cnt[c], c);
      assert EntrySortedAt(v, cnt, clist, k);
    }
    SortedByClasses(v, b, cnt);
  }

  /** `rsort4`: sort a piece whose keys agree on their first `b` bytes.  The shared `count` array is zero
      before the call and zero again after it. */
  method Rsort4(a: array<Rec>, lo: nat, hi: nat, b: nat, count: array<int>, ghost bound: nat)
    requires lo <= hi <= a.Length && Cleared(count[..]) && Piece(a[..][lo..hi], b, bound)
    modifies a, count
    ensures Cleared(count[..]) && SortedPart(old(a[..]), a[..], lo, hi)
    decreases bound - b, 2
  {
    var lowc, higc := CountPass(a, lo, hi, b, count);
    ghost var cnt, v := count[..], a[..][lo..hi];
    var n0 := count[PAST];
    var part, clist := LayoutPass(count[..], lo, lowc, higc);
    StartChase(v, b, cnt);
    ChasePass(a, lo, hi, b, count, part, clist, cnt);
    count[PAST] := 0;
    ghost var s := a[..];
    PiecePermuted(v, s[lo..hi], b, bound);
    SortClasses(a, lo, hi, b, count, clist, n0, cnt, bound);
    OutsideTrans(old(a[..]), s, a[..], lo, hi);
  }

  lemma StartChase(v: seq<Rec>, b: nat, cnt: seq<int>)
    requires Counts(v, b, cnt) && Natural(cnt)
    ensures Chasing(v, b, cnt, cnt)
  {
    forall c, p | 0 <= c <= PAST && 0 <= p < |v| ensures FilledAt(v, b, cnt, cnt, c, p) {
    }
  }

  ghost function Longest(v: seq<Rec>): (n: nat)
    ensures Bounded(v, n)
  {
    if v == [] then 0
    else
      var m, k := Longest(v[1..]), |v[0].key|;
      assert forall i :: 0 < i < |v| ==> v[i] == v[1..][i - 1];
      if m < k then k else m
  }

  /** `sort4`: the first `n` records become the same records in the order of `kcmp`; the rest stay. */
  method Sort4(a: array<Rec>, n: nat, count: array<int>)
    requires n <= a.Length && Cleared(count[..]) && PrefixFree(a[..][0..n])
    modifies a, count
    ensures SortedPart(old(a[..]), a[..], 0, n) && SortedRecs(a[..][0..n])
    ensures Cleared(count[..])
  {
    ghost var v := a[..][0..n];
    ghost var bound := Longest(v);
    forall i, j | 0 <= i < |v| && 0 <= j < |v| ensures Agree(v, i, j, 0) {
    }
    if n > THRESHOLD {
      Rsort4(a, 0, n, 0, count, bound);
    } else {
      Bsort4(a, 0, n, 0);
    }
    LexSortedIsSorted(a[..][0..n]);
  }
}
