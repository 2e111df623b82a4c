/**
 * sys/src/cmd/sort.c with the flag -n or -g and no fields: the key of a line is the key of the number at its front,
 * so the lines come out in the order of their numbers.
 */
module SortNumeric {
  import opened SortKeyValue
  import opened SortKey
  import opened SortRadix
  import opened SortMerge
  import opened SortWritten

  /** The record of line number `i`. */
  function RecOf(lines: seq<seq<Byte>>, i: nat, g: bool, r: bool): Rec
    requires i < |lines|
  {
    Rec(KeyOf(Parse(lines[i], g), r), i)
  }

  ghost predicate RecsOf(lines: seq<seq<Byte>>, g: bool, r: bool, recs: seq<Rec>) {
    |recs| == |lines| && forall i: nat {:trigger recs[i]} :: i < |lines| ==> recs[i] == RecOf(lines, i, g, r)
  }

  ghost predicate FitsAt(lines: seq<seq<Byte>>, g: bool, i: nat)
    requires i < |lines|
  {
    Fits(Parse(lines[i], g))
  }

  /** All the numbers fit their keys. */
  ghost predicate AllFit(lines: seq<seq<Byte>>, g: bool) {
    forall i: nat {:trigger FitsAt(lines, g, i)} :: i < |lines| ==> FitsAt(lines, g, i)
  }

  ghost function ValueAt(lines: seq<seq<Byte>>, g: bool, rec: Rec): real
    requires 0 <= rec.id < |lines|
  {
    Value(Parse(lines[rec.id], g))
  }

  ghost predicate IsLine(lines: seq<seq<Byte>>, rec: Rec) { 0 <= rec.id < |lines| }

  /** The value of record `a` does not come after that of record `b`; with `strict` it comes before. */
  ghost predicate InOrder(lines: seq<seq<Byte>>, g: bool, r: bool, strict: bool, a: Rec, b: Rec) {
    && IsLine(lines, a) && IsLine(lines, b)
    && var x, y := ValueAt(lines, g, a), ValueAt(lines, g, b);
       if strict then (if r then x > y else x < y) else (if r then x >= y else x <= y)
  }

  /** The lines are in the order of their numbers, the other way round with -r, and with -u no number comes twice. */
  ghost predicate NumbersInOrder(lines: seq<seq<Byte>>, g: bool, r: bool, u: bool, out: seq<Rec>) {
    forall i, j {:trigger InOrder(lines, g, r, u, out[i], out[j])} :: 0 <= i < j < |out| ==> InOrder(lines, g, r, u, out[i], out[j])
  }

  lemma {:induction false} RecsFree(lines: seq<seq<Byte>>, g: bool, r: bool, recs: seq<Rec>)
    requires RecsOf(lines, g, r, recs)
    ensures PrefixFree(recs)
  {
    forall i, j | 0 <= i < |recs| && 0 <= j < |recs| ensures Apart(recs, i, j) {
      assert recs[i] == RecOf(lines, i, g, r) && recs[j] == RecOf(lines, j, g, r);
      KeysPrefixFree(Parse(lines[i], g), Parse(lines[j], g), r);
    }
  }

  lemma {:induction false} OutIsLine(lines: seq<seq<Byte>>, g: bool, r: bool, u: bool, recs: seq<Rec>, out: seq<Rec>, i: nat)
    requires RecsOf(lines, g, r, recs) && Answers(u, multiset(recs), out) && i < |out|
    ensures IsLine(lines, out[i]) && out[i].key == KeyOf(Parse(lines[out[i].id], g), r)
  {
    assert out[i] in out;
    if u {
      assert From(out[i], multiset(recs));
    } else {
      assert out[i] in multiset(out);
    }
    assert out[i] in recs;
    var k: nat :| k < |recs| && recs[k] == out[i];
  }

  lemma {:induction false} PairInOrder(lines: seq<seq<Byte>>, g: bool, r: bool, u: bool, recs: seq<Rec>, out: seq<Rec>, i: nat, j: nat)
    requires RecsOf(lines, g, r, recs) && Answers(u, multiset(recs), out) && i < j < |out| && AllFit(lines, g)
    ensures InOrder(lines, g, r, u, out[i], out[j])
  {
    OutIsLine(lines, g, r, u, recs, out, i);
    OutIsLine(lines, g, r, u, recs, out, j);
    assert FitsAt(lines, g, out[i].id) && FitsAt(lines, g, out[j].id);
    LexSortedIsSorted(out);
    KcmpComparesValues(Parse(lines[out[i].id], g), Parse(lines[out[j].id], g), r);
    if u {
      assert Differ(out, i, j);
    }
  }

  lemma {:induction false} AllInOrder(lines: seq<seq<Byte>>, g: bool, r: bool, u: bool, recs: seq<Rec>, out: seq<Rec>)
    requires RecsOf(lines, g, r, recs) && Answers(u, multiset(recs), out) && AllFit(lines, g)
    ensures NumbersInOrder(lines, g, r, u, out)
  {
    forall i, j | 0 <= i < j < |out| ensures InOrder(lines, g, r, u, out[i], out[j]) {
      PairInOrder(lines, g, r, u, recs, out, i, j);
    }
  }

  // ----- in terms of what is written -----

  ghost predicate FormAt(lines: seq<seq<Byte>>, g: bool, fs: seq<Form>, i: nat)
    requires i < |lines| == |fs|
  {
    ByTheRules(fs[i], g) && Text(fs[i]) == lines[i]
  }

  /** How the lines are written. */
  ghost predicate FormsOf(lines: seq<seq<Byte>>, g: bool, fs: seq<Form>) {
    |fs| == |lines| && forall i: nat {:trigger FormAt(lines, g, fs, i)} :: i < |lines| ==> FormAt(lines, g, fs, i)
  }

  ghost predicate FormFits(fs: seq<Form>, i: nat)
    requires i < |fs|
  {
    Fits(NumberOf(fs[i]))
  }

  ghost predicate FormsFit(fs: seq<Form>) { forall i: nat {:trigger FormFits(fs, i)} :: i < |fs| ==> FormFits(fs, i) }

  ghost predicate FormBefore(fs: seq<Form>, r: bool, strict: bool, a: Rec, b: Rec) {
    && 0 <= a.id < |fs| && 0 <= b.id < |fs|
    && var x, y := Value(NumberOf(fs[a.id])), Value(NumberOf(fs[b.id]));
       if strict then (if r then x > y else x < y) else (if r then x >= y else x <= y)
  }

  /** The lines come out in the order of the numbers written in them, the other way round with -r, and with -u no number
      comes twice. */
  ghost predicate FormsInOrder(fs: seq<Form>, r: bool, u: bool, out: seq<Rec>) {
    forall i, j {:trigger FormBefore(fs, r, u, out[i], out[j])} :: 0 <= i < j < |out| ==> FormBefore(fs, r, u, out[i], out[j])
  }

  /** The key of each line is that of the number written in it. */
  ghost predicate FormKeys(fs: seq<Form>, r: bool, recs: seq<Rec>) {
    |recs| == |fs| && forall i: nat {:trigger recs[i]} :: i < |fs| ==> recs[i] == Rec(KeyOf(NumberOf(fs[i]), r), i)
  }

  /** Every text can be taken apart like that. */
  lemma {:induction false} LinesAreWritten(lines: seq<seq<Byte>>, g: bool) returns (fs: seq<Form>)
    ensures FormsOf(lines, g, fs)
  {
    fs := [];
    for i := 0 to |lines|
      invariant |fs| == i && forall k: nat {:trigger fs[k]} :: k < i ==> ByTheRules(fs[k], g) && Text(fs[k]) == lines[k]
    {
      var f := EveryFieldIsWritten(lines[i], g);
      fs := fs + [f];
    }
  }

  lemma {:induction false} FormRead(lines: seq<seq<Byte>>, g: bool, fs: seq<Form>, i: nat)
    requires FormsOf(lines, g, fs) && i < |lines|
    ensures Parse(lines[i], g) == NumberOf(fs[i])
  {
    assert FormAt(lines, g, fs, i);
    ReadsWritten(fs[i], g);
  }

  lemma {:induction false} KeysWritten(lines: seq<seq<Byte>>, g: bool, r: bool, recs: seq<Rec>, fs: seq<Form>)
    requires RecsOf(lines, g, r, recs) && FormsOf(lines, g, fs)
    ensures FormKeys(fs, r, recs)
  {
    forall i: nat | i < |fs| ensures recs[i] == Rec(KeyOf(NumberOf(fs[i]), r), i) {
      FormRead(lines, g, fs, i);
    }
  }

  lemma {:induction false} OrderWritten(lines: seq<seq<Byte>>, g: bool, r: bool, u: bool, recs: seq<Rec>, out: seq<Rec>, fs: seq<Form>)
    requires RecsOf(lines, g, r, recs) && Answers(u, multiset(recs), out) && FormsOf(lines, g, fs) && FormsFit(fs)
    ensures FormsInOrder(fs, r, u, out)
  {
    forall i: nat | i < |lines| ensures FitsAt(lines, g, i) {
      FormRead(lines, g, fs, i);
      assert FormFits(fs, i);
    }
    forall i, j | 0 <= i < j < |out| ensures FormBefore(fs, r, u, out[i], out[j]) {
      PairInOrder(lines, g, r, u, recs, out, i, j);
      FormRead(lines, g, fs, out[i].id);
      FormRead(lines, g, fs, out[j].id);
    }
  }

  /** `buildkey` without fields: the key of a line is made from the whole of it. */
  method BuildKey(line: seq<Byte>, g: bool, r: bool) returns (key: seq<Byte>)
    ensures key == KeyOf(Parse(line, g), r)
  {
    key := DokeyGn([], line, g, r);
    NothingBefore(KeyOf(Parse(line, g), r));
  }

  lemma NothingBefore(k: seq<Byte>)
    ensures [] + k == k
  {
  }

  method BuildKeys(lines: seq<seq<Byte>>, g: bool, r: bool) returns (recs: seq<Rec>)
    ensures RecsOf(lines, g, r, recs)
  {
    recs := [];
    for i := 0 to |lines|
      invariant |recs| == i && forall k: nat {:trigger recs[k]} :: k < i ==> recs[k] == RecOf(lines, k, g, r)
    {
      var key := BuildKey(lines[i], g, r);
      recs := recs + [Rec(key, i)];
    }
  }

  /** `sort -n` and `sort -g`: whatever the lines hold, the output is the lines, with -u one for each key; if all
      their numbers fit their keys it is in the order of the numbers, with -u one line for each number.  The numbers are
      those written in the lines. */
  method SortNumbers(lines: seq<seq<Byte>>, g: bool, r: bool, u: bool, mline: nat, count: array<int>) returns (out: seq<Rec>, recs: seq<Rec>)
    requires mline > 0 && Cleared(count[..])
    modifies count
    ensures RecsOf(lines, g, r, recs) && Answers(u, multiset(recs), out) && Cleared(count[..])
    ensures AllFit(lines, g) ==> NumbersInOrder(lines, g, r, u, out)
    ensures forall fs {:trigger FormsOf(lines, g, fs)} :: FormsOf(lines, g, fs) ==>
      FormKeys(fs, r, recs) && (FormsFit(fs) ==> FormsInOrder(fs, r, u, out))
  {
    recs := BuildKeys(lines, g, r);
    RecsFree(lines, g, r, recs);
    out := Sort(recs, mline, u, count);
    if AllFit(lines, g) {
      AllInOrder(lines, g, r, u, recs, out);
    }
    forall fs | FormsOf(lines, g, fs) ensures FormKeys(fs, r, recs) && (FormsFit(fs) ==> FormsInOrder(fs, r, u, out)) {
      KeysWritten(lines, g, r, recs, fs);
      if FormsFit(fs) {
        OrderWritten(lines, g, r, u, recs, out, fs);
      }
    }
  }
}
