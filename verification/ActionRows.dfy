/** One corporate action per effective date, where a reconciled file and a single-source feed hold the same event. */
module ActionRows {
  /** A stored observation of one entity and kind; `single` is the single-source quality flag. */
  datatype Row = Row(id: nat, single: bool, date: int, action: nat)

  /** A reconciled row before a single-source one; of two alike the later row. */
  predicate Beats(row: Row, prev: Row) {
    (prev.single && !row.single) || (prev.single == row.single && row.id > prev.id)
  }

  function Dedupe(rows: seq<Row>): map<int, Row>
    decreases |rows|
  {
    if rows == [] then map[]
    else
      var before, row := Dedupe(rows[..|rows| - 1]), rows[|rows| - 1];
      if row.date !in before || Beats(row, before[row.date]) then before[row.date := row] else before
  }

  method DedupeCorporateActionRows(rows: seq<Row>) returns (chosen: map<int, Row>)
    ensures chosen == Dedupe(rows)
  {
    chosen := map[];
    for i := 0 to |rows|
      invariant chosen == Dedupe(rows[..i])
    {
      assert rows[..i + 1][..i] == rows[..i];
      var row := rows[i];
      if row.date !in chosen || Beats(row, chosen[row.date]) {
        chosen := chosen[row.date := row];
      }
    }
    assert rows[..|rows|] == rows;
  }

  /** A row of its date that no other row of its date beats. */
  ghost predicate IsBest(rows: seq<Row>, row: Row) {
    row in rows && forall x :: x in rows && x.date == row.date ==> !Beats(x, row)
  }

  /** Every date with rows keeps exactly one of them, and it is the best. */
  lemma {:induction false} BestIsKept(rows: seq<Row>, date: int)
    ensures date in Dedupe(rows) <==> exists x :: x in rows && x.date == date
    ensures date in Dedupe(rows) ==> Dedupe(rows)[date].date == date && IsBest(rows, Dedupe(rows)[date])
    decreases |rows|
  {
    if rows != [] {
      var front, row := rows[..|rows| - 1], rows[|rows| - 1];
      BestIsKept(front, date);
      assert rows == front + [row];
      assert row in rows && forall x :: x in rows <==> x in front || x == row;
    }
  }

  ghost predicate IdsDiffer(rows: seq<Row>) {
    forall x, y :: x in rows && y in rows && x.id == y.id ==> x == y
  }

  lemma {:induction false} OneBest(rows: seq<Row>, a: Row, b: Row)
    requires IdsDiffer(rows) && IsBest(rows, a) && IsBest(rows, b) && a.date == b.date
    ensures a == b
  {
    assert !Beats(a, b) && !Beats(b, a);
  }

  /** The same rows, read in another order, keep the same actions. */
  lemma {:induction false} ReadOrderIsIrrelevant(a: seq<Row>, b: seq<Row>)
    requires IdsDiffer(a) && forall x :: x in a <==> x in b
    ensures Dedupe(a) == Dedupe(b)
  {
    forall date ensures date in Dedupe(a) <==> date in Dedupe(b)
      ensures date in Dedupe(a) ==> Dedupe(a)[date] == Dedupe(b)[date]
    {
      BestIsKept(a, date);
      BestIsKept(b, date);
      if date in Dedupe(a) {
        OneBest(a, Dedupe(a)[date], Dedupe(b)[date]);
      }
    }
  }
}
