/** The day's therapy plan: how `get_therapy_plan` turns the CSV rows into a
    map from `HH:MM` to (medication, quantity) doses, and how
    `next_medication` finds the next dose time. */
module TherapyPlan {
  import opened Wrappers
  import opened Text

  /** One CSV row: the `hour` cell, then the `medication_1` cell, then the
      remaining cells (`quantity_medication_1`, `medication_2`, ...) in column
      order. `None` is an empty (NaN) cell. */
  datatype Row = Row(hour: string, medication1: Option<string>, rest: seq<Option<string>>)

  /** (medication, quantity). */
  type Dose = (string, string)

  type Plan = map<string, seq<Dose>>

  /** `row.drop(['hour'])`. */
  function Cells(row: Row): seq<Option<string>> {
    [row.medication1] + row.rest
  }

  /** `.dropna().tolist()`: the non-missing cells, in order. */
  function Present(cells: seq<Option<string>>): (r: seq<string>)
    ensures |r| <= |cells|
    ensures forall x :: x in r ==> Some(x) in cells
    ensures (forall i :: 0 <= i < |cells| ==> cells[i].Some?) ==>
      |r| == |cells| && forall i :: 0 <= i < |r| ==> Some(r[i]) == cells[i]
    ensures |cells| > 0 && cells[0].Some? ==> |r| > 0 && r[0] == cells[0].value
  {
    if |cells| == 0 then []
    else
      var tail := Present(cells[1..]);
      assert forall i :: 1 <= i < |cells| ==> cells[i] == cells[1..][i - 1];
      match cells[0]
      case Some(v) => [v] + tail
      case None => tail
  }

  /** `.dropna()` works cell by cell: the present cells of a concatenation
      are those of each part, in order. */
  lemma {:induction false} PresentAppend(a: seq<Option<string>>, b: seq<Option<string>>)
    ensures Present(a + b) == Present(a) + Present(b)
    decreases |a|
  {
    if |a| == 0 {
      assert a + b == b;
    } else {
      assert (a + b)[0] == a[0] && (a + b)[1..] == a[1..] + b;
      PresentAppend(a[1..], b);
    }
  }

  /** A single cell: a present one is kept as its value, a missing one is
      dropped. With `PresentAppend` this pins `Present` down on every row. */
  lemma PresentSingleton(c: Option<string>)
    ensures c.Some? ==> Present([c]) == [c.value]
    ensures c.None? ==> Present([c]) == []
  {
    assert [c][1..] == [];
  }

  /** `xs[::2]`: every other cell, starting with the first. */
  function EveryOther(xs: seq<string>): (r: seq<string>)
    ensures |r| == (|xs| + 1) / 2
    ensures forall i {:trigger r[i]} :: 0 <= i < |r| ==> r[i] == xs[2 * i]
    decreases |xs|
  {
    if |xs| == 0 then []
    else if |xs| == 1 then [xs[0]]
    else
      var rest := EveryOther(xs[2..]);
      assert forall i :: 1 <= i < |rest| + 1 ==> xs[2..][2 * (i - 1)] == xs[2 * i];
      [xs[0]] + rest
  }

  /** `zip(a, b)`: positionwise pairs, as long as the shorter list. */
  function Zip(a: seq<string>, b: seq<string>): (r: seq<Dose>)
    ensures |r| == if |a| <= |b| then |a| else |b|
    ensures forall i {:trigger r[i]} :: 0 <= i < |r| ==> r[i] == (a[i], b[i])
    decreases |a|
  {
    if |a| == 0 || |b| == 0 then []
    else
      var rest := Zip(a[1..], b[1..]);
      assert forall i :: 1 <= i < |rest| + 1 ==> a[1..][i - 1] == a[i] && b[1..][i - 1] == b[i];
      [(a[0], b[0])] + rest
  }

  /** `zip(xs[::2], xs[1::2])`: consecutive cells paired up, an odd trailing
      cell dropped. */
  function Pairs(xs: seq<string>): (r: seq<Dose>)
    ensures |r| == |xs| / 2
    ensures forall i {:trigger r[i]} :: 0 <= i < |r| ==> r[i] == (xs[2 * i], xs[2 * i + 1])
  {
    var odds := if |xs| == 0 then [] else EveryOther(xs[1..]);
    assert forall i :: 0 <= i < |odds| ==> odds[i] == xs[2 * i + 1];
    Zip(EveryOther(xs), odds)
  }

  /** Two leading cells make the first dose; the rest pair up as before. */
  lemma PairsCons(xs: seq<string>)
    requires |xs| >= 2
    ensures Pairs(xs) == [(xs[0], xs[1])] + Pairs(xs[2..])
  {
  }

  /** The cells a dose list was paired from, in order. */
  function Flatten(doses: seq<Dose>): (r: seq<string>)
    ensures |r| == 2 * |doses|
  {
    if |doses| == 0 then [] else [doses[0].0, doses[0].1] + Flatten(doses[1..])
  }

  /** Pairing loses only an odd trailing cell: flattening the pairs gives back
      the cells up to the last even position. */
  lemma {:induction false} PairsFlatten(xs: seq<string>)
    ensures Flatten(Pairs(xs)) == xs[..2 * (|xs| / 2)]
    decreases |xs|
  {
    if |xs| >= 2 {
      PairsFlatten(xs[2..]);
      PairsCons(xs);
      assert xs[..2 * (|xs| / 2)] == [xs[0], xs[1]] + xs[2..][..2 * (|xs[2..]| / 2)];
    }
  }

  /** The dose list of one row: never more doses than half its non-hour
      cells. */
  function Therapy(row: Row): (r: seq<Dose>)
    ensures 2 * |r| <= |row.rest| + 1
  {
    Pairs(Present(Cells(row)))
  }

  /** Any row: its doses, flattened, are its present cells in column order,
      an odd trailing cell dropped. */
  lemma TherapyReadsPresentCells(row: Row)
    ensures Flatten(Therapy(row)) == Present(Cells(row))[..2 * (|Present(Cells(row))| / 2)]
  {
    PairsFlatten(Present(Cells(row)));
  }

  /** The pairing ignores column names: with `quantity_medication_1` missing,
      `medication_1` is paired with the next present cell, `medication_2`. */
  lemma MissingQuantityShifts(row: Row)
    requires Kept(row) && |row.rest| >= 2 && row.rest[0].None? && row.rest[1].Some?
    ensures |Therapy(row)| > 0 && Therapy(row)[0] == (row.medication1.value, row.rest[1].value)
  {
    var head := [row.medication1, row.rest[0]];
    assert Cells(row) == head + row.rest[1..];
    PresentAppend(head, row.rest[1..]);
    PresentAppend([row.medication1], [row.rest[0]]);
    PresentSingleton(row.medication1);
    PresentSingleton(row.rest[0]);
    assert head == [row.medication1] + [row.rest[0]];
    assert Present(Cells(row)) == [row.medication1.value] + Present(row.rest[1..]);
  }

  /** The row is kept: its `medication_1` cell is not missing. */
  predicate Kept(row: Row) {
    row.medication1.Some?
  }

  /** Some kept row with hour `h` has `doses` as its dose list. */
  ghost predicate FromRow(rows: seq<Row>, h: string, doses: seq<Dose>) {
    exists i :: 0 <= i < |rows| && Kept(rows[i]) && rows[i].hour == h && doses == Therapy(rows[i])
  }

  /** No kept row after position `i` has the same hour as row `i`. */
  ghost predicate LastKeptAt(rows: seq<Row>, i: int) requires 0 <= i < |rows| {
    forall j :: i < j < |rows| && Kept(rows[j]) ==> rows[j].hour != rows[i].hour
  }

  /** The loop of `get_therapy_plan`: every kept row assigns its dose list to
      its hour. */
  function GetTherapyPlan(rows: seq<Row>): (r: Plan)
    ensures forall h :: h in r ==> FromRow(rows, h, r[h])
    decreases |rows|
  {
    if |rows| == 0 then map[]
    else
      var last := rows[|rows| - 1];
      var before := GetTherapyPlan(rows[..|rows| - 1]);
      if Kept(last) then before[last.hour := Therapy(last)] else before
  }

  /** The plan's times are exactly the hours of the kept rows. */
  lemma {:induction false} PlanTimes(rows: seq<Row>)
    ensures forall h :: h in GetTherapyPlan(rows) <==> exists i :: 0 <= i < |rows| && Kept(rows[i]) && rows[i].hour == h
    decreases |rows|
  {
    if |rows| > 0 {
      var front := rows[..|rows| - 1];
      PlanTimes(front);
      assert forall i :: 0 <= i < |front| ==> front[i] == rows[i];
    }
  }

  /** A later row with the same hour overwrites an earlier one: each time
      holds the dose list of the last kept row with that hour. */
  lemma {:induction false} PlanLastRowWins(rows: seq<Row>)
    ensures forall i :: 0 <= i < |rows| && Kept(rows[i]) && LastKeptAt(rows, i) ==>
      rows[i].hour in GetTherapyPlan(rows) && GetTherapyPlan(rows)[rows[i].hour] == Therapy(rows[i])
  {
    forall i | 0 <= i < |rows| && Kept(rows[i]) && LastKeptAt(rows, i)
      ensures rows[i].hour in GetTherapyPlan(rows)
      ensures GetTherapyPlan(rows)[rows[i].hour] == Therapy(rows[i])
    {
      PlanRowWins(rows, i);
    }
  }

  /** `PlanLastRowWins` for one row `i`, by induction on the rows after it. */
  lemma {:induction false} PlanRowWins(rows: seq<Row>, i: int)
    requires 0 <= i < |rows| && Kept(rows[i]) && LastKeptAt(rows, i)
    ensures rows[i].hour in GetTherapyPlan(rows) && GetTherapyPlan(rows)[rows[i].hour] == Therapy(rows[i])
    decreases |rows|
  {
    var front := rows[..|rows| - 1];
    var last := rows[|rows| - 1];
    var before := GetTherapyPlan(front);
    var doses := Therapy(last);
    PlanStep(rows);
    if i < |front| {
      assert front[i] == rows[i];
      assert LastKeptAt(front, i) by {
        assert forall j :: i < j < |front| ==> front[j] == rows[j];
      }
      PlanRowWins(front, i);
      if Kept(last) {
        assert last.hour != rows[i].hour;
        UpdateKeeps(before, last.hour, doses, rows[i].hour);
      }
    }
  }

  /** One more row: a kept row sets its hour, a dropped row changes nothing. */
  lemma PlanStep(rows: seq<Row>)
    requires |rows| > 0
    ensures GetTherapyPlan(rows) == if Kept(rows[|rows| - 1])
      then GetTherapyPlan(rows[..|rows| - 1])[rows[|rows| - 1].hour := Therapy(rows[|rows| - 1])]
      else GetTherapyPlan(rows[..|rows| - 1])
  {
  }

  /** Updating one time leaves every other time's doses alone. */
  lemma UpdateKeeps(m: Plan, k: string, v: seq<Dose>, h: string)
    requires h in m && h != k
    ensures h in m[k := v] && m[k := v][h] == m[h]
  {
  }

  /** The first medication of a kept row that has its first quantity is the
      first dose, with that quantity. */
  lemma FirstDoseIsMedicationOne(row: Row)
    requires Kept(row) && |row.rest| > 0 && row.rest[0].Some?
    ensures |Therapy(row)| > 0 && Therapy(row)[0] == (row.medication1.value, row.rest[0].value)
  {
    var cells := Cells(row);
    assert cells[1..] == row.rest;
    var p := Present(cells);
    assert p == [row.medication1.value] + Present(row.rest);
  }

  /** A row with no missing cell yields its cells paired in column order. */
  lemma CompleteRowPairs(row: Row)
    requires forall i :: 0 <= i < |row.rest| ==> row.rest[i].Some?
    requires Kept(row)
    ensures |Therapy(row)| == (|row.rest| + 1) / 2
    ensures forall i :: 0 <= i < |Therapy(row)| ==>
      Some(Therapy(row)[i].0) == Cells(row)[2 * i] && Some(Therapy(row)[i].1) == Cells(row)[2 * i + 1]
  {
    var cells := Cells(row);
    assert forall i :: 0 <= i < |cells| ==> cells[i].Some? by {
      forall i | 0 <= i < |cells| ensures cells[i].Some? {
        if i > 0 { assert cells[i] == row.rest[i - 1]; }
      }
    }
  }

  /** `next_medication`: the smallest plan time strictly after `now` (Python
      string order on `HH:MM`) with its doses, or `None` when no time of the
      day is later — there is no wrap to the next day. */
  method NextMedication(plan: Plan, now: string) returns (r: Option<(string, seq<Dose>)>)
    ensures r.None? <==> forall t :: t in plan ==> !LexLess(now, t)
    ensures r.Some? ==> r.value.0 in plan && LexLess(now, r.value.0) && r.value.1 == plan[r.value.0]
    ensures r.Some? ==> forall t :: t in plan && LexLess(now, t) ==> t == r.value.0 || LexLess(r.value.0, t)
  {
    var pending := plan.Keys;
    r := None;
    while pending != {}
      invariant pending <= plan.Keys
      invariant r.None? ==> forall t :: t in plan.Keys - pending ==> !LexLess(now, t)
      invariant r.Some? ==> r.value.0 in plan && LexLess(now, r.value.0) && r.value.1 == plan[r.value.0]
      invariant r.Some? ==> forall t :: t in plan.Keys - pending && LexLess(now, t) ==>
        t == r.value.0 || LexLess(r.value.0, t)
      decreases pending
    {
      var t :| t in pending;
      if LexLess(now, t) {
        match r
        case None =>
          r := Some((t, plan[t]));
        case Some(best) =>
          if LexLess(t, best.0) {
            forall u | u in plan.Keys - pending && LexLess(now, u)
              ensures u == t || LexLess(t, u)
            {
              if u != best.0 { LexLessTransitive(t, best.0, u); }
            }
            r := Some((t, plan[t]));
          } else if t != best.0 {
            LexLessTotal(t, best.0);
          }
      }
      pending := pending - {t};
    }
  }
}
