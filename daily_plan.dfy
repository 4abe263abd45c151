/** Daily-goal spreading of the daily recruitment dashboard
    (`load_and_generate_plan`, my_dashboard.py): every allocation row with a
    positive number of people to recruit is spread over its delivery window,
    `floor(T/D)` per day with the remainder `T mod D` handed to the earliest
    days, and one plan entry is emitted per day whose goal is positive.
    Dates are integer day offsets and `today` is a parameter. */
module DailyPlan {
  import opened Common

  /** What `ast.literal_eval` made of a quota column: an error, a list or
      tuple (each element kept as its `str()` text), or some other value. */
  datatype Literal = Unparsable | Listlike(items: seq<string>) | Atom

  /** One row of the allocation table. `total` is `Pessoas_Para_Recrutar`
      and `days` is `DaystoDeliver`; `None` stands for NaN. */
  datatype AllocRow = AllocRow(
    projectId: string,
    country: Option<string>,
    cotas: Literal,
    resultadoCota: Literal,
    total: Option<int>,
    days: Option<real>)

  /** A row of the daily plan: the allocation row it comes from, unchanged,
      plus `plan_date` and `daily_recruitment_goal`. */
  datatype PlanEntry = PlanEntry(row: AllocRow, planDate: int, goal: int)

  function Min(a: int, b: int): int { if a <= b then a else b }

  /** The delivery window in days: NaN or anything below 1 becomes 1, then
      `int()` truncates (for a value of at least 1, truncation is the floor). */
  function EffectiveDays(days: Option<real>): (n: int)
    ensures n >= 1
    ensures days.None? || days.value < 1.0 ==> n == 1
    ensures days.Some? && days.value >= 1.0 ==> n as real <= days.value < n as real + 1.0
  {
    if days.None? || days.value < 1.0 then 1 else days.value.Floor
  }

  /** The goal of day `i` of a window of `d` days for a total `t`. Python's
      `//` and `%` floor; with a positive divisor Dafny's Euclidean `/` and
      `%` agree with them. */
  function DailyGoal(t: int, d: int, i: int): int
    requires d >= 1
  {
    if i < t % d then t / d + 1 else t / d
  }

  /** The entries emitted for days `0 .. k-1` of one row. */
  function DaysUpTo(row: AllocRow, today: int, t: int, d: int, k: nat): seq<PlanEntry>
    requires d >= 1
  {
    if k == 0 then []
    else
      DaysUpTo(row, today, t, d, k - 1)
      + (if DailyGoal(t, d, k - 1) > 0 then [PlanEntry(row, today + k - 1, DailyGoal(t, d, k - 1))] else [])
  }

  /** True when the row's `total_recruits <= 0` guard does not skip it. A
      missing total is a NaN, and every NaN comparison is false, so a NaN
      passes the guard but then yields only NaN goals, none of them `> 0`. */
  predicate HasDemand(row: AllocRow)
  {
    row.total.Some? && row.total.value > 0
  }

  /** Everything one allocation row contributes to the plan. */
  function RowPlan(row: AllocRow, today: int): seq<PlanEntry>
  {
    if HasDemand(row) then
      DaysUpTo(row, today, row.total.value, EffectiveDays(row.days), EffectiveDays(row.days))
    else []
  }

  /** The daily plan of a whole allocation table, row after row. */
  function Plan(rows: seq<AllocRow>, today: int): seq<PlanEntry>
  {
    if rows == [] then []
    else Plan(rows[..|rows| - 1], today) + RowPlan(rows[|rows| - 1], today)
  }

  function Goal(e: PlanEntry): int { e.goal }

  /** The people to recruit that the plan must account for: the positive totals. */
  function Demand(row: AllocRow): int { if HasDemand(row) then row.total.value else 0 }

  /** The loop of `load_and_generate_plan` (my_dashboard.py:28-51). */
  method GeneratePlan(rows: seq<AllocRow>, today: int) returns (plan: seq<PlanEntry>)
    ensures plan == Plan(rows, today)
  {
    plan := [];
    var r := 0;
    while r < |rows|
      invariant 0 <= r <= |rows|
      invariant plan == Plan(rows[..r], today)
    {
      var row := rows[r];
      assert rows[..r + 1][..r] == rows[..r];
      if row.total.Some? && row.total.value > 0 {
        var total := row.total.value;
        var days: int;
        if row.days.None? || row.days.value < 1.0 {
          days := 1;
        } else {
          days := row.days.value.Floor;
        }
        var base := total / days;
        var remainder := total % days;
        var i := 0;
        while i < days
          invariant 0 <= i <= days
          invariant plan == Plan(rows[..r], today) + DaysUpTo(row, today, total, days, i)
        {
          var goal := if i < remainder then base + 1 else base;
          if goal > 0 {
            plan := plan + [PlanEntry(row, today + i, goal)];
          }
          i := i + 1;
        }
      }
      r := r + 1;
    }
    assert rows[..r] == rows;
  }

  /** For a positive total a day's goal is positive exactly on the first
      `min(T, D)` days, and it is never negative. */
  lemma DailyGoalPositive(t: int, d: int, i: int)
    requires t > 0 && d >= 1 && 0 <= i < d
    ensures DailyGoal(t, d, i) >= 0
    ensures DailyGoal(t, d, i) > 0 <==> i < t
  {
    if t < d {
      assert t / d == 0 && t % d == t;
    } else {
      assert t / d >= 1;
    }
  }

  /** Fairness: two days of one window differ by at most one, and earlier
      days never get less than later ones. */
  lemma DailyGoalBalanced(t: int, d: int, i: int, j: int)
    requires d >= 1 && 0 <= i <= j
    ensures DailyGoal(t, d, j) <= DailyGoal(t, d, i) <= DailyGoal(t, d, j) + 1
  {
  }

  lemma {:induction false} DaysUpToShape(row: AllocRow, today: int, t: int, d: int, k: nat)
    requires t > 0 && d >= 1 && k <= d
    ensures |DaysUpTo(row, today, t, d, k)| == Min(k, t)
    ensures forall j :: 0 <= j < |DaysUpTo(row, today, t, d, k)| ==>
      DaysUpTo(row, today, t, d, k)[j] == PlanEntry(row, today + j, DailyGoal(t, d, j))
  {
    if k > 0 {
      DaysUpToShape(row, today, t, d, k - 1);
      DailyGoalPositive(t, d, k - 1);
    }
  }

  /** The sum of the goals of days `0 .. k-1`: `k * floor(T/D)` plus one
      for every early day that gets a share of the remainder. */
  lemma {:induction false} DaysUpToSum(row: AllocRow, today: int, t: int, d: int, k: nat)
    requires t > 0 && d >= 1 && k <= d
    ensures SumOf(DaysUpTo(row, today, t, d, k), Goal) == k * (t / d) + Min(k, t % d)
  {
    if k > 0 {
      DaysUpToSum(row, today, t, d, k - 1);
      DailyGoalPositive(t, d, k - 1);
      var g := DailyGoal(t, d, k - 1);
      var last := if g > 0 then [PlanEntry(row, today + k - 1, g)] else [];
      SumAppend(DaysUpTo(row, today, t, d, k - 1), last, Goal);
      assert SumOf(last, Goal) == g by {
        if g > 0 {
          assert last[1..] == [];
        }
      }
      MulStep(k, t / d);
    }
  }

  lemma MulStep(k: int, q: int)
    ensures k * q == (k - 1) * q + q
  {
  }

  /** A row whose total is not positive (or missing) contributes nothing;
      otherwise it yields `min(T, D)` entries, on the consecutive dates
      `today, today + 1, ...`, each the source row with its goal, and every
      goal is positive. */
  lemma RowPlanShape(row: AllocRow, today: int)
    ensures !HasDemand(row) ==> RowPlan(row, today) == []
    ensures HasDemand(row) ==>
      |RowPlan(row, today)| == Min(row.total.value, EffectiveDays(row.days))
    ensures forall j :: 0 <= j < |RowPlan(row, today)| ==>
      && RowPlan(row, today)[j].row == row
      && RowPlan(row, today)[j].planDate == today + j
      && RowPlan(row, today)[j].goal == DailyGoal(row.total.value, EffectiveDays(row.days), j)
      && RowPlan(row, today)[j].goal > 0
  {
    if HasDemand(row) {
      var t, d := row.total.value, EffectiveDays(row.days);
      DaysUpToShape(row, today, t, d, d);
      forall j | 0 <= j < |RowPlan(row, today)| ensures DailyGoal(t, d, j) > 0 {
        DailyGoalPositive(t, d, j);
      }
    }
  }

  /** No date is planned twice for the same row. */
  lemma RowPlanDatesDistinct(row: AllocRow, today: int, i: int, j: int)
    requires 0 <= i < j < |RowPlan(row, today)|
    ensures RowPlan(row, today)[i].planDate < RowPlan(row, today)[j].planDate
  {
    RowPlanShape(row, today);
  }

  /** The goals emitted for one row add up to exactly its total. */
  lemma RowPlanSum(row: AllocRow, today: int)
    ensures SumOf(RowPlan(row, today), Goal) == Demand(row)
  {
    if HasDemand(row) {
      var t, d := row.total.value, EffectiveDays(row.days);
      DaysUpToSum(row, today, t, d, d);
    }
  }

  /** The goals emitted for one row differ by at most one and do not
      increase from the first day on. */
  lemma RowPlanBalanced(row: AllocRow, today: int, i: int, j: int)
    requires 0 <= i <= j < |RowPlan(row, today)|
    ensures RowPlan(row, today)[j].goal <= RowPlan(row, today)[i].goal <= RowPlan(row, today)[j].goal + 1
  {
    RowPlanShape(row, today);
    DailyGoalBalanced(row.total.value, EffectiveDays(row.days), i, j);
  }

  /** The whole plan accounts for every person to recruit of every row with a
      positive total, no more and no less. */
  lemma {:induction false} PlanTotal(rows: seq<AllocRow>, today: int)
    ensures SumOf(Plan(rows, today), Goal) == SumOf(rows, Demand)
  {
    if rows != [] {
      var n := |rows| - 1;
      PlanTotal(rows[..n], today);
      SumAppend(Plan(rows[..n], today), RowPlan(rows[n], today), Goal);
      RowPlanSum(rows[n], today);
      assert rows == rows[..n] + [rows[n]];
      SumAppend(rows[..n], [rows[n]], Demand);
      assert [rows[n]][1..] == [];
    }
  }

  /** Nothing but the two new columns is invented: every plan entry is a row
      of the allocation table with a positive total, a positive goal and a
      date inside that row's delivery window. */
  lemma {:induction false} PlanEntriesFromRows(rows: seq<AllocRow>, today: int)
    ensures forall e :: e in Plan(rows, today) ==>
      && e.row in rows
      && HasDemand(e.row)
      && e.goal > 0
      && today <= e.planDate < today + Min(e.row.total.value, EffectiveDays(e.row.days))
  {
    if rows != [] {
      var n := |rows| - 1;
      PlanEntriesFromRows(rows[..n], today);
      RowPlanShape(rows[n], today);
      forall e | e in Plan(rows, today)
        ensures e.row in rows && HasDemand(e.row) && e.goal > 0
        ensures today <= e.planDate < today + Min(e.row.total.value, EffectiveDays(e.row.days))
      {
        if e in Plan(rows[..n], today) {
          assert e.row in rows[..n];
        } else {
          assert e in RowPlan(rows[n], today);
          var j :| 0 <= j < |RowPlan(rows[n], today)| && RowPlan(rows[n], today)[j] == e;
        }
      }
    }
  }
}
