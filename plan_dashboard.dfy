/** The daily recruitment dashboard after the plan exists (my_dashboard.py):
    the quota columns are unpacked into dynamic columns, Region and SEL codes
    `'0'` get readable labels, and the sidebar narrows the plan to one date
    and then through six multiselects, where an empty selection means "no
    filter". */
module PlanDashboard {
  import opened Common
  import opened DailyPlan

  /** `dict(zip(keys, values))`: later duplicate keys overwrite earlier ones. */
  function ZipMap(keys: seq<string>, values: seq<string>): (m: map<string, string>)
    requires |keys| == |values|
    ensures m.Keys == set k | k in keys
  {
    if keys == [] then map[]
    else
      var n := |keys| - 1;
      assert (set k | k in keys) == (set k | k in keys[..n]) + {keys[n]} by {
        assert keys == keys[..n] + [keys[n]];
      }
      ZipMap(keys[..n], values[..n])[keys[n] := values[n]]
  }

  /** The value a key receives is the one paired with its LAST occurrence. */
  lemma {:induction false} ZipMapLastWins(keys: seq<string>, values: seq<string>, j: int)
    requires |keys| == |values| && 0 <= j < |keys|
    requires forall l :: j < l < |keys| ==> keys[l] != keys[j]
    ensures keys[j] in ZipMap(keys, values) && ZipMap(keys, values)[keys[j]] == values[j]
  {
    var n := |keys| - 1;
    if j < n {
      ZipMapLastWins(keys[..n], values[..n], j);
    }
  }

  /** `extract_dynamic_data`: the quota keys zipped with the quota values
      when both parse to sequences of the same length; an empty map when
      either fails to parse, is not a list or tuple, or the lengths differ. */
  function ExtractDynamicData(cotas: Literal, resultado: Literal): (m: map<string, string>)
    ensures !(cotas.Listlike? && resultado.Listlike? && |cotas.items| == |resultado.items|) ==> m == map[]
    ensures cotas.Listlike? && resultado.Listlike? && |cotas.items| == |resultado.items| ==>
      m.Keys == set k | k in cotas.items
  {
    if cotas.Listlike? && resultado.Listlike? && |cotas.items| == |resultado.items| then
      ZipMap(cotas.items, resultado.items)
    else map[]
  }

  /** A well-formed pair of quota columns gives every key the value paired
      with its last occurrence. */
  lemma ExtractDynamicDataLastWins(keys: seq<string>, values: seq<string>, j: int)
    requires |keys| == |values| && 0 <= j < |keys|
    requires forall l :: j < l < |keys| ==> keys[l] != keys[j]
    ensures ExtractDynamicData(Listlike(keys), Listlike(values))[keys[j]] == values[j]
  {
    ZipMapLastWins(keys, values, j);
  }

  /** A row of the processed plan: the plan entry and the dynamic columns the
      dashboard filters on (`None` is a NaN cell). */
  datatype DashRow = DashRow(
    entry: PlanEntry,
    region: Option<string>,
    ageGroup: Option<string>,
    gender: Option<string>,
    sel: Option<string>)

  function Lookup(m: map<string, string>, key: string): Option<string>
  {
    if key in m then Some(m[key]) else None
  }

  /** One plan entry with its dynamic columns attached (my_dashboard.py:71-73). */
  function Attach(e: PlanEntry): DashRow
  {
    var dynamic := ExtractDynamicData(e.row.cotas, e.row.resultadoCota);
    DashRow(e, Lookup(dynamic, "Region"), Lookup(dynamic, "age_group"),
            Lookup(dynamic, "Gender"), Lookup(dynamic, "SEL"))
  }

  /** `astype(str)`: a NaN cell becomes the text `'nan'`. */
  function AsText(v: Option<string>): string
  {
    if v.Some? then v.value else "nan"
  }

  const AnyRegion := "Any Region"
  const NoSel := "Country without SEL"

  /** `astype(str).replace('0', caption)` on one cell. */
  function Relabel(v: Option<string>, caption: string): (r: Option<string>)
    ensures v == Some("0") ==> r == Some(caption)
    ensures v.Some? && v.value != "0" ==> r == v
    ensures v.None? ==> r == Some("nan")
  {
    var s := AsText(v);
    Some(if s == "0" then caption else s)
  }

  /** The final cleaning of one row: only Region and SEL change. */
  function Clean(r: DashRow): (c: DashRow)
    ensures c.entry == r.entry && c.ageGroup == r.ageGroup && c.gender == r.gender
    ensures c.region == Relabel(r.region, AnyRegion) && c.sel == Relabel(r.sel, NoSel)
  {
    r.(region := Relabel(r.region, AnyRegion), sel := Relabel(r.sel, NoSel))
  }

  /** The processed plan: every entry, in order, with its dynamic columns
      attached and Region/SEL relabelled (my_dashboard.py:71-79). */
  function ProcessPlan(plan: seq<PlanEntry>): (rows: seq<DashRow>)
    ensures |rows| == |plan|
    ensures forall k :: 0 <= k < |plan| ==> rows[k] == Clean(Attach(plan[k]))
  {
    seq(|plan|, k requires 0 <= k < |plan| => Clean(Attach(plan[k])))
  }

  /** Relabelling touches nothing but the `'0'` codes and the missing
      cells: after it no row has a missing Region or SEL (a NaN cell becomes
      `'nan'`), a `'0'` code becomes its label, and every other column and
      every other present value are as they were. */
  lemma ProcessPlanRelabels(plan: seq<PlanEntry>, k: int)
    requires 0 <= k < |plan|
    ensures ProcessPlan(plan)[k].entry == plan[k]
    ensures ProcessPlan(plan)[k].region.Some? && ProcessPlan(plan)[k].sel.Some?
    ensures Attach(plan[k]).region == Some("0") ==> ProcessPlan(plan)[k].region == Some(AnyRegion)
    ensures Attach(plan[k]).sel == Some("0") ==> ProcessPlan(plan)[k].sel == Some(NoSel)
    ensures Attach(plan[k]).region.Some? && Attach(plan[k]).region != Some("0") ==>
      ProcessPlan(plan)[k].region == Attach(plan[k]).region
    ensures Attach(plan[k]).sel.Some? && Attach(plan[k]).sel != Some("0") ==>
      ProcessPlan(plan)[k].sel == Attach(plan[k]).sel
    ensures ProcessPlan(plan)[k].ageGroup == Attach(plan[k]).ageGroup
    ensures ProcessPlan(plan)[k].gender == Attach(plan[k]).gender
  {
  }

  /** The sidebar's multiselects; an empty set means nothing was chosen. */
  datatype Selections = Selections(
    projects: set<string>,
    countries: set<string>,
    regions: set<string>,
    ageGroups: set<string>,
    genders: set<string>,
    sels: set<string>)

  /** One multiselect step: an empty selection keeps every row, a non-empty
      one keeps the rows whose cell is in it (a NaN cell is in no selection,
      since the options are taken after `dropna`). */
  predicate Passes(chosen: set<string>, v: Option<string>)
  {
    chosen == {} || (v.Some? && v.value in chosen)
  }

  predicate OnDate(r: DashRow, date: int) { r.entry.planDate == date }

  /** The conjunction of the date filter and the six multiselects. */
  predicate Shown(r: DashRow, date: int, s: Selections)
  {
    && OnDate(r, date)
    && Passes(s.projects, Some(r.entry.row.projectId))
    && Passes(s.countries, r.entry.row.country)
    && Passes(s.regions, r.region)
    && Passes(s.ageGroups, r.ageGroup)
    && Passes(s.genders, r.gender)
    && Passes(s.sels, r.sel)
  }

  /** The cascading sidebar filter (my_dashboard.py:99-135): the seven
      steps narrow the plan one after the other, and the outcome is exactly
      the rows that pass every step at once, in their plan order. */
  method FilterPlan(plan: seq<DashRow>, date: int, s: Selections) returns (shown: seq<DashRow>)
    ensures shown == Filter(plan, (r: DashRow) => Shown(r, date, s))
  {
    shown := Filter(plan, (r: DashRow) => Stage(r, date, s, 0));
    shown := FilterStep(plan, shown, date, s, 0);
    shown := FilterStep(plan, shown, date, s, 1);
    shown := FilterStep(plan, shown, date, s, 2);
    shown := FilterStep(plan, shown, date, s, 3);
    shown := FilterStep(plan, shown, date, s, 4);
    shown := FilterStep(plan, shown, date, s, 5);
    forall r | r in plan ensures Stage(r, date, s, 6) == Shown(r, date, s) {
      StageAll(r, date, s);
    }
    FilterExt(plan, (r: DashRow) => Stage(r, date, s, 6), (r: DashRow) => Shown(r, date, s));
  }

  /** The multiselects in the order they are applied: project, country,
      region, age group, gender, SEL. */
  function Chosen(s: Selections, n: nat): set<string>
  {
    if n == 0 then s.projects
    else if n == 1 then s.countries
    else if n == 2 then s.regions
    else if n == 3 then s.ageGroups
    else if n == 4 then s.genders
    else s.sels
  }

  /** The column multiselect `n` looks at. */
  function Field(r: DashRow, n: nat): Option<string>
  {
    if n == 0 then Some(r.entry.row.projectId)
    else if n == 1 then r.entry.row.country
    else if n == 2 then r.region
    else if n == 3 then r.ageGroup
    else if n == 4 then r.gender
    else r.sel
  }

  /** A row that passes the date filter and the first `n` multiselects. */
  predicate Stage(r: DashRow, date: int, s: Selections, n: nat)
  {
    if n == 0 then OnDate(r, date)
    else Stage(r, date, s, n - 1) && Passes(Chosen(s, n - 1), Field(r, n - 1))
  }

  lemma StageAll(r: DashRow, date: int, s: Selections)
    ensures Stage(r, date, s, 6) == Shown(r, date, s)
  {
    assert Stage(r, date, s, 1) == (Stage(r, date, s, 0) && Passes(s.projects, Some(r.entry.row.projectId)));
    assert Stage(r, date, s, 2) == (Stage(r, date, s, 1) && Passes(s.countries, r.entry.row.country));
    assert Stage(r, date, s, 3) == (Stage(r, date, s, 2) && Passes(s.regions, r.region));
    assert Stage(r, date, s, 4) == (Stage(r, date, s, 3) && Passes(s.ageGroups, r.ageGroup));
    assert Stage(r, date, s, 5) == (Stage(r, date, s, 4) && Passes(s.genders, r.gender));
  }

  /** One `if selected: df = df[df[col].isin(selected)]` step of the
      cascade: the rows that passed the first `n` filters are narrowed to
      those that also pass multiselect `n`; an empty selection is skipped. */
  method FilterStep(plan: seq<DashRow>, shown: seq<DashRow>, date: int, s: Selections, n: nat) returns (next: seq<DashRow>)
    requires shown == Filter(plan, (r: DashRow) => Stage(r, date, s, n))
    ensures next == Filter(plan, (r: DashRow) => Stage(r, date, s, n + 1))
  {
    if Chosen(s, n) != {} {
      next := Filter(shown, (r: DashRow) => Passes(Chosen(s, n), Field(r, n)));
    } else {
      next := shown;
    }
    NarrowStep(plan, shown, (r: DashRow) => Stage(r, date, s, n), (r: DashRow) => Passes(Chosen(s, n), Field(r, n)),
      (r: DashRow) => Stage(r, date, s, n + 1), Chosen(s, n) != {});
  }

  /** What the filter shows: an order-preserving subsequence of the rows of
      the chosen date; every shown row passes every non-empty selection, and
      every row of that date that passes them all is shown. With nothing
      selected the whole day is shown. */
  lemma FilterPlanSpec(plan: seq<DashRow>, date: int, s: Selections)
    ensures IsSubsequence(Filter(plan, (r: DashRow) => Shown(r, date, s)), Filter(plan, (r: DashRow) => OnDate(r, date)))
    ensures forall k :: 0 <= k < |plan| ==> (plan[k] in Filter(plan, (r: DashRow) => Shown(r, date, s)) <==> Shown(plan[k], date, s))
    ensures s == Selections({}, {}, {}, {}, {}, {}) ==>
      Filter(plan, (r: DashRow) => Shown(r, date, s)) == Filter(plan, (r: DashRow) => OnDate(r, date))
  {
    var day := Filter(plan, (r: DashRow) => OnDate(r, date));
    FilterCompose(plan, (r: DashRow) => OnDate(r, date), (r: DashRow) => Shown(r, date, s), (r: DashRow) => Shown(r, date, s));
    FilterIsSubsequence(day, (r: DashRow) => Shown(r, date, s));
    if s == Selections({}, {}, {}, {}, {}, {}) {
      FilterExt(plan, (r: DashRow) => Shown(r, date, s), (r: DashRow) => OnDate(r, date));
    }
  }

  /** The KPI "Today's Recruitment Goal" (my_dashboard.py:147). */
  function GoalTotal(rows: seq<DashRow>): int
  {
    SumOf(rows, (r: DashRow) => r.entry.goal)
  }

  /** The goal shown for a selection plus the goal of the rows it hides make
      up the goal of the whole day. */
  lemma GoalTotalSplits(plan: seq<DashRow>, date: int, s: Selections)
    ensures GoalTotal(Filter(plan, (r: DashRow) => Shown(r, date, s)))
          + GoalTotal(Filter(Filter(plan, (r: DashRow) => OnDate(r, date)), (r: DashRow) => !Shown(r, date, s)))
         == GoalTotal(Filter(plan, (r: DashRow) => OnDate(r, date)))
  {
    var day := Filter(plan, (r: DashRow) => OnDate(r, date));
    FilterCompose(plan, (r: DashRow) => OnDate(r, date), (r: DashRow) => Shown(r, date, s), (r: DashRow) => Shown(r, date, s));
    SumPartition(day, (r: DashRow) => Shown(r, date, s), (r: DashRow) => !Shown(r, date, s), (r: DashRow) => r.entry.goal);
  }

  /** Unpacking the quota columns and relabelling keep every goal: summed
      over every date with nothing selected, the goals of the processed plan
      are those of the plan (which `PlanTotal` ties to the demand). */
  lemma ProcessedGoalsAreThePlan(plan: seq<PlanEntry>)
    ensures GoalTotal(ProcessPlan(plan)) == SumOf(plan, Goal)
  {
    ProcessedGoalsSum(plan, ProcessPlan(plan));
  }

  lemma {:induction false} ProcessedGoalsSum(plan: seq<PlanEntry>, rows: seq<DashRow>)
    requires |rows| == |plan| && forall k :: 0 <= k < |plan| ==> rows[k].entry == plan[k]
    ensures SumOf(rows, (r: DashRow) => r.entry.goal) == SumOf(plan, Goal)
  {
    if plan != [] {
      ProcessedGoalsSum(plan[1..], rows[1..]);
    }
  }
}
