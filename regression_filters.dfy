/** The regression explorer (app.py): observations with a country, a
    recruitment channel and a weekday, three select boxes whose options start
    with the sentinel "Todos" ("all"), and a cumulative equality filter. A
    missing value (NaN) is `None`; NaN equals nothing, not even itself. */
module RegressionFilters {
  import opened Common

  /** The sentinel option that switches a filter off. */
  const All: string := "Todos"

  /** The weekday categories, in their fixed order. */
  const DayOrder: seq<string> := ["Segunda", "Terca", "Quarta", "Quinta", "Sexta", "Sabado", "Domingo"]

  /** One row of the regression table. */
  datatype Observation = Observation(
    country: Option<string>,
    recruit: Option<string>,
    day: Option<string>,
    coef: real,
    nDay: int)

  /** `pd.Categorical(..., categories=day_order)`: a day that is not one of
      the categories becomes NaN. */
  function Categorize(d: Option<string>): (c: Option<string>)
    ensures c.Some? <==> d.Some? && d.value in DayOrder
    ensures c.Some? ==> c == d
  {
    if d.Some? && d.value in DayOrder then d else None
  }

  /** `load_data` once the table is read (app.py:18-22): every day is made
      categorical and nothing else changes. */
  function LoadData(raw: seq<Observation>): (df: seq<Observation>)
    ensures |df| == |raw|
    ensures forall k :: 0 <= k < |df| ==> df[k].day.None? || df[k].day.value in DayOrder
    ensures forall k :: 0 <= k < |df| ==> raw[k].day.Some? && raw[k].day.value in DayOrder ==> df[k].day == raw[k].day
    ensures forall k :: 0 <= k < |df| ==> !(raw[k].day.Some? && raw[k].day.value in DayOrder) ==> df[k].day.None?
    ensures forall k :: 0 <= k < |df| ==>
      df[k].country == raw[k].country && df[k].recruit == raw[k].recruit && df[k].coef == raw[k].coef && df[k].nDay == raw[k].nDay
  {
    seq(|raw|, k requires 0 <= k < |raw| => raw[k].(day := Categorize(raw[k].day)))
  }

  /** `Series.unique()`: each value once, in the order of first appearance
      (NaN counts as one value). */
  function Unique<T(==)>(s: seq<T>): seq<T>
  {
    if s == [] then []
    else
      var u := Unique(s[..|s| - 1]);
      if s[|s| - 1] in u then u else u + [s[|s| - 1]]
  }

  predicate Distinct<T(==)>(s: seq<T>)
  {
    forall i, j :: 0 <= i < j < |s| ==> s[i] != s[j]
  }

  /** `unique` lists exactly the values of the column, each once. */
  lemma {:induction false} UniqueSpec<T>(s: seq<T>)
    ensures Distinct(Unique(s))
    ensures forall x :: x in Unique(s) <==> x in s
  {
    if s != [] {
      var init := s[..|s| - 1];
      UniqueSpec(init);
      assert s == init + [s[|s| - 1]];
    }
  }

  /** The values of a prefix come first and in the same order: the order of
      first appearance. */
  lemma {:induction false} UniquePrefix<T>(s: seq<T>, n: nat)
    requires n <= |s|
    ensures Unique(s[..n]) <= Unique(s)
    decreases |s|
  {
    if n < |s| {
      var init := s[..|s| - 1];
      assert s[..n] == init[..n];
      UniquePrefix(init, n);
    } else {
      assert s[..n] == s;
    }
  }

  /** `[ALL] + df[col].unique().tolist()` (app.py:32-33). */
  function Options(column: seq<Option<string>>): (opts: seq<Option<string>>)
    ensures |opts| >= 1 && opts[0] == Some(All)
  {
    [Some(All)] + Unique(column)
  }

  function Countries(df: seq<Observation>): seq<Option<string>>
  {
    seq(|df|, k requires 0 <= k < |df| => df[k].country)
  }

  function Recruits(df: seq<Observation>): seq<Option<string>>
  {
    seq(|df|, k requires 0 <= k < |df| => df[k].recruit)
  }

  /** After the sentinel, the options are the column's values, each once,
      in order of first appearance. */
  lemma OptionsSpec(column: seq<Option<string>>)
    ensures Options(column)[1..] == Unique(column)
    ensures forall v :: v in Options(column)[1..] <==> v in column
    ensures Distinct(Options(column)[1..])
  {
    UniqueSpec(column);
  }

  /** On the loaded table, the country and recruitment options offer
      exactly the values of the rows read, missing ones included. */
  lemma LoadedOptions(raw: seq<Observation>)
    ensures forall v :: v in Options(Countries(LoadData(raw)))[1..] <==> exists k :: 0 <= k < |raw| && raw[k].country == v
    ensures forall v :: v in Options(Recruits(LoadData(raw)))[1..] <==> exists k :: 0 <= k < |raw| && raw[k].recruit == v
  {
    var df := LoadData(raw);
    OptionsSpec(Countries(df));
    OptionsSpec(Recruits(df));
    assert |Countries(df)| == |raw| && forall k :: 0 <= k < |raw| ==> Countries(df)[k] == raw[k].country;
    assert |Recruits(df)| == |raw| && forall k :: 0 <= k < |raw| ==> Recruits(df)[k] == raw[k].recruit;
  }

  /** `[ALL] + df['DayName'].cat.categories.tolist()` (app.py:35): the
      categories do not depend on the data, so the days are always offered
      in the fixed weekday order. */
  function DayOptions(): (opts: seq<Option<string>>)
    ensures |opts| == |DayOrder| + 1 && opts[0] == Some(All)
    ensures forall k :: 0 <= k < |DayOrder| ==> opts[k + 1] == Some(DayOrder[k])
  {
    [Some(All)] + seq(|DayOrder|, k requires 0 <= k < |DayOrder| => Some(DayOrder[k]))
  }

  /** Every day a loaded row can hold is offered. */
  lemma DayOptionsCover(raw: seq<Observation>)
    ensures forall k :: 0 <= k < |LoadData(raw)| && LoadData(raw)[k].day.Some? ==> LoadData(raw)[k].day in DayOptions()[1..]
  {
    var opts := DayOptions();
    forall k | 0 <= k < |LoadData(raw)| && LoadData(raw)[k].day.Some?
      ensures LoadData(raw)[k].day in opts[1..]
    {
      var d := LoadData(raw)[k].day.value;
      var i :| 0 <= i < |DayOrder| && DayOrder[i] == d;
      assert opts[1..][i] == Some(d);
    }
  }

  /** `selected == ALL`, or pandas' `column == selected`, which is false
      whenever either side is NaN. */
  predicate Passes(selected: Option<string>, v: Option<string>)
  {
    selected == Some(All) || (v.Some? && v == selected)
  }

  /** A row that passes all three select boxes. */
  predicate Selected(o: Observation, country: Option<string>, recruit: Option<string>, day: Option<string>)
  {
    Passes(country, o.country) && Passes(recruit, o.recruit) && Passes(day, o.day)
  }

  /** The rows that pass all three select boxes, in their original order. */
  function Shown(df: seq<Observation>, country: Option<string>, recruit: Option<string>, day: Option<string>): seq<Observation>
  {
    Filter(df, (o: Observation) => Selected(o, country, recruit, day))
  }

  /** The selection of select box `n`: country, recruitment, day. */
  function Choice(n: nat, country: Option<string>, recruit: Option<string>, day: Option<string>): Option<string>
  {
    if n == 0 then country else if n == 1 then recruit else day
  }

  /** The column select box `n` compares against. */
  function Field(o: Observation, n: nat): Option<string>
  {
    if n == 0 then o.country else if n == 1 then o.recruit else o.day
  }

  /** A row that passes the first `n` select boxes. */
  predicate Stage(o: Observation, country: Option<string>, recruit: Option<string>, day: Option<string>, n: nat)
  {
    n == 0 || (Stage(o, country, recruit, day, n - 1) && Passes(Choice(n - 1, country, recruit, day), Field(o, n - 1)))
  }

  /** The cumulative filter (app.py:50-57): each select box that is not
      "Todos" narrows the rows to those whose field equals it. The rows
      shown, whose number is the `N` of the chart title (app.py:67), are the
      rows that pass all three, in their original order. */
  method CumulativeFilter(df: seq<Observation>, country: Option<string>, recruit: Option<string>, day: Option<string>)
    returns (dff: seq<Observation>)
    ensures dff == Shown(df, country, recruit, day)
  {
    dff := df;
    FilterAll(df, (o: Observation) => Stage(o, country, recruit, day, 0));
    dff := FilterStep(df, dff, country, recruit, day, 0);
    assert dff == Filter(df, (o: Observation) => Stage(o, country, recruit, day, 1));
    dff := FilterStep(df, dff, country, recruit, day, 1);
    assert dff == Filter(df, (o: Observation) => Stage(o, country, recruit, day, 2));
    dff := FilterStep(df, dff, country, recruit, day, 2);
    assert dff == Filter(df, (o: Observation) => Stage(o, country, recruit, day, 3));
    StagesSelect(df, country, recruit, day);
  }

  /** Passing the three steps one after the other is passing all three. */
  lemma StagesSelect(df: seq<Observation>, country: Option<string>, recruit: Option<string>, day: Option<string>)
    ensures Filter(df, (o: Observation) => Stage(o, country, recruit, day, 3)) == Shown(df, country, recruit, day)
  {
    forall o | o in df ensures Stage(o, country, recruit, day, 3) == Selected(o, country, recruit, day) {
      assert Stage(o, country, recruit, day, 1) == Passes(country, o.country);
      assert Stage(o, country, recruit, day, 2) == (Passes(country, o.country) && Passes(recruit, o.recruit));
    }
    FilterExt(df, (o: Observation) => Stage(o, country, recruit, day, 3), (o: Observation) => Selected(o, country, recruit, day));
  }

  /** `if selected != ALL: dff = dff[dff[col] == selected]` for select box
      `n`, on the rows that passed the earlier ones. */
  method FilterStep(df: seq<Observation>, dff: seq<Observation>, country: Option<string>, recruit: Option<string>, day: Option<string>, n: nat)
    returns (next: seq<Observation>)
    requires dff == Filter(df, (o: Observation) => Stage(o, country, recruit, day, n))
    ensures next == Filter(df, (o: Observation) => Stage(o, country, recruit, day, n + 1))
  {
    var selected := Choice(n, country, recruit, day);
    if selected != Some(All) {
      next := Filter(dff, (o: Observation) => Field(o, n).Some? && Field(o, n) == selected);
      FilterExt(dff, (o: Observation) => Field(o, n).Some? && Field(o, n) == selected,
        (o: Observation) => Passes(selected, Field(o, n)));
    } else {
      next := dff;
    }
    NarrowStep(df, dff, (o: Observation) => Stage(o, country, recruit, day, n),
      (o: Observation) => Passes(selected, Field(o, n)),
      (o: Observation) => Stage(o, country, recruit, day, n + 1), selected != Some(All));
  }

  /** What the filter shows: an order-preserving subsequence of the table
      holding exactly the rows that pass every select box. */
  lemma ShownSpec(df: seq<Observation>, country: Option<string>, recruit: Option<string>, day: Option<string>)
    ensures IsSubsequence(Shown(df, country, recruit, day), df)
    ensures forall k :: 0 <= k < |df| ==> (df[k] in Shown(df, country, recruit, day) <==> Selected(df[k], country, recruit, day))
  {
    FilterIsSubsequence(df, (o: Observation) => Selected(o, country, recruit, day));
  }

  /** A select box that is not "Todos" keeps only rows whose field equals
      the selection (so the NaN option shows nothing). */
  lemma ShownMatches(df: seq<Observation>, country: Option<string>, recruit: Option<string>, day: Option<string>)
    ensures country != Some(All) ==> forall o :: o in Shown(df, country, recruit, day) ==> o.country.Some? && o.country == country
    ensures recruit != Some(All) ==> forall o :: o in Shown(df, country, recruit, day) ==> o.recruit.Some? && o.recruit == recruit
    ensures day != Some(All) ==> forall o :: o in Shown(df, country, recruit, day) ==> o.day.Some? && o.day == day
  {
  }

  /** With all three select boxes on "Todos" the table is shown unchanged. */
  lemma ShownAll(df: seq<Observation>)
    ensures Shown(df, Some(All), Some(All), Some(All)) == df
  {
    FilterAll(df, (o: Observation) => Selected(o, Some(All), Some(All), Some(All)));
  }
}
