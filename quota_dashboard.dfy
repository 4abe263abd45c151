/** The recruitment overview dashboard (meu_dashboard.py): the quota tuple
    text of every allocation row is unpacked into age group, SEL, gender and
    region, incomplete rows are dropped, the sidebar narrows the rows by
    country, age group, gender and SEL, and two totals are shown. */
module QuotaDashboard {
  import opened Common
  import opened QuotaText

  /** A `resultado_cota` cell: a string, or anything else (a NaN float). */
  datatype Cell = Text(s: string) | NotText

  /** The four fields `extract_quota_data` returns. */
  datatype Quota = Quota(ageGroup: Option<string>, sel: Option<string>, gender: Option<string>, region: Option<string>)

  const Parens: set<char> := {'(', ')'}

  /** `row.strip("()").replace("'", "")`. */
  function Unwrapped(s: string): (u: string)
    ensures '\'' !in u
  {
    DeleteAll(Strip(s, Parens), '\'')
  }

  /** `[item.strip() for item in Unwrapped(s).split(',')]`: one piece per
      comma-separated part of the unwrapped text. */
  function Pieces(s: string): seq<string>
  {
    TrimAll(Split(Unwrapped(s), ','))
  }

  /** There is one piece more than there are commas left after unwrapping. */
  lemma PiecesCount(s: string)
    ensures |Pieces(s)| == multiset(Unwrapped(s))[','] + 1
  {
    SplitShape(Unwrapped(s), ',');
  }

  /** Every piece trimmed. */
  function TrimAll(parts: seq<string>): (r: seq<string>)
    ensures |r| == |parts|
  {
    if parts == [] then [] else [Trim(parts[0])] + TrimAll(parts[1..])
  }

  lemma {:induction false} TrimAllAt(parts: seq<string>, k: nat)
    requires k < |parts|
    ensures TrimAll(parts)[k] == Trim(parts[k])
  {
    if k > 0 {
      TrimAllAt(parts[1..], k - 1);
    }
  }

  /** Piece `k`, or `None` past the end: the padding with `None`. */
  function At(ps: seq<string>, k: nat): Option<string>
  {
    if k < |ps| then Some(ps[k]) else None
  }

  /** The first four pieces, padded with `None`. */
  function FromPieces(ps: seq<string>): Quota
  {
    Quota(At(ps, 0), At(ps, 1), At(ps, 2), At(ps, 3))
  }

  /** The value `extract_quota_data` returns for a cell. A string cannot make
      it raise; anything else fails at `strip` and yields four `None`s. */
  function QuotaOf(c: Cell): (q: Quota)
  {
    match c
    case NotText => Quota(None, None, None, None)
    case Text(s) => FromPieces(Pieces(s))
  }

  /** Component `k` of a quota, in the order of the returned tuple. */
  function Component(q: Quota, k: nat): Option<string>
    requires k < 4
  {
    if k == 0 then q.ageGroup else if k == 1 then q.sel else if k == 2 then q.gender else q.region
  }

  /** `extract_quota_data` (meu_dashboard.py:14-21). */
  method ExtractQuotaData(c: Cell) returns (q: Quota)
    ensures q == QuotaOf(c)
  {
    match c {
      case NotText =>
        q := Quota(None, None, None, None);
      case Text(s) =>
        q := PadToFour(Pieces(s));
    }
  }

  /** The padding of `extract_quota_data` (meu_dashboard.py:17-19): `None`
      is appended until there are four items, and the first four are
      returned. */
  method PadToFour(pieces: seq<string>) returns (q: Quota)
    ensures q == FromPieces(pieces)
  {
    var items: seq<Option<string>> := seq(|pieces|, k requires 0 <= k < |pieces| => Some(pieces[k]));
    while |items| < 4
      invariant |items| >= |pieces|
      invariant forall k :: 0 <= k < |items| ==> items[k] == At(pieces, k)
      decreases 4 - |items|
    {
      items := items + [None];
    }
    q := Quota(items[0], items[1], items[2], items[3]);
  }

  /** Any non-string cell gives four `None`s; a string always gives an age
      group, since splitting yields at least one piece. */
  lemma QuotaOfTotality(c: Cell)
    ensures c.NotText? ==> QuotaOf(c) == Quota(None, None, None, None)
    ensures c.Text? ==> QuotaOf(c).ageGroup.Some?
  {
  }

  /** With fewer than four pieces the missing trailing components are `None`;
      with four or more the components are the first four pieces and the
      rest is discarded. */
  lemma QuotaPadding(ps: seq<string>, k: nat)
    requires k < 4
    ensures Component(FromPieces(ps), k).None? <==> k >= |ps|
    ensures k < |ps| ==> Component(FromPieces(ps), k) == Some(ps[k])
    ensures |ps| >= 4 ==> FromPieces(ps) == Quota(Some(ps[0]), Some(ps[1]), Some(ps[2]), Some(ps[3]))
  {
  }

  /** Every piece is clean: no quote, no comma, and no leading or trailing
      whitespace (stripping it again changes nothing). */
  lemma PieceClean(s: string, k: nat)
    requires k < |Pieces(s)|
    ensures '\'' !in Pieces(s)[k] && ',' !in Pieces(s)[k]
    ensures Trim(Pieces(s)[k]) == Pieces(s)[k]
  {
    var u := Unwrapped(s);
    var raw := Split(u, ',');
    SplitShape(u, ',');
    TrimAllAt(raw, k);
    var piece := raw[k];
    StripChars(piece, Whitespace);
    assert forall x :: x in piece ==> x in u;
    assert '\'' !in piece && ',' !in piece;
    StripIdempotent(piece, Whitespace);
  }

  /** Hence every component of a parsed quota is clean. */
  lemma QuotaComponentsClean(c: Cell, k: nat)
    requires k < 4 && Component(QuotaOf(c), k).Some?
    ensures '\'' !in Component(QuotaOf(c), k).value
    ensures ',' !in Component(QuotaOf(c), k).value
    ensures Trim(Component(QuotaOf(c), k).value) == Component(QuotaOf(c), k).value
  {
    QuotaPadding(Pieces(c.s), k);
    PieceClean(c.s, k);
  }

  /** The text the pieces are cut from no longer starts or ends with a
      parenthesis. */
  lemma UnwrappedEnds(s: string)
    ensures Strip(s, Parens) == [] || (Strip(s, Parens)[0] !in Parens && Strip(s, Parens)[|Strip(s, Parens)| - 1] !in Parens)
    ensures IsSubsequence(Unwrapped(s), Strip(s, Parens))
  {
    DeleteAllSpec(Strip(s, Parens), '\'');
  }

  /** Quote removal happens after stripping, so a parenthesis behind a
      leading quote survives into the first piece. */
  lemma ParenBehindQuoteSurvives()
    ensures QuotaOf(Text("('(a')")).ageGroup == Some("(a")
  {
    ParenField();
    assert "('(a')" == "(" + Quoted("(a") + ")";
    SingleFieldPieces("(a");
  }

  lemma ParenField()
    ensures PlainField("(a")
  {
    var v := "(a";
    assert '\'' !in v && '\\' !in v && ',' !in v;
    assert v[0] == '(' && v[|v| - 1] == 'a';
    assert forall k :: 0 <= k < |v| ==> ' ' <= v[k] <= '~';
    StripNothing(v, Whitespace);
  }

  /** A parenthesised quoted field, `('v')`, parses to that field. */
  lemma SingleFieldPieces(v: string)
    requires PlainField(v)
    ensures Pieces("(" + Quoted(v) + ")") == [v]
  {
    StripRendered(Quoted(v));
    UnquoteField(v);
    SplitFree(v, ',');
    assert [v][1..] == [];
    assert TrimAll([v]) == [Trim(v)] + TrimAll([]);
  }

  /** `str((v,))`, the text Python writes for a one-element tuple, is
      `('v',)`: the trailing comma leaves an empty second piece, so the
      quota gets an empty SEL rather than a missing one. */
  lemma OneTupleQuota(v: string)
    requires PlainField(v)
    ensures QuotaOf(Text("(" + Quoted(v) + ",)")) == Quota(Some(v), Some(""), None, None)
  {
    StripOneTuple(Quoted(v));
    DeleteAllAppend(Quoted(v), ",", '\'');
    UnquoteField(v);
    DeleteAllAbsent(",", '\'');
    assert v + "," == v + [','] + [];
    SplitAfterPiece(v, ',', []);
    var parts: seq<string> := [v, []];
    assert Split(Unwrapped("(" + Quoted(v) + ",)"), ',') == parts;
    assert Trim([]) == [];
    TrimAllTo(parts, parts);
  }

  /** Stripping the parentheses of a one-element tuple leaves the quoted
      field and its comma. */
  lemma StripOneTuple(inner: string)
    requires |inner| >= 2 && inner[0] == '\'' && inner[|inner| - 1] == '\''
    ensures Strip("(" + inner + ",)", Parens) == inner + ","
  {
    var s := "(" + inner + ",)";
    assert s[0] == '(' && s[1..] == inner + ",)";
    assert StripLeft(inner + ",)", Parens) == inner + ",)";
    var t := inner + ",)";
    assert t[|t| - 1] == ')' && t[..|t| - 1] == inner + ",";
    assert StripRight(inner + ",", Parens) == inner + ",";
  }

  /** When the unwrapped text is a join of comma-free parts, the pieces are
      those parts trimmed. */
  lemma PiecesOfJoin(s: string, parts: seq<string>)
    requires |parts| >= 1 && forall k :: 0 <= k < |parts| ==> ',' !in parts[k]
    requires Unwrapped(s) == Join(parts, ',')
    ensures Pieces(s) == TrimAll(parts)
  {
    JoinSplit(parts, ',');
  }

  /** The text Python writes for a tuple of four strings: `str((a, b, c, d))`. */
  function RenderQuota(a: string, b: string, c: string, d: string): string
  {
    "(" + Quoted(a) + ", " + Quoted(b) + ", " + Quoted(c) + ", " + Quoted(d) + ")"
  }

  function Quoted(v: string): string { "'" + v + "'" }

  /** A field that survives the parser unchanged and that Python's `repr`
      writes between single quotes as it is: printable ASCII, with no quote,
      no backslash and no comma, and no surrounding whitespace. */
  predicate PlainField(v: string)
  {
    && (forall k :: 0 <= k < |v| ==> ' ' <= v[k] <= '~')
    && '\'' !in v && '\\' !in v && ',' !in v
    && Trim(v) == v
  }

  /** Stripping the parentheses of a rendered tuple leaves what is between them. */
  lemma StripRendered(inner: string)
    requires |inner| >= 2 && inner[0] == '\'' && inner[|inner| - 1] == '\''
    ensures Strip("(" + inner + ")", Parens) == inner
  {
    var s := "(" + inner + ")";
    assert s[0] == '(' && s[1..] == inner + ")";
    assert StripLeft(inner + ")", Parens) == inner + ")";
    var t := inner + ")";
    assert t[|t| - 1] == ')' && t[..|t| - 1] == inner;
    assert StripRight(inner, Parens) == inner;
  }

  /** Removing the quotes of a quoted plain field leaves the field. */
  lemma UnquoteField(v: string)
    requires '\'' !in v
    ensures DeleteAll(Quoted(v), '\'') == v
  {
    DeleteAllAppend("'" + v, "'", '\'');
    DeleteAllAppend("'", v, '\'');
    DeleteAllAbsent(v, '\'');
    assert DeleteAll("'", '\'') == [] by {
      assert "'"[1..] == [];
    }
  }

  /** Removing the quotes of a rendered tuple leaves `a, b, c, d`. */
  lemma UnquoteRendered(a: string, b: string, c: string, d: string)
    requires '\'' !in a && '\'' !in b && '\'' !in c && '\'' !in d
    ensures DeleteAll(Quoted(a) + ", " + Quoted(b) + ", " + Quoted(c) + ", " + Quoted(d), '\'')
         == a + ", " + b + ", " + c + ", " + d
  {
    var sep := ", ";
    DeleteAllAbsent(sep, '\'');
    UnquoteField(a);
    UnquoteField(b);
    UnquoteField(c);
    UnquoteField(d);
    DeleteAllAppend(Quoted(a) + sep + Quoted(b) + sep + Quoted(c) + sep, Quoted(d), '\'');
    DeleteAllAppend(Quoted(a) + sep + Quoted(b) + sep + Quoted(c), sep, '\'');
    DeleteAllAppend(Quoted(a) + sep + Quoted(b) + sep, Quoted(c), '\'');
    DeleteAllAppend(Quoted(a) + sep + Quoted(b), sep, '\'');
    DeleteAllAppend(Quoted(a) + sep, Quoted(b), '\'');
    DeleteAllAppend(Quoted(a), sep, '\'');
  }

  /** Round trip: parsing the text of a tuple of four plain fields gives back
      the four fields. */
  lemma RenderQuotaRoundTrip(a: string, b: string, c: string, d: string)
    requires PlainField(a) && PlainField(b) && PlainField(c) && PlainField(d)
    ensures QuotaOf(Text(RenderQuota(a, b, c, d))) == Quota(Some(a), Some(b), Some(c), Some(d))
  {
    RenderedPieces(a, b, c, d);
  }

  lemma RenderedPieces(a: string, b: string, c: string, d: string)
    requires PlainField(a) && PlainField(b) && PlainField(c) && PlainField(d)
    ensures Pieces(RenderQuota(a, b, c, d)) == [a, b, c, d]
  {
    RenderedUnwrapped(a, b, c, d);
    PiecesOfJoin(RenderQuota(a, b, c, d), [a, " " + b, " " + c, " " + d]);
    TrimRenderedParts(a, b, c, d);
  }

  lemma TrimRenderedParts(a: string, b: string, c: string, d: string)
    requires Trim(a) == a && Trim(b) == b && Trim(c) == c && Trim(d) == d
    ensures TrimAll([a, " " + b, " " + c, " " + d]) == [a, b, c, d]
  {
    TrimLeadingSpace(b);
    TrimLeadingSpace(c);
    TrimLeadingSpace(d);
    TrimAllTo([a, " " + b, " " + c, " " + d], [a, b, c, d]);
  }

  /** Trimming every part gives `target` when it does so part by part. */
  lemma {:induction false} TrimAllTo(parts: seq<string>, target: seq<string>)
    requires |parts| == |target|
    requires forall k :: 0 <= k < |parts| ==> Trim(parts[k]) == target[k]
    ensures TrimAll(parts) == target
  {
    if parts != [] {
      TrimAllTo(parts[1..], target[1..]);
      assert target == [target[0]] + target[1..];
    }
  }

  lemma RenderedUnwrapped(a: string, b: string, c: string, d: string)
    requires '\'' !in a && '\'' !in b && '\'' !in c && '\'' !in d
    requires ',' !in a && ',' !in b && ',' !in c && ',' !in d
    ensures Unwrapped(RenderQuota(a, b, c, d)) == Join([a, " " + b, " " + c, " " + d], ',')
    ensures ',' !in " " + b && ',' !in " " + c && ',' !in " " + d
  {
    RenderedStrip(a, b, c, d);
    UnquoteRendered(a, b, c, d);
    JoinFour(a, b, c, d);
  }

  lemma RenderedStrip(a: string, b: string, c: string, d: string)
    ensures Strip(RenderQuota(a, b, c, d), Parens)
         == Quoted(a) + ", " + Quoted(b) + ", " + Quoted(c) + ", " + Quoted(d)
  {
    var inner := Quoted(a) + ", " + Quoted(b) + ", " + Quoted(c) + ", " + Quoted(d);
    assert RenderQuota(a, b, c, d) == "(" + inner + ")";
    StripRendered(inner);
  }

  lemma JoinFour(a: string, b: string, c: string, d: string)
    ensures Join([a, " " + b, " " + c, " " + d], ',') == a + ", " + b + ", " + c + ", " + d
  {
    var sb, sc, sd := " " + b, " " + c, " " + d;
    var parts := [a, sb, sc, sd];
    assert Join([sd], ',') == sd;
    assert [sc, sd][1..] == [sd];
    assert Join([sc, sd], ',') == sc + [','] + sd;
    assert [sb, sc, sd][1..] == [sc, sd];
    assert Join([sb, sc, sd], ',') == sb + [','] + (sc + [','] + sd);
    assert parts[1..] == [sb, sc, sd];
    assert Join(parts, ',') == a + [','] + (sb + [','] + (sc + [','] + sd));
    assert ", " + b == [','] + sb && ", " + c == [','] + sc && ", " + d == [','] + sd;
  }

  /** One row of the allocation table as the overview reads it; a count
      that `to_numeric(errors='coerce')` cannot read is `None`. */
  datatype RawRow = RawRow(pais: string, resultadoCota: Cell, people: Option<int>, completes: Option<int>)

  /** A row once the four quota columns have been added. */
  datatype ExtractedRow = ExtractedRow(pais: string, quota: Quota, people: Option<int>, completes: Option<int>)

  /** A row that survives the cleaning: every required field present. */
  datatype CleanRow = CleanRow(
    pais: string,
    ageGroup: string,
    sel: string,
    gender: string,
    region: Option<string>,
    people: int,
    completes: int)

  /** `df[['age_group', 'SEL', 'Gender', 'Region']] = ...apply(extract_quota_data)`. */
  function Extract(r: RawRow): ExtractedRow
  {
    ExtractedRow(r.pais, QuotaOf(r.resultadoCota), r.people, r.completes)
  }

  /** The `dropna` subset: both counts, age group, SEL and gender present. */
  predicate Complete(r: ExtractedRow)
  {
    r.people.Some? && r.completes.Some? && r.quota.ageGroup.Some? && r.quota.sel.Some? && r.quota.gender.Some?
  }

  /** The cleaned form of a complete row. */
  function Cleaned(r: ExtractedRow): (c: CleanRow)
    requires Complete(r)
  {
    CleanRow(r.pais, r.quota.ageGroup.value, r.quota.sel.value, r.quota.gender.value, r.quota.region,
      r.people.value, r.completes.value)
  }

  /** `dropna(subset=...)` followed by the conversion of the counts: exactly
      the complete rows are kept, in order, each cleaned. */
  function DropIncomplete(rows: seq<ExtractedRow>): (clean: seq<CleanRow>)
    ensures |clean| == |Filter(rows, Complete)|
    ensures forall k :: 0 <= k < |clean| ==>
      Complete(Filter(rows, Complete)[k]) && clean[k] == Cleaned(Filter(rows, Complete)[k])
  {
    if rows == [] then []
    else
      var rest := DropIncomplete(rows[1..]);
      if Complete(rows[0]) then
        assert Filter(rows, Complete) == [rows[0]] + Filter(rows[1..], Complete);
        [Cleaned(rows[0])] + rest
      else
        assert Filter(rows, Complete) == Filter(rows[1..], Complete);
        rest
  }

  /** The four quota columns added to every row read, in order
      (meu_dashboard.py:23-25). */
  function ExtractAll(raw: seq<RawRow>): (rows: seq<ExtractedRow>)
    ensures |rows| == |raw|
    ensures forall k :: 0 <= k < |raw| ==> rows[k] == ExtractedRow(raw[k].pais, QuotaOf(raw[k].resultadoCota), raw[k].people, raw[k].completes)
  {
    seq(|raw|, k requires 0 <= k < |raw| => Extract(raw[k]))
  }

  /** `load_and_process_data` (meu_dashboard.py:11-38) on the rows read:
      the rows whose parsed quota and counts are complete, in order, each
      cleaned. */
  function LoadAndProcess(raw: seq<RawRow>): (clean: seq<CleanRow>)
    ensures |clean| == |Filter(ExtractAll(raw), Complete)|
    ensures forall k :: 0 <= k < |clean| ==> clean[k] == Cleaned(Filter(ExtractAll(raw), Complete)[k])
  {
    DropIncomplete(ExtractAll(raw))
  }

  /** A row whose quota cell is not a string is never kept, whatever the
      other rows hold: its parsed fields are all missing, so every loaded
      row comes from a row read whose quota cell is a string. */
  lemma UnparsedRowsDropped(raw: seq<RawRow>)
    ensures forall c :: c in LoadAndProcess(raw) ==>
      exists j :: 0 <= j < |raw| && raw[j].resultadoCota.Text? && Complete(ExtractAll(raw)[j]) && c == Cleaned(ExtractAll(raw)[j])
  {
    var rows := ExtractAll(raw);
    var kept := Filter(rows, Complete);
    forall c | c in LoadAndProcess(raw)
      ensures exists j :: 0 <= j < |raw| && raw[j].resultadoCota.Text? && Complete(rows[j]) && c == Cleaned(rows[j])
    {
      var k :| 0 <= k < |LoadAndProcess(raw)| && LoadAndProcess(raw)[k] == c;
      var e := kept[k];
      assert e in rows && Complete(e);
      var j :| 0 <= j < |rows| && rows[j] == e;
      QuotaOfTotality(raw[j].resultadoCota);
    }
  }

  /** The columns the sidebar filters on after the country. */
  datatype Column = AgeGroup | Gender | SocialClass

  function Get(r: CleanRow, col: Column): string
  {
    match col
    case AgeGroup => r.ageGroup
    case Gender => r.gender
    case SocialClass => r.sel
  }

  /** `df[col].unique()`, as a set. */
  function Values(rows: seq<CleanRow>, col: Column): set<string>
  {
    set r | r in rows :: Get(r, col)
  }

  /** At most one distinct value left in a column. */
  predicate Uniform(rows: seq<CleanRow>, col: Column)
  {
    forall x, y :: x in rows && y in rows ==> Get(x, col) == Get(y, col)
  }

  /** The sidebar's multiselects. */
  datatype Selections = Selections(countries: set<string>, ageGroups: set<string>, genders: set<string>, sels: set<string>)

  function Chosen(s: Selections, col: Column): set<string>
  {
    match col
    case AgeGroup => s.ageGroups
    case Gender => s.genders
    case SocialClass => s.sels
  }

  predicate Passes(chosen: set<string>, v: string)
  {
    chosen == {} || v in chosen
  }

  /** A row that passes every non-empty selection. */
  predicate Qualifies(r: CleanRow, s: Selections)
  {
    && Passes(s.countries, r.pais)
    && Passes(s.ageGroups, r.ageGroup)
    && Passes(s.genders, r.gender)
    && Passes(s.sels, r.sel)
  }

  /** `len(sorted(df_filtered[col].unique())) > 1` holds exactly when the
      column still has two different values. */
  lemma ValuesUniform(rows: seq<CleanRow>, col: Column)
    ensures |Values(rows, col)| <= 1 <==> Uniform(rows, col)
  {
    var vs := Values(rows, col);
    if !Uniform(rows, col) {
      var x, y :| x in rows && y in rows && Get(x, col) != Get(y, col);
      AtLeastTwo(vs, Get(x, col), Get(y, col));
    } else if rows != [] {
      assert vs == {Get(rows[0], col)};
    } else {
      assert vs == {};
    }
  }

  /** One conditional step of the chain for column `col`
      (meu_dashboard.py:65-81): skipped when the column has at most one value
      left or nothing is selected; otherwise the rows whose value is
      selected, in order. */
  function Step(shown: seq<CleanRow>, s: Selections, col: Column): (narrowed: seq<CleanRow>)
    ensures Uniform(shown, col) || Chosen(s, col) == {} ==> narrowed == shown
    ensures !Uniform(shown, col) && Chosen(s, col) != {} ==>
      narrowed == Filter(shown, (r: CleanRow) => Get(r, col) in Chosen(s, col))
  {
    ValuesUniform(shown, col);
    if |Values(shown, col)| > 1 && Chosen(s, col) != {} then
      Filter(shown, (r: CleanRow) => Get(r, col) in Chosen(s, col))
    else shown
  }

  /** The country step (meu_dashboard.py:62-63), applied to a non-empty
      selection only. */
  function ByCountry(rows: seq<CleanRow>, s: Selections): seq<CleanRow>
  {
    if s.countries != {} then Filter(rows, (r: CleanRow) => r.pais in s.countries) else rows
  }

  /** The rows the sidebar leaves: the country step, then the age group,
      gender and SEL steps, each on the rows the previous one left. */
  function ShownQuotas(rows: seq<CleanRow>, s: Selections): seq<CleanRow>
  {
    Step(Step(Step(ByCountry(rows, s), s, AgeGroup), s, Gender), s, SocialClass)
  }

  /** The conditional filter chain (meu_dashboard.py:58-81), reassigning
      the filtered rows step by step. */
  method FilterQuotas(rows: seq<CleanRow>, s: Selections) returns (shown: seq<CleanRow>)
    ensures shown == ShownQuotas(rows, s)
  {
    shown := rows;
    if s.countries != {} {
      shown := Filter(shown, (r: CleanRow) => r.pais in s.countries);
    }
    shown := NarrowColumn(shown, s, AgeGroup);
    shown := NarrowColumn(shown, s, Gender);
    shown := NarrowColumn(shown, s, SocialClass);
  }

  /** `values = sorted(df_filtered[col].unique())`, then
      `if len(values) > 1: ... if selected: df_filtered = df_filtered[...]`. */
  method NarrowColumn(shown: seq<CleanRow>, s: Selections, col: Column) returns (narrowed: seq<CleanRow>)
    ensures narrowed == Step(shown, s, col)
  {
    var values := Values(shown, col);
    if |values| > 1 && Chosen(s, col) != {} {
      narrowed := Filter(shown, (r: CleanRow) => Get(r, col) in Chosen(s, col));
    } else {
      narrowed := shown;
    }
  }

  /** What the filter shows lies between the rows that pass every selection
      and all rows, in the subsequence order. Every shown row passes the
      country selection; for each other column either every shown row
      passes that selection or the column was left with a single value.
      With nothing selected every row is shown. */
  lemma FilterQuotasSpec(rows: seq<CleanRow>, s: Selections)
    ensures IsSubsequence(Filter(rows, (r: CleanRow) => Qualifies(r, s)), ShownQuotas(rows, s))
    ensures IsSubsequence(ShownQuotas(rows, s), rows)
    ensures forall r :: r in ShownQuotas(rows, s) ==> Passes(s.countries, r.pais)
    ensures forall col: Column :: Chosen(s, col) != {} ==>
      (forall r :: r in ShownQuotas(rows, s) ==> Get(r, col) in Chosen(s, col)) || Uniform(ShownQuotas(rows, s), col)
    ensures s == Selections({}, {}, {}, {}) ==> ShownQuotas(rows, s) == rows
  {
    var wanted := (r: CleanRow) => Qualifies(r, s);
    FilterIsSubsequence(rows, wanted);
    SubsequenceRefl(rows);
    if s.countries != {} {
      NarrowKeeps(rows, rows, wanted, (r: CleanRow) => r.pais in s.countries);
    }
    var byCountry := ByCountry(rows, s);
    assert forall r :: r in byCountry ==> Passes(s.countries, r.pais);
    var byAge := Step(byCountry, s, AgeGroup);
    StepKeeps(rows, byCountry, s, AgeGroup);
    var byGender := Step(byAge, s, Gender);
    StepKeeps(rows, byAge, s, Gender);
    var shown := Step(byGender, s, SocialClass);
    StepKeeps(rows, byGender, s, SocialClass);
    SubsequenceTrans(shown, byGender, byAge);
    SubsequenceTrans(shown, byAge, byCountry);
    SubsequenceMembers(shown, byCountry);
    forall col: Column | Chosen(s, col) != {}
      ensures (forall r :: r in shown ==> Get(r, col) in Chosen(s, col)) || Uniform(shown, col)
    {
      if col == AgeGroup {
        NarrowedKeeps(shown, byAge, col, Chosen(s, col));
      } else if col == Gender {
        NarrowedKeeps(shown, byGender, col, Chosen(s, col));
      }
    }
  }

  /** A column left with one value after the earlier steps ignores its
      selection: the age group filter is not even offered then. */
  lemma UniformColumnIgnored(rows: seq<CleanRow>, s: Selections)
    requires Uniform(ByCountry(rows, s), AgeGroup)
    ensures ShownQuotas(rows, s) == ShownQuotas(rows, s.(ageGroups := {}))
  {
    var t := s.(ageGroups := {});
    assert ByCountry(rows, t) == ByCountry(rows, s);
    assert Step(ByCountry(rows, s), s, AgeGroup) == ByCountry(rows, s);
    assert Step(ByCountry(rows, t), t, AgeGroup) == ByCountry(rows, s);
    assert Chosen(t, Gender) == Chosen(s, Gender) && Chosen(t, SocialClass) == Chosen(s, SocialClass);
  }

  /** Narrowing further keeps what a column step established. */
  lemma NarrowedKeeps(a: seq<CleanRow>, b: seq<CleanRow>, col: Column, chosen: set<string>)
    requires IsSubsequence(a, b)
    requires (forall r :: r in b ==> Get(r, col) in chosen) || Uniform(b, col)
    ensures (forall r :: r in a ==> Get(r, col) in chosen) || Uniform(a, col)
  {
    SubsequenceMembers(a, b);
  }

  /** A step keeps the rows between those passing every selection and all
      rows, takes a subsequence of its input, and leaves the column either
      passing its selection or with a single value. */
  lemma StepKeeps(rows: seq<CleanRow>, shown: seq<CleanRow>, s: Selections, col: Column)
    requires IsSubsequence(Filter(rows, (r: CleanRow) => Qualifies(r, s)), shown)
    requires IsSubsequence(shown, rows)
    ensures IsSubsequence(Filter(rows, (r: CleanRow) => Qualifies(r, s)), Step(shown, s, col))
    ensures IsSubsequence(Step(shown, s, col), rows)
    ensures IsSubsequence(Step(shown, s, col), shown)
    ensures Chosen(s, col) != {} ==>
      (forall r :: r in Step(shown, s, col) ==> Get(r, col) in Chosen(s, col)) || Uniform(Step(shown, s, col), col)
  {
    if !Uniform(shown, col) && Chosen(s, col) != {} {
      NarrowKeeps(rows, shown, (r: CleanRow) => Qualifies(r, s), (r: CleanRow) => Get(r, col) in Chosen(s, col));
      FilterIsSubsequence(shown, (r: CleanRow) => Get(r, col) in Chosen(s, col));
    } else {
      SubsequenceRefl(shown);
    }
  }

  lemma AtLeastTwo(vs: set<string>, x: string, y: string)
    requires x in vs && y in vs && x != y
    ensures |vs| >= 2
  {
    var rest := vs - {x};
    assert vs == rest + {x};
    assert y in rest;
  }

  /** The two KPIs, "Completes Needed" and "Panelists Needed"
      (meu_dashboard.py:85-89); nothing is shown for an empty selection. */
  datatype Kpis = Kpis(completesNeeded: int, panelistsNeeded: int)

  function Completes(r: CleanRow): int { r.completes }
  function People(r: CleanRow): int { r.people }

  function Overview(shown: seq<CleanRow>): (k: Option<Kpis>)
    ensures k.None? <==> shown == []
  {
    if shown == [] then None else Some(Kpis(SumOf(shown, Completes), SumOf(shown, People)))
  }

  /** A single row's KPIs are its own two counts. */
  lemma OverviewSingle(r: CleanRow)
    ensures Overview([r]) == Some(Kpis(r.completes, r.people))
  {
    assert [r][1..] == [];
    assert SumOf([r], Completes) == r.completes + SumOf([], Completes);
    assert SumOf([r], People) == r.people + SumOf([], People);
  }

  /** The KPIs add up over a split of the rows shown: each total is the sum
      of its column over every row shown. */
  lemma OverviewAdditive(a: seq<CleanRow>, b: seq<CleanRow>)
    requires a != [] && b != []
    ensures Overview(a + b) == Some(Kpis(
      Overview(a).value.completesNeeded + Overview(b).value.completesNeeded,
      Overview(a).value.panelistsNeeded + Overview(b).value.panelistsNeeded))
  {
    SumAppend(a, b, Completes);
    SumAppend(a, b, People);
  }
}
