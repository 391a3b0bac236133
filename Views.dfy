/**
 * The tables `main` builds for one selected company (app.py lines
 * 74-87, 93-114, 166-168, 198-202 and 210-211), without their display.
 */
module Views {
  import opened Wrappers
  import opened Dates
  import opened Ranking
  import opened Units
  import opened Ownership
  import opened Holdings

  /** Sort key of `quarter_date`. */
  function QuarterKey(r: Row): real {
    Ordinal(r.quarter) as real
  }

  /** Sort key of `InstitutionPercentHeld`. */
  function PercentKey(r: Row): real {
    r.percentHeld
  }

  function SymbolOf(r: Row): string {
    r.symbol
  }

  /** Oldest quarter first. */
  ghost predicate Chronological(s: seq<Row>) {
    forall i, j :: 0 <= i < j < |s| ==> DateLe(s[i].quarter, s[j].quarter)
  }

  lemma AscendingIsChronological(s: seq<Row>)
    requires Ascending(s, QuarterKey)
    ensures Chronological(s)
  {
    forall i, j | 0 <= i < j < |s| ensures DateLe(s[i].quarter, s[j].quarter) {
      OrdinalOrder(s[i].quarter, s[j].quarter);
    }
  }

  function OfCompany(company: string): Row -> bool {
    (r: Row) => r.symbol == company
  }

  function InQuarters(selected: set<Label>): Row -> bool {
    (r: Row) => QuarterLabel(r.quarter) in selected
  }

  /** `df[df["Company_symbol"] == company].sort_values("quarter_date")` */
  function CompanyRows(df: seq<Row>, company: string): (r: seq<Row>)
    ensures forall x :: multiset(r)[x] == if x.symbol == company then multiset(df)[x] else 0
    ensures forall x :: x in r <==> x in df && x.symbol == company
    ensures Ascending(r, QuarterKey)
    ensures Chronological(r)
  {
    var r := SortBy(Filter(df, OfCompany(company)), QuarterKey);
    assert forall x :: x in r <==> x in multiset(r);
    AscendingIsChronological(r);
    r
  }

  /** The quarter labels of a table, each once, in the order they appear (`unique()`). */
  function QuarterList(rows: seq<Row>): (r: seq<Label>)
    ensures forall i, j :: 0 <= i < j < |r| ==> r[i] != r[j]
    ensures (set l | l in r) == LabelSet(rows)
  {
    var labels := seq(|rows|, i requires 0 <= i < |rows| => QuarterLabel(rows[i].quarter));
    LabelsOfRows(rows, labels);
    Distinct(labels)
  }

  function LabelSet(rows: seq<Row>): set<Label> {
    set x | x in rows :: QuarterLabel(x.quarter)
  }

  lemma LabelsOfRows(rows: seq<Row>, labels: seq<Label>)
    requires |labels| == |rows|
    requires forall i :: 0 <= i < |rows| ==> labels[i] == QuarterLabel(rows[i].quarter)
    ensures (set l | l in labels) == LabelSet(rows)
  {
    forall x | x in rows ensures QuarterLabel(x.quarter) in labels {
      var i :| 0 <= i < |rows| && rows[i] == x;
      assert labels[i] == QuarterLabel(x.quarter);
    }
  }

  /**
   * The company's rows whose quarter label was selected, oldest first:
   * exactly those rows of `df`, as a subsequence of the company's sorted rows.
   */
  function CompanyView(df: seq<Row>, company: string, selected: set<Label>): (v: seq<Row>)
    ensures forall x :: multiset(v)[x] ==
              if x.symbol == company && QuarterLabel(x.quarter) in selected then multiset(df)[x] else 0
    ensures forall x :: x in v <==> x in df && x.symbol == company && QuarterLabel(x.quarter) in selected
    ensures Chronological(v)
    ensures IsSubseq(v, CompanyRows(df, company))
  {
    var sorted := CompanyRows(df, company);
    FilterAscending(sorted, InQuarters(selected), QuarterKey);
    var v := Filter(sorted, InQuarters(selected));
    AscendingIsChronological(v);
    v
  }

  /** With the default selection (every quarter of the company) the view is all of the company's rows. */
  lemma DefaultSelectionKeepsAll(df: seq<Row>, company: string)
    ensures CompanyView(df, company, set l | l in QuarterList(CompanyRows(df, company)))
            == CompanyRows(df, company)
  {
    var sorted := CompanyRows(df, company);
    var selected := set l | l in QuarterList(sorted);
    assert selected == LabelSet(sorted);
    forall x | x in sorted ensures InQuarters(selected)(x) {
      assert QuarterLabel(x.quarter) in LabelSet(sorted);
    }
    FilterAll(sorted, InQuarters(selected));
  }

  datatype Endpoints = Endpoints(first: Row, latest: Row)

  /**
   * `iloc[0]` and `iloc[-1]` of the view; None when the view is empty
   * (the dashboard stops there).  On a chronological view they are the
   * earliest and the latest quarter.
   */
  function FirstAndLatest(v: seq<Row>): (r: Option<Endpoints>)
    ensures r.None? <==> |v| == 0
    ensures r.Some? ==> r.value.first in v && r.value.latest in v
    ensures r.Some? && Chronological(v) ==>
              forall x :: x in v ==> DateLe(r.value.first.quarter, x.quarter) && DateLe(x.quarter, r.value.latest.quarter)
    ensures |v| == 1 ==> r == Some(Endpoints(v[0], v[0]))
  {
    if |v| == 0 then None
    else
      assert forall x :: x in v ==> exists k :: 0 <= k < |v| && v[k] == x;
      forall x | x in v ensures DateLe(x.quarter, x.quarter) {
        OrdinalOrder(x.quarter, x.quarter);
      }
      Some(Endpoints(v[0], v[|v| - 1]))
  }

  /** The eight summary metrics of the latest quarter, amounts in millions. */
  datatype KeyMetrics = KeyMetrics(
    percentHeld: real, sharesHeld: real, netShareChange: real, holders: int,
    bought: real, sold: real, shareFloat: real, outstanding: real)

  function Summary(e: Endpoints): (m: KeyMetrics)
    ensures m.percentHeld == e.latest.percentHeld && m.holders == e.latest.holders
    ensures InMillions(m.sharesHeld, e.latest.shareHeld)
    ensures InMillions(m.netShareChange, e.latest.shareHeld - e.first.shareHeld)
    ensures InMillions(m.bought, e.latest.bought as real)
    ensures InMillions(m.sold, e.latest.sold as real)
    ensures InMillions(m.shareFloat, e.latest.shareFloat as real)
    ensures InMillions(m.outstanding, e.latest.outstanding as real)
  {
    var l := e.latest;
    KeyMetrics(l.percentHeld, ToMillion(l.shareHeld), ToMillion(l.shareHeld - e.first.shareHeld),
      l.holders, ToMillion(l.bought as real), ToMillion(l.sold as real),
      ToMillion(l.shareFloat as real), ToMillion(l.outstanding as real))
  }

  /** The seven "change between selected quarters" metrics: latest minus first. */
  datatype Changes = Changes(
    percentHeld: real, sharesHeld: real, holders: int,
    bought: real, sold: real, shareFloat: real, outstanding: real)

  function ChangeMetrics(e: Endpoints): (c: Changes)
    ensures c.percentHeld == e.latest.percentHeld - e.first.percentHeld
    ensures c.holders == e.latest.holders - e.first.holders
    ensures InMillions(c.sharesHeld, e.latest.shareHeld - e.first.shareHeld)
    ensures InMillions(c.bought, (e.latest.bought - e.first.bought) as real)
    ensures InMillions(c.sold, (e.latest.sold - e.first.sold) as real)
    ensures InMillions(c.shareFloat, (e.latest.shareFloat - e.first.shareFloat) as real)
    ensures InMillions(c.outstanding, (e.latest.outstanding - e.first.outstanding) as real)
  {
    var f, l := e.first, e.latest;
    Changes(l.percentHeld - f.percentHeld, MillionsChange(f.shareHeld, l.shareHeld),
      l.holders - f.holders, MillionsChange(f.bought as real, l.bought as real),
      MillionsChange(f.sold as real, l.sold as real),
      MillionsChange(f.shareFloat as real, l.shareFloat as real),
      MillionsChange(f.outstanding as real, l.outstanding as real))
  }

  /** `to_million(latest - first)` */
  function MillionsChange(first: real, latest: real): (r: real)
    ensures InMillions(r, latest - first)
  {
    ToMillion(latest - first)
  }

  /** A view of one quarter shows no change at all. */
  lemma SingleQuarterNoChange(e: Endpoints)
    requires e.first == e.latest
    ensures ChangeMetrics(e) == Changes(0.0, 0.0, 0, 0.0, 0.0, 0.0, 0.0)
  {
    ToMillionExamples();
  }

  function Negated(c: Changes): Changes {
    Changes(-c.percentHeld, -c.sharesHeld, -c.holders, -c.bought, -c.sold, -c.shareFloat, -c.outstanding)
  }

  /** Swapping the two ends negates every change, rounded ones included. */
  lemma ChangesReversed(a: Row, b: Row)
    ensures ChangeMetrics(Endpoints(b, a)) == Negated(ChangeMetrics(Endpoints(a, b)))
  {
    MillionsChangeReversed(a.shareHeld, b.shareHeld);
    MillionsChangeReversed(a.bought as real, b.bought as real);
    MillionsChangeReversed(a.sold as real, b.sold as real);
    MillionsChangeReversed(a.shareFloat as real, b.shareFloat as real);
    MillionsChangeReversed(a.outstanding as real, b.outstanding as real);
  }

  lemma MillionsChangeReversed(x: real, y: real)
    ensures MillionsChange(y, x) == -MillionsChange(x, y)
  {
    assert x - y == -(y - x);
    ToMillionOdd(y - x);
  }

  function SymbolSet(rows: seq<Row>): set<string> {
    set x | x in rows :: x.symbol
  }

  /**
   * `x.loc[x["quarter_date"].idxmax()]` for the group of one symbol: a row
   * of the symbol with its latest quarter, and no row of the symbol with
   * that same quarter comes before it in the table.
   */
  function LatestOf(rows: seq<Row>, s: string): (x: Row)
    requires s in SymbolSet(rows)
    ensures x in rows && x.symbol == s
    ensures forall y :: y in rows && y.symbol == s ==> QuarterKey(y) <= QuarterKey(x)
    ensures forall j :: 0 <= j < |rows| && rows[j].symbol == s && rows[j].quarter == x.quarter ==> x in rows[..j + 1]
  {
    GroupNonEmpty(rows, s);
    var k := ArgMaxWhere(rows, OfCompany(s), QuarterKey);
    assert forall j :: 0 <= j < |rows| && rows[j].symbol == s && rows[j].quarter == rows[k].quarter ==>
      k <= j && rows[..j + 1][k] == rows[k];
    rows[k]
  }

  /** One row per symbol of `syms`, each that symbol's latest. */
  function Representatives(rows: seq<Row>, syms: seq<string>): (r: seq<Row>)
    requires forall s :: s in syms ==> s in SymbolSet(rows)
    ensures |r| == |syms|
    ensures forall i :: 0 <= i < |r| ==> r[i].symbol == syms[i] && r[i] in rows
    ensures forall i, y :: 0 <= i < |r| && y in rows && y.symbol == syms[i] ==> QuarterKey(y) <= QuarterKey(r[i])
    ensures forall i, j :: 0 <= i < |r| && 0 <= j < |rows| && rows[j].symbol == syms[i] && rows[j].quarter == r[i].quarter ==>
              r[i] in rows[..j + 1]
  {
    seq(|syms|, i requires 0 <= i < |syms| => assert syms[i] in syms; LatestOf(rows, syms[i]))
  }

  lemma GroupNonEmpty(rows: seq<Row>, s: string)
    requires s in SymbolSet(rows)
    ensures exists i :: 0 <= i < |rows| && OfCompany(s)(rows[i])
  {
    var y :| y in rows && y.symbol == s;
    var i :| 0 <= i < |rows| && rows[i] == y;
    assert OfCompany(s)(rows[i]);
  }

  /** The `Company_symbol` column, each symbol once. */
  function Symbols(rows: seq<Row>): (r: seq<string>)
    ensures forall i, j :: 0 <= i < j < |r| ==> r[i] != r[j]
    ensures forall s :: s in r <==> s in SymbolSet(rows)
    ensures |r| == |SymbolSet(rows)|
  {
    var column := seq(|rows|, i requires 0 <= i < |rows| => rows[i].symbol);
    SymbolColumn(rows, column);
    Distinct(column)
  }

  lemma SymbolColumn(rows: seq<Row>, column: seq<string>)
    requires |column| == |rows|
    requires forall i :: 0 <= i < |rows| ==> column[i] == rows[i].symbol
    ensures (set s | s in column) == SymbolSet(rows)
  {
    forall s | s in SymbolSet(rows) ensures s in column {
      var y :| y in rows && y.symbol == s;
      var i :| 0 <= i < |rows| && rows[i] == y;
      assert column[i] == s;
    }
  }

  /**
   * `df.loc[df.groupby("Company_symbol")["quarter_date"].idxmax()]`: one
   * row per company, each carrying that company's latest quarter.
   */
  function LatestPerCompany(rows: seq<Row>): (r: seq<Row>)
    ensures |r| == |SymbolSet(rows)|
    ensures DistinctBy(r, SymbolOf)
    ensures forall x :: x in r ==> x in rows
    ensures forall x, y :: x in r && y in rows && y.symbol == x.symbol ==> DateLe(y.quarter, x.quarter)
    ensures SymbolSet(r) == SymbolSet(rows)
    ensures forall x, j :: x in r && 0 <= j < |rows| && rows[j].symbol == x.symbol && rows[j].quarter == x.quarter ==>
              x in rows[..j + 1]
  {
    var syms := Symbols(rows);
    var r := Representatives(rows, syms);
    LatestFacts(rows, syms, r);
    FirstLatestFacts(rows, syms, r);
    r
  }

  lemma LatestFacts(rows: seq<Row>, syms: seq<string>, r: seq<Row>)
    requires |r| == |syms|
    requires forall s :: s in syms <==> s in SymbolSet(rows)
    requires forall i :: 0 <= i < |r| ==> r[i].symbol == syms[i] && r[i] in rows
    requires forall i, y :: 0 <= i < |r| && y in rows && y.symbol == syms[i] ==> QuarterKey(y) <= QuarterKey(r[i])
    ensures forall x, y :: x in r && y in rows && y.symbol == x.symbol ==> DateLe(y.quarter, x.quarter)
    ensures SymbolSet(r) == SymbolSet(rows)
  {
    forall x, y | x in r && y in rows && y.symbol == x.symbol ensures DateLe(y.quarter, x.quarter) {
      var i :| 0 <= i < |r| && r[i] == x;
      OrdinalOrder(y.quarter, x.quarter);
    }
    forall s | s in SymbolSet(rows) ensures s in SymbolSet(r) {
      var j :| 0 <= j < |syms| && syms[j] == s;
      assert r[j] in r;
    }
  }

  lemma FirstLatestFacts(rows: seq<Row>, syms: seq<string>, r: seq<Row>)
    requires |r| == |syms|
    requires forall i :: 0 <= i < |r| ==> r[i].symbol == syms[i]
    requires forall i, j :: 0 <= i < |r| && 0 <= j < |rows| && rows[j].symbol == syms[i] && rows[j].quarter == r[i].quarter ==>
               r[i] in rows[..j + 1]
    ensures forall x, j :: x in r && 0 <= j < |rows| && rows[j].symbol == x.symbol && rows[j].quarter == x.quarter ==>
              x in rows[..j + 1]
  {
    forall x, j | x in r && 0 <= j < |rows| && rows[j].symbol == x.symbol && rows[j].quarter == x.quarter
      ensures x in rows[..j + 1]
    {
      var i :| 0 <= i < |r| && r[i] == x;
    }
  }

  /**
   * `latest_quarter_df.sort_values("InstitutionPercentHeld",
   * ascending=False).head(10)`: the ten companies (all, when fewer) with
   * the highest institutional percentage in their latest quarter.
   */
  function TopCompanies(df: seq<Row>): (r: seq<Row>)
    ensures |r| == Min(10, |SymbolSet(df)|)
    ensures DistinctBy(r, SymbolOf)
    ensures forall x :: x in r ==> x in df
    ensures forall x, y :: x in r && y in df && y.symbol == x.symbol ==> DateLe(y.quarter, x.quarter)
    ensures Descending(r, PercentKey)
    ensures forall x, y :: x in multiset(LatestPerCompany(df)) - multiset(r) && y in r ==>
              PercentKey(x) <= PercentKey(y)
    ensures forall x, j :: x in r && 0 <= j < |df| && df[j].symbol == x.symbol && df[j].quarter == x.quarter ==>
              x in df[..j + 1]
  {
    var latest := LatestPerCompany(df);
    var r := TopN(latest, PercentKey, 10);
    KeptFromLatest(df, latest, r);
    r
  }

  /** What the ranked rows inherit from the latest-per-company rows they are drawn from. */
  lemma KeptFromLatest(rows: seq<Row>, latest: seq<Row>, r: seq<Row>)
    requires DistinctBy(latest, SymbolOf)
    requires forall x :: x in latest ==> x in rows
    requires forall x, y :: x in latest && y in rows && y.symbol == x.symbol ==> DateLe(y.quarter, x.quarter)
    requires multiset(r) <= multiset(latest)
    ensures DistinctBy(r, SymbolOf)
    ensures forall x :: x in r ==> x in latest && x in rows
    ensures forall x, y :: x in r && y in rows && y.symbol == x.symbol ==> DateLe(y.quarter, x.quarter)
  {
    SubMultisetDistinct(r, latest, SymbolOf);
    forall x | x in r ensures x in latest {
      assert x in multiset(r);
    }
  }

  function IsPeer(industry: string, company: string): Row -> bool {
    (r: Row) => r.industry == industry && r.symbol != company
  }

  /** `df[(df["industry"] == industry) & (df["Company_symbol"] != company)]` */
  function PeerRows(df: seq<Row>, company: string, industry: string): (r: seq<Row>)
    ensures forall x :: x in r <==> x in df && x.industry == industry && x.symbol != company
  {
    Filter(df, IsPeer(industry, company))
  }

  /**
   * The industry peers table: one row per other company of the industry,
   * its latest quarter among its rows in that industry, the ten with the
   * highest institutional percentage (all, when fewer), highest first.
   */
  function Peers(df: seq<Row>, company: string, industry: string): (r: seq<Row>)
    ensures |r| == Min(10, |SymbolSet(PeerRows(df, company, industry))|)
    ensures DistinctBy(r, SymbolOf)
    ensures forall x :: x in r ==> x in df && x.industry == industry && x.symbol != company
    ensures forall x, y :: x in r && y in df && y.symbol == x.symbol && y.industry == industry ==>
              DateLe(y.quarter, x.quarter)
    ensures Descending(r, PercentKey)
    ensures forall x, y :: x in multiset(LatestPerCompany(PeerRows(df, company, industry))) - multiset(r) && y in r ==>
              PercentKey(x) <= PercentKey(y)
  {
    var peers := PeerRows(df, company, industry);
    var r := TopCompanies(peers);
    assert forall x, y :: x in r && y in df && y.symbol == x.symbol && y.industry == industry ==> y in peers;
    r
  }

  /** The last row of a chronological table has the latest quarter. */
  lemma LastIsLatest(v: seq<Row>, x: Row)
    requires Chronological(v) && x in v
    ensures DateLe(x.quarter, v[|v| - 1].quarter)
  {
    var k :| 0 <= k < |v| && v[k] == x;
    if k == |v| - 1 {
      OrdinalOrder(x.quarter, x.quarter);
    }
  }

  /**
   * The view's ends are None exactly when no row matches; otherwise both
   * are matching rows and every matching row lies between them.
   */
  lemma ViewEnds(df: seq<Row>, company: string, selected: set<Label>, v: seq<Row>)
    requires forall x :: x in v <==> x in df && x.symbol == company && QuarterLabel(x.quarter) in selected
    requires Chronological(v)
    ensures FirstAndLatest(v).None? <==>
              forall x :: x in df ==> !(x.symbol == company && QuarterLabel(x.quarter) in selected)
    ensures FirstAndLatest(v).Some? ==>
              var e := FirstAndLatest(v).value;
              && e.first.symbol == company && e.latest.symbol == company
              && QuarterLabel(e.first.quarter) in selected && QuarterLabel(e.latest.quarter) in selected
              && DateLe(e.first.quarter, e.latest.quarter)
              && forall x :: x in df && x.symbol == company && QuarterLabel(x.quarter) in selected ==>
                   DateLe(e.first.quarter, x.quarter) && DateLe(x.quarter, e.latest.quarter)
  {
    var r := FirstAndLatest(v);
    if r.Some? {
      forall x | x in df && x.symbol == company && QuarterLabel(x.quarter) in selected
        ensures DateLe(r.value.first.quarter, x.quarter) && DateLe(x.quarter, r.value.latest.quarter)
      {
        assert x in v;
      }
    }
  }

  /** Everything `main` computes for one company and quarter selection. */
  datatype Dashboard = Dashboard(
    view: seq<Row>, ends: Endpoints, summary: KeyMetrics, changes: Changes,
    institutions: Option<seq<Holding>>, peers: seq<Row>, topCompanies: seq<Row>)

  /**
   * `main` after the widgets: None when the selection leaves no rows (the
   * dashboard warns and stops); otherwise the metrics of the first and
   * latest selected quarter, and the peers of the latest quarter's industry.
   */
  function BuildDashboard(df: seq<Row>, inst: seq<Holding>, company: string, selected: set<Label>)
    : (d: Option<Dashboard>)
    requires forall h :: h in inst && h.symbol == company ==> h.shares.Num?
    ensures d.None? <==> forall x :: x in df ==> !(x.symbol == company && QuarterLabel(x.quarter) in selected)
    ensures d.Some? ==>
              var b := d.value;
              && b.view == CompanyView(df, company, selected)
              && FirstAndLatest(b.view) == Some(b.ends)
              && b.summary == Summary(b.ends) && b.changes == ChangeMetrics(b.ends)
              && b.institutions == TopInstitutions(inst, company)
              && b.peers == Peers(df, company, b.ends.latest.industry)
              && b.topCompanies == TopCompanies(df)
    ensures d.Some? ==>
              var e := d.value.ends;
              && e.first.symbol == company && e.latest.symbol == company
              && QuarterLabel(e.first.quarter) in selected && QuarterLabel(e.latest.quarter) in selected
              && DateLe(e.first.quarter, e.latest.quarter)
              && (forall x :: x in df && x.symbol == company && QuarterLabel(x.quarter) in selected ==>
                    DateLe(e.first.quarter, x.quarter) && DateLe(x.quarter, e.latest.quarter))
              && (forall p :: p in d.value.peers ==> p.industry == e.latest.industry && p.symbol != company)
  {
    var view := CompanyView(df, company, selected);
    ViewEnds(df, company, selected, view);
    match FirstAndLatest(view)
    case None => None
    case Some(ends) =>
      Some(Dashboard(view, ends, Summary(ends), ChangeMetrics(ends), TopInstitutions(inst, company),
        Peers(df, company, ends.latest.industry), TopCompanies(df)))
  }
}
