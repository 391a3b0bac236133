/**
 * The institution-holdings table (sheet "Institution_Holdings"): the
 * numeric coercion of `load_institution_data` (app.py lines 40-48) and
 * the top-ten holders of one company (app.py lines 166-168).
 */
module Holdings {
  import opened Wrappers
  import opened Ranking

  /** A cell of a numeric column: a number, or something `pd.to_numeric` cannot parse (or nothing). */
  datatype Cell = Num(value: real) | Bad

  /** The four columns the loader coerces. */
  datatype NumCol = MarketValue | TotalShares | ShareChange | ShareChangePct

  /** The order in which the loader visits them. */
  const NUMERIC_COLS: seq<NumCol> := [MarketValue, TotalShares, ShareChange, ShareChangePct]

  datatype Holding = Holding(
    symbol: string,     // Company_symbol
    owner: string,      // owner_name
    marketValue: Cell,  // total_market_value
    shares: Cell,       // total_shares
    change: Cell,       // share_change
    changePct: Cell     // share_change_percentage
  )

  function CellOf(h: Holding, c: NumCol): Cell {
    match c
    case MarketValue => h.marketValue
    case TotalShares => h.shares
    case ShareChange => h.change
    case ShareChangePct => h.changePct
  }

  function WithCell(h: Holding, c: NumCol, v: Cell): (r: Holding)
    ensures CellOf(r, c) == v
    ensures forall d :: d != c ==> CellOf(r, d) == CellOf(h, d)
    ensures r.symbol == h.symbol && r.owner == h.owner
  {
    match c
    case MarketValue => h.(marketValue := v)
    case TotalShares => h.(shares := v)
    case ShareChange => h.(change := v)
    case ShareChangePct => h.(changePct := v)
  }

  /** `pd.to_numeric(..., errors="coerce").fillna(0)` on one cell. */
  function ToNumeric(c: Cell): (r: Cell)
    ensures r.Num?
    ensures c.Num? ==> r == c
    ensures c.Bad? ==> r == Num(0.0)
  {
    match c
    case Num(v) => Num(v)
    case Bad => Num(0.0)
  }

  /** One row after coercing the columns of `cols` that the sheet has. */
  function CoerceRow(h: Holding, cols: set<NumCol>): (r: Holding)
    ensures r.symbol == h.symbol && r.owner == h.owner
    ensures forall c :: c in cols ==> CellOf(r, c).Num?
    ensures forall c :: c in cols && CellOf(h, c).Num? ==> CellOf(r, c) == CellOf(h, c)
    ensures forall c :: c in cols && CellOf(h, c).Bad? ==> CellOf(r, c) == Num(0.0)
    ensures forall c :: c !in cols ==> CellOf(r, c) == CellOf(h, c)
  {
    Holding(h.symbol, h.owner,
      if MarketValue in cols then ToNumeric(h.marketValue) else h.marketValue,
      if TotalShares in cols then ToNumeric(h.shares) else h.shares,
      if ShareChange in cols then ToNumeric(h.change) else h.change,
      if ShareChangePct in cols then ToNumeric(h.changePct) else h.changePct)
  }

  /** The whole table after the load: same rows, same order. */
  function CoerceAll(rows: seq<Holding>, cols: set<NumCol>): (r: seq<Holding>)
    ensures |r| == |rows|
    ensures forall i :: 0 <= i < |rows| ==> r[i].symbol == rows[i].symbol && r[i].owner == rows[i].owner
    ensures forall i, c :: 0 <= i < |rows| && c in cols ==> CellOf(r[i], c) == ToNumeric(CellOf(rows[i], c))
    ensures forall i, c :: 0 <= i < |rows| && c !in cols ==> CellOf(r[i], c) == CellOf(rows[i], c)
  {
    seq(|rows|, i requires 0 <= i < |rows| => CoerceRow(rows[i], cols))
  }

  /** Coercing one more column extends the coerced set. */
  lemma CoerceStep(h: Holding, done: set<NumCol>, c: NumCol)
    ensures WithCell(CoerceRow(h, done), c, ToNumeric(CellOf(CoerceRow(h, done), c))) == CoerceRow(h, done + {c})
  {
  }

  /** A second load of a coerced table changes nothing. */
  lemma {:induction false} CoerceIdempotent(rows: seq<Holding>, cols: set<NumCol>)
    ensures CoerceAll(CoerceAll(rows, cols), cols) == CoerceAll(rows, cols)
  {
    var once := CoerceAll(rows, cols);
    forall i | 0 <= i < |rows| ensures CoerceAll(once, cols)[i] == once[i] {
      var h := once[i];
      assert forall c :: CellOf(CoerceRow(h, cols), c) == CellOf(h, c);
      assert h == Holding(h.symbol, h.owner, CellOf(h, MarketValue), CellOf(h, TotalShares),
                          CellOf(h, ShareChange), CellOf(h, ShareChangePct));
    }
  }

  /** After the load, every present column is numeric throughout. */
  lemma CoercedColumnsAreNumeric(rows: seq<Holding>, cols: set<NumCol>, c: NumCol)
    requires c in cols
    ensures forall h :: h in CoerceAll(rows, cols) ==> CellOf(h, c).Num?
  {
    forall h | h in CoerceAll(rows, cols) ensures CellOf(h, c).Num? {
      var i :| 0 <= i < |rows| && CoerceAll(rows, cols)[i] == h;
      assert h == CoerceRow(rows[i], cols);
    }
  }

  /** The loaded holdings DataFrame: its rows and the numeric columns the sheet has. */
  class HoldingsFrame {
    const rows: array<Holding>
    const columns: set<NumCol>

    constructor (rows: array<Holding>, columns: set<NumCol>)
      ensures this.rows == rows && this.columns == columns
    {
      this.rows := rows;
      this.columns := columns;
    }

    /**
     * For each of the four numeric columns that is present, rewrites it
     * in place with non-numeric and missing cells set to 0; no row is
     * dropped and no other cell changes.
     */
    method CoerceNumericColumns()
      modifies rows
      ensures rows[..] == CoerceAll(old(rows[..]), columns)
    {
      ghost var done: set<NumCol> := {};
      var k := 0;
      while k < |NUMERIC_COLS|
        invariant 0 <= k <= |NUMERIC_COLS|
        invariant done == columns * set c | c in NUMERIC_COLS[..k]
        invariant forall i :: 0 <= i < rows.Length ==> rows[i] == CoerceRow(old(rows[i]), done)
      {
        var col := NUMERIC_COLS[k];
        if col in columns {
          var i := 0;
          while i < rows.Length
            invariant 0 <= i <= rows.Length
            invariant forall j :: 0 <= j < i ==> rows[j] == CoerceRow(old(rows[j]), done + {col})
            invariant forall j :: i <= j < rows.Length ==> rows[j] == CoerceRow(old(rows[j]), done)
          {
            CoerceStep(old(rows[i]), done, col);
            rows[i] := WithCell(rows[i], col, ToNumeric(CellOf(rows[i], col)));
            i := i + 1;
          }
          done := done + {col};
        }
        assert NUMERIC_COLS[..k + 1] == NUMERIC_COLS[..k] + [col];
        k := k + 1;
      }
      assert NUMERIC_COLS[..k] == NUMERIC_COLS;
      forall c: NumCol ensures c in NUMERIC_COLS {
        match c
        case MarketValue => assert NUMERIC_COLS[0] == c;
        case TotalShares => assert NUMERIC_COLS[1] == c;
        case ShareChange => assert NUMERIC_COLS[2] == c;
        case ShareChangePct => assert NUMERIC_COLS[3] == c;
      }
      assert done == columns;
    }
  }

  /** Sort key of `total_shares`. */
  function SharesKey(h: Holding): real {
    if h.shares.Num? then h.shares.value else 0.0
  }

  function HeldIn(company: string): Holding -> bool {
    (h: Holding) => h.symbol == company
  }

  /** `inst_df[inst_df["Company_symbol"] == company]` */
  function CompanyHoldings(inst: seq<Holding>, company: string): (r: seq<Holding>)
    ensures forall h :: h in r <==> h in inst && h.symbol == company
    ensures forall h :: multiset(r)[h] == if h.symbol == company then multiset(inst)[h] else 0
  {
    Filter(inst, HeldIn(company))
  }

  /**
   * The company's ten largest holders by `total_shares`, or None when
   * the company has no holdings rows (the dashboard then shows a warning).
   * The result is drawn from the company's rows, holds ten of them or all
   * when there are fewer, largest first, and no row left out holds more
   * shares than a row kept.
   */
  function TopInstitutions(inst: seq<Holding>, company: string): (r: Option<seq<Holding>>)
    requires forall h :: h in inst && h.symbol == company ==> h.shares.Num?
    ensures r.None? <==> forall h :: h in inst ==> h.symbol != company
    ensures r.Some? ==>
              var rows := CompanyHoldings(inst, company);
              && |r.value| == Min(10, |rows|)
              && multiset(r.value) <= multiset(rows)
              && (forall h :: h in r.value ==> h.symbol == company)
              && Descending(r.value, SharesKey)
              && (forall x, y :: x in multiset(rows) - multiset(r.value) && y in r.value ==>
                    SharesKey(x) <= SharesKey(y))
  {
    var rows := CompanyHoldings(inst, company);
    if |rows| == 0 then
      assert forall h :: h in inst ==> h.symbol != company;
      None
    else
      assert rows[0] in inst;
      var top := TopN(rows, SharesKey, 10);
      assert forall h :: h in top ==> h in multiset(rows);
      Some(top)
  }
}
