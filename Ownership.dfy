/**
 * The ownership table (sheet "Sheet1") and the derived columns that
 * `load_data` assigns onto it (app.py lines 19-34).
 */
module Ownership {
  import opened Wrappers
  import opened Dates

  /**
   * One ownership record: a company in one quarter.  The last three
   * fields are the derived columns; before the load they hold whatever
   * the sheet had under those names, and the load overwrites them.
   * `shareHeld` is meaningful only when the sheet has an
   * `InstitutionShareHeld` column, which the frame records.
   */
  datatype Row = Row(
    symbol: string,          // Company_symbol
    name: string,            // Company_name
    industry: string,        // industry
    quarter: Date,           // quarter_date
    percentHeld: real,       // InstitutionPercentHeld
    bought: int,             // InstitutionSharesBought
    sold: int,               // InstitutionSharesSold
    outstanding: int,        // Total_SharesOutstanding
    shareFloat: int,         // Sharefloat
    holders: int,            // Institutionholdernumber
    shareHeld: real,         // InstitutionShareHeld
    netChange: int,          // NetSharesChange (derived)
    percentChange: Option<real>,  // PercentChangeHeld (derived; None where pandas gives inf/NaN)
    ownershipValue: real     // InstitutionOwnershipValue (derived)
  )

  /** Every column the load does not write is the same in both rows. */
  predicate SameSourceColumns(a: Row, b: Row) {
    && a.symbol == b.symbol && a.name == b.name && a.industry == b.industry
    && a.quarter == b.quarter && a.percentHeld == b.percentHeld
    && a.bought == b.bought && a.sold == b.sold && a.outstanding == b.outstanding
    && a.shareFloat == b.shareFloat && a.holders == b.holders
  }

  /** The columns one row receives from the load. */
  function Derive(x: Row, hasShareHeld: bool): (d: Row)
    ensures SameSourceColumns(x, d)
    ensures d.netChange == x.bought - x.sold
    ensures d.percentChange.Some? <==> x.outstanding != 0
    ensures d.percentChange.Some? ==>
              d.percentChange.value * x.outstanding as real == d.netChange as real * 100.0
    ensures d.ownershipValue * 100.0 == x.percentHeld * x.outstanding as real
    ensures d.shareHeld == if hasShareHeld then x.shareHeld else d.ownershipValue
  {
    var net := x.bought - x.sold;
    var pct := if x.outstanding != 0 then Some(net as real / x.outstanding as real * 100.0) else None;
    var value := x.percentHeld / 100.0 * x.outstanding as real;
    x.(netChange := net, percentChange := pct, ownershipValue := value,
       shareHeld := if hasShareHeld then x.shareHeld else value)
  }

  /** The whole table after the load. */
  function DeriveAll(rows: seq<Row>, hasShareHeld: bool): (r: seq<Row>)
    ensures |r| == |rows|
    ensures forall i :: 0 <= i < |rows| ==> SameSourceColumns(rows[i], r[i])
    ensures forall i :: 0 <= i < |rows| ==> r[i] == Derive(rows[i], hasShareHeld)
  {
    seq(|rows|, i requires 0 <= i < |rows| => Derive(rows[i], hasShareHeld))
  }

  /**
   * Loading an exported table again reproduces it: the second load sees
   * the `InstitutionShareHeld` column and recomputes the other derived
   * columns from unchanged source columns.
   */
  lemma {:induction false} ReloadReproduces(rows: seq<Row>, hasShareHeld: bool)
    ensures DeriveAll(DeriveAll(rows, hasShareHeld), true) == DeriveAll(rows, hasShareHeld)
  {
    var once := DeriveAll(rows, hasShareHeld);
    var twice := DeriveAll(once, true);
    forall i | 0 <= i < |rows| ensures twice[i] == once[i] {
      assert once[i] == Derive(rows[i], hasShareHeld);
      assert twice[i] == Derive(once[i], true);
    }
  }

  /** The loaded DataFrame: its rows and whether the sheet has `InstitutionShareHeld`. */
  class OwnershipFrame {
    const rows: array<Row>
    var hasShareHeld: bool

    constructor (rows: array<Row>, hasShareHeld: bool)
      ensures this.rows == rows && this.hasShareHeld == hasShareHeld
    {
      this.rows := rows;
      this.hasShareHeld := hasShareHeld;
    }

    /**
     * Assigns NetSharesChange, PercentChangeHeld and
     * InstitutionOwnershipValue on every row, and InstitutionShareHeld
     * only when the column is missing; afterwards the column exists.
     */
    method AddDerivedColumns()
      modifies this, rows
      ensures hasShareHeld
      ensures rows[..] == DeriveAll(old(rows[..]), old(hasShareHeld))
    {
      var i := 0;
      while i < rows.Length
        invariant 0 <= i <= rows.Length
        invariant hasShareHeld == old(hasShareHeld)
        invariant forall k :: 0 <= k < i ==> rows[k] == Derive(old(rows[k]), hasShareHeld)
        invariant forall k :: i <= k < rows.Length ==> rows[k] == old(rows[k])
      {
        rows[i] := Derive(rows[i], hasShareHeld);
        i := i + 1;
      }
      hasShareHeld := true;
    }
  }
}
