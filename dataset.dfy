/** The production table and its completeness filter (`load_data`). */
module Dataset {
  import opened Wrappers
  import opened Seqs

  /** One row as read from the CSV file: each of the seven columns the dashboard uses may be
      missing. Columns: Name, KolPlanYear, KolFaktVs, KolPlanM, KolFaktM, M, Graphic. */
  datatype RawRow = RawRow(
    name: Option<string>,        // Name
    planYear: Option<int>,       // KolPlanYear: yearly plan
    factCumulative: Option<int>, // KolFaktVs: cumulative actual
    planMonth: Option<int>,      // KolPlanM: plan for the month
    factMonth: Option<int>,      // KolFaktM: actual for the month
    month: Option<int>,          // M
    graphic: Option<int>)        // Graphic: the schedule / item identifier

  /** A row whose seven columns are all present. */
  datatype Record = Record(
    name: string,
    planYear: int,
    factCumulative: int,
    planMonth: int,
    factMonth: int,
    month: int,
    graphic: int)

  /** The `dropna` subset test: none of the seven required columns is missing. */
  predicate Complete(row: RawRow)
  {
    && row.name.Some?
    && row.planYear.Some?
    && row.factCumulative.Some?
    && row.planMonth.Some?
    && row.factMonth.Some?
    && row.month.Some?
    && row.graphic.Some?
  }

  /** A record seen again as a table row: every column present, every value as it was. */
  function AsRow(rec: Record): (row: RawRow)
    ensures Complete(row)
  {
    RawRow(Some(rec.name), Some(rec.planYear), Some(rec.factCumulative), Some(rec.planMonth),
           Some(rec.factMonth), Some(rec.month), Some(rec.graphic))
  }

  /** The strict view of a row: present exactly when the row is complete, and then it is the
      same row with nothing changed. */
  function ToRecord(row: RawRow): (r: Option<Record>)
    ensures r.Some? <==> Complete(row)
    ensures r.Some? ==> AsRow(r.value) == row
  {
    if Complete(row) then
      Some(Record(row.name.value, row.planYear.value, row.factCumulative.value,
                  row.planMonth.value, row.factMonth.value, row.month.value, row.graphic.value))
    else None
  }

  /** `load_data`: drop every row that misses one of the seven columns; the rows that remain
      are the masked rows, each unchanged. */
  function LoadData(rows: seq<RawRow>): (records: seq<Record>)
    ensures |records| == |Mask(rows, Complete)|
    ensures forall k :: 0 <= k < |records| ==> AsRow(records[k]) == Mask(rows, Complete)[k]
  {
    var kept := Mask(rows, Complete);
    seq(|kept|, k requires 0 <= k < |kept| => ToRecord(kept[k]).value)
  }

  /** A record is loaded iff it was a row of the file (all seven columns then being present). */
  lemma LoadDataMembership(rows: seq<RawRow>, rec: Record)
    ensures rec in LoadData(rows) <==> AsRow(rec) in rows
  {
    var kept, records := Mask(rows, Complete), LoadData(rows);
    MaskMembership(rows, Complete, AsRow(rec));
    if rec in records {
      var k :| 0 <= k < |records| && records[k] == rec;
      assert kept[k] == AsRow(rec);
    }
    if AsRow(rec) in kept {
      var k :| 0 <= k < |kept| && kept[k] == AsRow(rec);
      assert AsRow(records[k]) == AsRow(rec);
    }
  }

  /** A row survives iff it is complete, and the survivors keep their relative order and
      their values: the k-th loaded record is the row at the k-th complete position. */
  lemma LoadDataKeepsCompleteRows(rows: seq<RawRow>)
    ensures var idx, records := MaskIndices(rows, Complete), LoadData(rows);
      && |idx| == |records|
      && (forall k :: 0 <= k < |idx| ==> idx[k] < |rows| && rows[idx[k]] == AsRow(records[k]))
      && (forall k, l :: 0 <= k < l < |idx| ==> idx[k] < idx[l])
      && (forall i :: 0 <= i < |rows| ==> (i in idx <==> Complete(rows[i])))
  {
    MaskPreservesOrder(rows, Complete);
    MaskKeepsExactly(rows, Complete);
  }

  /** Each row is dropped or kept on its own, independently of the rows around it. */
  lemma LoadDataConcat(a: seq<RawRow>, b: seq<RawRow>)
    ensures LoadData(a + b) == LoadData(a) + LoadData(b)
  {
    MaskConcat(a, b, Complete);
    var l, r, all := LoadData(a), LoadData(b), LoadData(a + b);
    assert forall k :: 0 <= k < |all| ==> AsRow(all[k]) == AsRow((l + r)[k]);
  }

  /** Reading a record back as a row and filtering it again gives the record. */
  lemma RecordRoundTrip(rec: Record)
    ensures ToRecord(AsRow(rec)) == Some(rec)
  {
  }
}
