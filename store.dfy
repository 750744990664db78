/** `save_data_to_postgres` and `log_error_to_db`: what the scraper writes to
    PostgreSQL. The three tables are modelled as values: `company_basic` as a
    map from the primary key `company_id` to the row's columns,
    `company_grade` and `scraping_errors` as their rows in `SERIAL` id order.
    A statement or commit that raises is the `fault` parameter: the
    transaction is rolled back and nothing changes. */
module Store {
  import opened Py
  import opened Basic
  import Grades

  /** The columns of `company_basic`. `Data(f)` is the column `field_mapping`
      gives to field `f`; 統一編號 goes to `company_id`, so `Data(BanNo)` is
      never written. */
  datatype Column = CompanyId | FetchDate | Status | Data(field: BasicField)

  /** A value bound to a `%s` placeholder: a string, or the timestamp
      `datetime.now()` / `CURRENT_TIMESTAMP`. */
  datatype SqlValue = Text(text: string) | Time(at: int)

  /** The columns of a `company_basic` row that are not NULL. */
  type BasicRow = map<Column, SqlValue>

  /** A `company_grade` row without its `SERIAL` id. */
  datatype GradeRow = GradeRow(
    companyId: string, yearMonth: string, yearTw: string, yearAd: string,
    importGrade: string, exportGrade: string, fetchDate: int)

  /** A `scraping_errors` row without its `SERIAL` id. */
  datatype ErrorRow = ErrorRow(companyId: string, errorMessage: string, errorTime: int, stackTrace: string)

  datatype Tables = Tables(basic: map<string, BasicRow>, grades: seq<GradeRow>, errors: seq<ErrorRow>)

  /** `company_id VARCHAR(10)`: `log_error_to_db` cuts longer ids to this. */
  const IdWidth: nat := 10
  const ErrorStatus: string := "error"

  predicate Distinct<T(==)>(s: seq<T>) {
    forall i, j :: 0 <= i < j < |s| ==> s[i] != s[j]
  }

  /** Position of a field in `field_mapping`. */
  function Ordinal(f: BasicField): nat {
    match f
    case BanNo => 0 case IssueDate => 1 case RegDate => 2 case CnName => 3
    case EnName => 4 case CnAddress => 5 case EnAddress => 6
    case Representative => 7 case Tel1 => 8 case Tel2 => 9 case Fax => 10
    case OldCnName => 11 case OldEnName => 12 case Website => 13 case Email => 14
    case ImportQualification => 15 case ExportQualification => 16
    case ImportItemsCn => 17 case ImportItemsEn => 18 case ExportItemsCn => 19
    case ExportItemsEn => 20
  }

  /** `field_mapping` lists the fields in the order of `Ordinal`. */
  lemma AllFieldsInOrder()
    ensures forall i :: 0 <= i < |AllFields| ==> Ordinal(AllFields[i]) == i
  {
  }

  /** The fields of `cols` follow the order of `field_mapping`. */
  predicate InMappingOrder(cols: seq<Column>)
    requires forall k :: 0 <= k < |cols| ==> cols[k].Data?
  {
    forall k, l :: 0 <= k < l < |cols| ==> Ordinal(cols[k].field) < Ordinal(cols[l].field)
  }

  /** The row an `INSERT` writes: each column gets the value at the same
      position of the parameter list. */
  function RowOf(cols: seq<Column>, vals: seq<SqlValue>): BasicRow
    requires |cols| == |vals|
  {
    if cols == [] then map[]
    else RowOf(cols[..|cols| - 1], vals[..|vals| - 1])[cols[|cols| - 1] := vals[|vals| - 1]]
  }

  /** With no column named twice, the row holds exactly the named columns,
      each with its own value. */
  lemma {:induction false} RowOfSpec(cols: seq<Column>, vals: seq<SqlValue>)
    requires |cols| == |vals| && Distinct(cols)
    ensures forall c :: c in RowOf(cols, vals) <==> c in cols
    ensures forall i :: 0 <= i < |cols| ==> RowOf(cols, vals)[cols[i]] == vals[i]
  {
    if cols != [] {
      var n := |cols| - 1;
      RowOfSpec(cols[..n], vals[..n]);
      assert cols == cols[..n] + [cols[n]];
    }
  }

  /** Leaving out the first column and its value leaves out that column of
      the row. */
  lemma RowOfTail(cols: seq<Column>, vals: seq<SqlValue>)
    requires |cols| == |vals| && |cols| > 0 && Distinct(cols)
    ensures RowOf(cols[1..], vals[1..]) == RowOf(cols, vals) - {cols[0]}
  {
    RowOfSpec(cols, vals);
    RowOfSpec(cols[1..], vals[1..]);
    forall c | c in RowOf(cols[1..], vals[1..])
      ensures c in RowOf(cols, vals) - {cols[0]}
      ensures RowOf(cols[1..], vals[1..])[c] == RowOf(cols, vals)[c]
    {
      var i :| 0 <= i < |cols| - 1 && cols[1..][i] == c;
      assert cols[i + 1] == c;
    }
    forall c | c in RowOf(cols, vals) - {cols[0]}
      ensures c in RowOf(cols[1..], vals[1..])
    {
      var i :| 0 <= i < |cols| && cols[i] == c;
      assert cols[1..][i - 1] == c;
    }
  }

  /** The row `save_data_to_postgres` writes for a basic-data dict: the id,
      the time, the status and one column per field of the dict other than
      統一編號. */
  function SaveRow(basic: map<BasicField, string>, cid: string, now: int, status: string): BasicRow {
    DataColumns(basic)[CompanyId := Text(cid)][FetchDate := Time(now)][Status := Text(status)]
  }

  /** One column per field of the dict but 統一編號. */
  function DataColumns(basic: map<BasicField, string>): BasicRow {
    map f | f in basic && f != BanNo :: Data(f) := Text(basic[f])
  }

  /** The loop over `field_mapping`: a column, a placeholder and a value for
      each field the dict holds, 統一編號 excepted. */
  method AppendMapped(basic: map<BasicField, string>, mapping: seq<BasicField>)
    returns (cols: seq<Column>, vals: seq<string>, ps: seq<SqlValue>)
    requires forall i :: 0 <= i < |mapping| ==> Ordinal(mapping[i]) == i
    ensures |vals| == |cols| && |ps| == |cols|
    ensures forall k :: 0 <= k < |vals| ==> vals[k] == "%s"
    ensures forall k :: 0 <= k < |cols| ==>
      cols[k].Data? && cols[k].field in basic && cols[k].field != BanNo && ps[k] == Text(basic[cols[k].field])
    ensures InMappingOrder(cols)
    ensures forall f :: f in mapping && f in basic && f != BanNo ==> Data(f) in cols
  {
    cols, vals, ps := [], [], [];
    for i := 0 to |mapping|
      invariant |vals| == |cols| && |ps| == |cols|
      invariant forall k :: 0 <= k < |vals| ==> vals[k] == "%s"
      invariant forall k :: 0 <= k < |cols| ==>
        cols[k].Data? && cols[k].field in basic && cols[k].field != BanNo && ps[k] == Text(basic[cols[k].field])
      invariant forall k :: 0 <= k < |cols| ==> Ordinal(cols[k].field) < i
      invariant InMappingOrder(cols)
      invariant forall f :: f in mapping[..i] && f in basic && f != BanNo ==> Data(f) in cols
    {
      var f := mapping[i];
      if f in basic && f != BanNo {
        cols, vals, ps := cols + [Data(f)], vals + ["%s"], ps + [Text(basic[f])];
      }
      assert mapping[..i + 1] == mapping[..i] + [f];
    }
    assert mapping[..|mapping|] == mapping;
  }

  /** Columns in mapping order are named once each. */
  lemma OrderedIsDistinct(cols: seq<Column>)
    requires forall k :: 0 <= k < |cols| ==> cols[k].Data?
    requires InMappingOrder(cols)
    ensures Distinct(cols)
  {
  }

  /** The loop over the whole of `field_mapping`: a column for each field
      of the dict but 統一編號, and no other. */
  method MappedColumns(basic: map<BasicField, string>) returns (cols: seq<Column>, vals: seq<string>, ps: seq<SqlValue>)
    ensures |vals| == |cols| && |ps| == |cols|
    ensures forall k :: 0 <= k < |vals| ==> vals[k] == "%s"
    ensures forall k :: 0 <= k < |cols| ==>
      cols[k].Data? && cols[k].field in basic && cols[k].field != BanNo && ps[k] == Text(basic[cols[k].field])
    ensures InMappingOrder(cols) && Distinct(cols)
    ensures forall f :: f in basic && f != BanNo ==> Data(f) in cols
  {
    AllFieldsInOrder();
    cols, vals, ps := AppendMapped(basic, AllFields);
    OrderedIsDistinct(cols);
    forall f ensures f in AllFields {
      AllFieldsVisited(f);
    }
  }

  /** The three fixed columns come before those of the loop and differ from
      them. */
  lemma FieldsDistinct(cols: seq<Column>)
    requires Distinct(cols)
    requires forall k :: 0 <= k < |cols| ==> cols[k].Data?
    ensures Distinct([CompanyId, FetchDate, Status] + cols)
  {
    var fields := [CompanyId, FetchDate, Status] + cols;
    forall i, j | 0 <= i < j < |fields| ensures fields[i] != fields[j] {
      if j >= 3 {
        assert fields[j] == cols[j - 3];
        if i >= 3 {
          assert fields[i] == cols[i - 3];
        }
      }
    }
  }

  /** Later columns win, so the row of two lists put together is the row of
      the first overwritten by the row of the second. */
  lemma {:induction false} RowOfConcat(a: seq<Column>, x: seq<SqlValue>, b: seq<Column>, y: seq<SqlValue>)
    requires |a| == |x| && |b| == |y|
    ensures RowOf(a + b, x + y) == RowOf(a, x) + RowOf(b, y)
    decreases |b|
  {
    if b == [] {
      assert a + b == a && x + y == x;
    } else {
      var n := |b| - 1;
      RowOfConcat(a, x, b[..n], y[..n]);
      assert (a + b)[..|a + b| - 1] == a + b[..n];
      assert (x + y)[..|x + y| - 1] == x + y[..n];
    }
  }

  /** The columns of the `field_mapping` loop make up `DataColumns`. */
  lemma ColsGiveDataColumns(basic: map<BasicField, string>, cols: seq<Column>, ps: seq<SqlValue>)
    requires |ps| == |cols| && Distinct(cols)
    requires forall k :: 0 <= k < |cols| ==>
      cols[k].Data? && cols[k].field in basic && cols[k].field != BanNo && ps[k] == Text(basic[cols[k].field])
    requires forall f :: f in basic && f != BanNo ==> Data(f) in cols
    ensures RowOf(cols, ps) == DataColumns(basic)
  {
    RowOfSpec(cols, ps);
    var written := RowOf(cols, ps);
    var data := DataColumns(basic);
    forall c | c in data ensures c in written && written[c] == data[c] {
      var k :| 0 <= k < |cols| && cols[k] == c;
    }
    forall c | c in written ensures c in data {
      var k :| 0 <= k < |cols| && cols[k] == c;
    }
  }

  /** The three fixed columns followed by those of the loop make the row
      `SaveRow` describes. */
  lemma ListsGiveSaveRow(basic: map<BasicField, string>, cid: string, now: int, status: string,
                         cols: seq<Column>, ps: seq<SqlValue>)
    requires |ps| == |cols| && Distinct(cols)
    requires forall k :: 0 <= k < |cols| ==>
      cols[k].Data? && cols[k].field in basic && cols[k].field != BanNo && ps[k] == Text(basic[cols[k].field])
    requires forall f :: f in basic && f != BanNo ==> Data(f) in cols
    ensures Distinct([CompanyId, FetchDate, Status] + cols)
    ensures RowOf([CompanyId, FetchDate, Status] + cols, [Text(cid), Time(now), Text(status)] + ps) == SaveRow(basic, cid, now, status)
  {
    FieldsDistinct(cols);
    ColsGiveDataColumns(basic, cols, ps);
    var fixed := [CompanyId, FetchDate, Status];
    var values := [Text(cid), Time(now), Text(status)];
    RowOfConcat(fixed, values, cols, ps);
    RowOfThree(CompanyId, FetchDate, Status, Text(cid), Time(now), Text(status));
    var data := DataColumns(basic);
    assert CompanyId !in data && FetchDate !in data && Status !in data;
    FixedThenData(data, Text(cid), Time(now), Text(status));
  }

  /** Putting the three fixed columns before columns that do not include
      them is the same as setting them afterwards. */
  lemma FixedThenData(data: BasicRow, id: SqlValue, time: SqlValue, status: SqlValue)
    requires CompanyId !in data && FetchDate !in data && Status !in data
    ensures map[CompanyId := id, FetchDate := time, Status := status] + data
         == data[CompanyId := id][FetchDate := time][Status := status]
  {
  }

  /** The row of a three-column insert. */
  lemma RowOfThree(a: Column, b: Column, c: Column, x: SqlValue, y: SqlValue, z: SqlValue)
    ensures RowOf([a, b, c], [x, y, z]) == map[a := x, b := y, c := z]
  {
    var cols, vals := [a, b, c], [x, y, z];
    assert cols[..2] == [a, b] && cols[..2][..1] == [a] && [a][..0] == [];
    assert vals[..2] == [x, y] && vals[..2][..1] == [x] && [x][..0] == [];
    assert RowOf([a], [x]) == map[a := x];
    assert RowOf([a, b], [x, y]) == map[a := x, b := y];
  }

  /** The parallel lists of `save_data_to_postgres` and its `update_parts`:
      one placeholder per column, no column named twice, the columns and
      values make up `SaveRow`, and every column but `company_id` is
      updated on conflict. */
  method BuildBasicUpsert(basic: map<BasicField, string>, cid: string, now: int, status: string)
    returns (fields: seq<Column>, values: seq<string>, params: seq<SqlValue>, updateParts: seq<Column>)
    ensures |values| == |fields| && |params| == |fields| && |fields| >= 3
    ensures forall i :: 0 <= i < |values| ==> values[i] == "%s"
    ensures fields[..3] == [CompanyId, FetchDate, Status] && params[..3] == [Text(cid), Time(now), Text(status)]
    ensures forall k :: 3 <= k < |fields| ==> fields[k].Data? && fields[k].field != BanNo
    ensures InMappingOrder(fields[3..])
    ensures Distinct(fields) && fields[0] == CompanyId
    ensures RowOf(fields, params) == SaveRow(basic, cid, now, status)
    ensures updateParts == fields[1..]
  {
    var cols, vals, ps := MappedColumns(basic);
    ListsGiveSaveRow(basic, cid, now, status, cols, ps);
    fields := [CompanyId, FetchDate, Status] + cols;
    values := ["%s", "%s", "%s"] + vals;
    params := [Text(cid), Time(now), Text(status)] + ps;
    assert fields[3..] == cols;
    updateParts := UpdateColumns(fields);
  }

  /** The `update_parts` loop: every column but `company_id`, which is only
      the first one. */
  method UpdateColumns(fields: seq<Column>) returns (updateParts: seq<Column>)
    requires |fields| > 0 && fields[0] == CompanyId && Distinct(fields)
    ensures updateParts == fields[1..]
  {
    updateParts := [];
    for i := 0 to |fields|
      invariant i == 0 ==> updateParts == []
      invariant i > 0 ==> updateParts == fields[1..i]
    {
      if fields[i] != CompanyId {
        assert i > 0;
        updateParts := updateParts + [fields[i]];
      }
      assert i > 0 ==> fields[1..i + 1] == fields[1..i] + [fields[i]];
    }
  }

  /** `INSERT ... ON CONFLICT (company_id) DO UPDATE SET ...`: a new row, or
      the existing row with the updated columns overwritten. */
  function Upsert(table: map<string, BasicRow>, key: string, inserted: BasicRow, updated: BasicRow): map<string, BasicRow> {
    if key in table then table[key := table[key] + updated] else table[key := inserted]
  }

  /** The `company_grade` rows of company `cid`, in id order. */
  function OfCompany(rows: seq<GradeRow>, cid: string): seq<GradeRow> {
    if rows == [] then []
    else
      var front := OfCompany(rows[..|rows| - 1], cid);
      if rows[|rows| - 1].companyId == cid then front + [rows[|rows| - 1]] else front
  }

  /** `DELETE FROM company_grade WHERE company_id = cid`. */
  function WithoutCompany(rows: seq<GradeRow>, cid: string): seq<GradeRow> {
    if rows == [] then []
    else
      var front := WithoutCompany(rows[..|rows| - 1], cid);
      if rows[|rows| - 1].companyId != cid then front + [rows[|rows| - 1]] else front
  }

  lemma {:induction false} OfCompanyAppend(a: seq<GradeRow>, b: seq<GradeRow>, cid: string)
    ensures OfCompany(a + b, cid) == OfCompany(a, cid) + OfCompany(b, cid)
    decreases |b|
  {
    if b == [] {
      assert a + b == a;
    } else {
      var n := |b| - 1;
      OfCompanyAppend(a, b[..n], cid);
      assert (a + b)[..|a + b| - 1] == a + b[..n];
    }
  }

  lemma {:induction false} WithoutCompanyAppend(a: seq<GradeRow>, b: seq<GradeRow>, cid: string)
    ensures WithoutCompany(a + b, cid) == WithoutCompany(a, cid) + WithoutCompany(b, cid)
    decreases |b|
  {
    if b == [] {
      assert a + b == a;
    } else {
      var n := |b| - 1;
      WithoutCompanyAppend(a, b[..n], cid);
      assert (a + b)[..|a + b| - 1] == a + b[..n];
    }
  }

  /** After the delete no row of `cid` is left, and the rows of every other
      company are still there, in order. */
  lemma {:induction false} WithoutCompanySpec(rows: seq<GradeRow>, cid: string, other: string)
    ensures OfCompany(WithoutCompany(rows, cid), cid) == []
    ensures other != cid ==> OfCompany(WithoutCompany(rows, cid), other) == OfCompany(rows, other)
  {
    if rows != [] {
      var n := |rows| - 1;
      WithoutCompanySpec(rows[..n], cid, other);
      if rows[n].companyId != cid {
        OfCompanyAppend(WithoutCompany(rows[..n], cid), [rows[n]], cid);
        OfCompanyAppend(WithoutCompany(rows[..n], cid), [rows[n]], other);
      }
    }
  }

  /** The grade row inserted for one grade record. */
  function GradeRowOf(cid: string, g: Grades.GradeRecord, now: int): GradeRow {
    GradeRow(cid, g.yearMonth, g.yearTw, g.yearAd, g.importGrade, g.exportGrade, now)
  }

  /** The rows the `for g in grades` loop inserts. */
  function GradeRowsFor(cid: string, grades: seq<Grades.GradeRecord>, now: int): (rows: seq<GradeRow>)
    ensures |rows| == |grades|
    ensures forall i :: 0 <= i < |grades| ==> rows[i] == GradeRowOf(cid, grades[i], now)
  {
    seq(|grades|, i requires 0 <= i < |grades| => GradeRowOf(cid, grades[i], now))
  }

  /** The rows inserted for `cid` all belong to `cid`. */
  lemma {:induction false} GradeRowsForOwn(cid: string, grades: seq<Grades.GradeRecord>, now: int, other: string)
    ensures OfCompany(GradeRowsFor(cid, grades, now), cid) == GradeRowsFor(cid, grades, now)
    ensures other != cid ==> OfCompany(GradeRowsFor(cid, grades, now), other) == []
    ensures WithoutCompany(GradeRowsFor(cid, grades, now), cid) == []
  {
    OwnRows(GradeRowsFor(cid, grades, now), cid, other);
  }

  lemma {:induction false} OwnRows(rows: seq<GradeRow>, cid: string, other: string)
    requires forall i :: 0 <= i < |rows| ==> rows[i].companyId == cid
    ensures OfCompany(rows, cid) == rows
    ensures other != cid ==> OfCompany(rows, other) == []
    ensures WithoutCompany(rows, cid) == []
  {
    if rows != [] {
      var n := |rows| - 1;
      OwnRows(rows[..n], cid, other);
      assert rows == rows[..n] + [rows[n]];
    }
  }

  /** The rows of a company's grade insert all belong to it. */
  predicate RowsFor(rows: seq<GradeRow>, cid: string) {
    forall i :: 0 <= i < |rows| ==> rows[i].companyId == cid
  }

  /** A row whose `company_id` is `cid`. */
  predicate RowFor(row: BasicRow, cid: string) {
    CompanyId in row && row[CompanyId] == Text(cid)
  }

  /** What a committed `save_data_to_postgres` does to the tables: upsert
      `row` under `cid`, overwriting every column it names but the key,
      then delete the company's grade rows and insert `inserted`. */
  function SaveTransition(t: Tables, cid: string, row: BasicRow, inserted: seq<GradeRow>): Tables {
    Tables(
      Upsert(t.basic, cid, row, row - {CompanyId}),
      WithoutCompany(t.grades, cid) + inserted,
      t.errors)
  }

  /** `save_data_to_postgres(conn, basic, grades, cid, status)` at time
      `now`, committed. */
  function Save(t: Tables, basic: map<BasicField, string>, grades: seq<Grades.GradeRecord>,
                cid: string, now: int, status: string): Tables {
    SaveTransition(t, cid, SaveRow(basic, cid, now, status), GradeRowsFor(cid, grades, now))
  }

  /** A committed `log_error_to_db`: the id is cut to the column's width, an
      error row is added and the company's row is inserted or has its status
      and fetch time updated. */
  function LogTransition(t: Tables, companyId: string, message: string, stackTrace: string, now: int): Tables {
    var id := Prefix(companyId, IdWidth);
    Tables(
      Upsert(t.basic, id,
        map[CompanyId := Text(id), Status := Text(ErrorStatus), FetchDate := Time(now)],
        map[Status := Text(ErrorStatus), FetchDate := Time(now)]),
      t.grades,
      t.errors + [ErrorRow(id, message, now, stackTrace)])
  }

  /** What the schema keeps true: a row's `company_id` is its key, and every
      grade row references an existing company (`REFERENCES
      company_basic(company_id)`). */
  predicate Consistent(t: Tables) {
    && (forall k :: k in t.basic ==> RowFor(t.basic[k], k))
    && (forall i :: 0 <= i < |t.grades| ==> t.grades[i].companyId in t.basic)
  }

  /** The row a save writes holds the id, the time, the status and exactly
      the fields of the dict other than 統一編號, each as a text. */
  lemma SaveRowSpec(basic: map<BasicField, string>, cid: string, now: int, status: string)
    ensures var row := SaveRow(basic, cid, now, status);
      && RowFor(row, cid)
      && Status in row && row[Status] == Text(status)
      && FetchDate in row && row[FetchDate] == Time(now)
      && Data(BanNo) !in row
      && forall f :: f != BanNo ==>
           (Data(f) in row <==> f in basic) && (f in basic ==> row[Data(f)] == Text(basic[f]))
  {
    var data := DataColumns(basic);
    forall f | f != BanNo
      ensures (Data(f) in data <==> f in basic) && (f in basic ==> data[Data(f)] == Text(basic[f]))
    {
    }
    assert Data(BanNo) !in data;
  }

  lemma {:induction false} WithoutCompanyKeeps(rows: seq<GradeRow>, cid: string, keys: set<string>)
    requires forall i :: 0 <= i < |rows| ==> rows[i].companyId in keys
    ensures forall i :: 0 <= i < |WithoutCompany(rows, cid)| ==> WithoutCompany(rows, cid)[i].companyId in keys
  {
    if rows != [] {
      WithoutCompanyKeeps(rows[..|rows| - 1], cid, keys);
    }
  }

  /** Saving keeps the tables consistent: the grade rows it inserts follow
      the company row it writes. */
  lemma SavePreservesConsistency(t: Tables, cid: string, row: BasicRow, inserted: seq<GradeRow>)
    requires Consistent(t) && RowFor(row, cid) && RowsFor(inserted, cid)
    ensures Consistent(SaveTransition(t, cid, row, inserted))
  {
    var t' := SaveTransition(t, cid, row, inserted);
    WithoutCompanyKeeps(t.grades, cid, t'.basic.Keys);
    var kept := WithoutCompany(t.grades, cid);
    forall i | 0 <= i < |t'.grades| ensures t'.grades[i].companyId in t'.basic {
      if i >= |kept| {
        assert t'.grades[i] == inserted[i - |kept|];
      }
    }
  }

  /** Logging keeps the tables consistent. */
  lemma LogPreservesConsistency(t: Tables, companyId: string, message: string, stackTrace: string, now: int)
    requires Consistent(t)
    ensures Consistent(LogTransition(t, companyId, message, stackTrace, now))
  {
  }

  /** After a save the company's row holds every column of the written row
      with the written value. */
  lemma SaveWritesRow(t: Tables, cid: string, row: BasicRow, inserted: seq<GradeRow>)
    requires Consistent(t) && RowFor(row, cid)
    ensures var t' := SaveTransition(t, cid, row, inserted);
      && cid in t'.basic
      && forall c :: c in row ==> c in t'.basic[cid] && t'.basic[cid][c] == row[c]
  {
  }

  /** On conflict only the columns the save names are overwritten: a column
      of an existing row that the written row does not name keeps its
      value. */
  lemma SaveKeepsUnnamedColumns(t: Tables, cid: string, row: BasicRow, inserted: seq<GradeRow>)
    requires cid in t.basic
    ensures var t' := SaveTransition(t, cid, row, inserted);
      forall c :: c !in row ==>
        && (c in t'.basic[cid] <==> c in t.basic[cid])
        && (c in t.basic[cid] ==> t'.basic[cid][c] == t.basic[cid][c])
  {
  }

  /** A save touches only its own company: other rows of `company_basic`
      are unchanged, and so are the grade rows of other companies and the
      error log. */
  lemma SaveLeavesOthers(t: Tables, cid: string, row: BasicRow, inserted: seq<GradeRow>, other: string)
    requires other != cid && RowsFor(inserted, cid)
    ensures var t' := SaveTransition(t, cid, row, inserted);
      && (other in t'.basic <==> other in t.basic)
      && (other in t.basic ==> t'.basic[other] == t.basic[other])
      && OfCompany(t'.grades, other) == OfCompany(t.grades, other)
      && t'.errors == t.errors
  {
    WithoutCompanySpec(t.grades, cid, other);
    OwnRows(inserted, cid, other);
    OfCompanyAppend(WithoutCompany(t.grades, cid), inserted, other);
  }

  /** After a save the company's grade rows are exactly the ones just
      inserted, in order: the old ones were deleted first. */
  lemma SaveReplacesGrades(t: Tables, cid: string, row: BasicRow, inserted: seq<GradeRow>)
    requires RowsFor(inserted, cid)
    ensures OfCompany(SaveTransition(t, cid, row, inserted).grades, cid) == inserted
  {
    WithoutCompanySpec(t.grades, cid, cid);
    OwnRows(inserted, cid, cid);
    OfCompanyAppend(WithoutCompany(t.grades, cid), inserted, cid);
  }

  /** Saving the same data twice leaves the tables as saving it once. */
  lemma SaveIdempotent(t: Tables, cid: string, row: BasicRow, inserted: seq<GradeRow>)
    requires RowsFor(inserted, cid)
    ensures var once := SaveTransition(t, cid, row, inserted);
      SaveTransition(once, cid, row, inserted) == once
  {
    UpsertTwice(t.basic, cid, row, row - {CompanyId});
    ReplaceGradesTwice(t.grades, cid, inserted);
  }

  /** Repeating an upsert changes nothing when the updated columns agree
      with the inserted row. */
  lemma UpsertTwice(table: map<string, BasicRow>, key: string, inserted: BasicRow, updated: BasicRow)
    requires forall c :: c in updated ==> c in inserted && inserted[c] == updated[c]
    ensures var once := Upsert(table, key, inserted, updated);
      Upsert(once, key, inserted, updated) == once
  {
    var once := Upsert(table, key, inserted, updated);
    assert once[key] + updated == once[key];
  }

  /** Deleting a company's grade rows and inserting the same rows again
      gives the same rows. */
  lemma ReplaceGradesTwice(rows: seq<GradeRow>, cid: string, inserted: seq<GradeRow>)
    requires RowsFor(inserted, cid)
    ensures WithoutCompany(WithoutCompany(rows, cid) + inserted, cid) + inserted
         == WithoutCompany(rows, cid) + inserted
  {
    OwnRows(inserted, cid, cid);
    WithoutCompanyAppend(WithoutCompany(rows, cid), inserted, cid);
    WithoutCompanyTwice(rows, cid);
  }

  lemma {:induction false} WithoutCompanyTwice(rows: seq<GradeRow>, cid: string)
    ensures WithoutCompany(WithoutCompany(rows, cid), cid) == WithoutCompany(rows, cid)
  {
    if rows != [] {
      var n := |rows| - 1;
      WithoutCompanyTwice(rows[..n], cid);
      if rows[n].companyId != cid {
        WithoutCompanyAppend(WithoutCompany(rows[..n], cid), [rows[n]], cid);
      }
    }
  }

  /** Logging an error changes only the status and the fetch time of the
      company's row (creating the row when there is none), appends one error
      row and leaves the grade rows alone. */
  lemma LogTouchesOnlyStatus(t: Tables, companyId: string, message: string, stackTrace: string, now: int)
    ensures var t' := LogTransition(t, companyId, message, stackTrace, now);
      var id := Prefix(companyId, IdWidth);
      && id in t'.basic
      && t'.basic[id][Status] == Text(ErrorStatus)
      && t'.basic[id][FetchDate] == Time(now)
      && (forall c :: c != Status && c != FetchDate && id in t.basic ==>
            (c in t'.basic[id] <==> c in t.basic[id]) && (c in t.basic[id] ==> t'.basic[id][c] == t.basic[id][c]))
      && (id !in t.basic ==> t'.basic[id].Keys == {CompanyId, Status, FetchDate} && RowFor(t'.basic[id], id))
      && (forall k :: k != id ==> (k in t'.basic <==> k in t.basic) && (k in t.basic ==> t'.basic[k] == t.basic[k]))
      && t'.grades == t.grades
      && |t'.errors| == |t.errors| + 1 && t'.errors[..|t.errors|] == t.errors
  {
    var t' := LogTransition(t, companyId, message, stackTrace, now);
    assert t'.errors[..|t.errors|] == t.errors;
  }

  /** The id written by `log_error_to_db` fits `VARCHAR(10)`: it is the given
      id when that fits, and its first ten characters otherwise. */
  lemma LogIdFits(t: Tables, companyId: string, message: string, stackTrace: string, now: int)
    ensures var t' := LogTransition(t, companyId, message, stackTrace, now);
      var e := t'.errors[|t'.errors| - 1];
      && |e.companyId| <= IdWidth
      && (|companyId| <= IdWidth ==> e.companyId == companyId)
      && (|companyId| > IdWidth ==> e.companyId == companyId[..IdWidth])
      && e == ErrorRow(e.companyId, message, now, stackTrace)
  {
  }

  /** An open connection; a closed or failed one is `null`. */
  class Database {
    var companyBasic: map<string, BasicRow>
    var companyGrade: seq<GradeRow>
    var scrapingErrors: seq<ErrorRow>

    function Contents(): Tables
      reads this
    {
      Tables(companyBasic, companyGrade, scrapingErrors)
    }

    predicate Valid()
      reads this
    {
      Consistent(Contents())
    }

    /** Freshly created tables. */
    constructor ()
      ensures Contents() == Tables(map[], [], []) && Valid()
    {
      companyBasic, companyGrade, scrapingErrors := map[], [], [];
    }
  }

  /** The `for g in grades` loop of `save_data_to_postgres`: one insert per
      grade record, after the rows already there. */
  method InsertGrades(rows: seq<GradeRow>, cid: string, grades: seq<Grades.GradeRecord>, now: int)
    returns (result: seq<GradeRow>)
    ensures result == rows + GradeRowsFor(cid, grades, now)
  {
    result := rows;
    for i := 0 to |grades|
      invariant result == rows + GradeRowsFor(cid, grades[..i], now)
    {
      assert GradeRowsFor(cid, grades[..i + 1], now) == GradeRowsFor(cid, grades[..i], now) + [GradeRowOf(cid, grades[i], now)];
      result := result + [GradeRowOf(cid, grades[i], now)];
    }
    assert grades[..|grades|] == grades;
  }

  /** The `INSERT INTO company_basic ... ON CONFLICT` statement built from
      the parallel lists, applied to the table. */
  method UpsertBasic(table: map<string, BasicRow>, basic: map<BasicField, string>, cid: string, now: int, status: string)
    returns (result: map<string, BasicRow>)
    ensures var row := SaveRow(basic, cid, now, status);
      result == Upsert(table, cid, row, row - {CompanyId})
  {
    var fields, values, params, updateParts := BuildBasicUpsert(basic, cid, now, status);
    RowOfTail(fields, params);
    var row := RowOf(fields, params);
    assert RowOf(updateParts, params[1..]) == row - {CompanyId};
    result := Upsert(table, cid, row, RowOf(updateParts, params[1..]));
  }

  /** `save_data_to_postgres(conn, basic, grades, cid, status)` at time `now`.
      Without a connection it returns false. Otherwise it upserts the
      company's row from the parallel lists, deletes the company's grade
      rows and inserts one per grade record; `fault` says that a statement
      or the commit raises, and then everything is rolled back and it
      returns false. */
  method SaveData(conn: Database?, basic: map<BasicField, string>, grades: seq<Grades.GradeRecord>,
                  cid: string, status: string, now: int, fault: bool) returns (ok: bool)
    requires conn != null ==> conn.Valid()
    modifies conn
    ensures ok <==> conn != null && !fault
    ensures conn != null && fault ==> conn.Contents() == old(conn.Contents())
    ensures ok ==> conn.Contents() == Save(old(conn.Contents()), basic, grades, cid, now, status)
    ensures conn != null ==> conn.Valid()
  {
    if conn == null {
      return false;
    }
    var basicRows := UpsertBasic(conn.companyBasic, basic, cid, now, status);
    var gradeRows := InsertGrades(WithoutCompany(conn.companyGrade, cid), cid, grades, now);
    if fault {
      return false;
    }
    SavePreservesConsistency(conn.Contents(), cid, SaveRow(basic, cid, now, status), GradeRowsFor(cid, grades, now));
    conn.companyBasic, conn.companyGrade := basicRows, gradeRows;
    return true;
  }

  /** `log_error_to_db(conn, company_id, error_message, stack_trace)` at time
      `now`; nothing happens without a connection or when a statement raises
      (`fault`). */
  method LogError(conn: Database?, companyId: string, message: string, stackTrace: string, now: int, fault: bool)
    requires conn != null ==> conn.Valid()
    modifies conn
    ensures conn != null && fault ==> conn.Contents() == old(conn.Contents())
    ensures conn != null && !fault ==> conn.Contents() == LogTransition(old(conn.Contents()), companyId, message, stackTrace, now)
    ensures conn != null ==> conn.Valid()
  {
    if conn == null {
      return;
    }
    var id := companyId;
    if |id| > IdWidth {
      id := id[..IdWidth];
    }
    var errors := conn.scrapingErrors + [ErrorRow(id, message, now, stackTrace)];
    var basicRows := Upsert(conn.companyBasic, id,
      map[CompanyId := Text(id), Status := Text(ErrorStatus), FetchDate := Time(now)],
      map[Status := Text(ErrorStatus), FetchDate := Time(now)]);
    if fault {
      return;
    }
    LogPreservesConsistency(conn.Contents(), companyId, message, stackTrace, now);
    conn.companyBasic, conn.scrapingErrors := basicRows, errors;
  }
}
