/**
 * The edge function that forwards dashboard queries to the warehouse
 * (supabase/functions/databricks-query/index.ts): the configuration and query
 * checks, the allow-list of views, the warehouse id taken from the HTTP path,
 * the failure check on the statement response and the column-typed decoding of
 * its rows. The HTTP exchange is a function parameter `send`.
 */
module Gateway {
  import opened Wrappers
  import opened Text

  // ---------------------------------------------------------------------------
  // Configuration and request checks

  /** The three environment variables; None when unset. */
  datatype Config = Config(host: Option<string>, httpPath: Option<string>, token: Option<string>)

  /** JavaScript falsiness of an optional string: unset or empty. */
  predicate Blank(s: Option<string>) {
    s.None? || s.value == ""
  }

  /** The views a query may name, as listed by the gateway. */
  const AllowedTables: seq<string> := [
    "hackathon.ui_kpis",
    "hackathon.ui_top10_total_kwh",
    "hackathon.ui_top10_intensity",
    "hackathon.ui_buildings",
    "hackathon.ui_hourly_timeseries",
    "hackathon.ui_building_hourly_profile",
    "hackathon.ui_building_heatmap",
    "hackathon.ui_top_anomalies"
  ]

  /** The lower-cased query contains the lower-cased name of some allowed view. */
  predicate HasValidTable(query: string) {
    exists i | 0 <= i < |AllowedTables| :: Contains(Lower(query), Lower(AllowedTables[i]))
  }

  /** Acceptance does not depend on letter case. */
  lemma HasValidTableLower(query: string)
    ensures HasValidTable(Lower(query)) <==> HasValidTable(query)
  {
    LowerIdempotent(query);
  }

  /** Any text that contains an accepted query is accepted: the check is containment, not parsing. */
  lemma HasValidTableMonotone(query: string, a: int, b: int)
    requires 0 <= a <= b <= |query|
    requires HasValidTable(query[a..b])
    ensures HasValidTable(query)
  {
    var i :| 0 <= i < |AllowedTables| && Contains(Lower(query[a..b]), Lower(AllowedTables[i]));
    LowerContainsLowerSlice(query, a, b);
    ContainsTransitive(Lower(query), Lower(query[a..b]), Lower(AllowedTables[i]));
  }

  /** What the gateway sends in its single POST to the statement API. */
  datatype StatementRequest = StatementRequest(host: string, token: string, warehouseId: string,
                                               statement: string, waitTimeout: string)

  /**
   * The checks before the request is built, in the order of the source:
   * configuration, query presence, allow-list, warehouse id.
   */
  function PrepareRequest(config: Config, query: Option<string>): (res: Result<StatementRequest>)
    ensures Blank(config.host) || Blank(config.httpPath) || Blank(config.token)
            ==> res == Failure("Missing Databricks configuration")
    ensures !(Blank(config.host) || Blank(config.httpPath) || Blank(config.token)) && Blank(query)
            ==> res == Failure("Query is required")
    ensures !(Blank(config.host) || Blank(config.httpPath) || Blank(config.token)) && !Blank(query)
            && !HasValidTable(query.value)
            ==> res == Failure("Invalid query: must reference an allowed table")
    ensures !(Blank(config.host) || Blank(config.httpPath) || Blank(config.token)) && !Blank(query)
            && HasValidTable(query.value) && ExtractWarehouseId(config.httpPath.value).None?
            ==> res == Failure("Invalid HTTP path format")
    ensures res.Success? <==> && !(Blank(config.host) || Blank(config.httpPath) || Blank(config.token))
                              && !Blank(query) && HasValidTable(query.value)
                              && ExtractWarehouseId(config.httpPath.value).Some?
    ensures res.Success? ==> && res.value.host == config.host.value && res.value.token == config.token.value
                             && res.value.statement == query.value
                             && res.value.warehouseId == ExtractWarehouseId(config.httpPath.value).value
                             && res.value.waitTimeout == "30s"
  {
    if Blank(config.host) || Blank(config.httpPath) || Blank(config.token) then
      Failure("Missing Databricks configuration")
    else if Blank(query) then
      Failure("Query is required")
    else if !HasValidTable(query.value) then
      Failure("Invalid query: must reference an allowed table")
    else
      match ExtractWarehouseId(config.httpPath.value)
      case None => Failure("Invalid HTTP path format")
      case Some(id) => Success(StatementRequest(config.host.value, config.token.value, id, query.value, "30s"))
  }

  // ---------------------------------------------------------------------------
  // Warehouse id: the first match of /warehouses\/([a-z0-9]+)/i

  /** An ASCII letter or digit: what `[a-z0-9]` matches under the `i` flag. */
  predicate IsAlnum(c: char) {
    ('a' <= c <= 'z') || ('A' <= c <= 'Z') || ('0' <= c <= '9')
  }

  /** The regex matches at `i`: "warehouses/" in any case, then at least one letter or digit. */
  predicate MatchesAt(path: string, i: int) {
    0 <= i && i + 12 <= |path| && Lower(path[i..i + 11]) == "warehouses/" && IsAlnum(path[i + 11])
  }

  /** The length of the run of letters and digits starting at `j`. */
  function AlnumRun(s: string, j: int): (n: nat)
    requires 0 <= j <= |s|
    ensures j + n <= |s|
    ensures forall k :: j <= k < j + n ==> IsAlnum(s[k])
    ensures j + n == |s| || !IsAlnum(s[j + n])
    decreases |s| - j
  {
    if j == |s| || !IsAlnum(s[j]) then 0 else 1 + AlnumRun(s, j + 1)
  }

  /** `k` is the first position at or after `i` where the regex matches. */
  predicate FirstMatchFrom(path: string, i: int, k: int) {
    i <= k && MatchesAt(path, k) && forall m :: i <= m < k ==> !MatchesAt(path, m)
  }

  /** `id` is the maximal non-empty run of letters and digits right after "warehouses/" at `k`. */
  predicate CapturedAt(path: string, k: int, id: string) {
    && 0 <= k && OccursAt(path, id, k + 11)
    && |id| >= 1 && (forall j :: 0 <= j < |id| ==> IsAlnum(id[j]))
    && (k + 11 + |id| == |path| || !IsAlnum(path[k + 11 + |id|]))
  }

  /** The first match at or after position `i`, and the captured group. */
  function SearchFrom(path: string, i: nat): (res: Option<string>)
    requires i <= |path|
    ensures res.None? <==> forall k :: i <= k <= |path| ==> !MatchesAt(path, k)
    ensures res.Some? ==> exists k :: FirstMatchFrom(path, i, k) && CapturedAt(path, k, res.value)
    decreases |path| - i, 1
  {
    if i + 12 > |path| then None
    else if MatchesAt(path, i) then
      var id := path[i + 11..i + 11 + AlnumRun(path, i + 11)];
      assert FirstMatchFrom(path, i, i) && CapturedAt(path, i, id);
      Some(id)
    else
      SearchStep(path, i);
      SearchFrom(path, i + 1)
  }

  /** A miss at `i` moves the first match from `i + 1` back to `i`. */
  lemma SearchStep(path: string, i: nat)
    requires i + 12 <= |path| && !MatchesAt(path, i)
    ensures SearchFrom(path, i + 1).Some? ==>
              exists k :: FirstMatchFrom(path, i, k) && CapturedAt(path, k, SearchFrom(path, i + 1).value)
    decreases |path| - i, 0
  {
    if SearchFrom(path, i + 1).Some? {
      var k :| FirstMatchFrom(path, i + 1, k) && CapturedAt(path, k, SearchFrom(path, i + 1).value);
      assert FirstMatchFrom(path, i, k);
    }
  }

  /**
   * `path.match(/warehouses\/([a-z0-9]+)/i)?.[1]`: the maximal run of letters
   * and digits after the leftmost "warehouses/" (in any case) that is followed
   * by at least one of them, or None when there is no such occurrence.
   */
  function ExtractWarehouseId(path: string): (res: Option<string>)
    ensures res.None? <==> forall k :: 0 <= k <= |path| ==> !MatchesAt(path, k)
    ensures res.Some? ==> exists k :: FirstMatchFrom(path, 0, k) && CapturedAt(path, k, res.value)
  {
    SearchFrom(path, 0)
  }

  /** There is one leftmost match. */
  lemma FirstMatchUnique(path: string, k1: int, k2: int)
    requires FirstMatchFrom(path, 0, k1) && FirstMatchFrom(path, 0, k2)
    ensures k1 == k2
  {
  }

  /** There is one maximal run at a given position. */
  lemma CapturedUnique(path: string, k: int, id1: string, id2: string)
    requires CapturedAt(path, k, id1) && CapturedAt(path, k, id2)
    ensures id1 == id2
  {
    RunLength(path, k + 11, |id1|);
    RunLength(path, k + 11, |id2|);
  }

  /** A maximal run of letters and digits has the length AlnumRun finds. */
  lemma {:induction false} RunLength(s: string, j: int, n: nat)
    requires 0 <= j && j + n <= |s| && (forall t :: j <= t < j + n ==> IsAlnum(s[t]))
    requires j + n == |s| || !IsAlnum(s[j + n])
    ensures AlnumRun(s, j) == n
    decreases n
  {
    if n > 0 {
      assert IsAlnum(s[j]);
      RunLength(s, j + 1, n - 1);
    }
  }

  /** Conversely, the maximal run after the leftmost match is the id the function returns. */
  lemma WarehouseIdCharacterised(path: string, k: int, id: string)
    requires FirstMatchFrom(path, 0, k) && CapturedAt(path, k, id)
    ensures ExtractWarehouseId(path) == Some(id)
  {
    assert MatchesAt(path, k);
    var res := ExtractWarehouseId(path);
    var k' :| FirstMatchFrom(path, 0, k') && CapturedAt(path, k', res.value);
    FirstMatchUnique(path, k, k');
    CapturedUnique(path, k, id, res.value);
  }

  /** The documented path format yields its last segment. */
  lemma WarehouseIdExample(path: string)
    requires path == "/sql/1.0/warehouses/abc123"
    ensures ExtractWarehouseId(path) == Some("abc123")
  {
    ExampleFirstMatch(path);
    ExampleCapture(path);
    WarehouseIdCharacterised(path, 9, "abc123");
  }

  /** In the documented path the leftmost "warehouses/" starts at index 9. */
  lemma ExampleFirstMatch(path: string)
    requires path == "/sql/1.0/warehouses/abc123"
    ensures FirstMatchFrom(path, 0, 9)
  {
    assert MatchesAt(path, 9) by {
      assert path[9..20] == "warehouses/";
    }
    forall m | 0 <= m < 9 ensures !MatchesAt(path, m) {
      ExampleNoEarlyMatch(path, m);
    }
  }

  /** None of the first nine characters of the documented path is a `w`, so no match starts there. */
  lemma ExampleNoEarlyMatch(path: string, m: int)
    requires path == "/sql/1.0/warehouses/abc123" && 0 <= m < 9
    ensures !MatchesAt(path, m)
  {
    var c := path[m];
    assert c in "/sql/1.0/" by {
      assert path[..9] == "/sql/1.0/";
      assert c == path[..9][m];
    }
    assert Lower(path[m..m + 11])[0] == LowerChar(c);
  }

  /** The run captured after that match is "abc123". */
  lemma ExampleCapture(path: string)
    requires path == "/sql/1.0/warehouses/abc123"
    ensures CapturedAt(path, 9, "abc123")
  {
    assert path[20..26] == "abc123";
  }

  // ---------------------------------------------------------------------------
  // The statement response

  /** One cell of `data_array`; `Undefined` is an index past the end of a short row. */
  datatype Cell = Text(s: string) | Number(x: real) | Null | Undefined

  datatype Column = Column(name: string, typeName: string)

  /** The parts of the statement response the gateway reads; None where a field is absent. */
  datatype StatementResponse = StatementResponse(
    columns: Option<seq<Column>>,        // manifest?.schema?.columns
    dataArray: Option<seq<seq<Cell>>>,   // result?.data_array
    state: Option<string>,               // status?.state
    error: Option<Option<string>>)       // error, and error.message within it

  /**
   * A decoded value. `FloatOf(c)` and `IntOf(c)` stand for
   * `parseFloat(String(c))` and `parseInt(String(c), 10)` of a non-null cell.
   */
  datatype Value = Passed(c: Cell) | FloatOf(c: Cell) | IntOf(c: Cell)

  /** The failure check: state FAILED or an error object fails with its message or a default. */
  function CheckExecution(r: StatementResponse): (res: Result<()>)
    ensures res.Failure? <==> r.state == Some("FAILED") || r.error.Some?
    ensures res.Failure? && r.error.Some? && !Blank(r.error.value) ==> res.error == r.error.value.value
    ensures res.Failure? && (r.error.None? || Blank(r.error.value)) ==> res.error == "Query execution failed"
  {
    if r.state == Some("FAILED") || r.error.Some? then
      if r.error.Some? && !Blank(r.error.value) then Failure(r.error.value.value)
      else Failure("Query execution failed")
    else Success(())
  }

  predicate IsFloatType(t: string) {
    t == "DOUBLE" || t == "FLOAT" || t == "DECIMAL"
  }

  predicate IsIntType(t: string) {
    t == "INT" || t == "LONG" || t == "BIGINT"
  }

  /** The conversion of one cell by its column's type name. */
  function Convert(typeName: string, cell: Cell): (v: Value)
    ensures cell == Null ==> v == Passed(Null)
    ensures cell != Null && IsFloatType(typeName) ==> v == FloatOf(cell)
    ensures cell != Null && IsIntType(typeName) ==> v == IntOf(cell)
    ensures !IsFloatType(typeName) && !IsIntType(typeName) ==> v == Passed(cell)
  {
    if IsFloatType(typeName) then (if cell != Null then FloatOf(cell) else Passed(Null))
    else if IsIntType(typeName) then (if cell != Null then IntOf(cell) else Passed(Null))
    else Passed(cell)
  }

  /** `row[index]`, undefined past the end. */
  function CellAt(row: seq<Cell>, index: int): Cell {
    if 0 <= index < |row| then row[index] else Undefined
  }

  /** The object built for one row: keys assigned in column order, so a later column overwrites an earlier one. */
  function RowRecord(columns: seq<Column>, row: seq<Cell>): map<string, Value>
    decreases |columns|
  {
    if columns == [] then map[]
    else
      var k := |columns| - 1;
      RowRecord(columns[..k], row)[columns[k].name := Convert(columns[k].typeName, CellAt(row, k))]
  }

  /** The names of the columns. */
  function Names(columns: seq<Column>): set<string> {
    set i | 0 <= i < |columns| :: columns[i].name
  }

  /** `i` is the last column with its name. */
  predicate LastOfName(columns: seq<Column>, i: int) {
    0 <= i < |columns| && forall j :: i < j < |columns| ==> columns[j].name != columns[i].name
  }

  /** A record has exactly one key per column name. */
  lemma {:induction false} RowRecordKeys(columns: seq<Column>, row: seq<Cell>)
    ensures RowRecord(columns, row).Keys == Names(columns)
  {
    if columns != [] {
      var k := |columns| - 1;
      var prefix := columns[..k];
      RowRecordKeys(prefix, row);
      forall n | n in Names(columns) ensures n in Names(prefix) + {columns[k].name} {
        var i :| 0 <= i < |columns| && columns[i].name == n;
        if i < k {
          assert prefix[i].name == n;
        }
      }
      forall n | n in Names(prefix) ensures n in Names(columns) {
        var i :| 0 <= i < |prefix| && prefix[i].name == n;
        assert columns[i].name == n;
      }
    }
  }

  /** Each key holds the value of the last column of that name: later columns win. */
  lemma {:induction false} RowRecordLastWins(columns: seq<Column>, row: seq<Cell>, i: int)
    requires LastOfName(columns, i)
    ensures columns[i].name in RowRecord(columns, row)
    ensures RowRecord(columns, row)[columns[i].name] == Convert(columns[i].typeName, CellAt(row, i))
  {
    var k := |columns| - 1;
    if i < k {
      var prefix := columns[..k];
      assert prefix[i] == columns[i];
      assert LastOfName(prefix, i);
      RowRecordLastWins(prefix, row, i);
      assert columns[k].name != columns[i].name;
    }
  }

  /** Decodes one row, assigning its keys column by column. */
  method DecodeRow(columns: seq<Column>, row: seq<Cell>) returns (obj: map<string, Value>)
    ensures obj == RowRecord(columns, row)
    ensures obj.Keys == Names(columns)
    ensures forall i :: LastOfName(columns, i) ==> obj[columns[i].name] == Convert(columns[i].typeName, CellAt(row, i))
  {
    obj := map[];
    var index := 0;
    while index < |columns|
      invariant 0 <= index <= |columns|
      invariant obj == RowRecord(columns[..index], row)
    {
      var col := columns[index];
      var value := CellAt(row, index);
      if IsFloatType(col.typeName) {
        obj := obj[col.name := if value != Null then FloatOf(value) else Passed(Null)];
      } else if IsIntType(col.typeName) {
        obj := obj[col.name := if value != Null then IntOf(value) else Passed(Null)];
      } else {
        obj := obj[col.name := Passed(value)];
      }
      assert columns[..index + 1][..index] == columns[..index];
      index := index + 1;
    }
    assert columns[..index] == columns;
    RowRecordKeys(columns, row);
    forall i | LastOfName(columns, i) ensures obj[columns[i].name] == Convert(columns[i].typeName, CellAt(row, i)) {
      RowRecordLastWins(columns, row, i);
    }
  }

  /** One record per row, in row order. */
  function Records(columns: seq<Column>, rows: seq<seq<Cell>>): (data: seq<map<string, Value>>)
    ensures |data| == |rows| && forall i :: 0 <= i < |rows| ==> data[i] == RowRecord(columns, rows[i])
  {
    seq(|rows|, i requires 0 <= i < |rows| => RowRecord(columns, rows[i]))
  }

  /** The decoded data of a response; absent parts count as empty. */
  function DecodedData(r: StatementResponse): seq<map<string, Value>> {
    Records(r.columns.GetOr([]), r.dataArray.GetOr([]))
  }

  /** The records of one more row are those of the rows before it, then its own. */
  lemma RecordsStep(columns: seq<Column>, rows: seq<seq<Cell>>, i: int)
    requires 0 <= i < |rows|
    ensures Records(columns, rows[..i + 1]) == Records(columns, rows[..i]) + [RowRecord(columns, rows[i])]
  {
  }

  /** Decodes every row of the response. */
  method Decode(r: StatementResponse) returns (data: seq<map<string, Value>>)
    ensures data == DecodedData(r)
    ensures |data| == |r.dataArray.GetOr([])|
  {
    var columns := r.columns.GetOr([]);
    var rows := r.dataArray.GetOr([]);
    data := [];
    var i := 0;
    while i < |rows|
      invariant 0 <= i <= |rows|
      invariant data == Records(columns, rows[..i])
    {
      var obj := DecodeRow(columns, rows[i]);
      RecordsStep(columns, rows, i);
      data := data + [obj];
      i := i + 1;
    }
    assert rows[..i] == rows;
  }

  /** A response without manifest or result, whatever its state (PENDING and RUNNING included), decodes to no data. */
  lemma MissingResultIsEmpty(r: StatementResponse)
    requires r.dataArray.None?
    ensures DecodedData(r) == []
  {
  }

  /** The HTTP reply to the POST: its `ok` flag, status code, text and parsed body. */
  datatype HttpReply = HttpReply(ok: bool, status: int, text: string, body: StatementResponse)

  /**
   * The gateway: the checks, one POST through `send` with no re-fetch, then the
   * HTTP and execution checks and the decoding of the rows. The error of a
   * failure is the message of the thrown error.
   */
  method HandleQuery(config: Config, query: Option<string>, send: StatementRequest -> HttpReply)
    returns (res: Result<seq<map<string, Value>>>)
    ensures PrepareRequest(config, query).Failure? ==> res == Failure(PrepareRequest(config, query).error)
    ensures PrepareRequest(config, query).Success? ==>
              var reply := send(PrepareRequest(config, query).value);
              if !reply.ok then res == Failure("Databricks API error: " + IntToString(reply.status) + " - " + reply.text)
              else if CheckExecution(reply.body).Failure? then res == Failure(CheckExecution(reply.body).error)
              else res == Success(DecodedData(reply.body))
  {
    var request := PrepareRequest(config, query);
    if request.Failure? {
      return Failure(request.error);
    }
    var reply := send(request.value);
    if !reply.ok {
      return Failure("Databricks API error: " + IntToString(reply.status) + " - " + reply.text);
    }
    var check := CheckExecution(reply.body);
    if check.Failure? {
      return Failure(check.error);
    }
    var data := Decode(reply.body);
    return Success(data);
  }
}
