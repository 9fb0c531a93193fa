/** Log ingestion: arbitrary rows onto the canonical shape with source-stable ids
    (src/quellgeist/ingest/normalize.py, `normalize_log_rows`), and the merge of a directory of
    log files (src/quellgeist/ingest/sources.py, `read_log_source`). */
module LogRows {
  import opened Wrappers
  import opened Strings
  import opened Normalize
  import opened Sorting

  /** A raw row: its keys, which are distinct, and their values, in insertion order. */
  type Raw = seq<(string, Value)>

  datatype Fields = Fields(ts: string, level: string, route: Option<string>, status: Option<int>, msg: string)

  datatype LogRow = LogRow(id: int, fields: Fields)

  /** How the fields of a raw row are read; None when that raises. */
  type Reader = Raw -> Option<Fields>

  const TS_KEYS := ["ts", "timestamp", "time", "@timestamp", "datetime", "date", "eventtime"]
  const LEVEL_KEYS := ["level", "severity", "levelname", "lvl", "log_level", "loglevel"]
  const ROUTE_KEYS := ["route", "path", "url", "uri", "endpoint", "request_path", "target"]
  const STATUS_KEYS := ["status", "status_code", "statuscode", "http_status", "code"]
  const MSG_KEYS := ["msg", "message", "log", "event", "text", "body", "detail", "error"]

  // --- one row ------------------------------------------------------------------------------

  /** The value under a key that spells `want` in any case; the last such key. */
  function Spelled(row: Raw, want: string): Option<Value> {
    if row == [] then None
    else
      var (key, value) := row[|row| - 1];
      if Lower(key) == want then Some(value) else Spelled(row[..|row| - 1], want)
  }

  /** `_pick`: the first alias that some key spells. */
  function Pick(row: Raw, aliases: seq<string>): Option<Value> {
    if aliases == [] then None
    else if Spelled(row, aliases[0]).Some? then Spelled(row, aliases[0])
    else Pick(row, aliases[1..])
  }

  /** `row.get(key)`. */
  function Get(row: Raw, key: string): Option<Value> {
    if row == [] then None
    else if row[|row| - 1].0 == key then Some(row[|row| - 1].1)
    else Get(row[..|row| - 1], key)
  }

  /** An id the row brings along: an int, not a bool. */
  predicate Usable(row: Raw) {
    Get(row, "id").Some? && Get(row, "id").value.Number?
  }

  function CoerceStatus(lib: Library, v: Value): Option<int> {
    match v
    case Flag(b) => Some(if b then 1 else 0)
    case Number(n) => Some(n)
    case Text(s) => lib.whole(s)
    case _ => None
  }

  /** The canonical fields of a row; None when its timestamp raises. */
  function ReadFields(lib: Library, raw: Raw): Option<Fields> {
    Coerced(lib, Pick(raw, TS_KEYS), Pick(raw, LEVEL_KEYS), Pick(raw, ROUTE_KEYS), Pick(raw, STATUS_KEYS),
      Pick(raw, MSG_KEYS))
  }

  function Coerced(lib: Library, ts: Option<Value>, level: Option<Value>, route: Option<Value>,
    status: Option<Value>, msg: Option<Value>): Option<Fields>
  {
    var time := if ts.Some? then NormalizeTs(lib, ts.value) else Some("");
    var kind := NormalizeLevel(if level.Some? then level.value else Missing);
    if time.None? then None
    else Some(Fields(time.value, kind, RouteOf(route), StatusOf(lib, status), MsgOf(msg)))
  }

  function RouteOf(route: Option<Value>): Option<string> {
    if route.Some? && !route.value.Missing? then Some(Shown(route.value)) else None
  }

  function StatusOf(lib: Library, status: Option<Value>): Option<int> {
    if status.Some? then CoerceStatus(lib, status.value) else None
  }

  function MsgOf(msg: Option<Value>): string {
    if msg.Some? then Shown(msg.value) else ""
  }

  function Canonical(lib: Library): Reader {
    (raw: Raw) => ReadFields(lib, raw)
  }

  function IdFor(raw: Raw, next: int): int {
    if Usable(raw) then Get(raw, "id").value.n else next
  }

  // --- what the fields of a row are read from --------------------------------------------------

  /** Entry i is the last one whose key spells `want` in any case. */
  ghost predicate LastSpelling(raw: Raw, want: string, i: nat) {
    && i < |raw| && Lower(raw[i].0) == want
    && forall j :: i < j < |raw| ==> Lower(raw[j].0) != want
  }

  ghost predicate Unspelled(raw: Raw, want: string) {
    forall i :: 0 <= i < |raw| ==> Lower(raw[i].0) != want
  }

  /** The aliases before the a-th are not in the row, that one is, and entry i is its last spelling. */
  ghost predicate FirstAlias(raw: Raw, aliases: seq<string>, a: nat, i: nat) {
    && a < |aliases| && LastSpelling(raw, aliases[a], i)
    && forall b :: 0 <= b < a ==> Unspelled(raw, aliases[b])
  }

  /** What is found under these aliases: nothing if the row spells none of them, else the value at
      the last spelling of the first one it does spell. */
  ghost predicate FoundUnder(raw: Raw, aliases: seq<string>, found: Option<Value>) {
    if found.None? then forall b :: 0 <= b < |aliases| ==> Unspelled(raw, aliases[b])
    else exists a: nat, i: nat :: FirstAlias(raw, aliases, a, i) && raw[i].1 == found.value
  }

  lemma {:induction false} SpelledMeans(raw: Raw, want: string)
    ensures Spelled(raw, want).None? ==> Unspelled(raw, want)
    ensures Spelled(raw, want).Some? ==>
      exists i: nat :: LastSpelling(raw, want, i) && raw[i].1 == Spelled(raw, want).value
  {
    if raw != [] {
      var n := |raw| - 1;
      SpelledMeans(raw[..n], want);
      if Lower(raw[n].0) == want {
        assert LastSpelling(raw, want, n);
      } else if Spelled(raw, want).Some? {
        var i: nat :| LastSpelling(raw[..n], want, i) && raw[i].1 == Spelled(raw, want).value;
        assert LastSpelling(raw, want, i);
      } else {
        assert forall i :: 0 <= i < n ==> Lower(raw[..n][i].0) != want;
      }
    }
  }

  lemma {:induction false} PickFinds(raw: Raw, aliases: seq<string>)
    ensures FoundUnder(raw, aliases, Pick(raw, aliases))
  {
    if aliases != [] {
      var found := Pick(raw, aliases);
      SpelledMeans(raw, aliases[0]);
      if Spelled(raw, aliases[0]).Some? {
        var i: nat :| LastSpelling(raw, aliases[0], i) && raw[i].1 == found.value;
        assert FirstAlias(raw, aliases, 0, i);
      } else {
        PickFinds(raw, aliases[1..]);
        if found.Some? {
          var a: nat, i: nat :| FirstAlias(raw, aliases[1..], a, i) && raw[i].1 == found.value;
          assert FirstAlias(raw, aliases, a + 1, i) by {
            forall b | 0 <= b < a + 1 ensures Unspelled(raw, aliases[b]) {
              assert b > 0 ==> aliases[b] == aliases[1..][b - 1];
            }
          }
        } else {
          forall b | 0 <= b < |aliases| ensures Unspelled(raw, aliases[b]) {
            assert b > 0 ==> aliases[b] == aliases[1..][b - 1];
          }
        }
      }
    }
  }

  /** One answer alone is the one found. */
  lemma PickMeans(raw: Raw, aliases: seq<string>, found: Option<Value>)
    ensures Pick(raw, aliases) == found <==> FoundUnder(raw, aliases, found)
  {
    PickFinds(raw, aliases);
    var pick := Pick(raw, aliases);
    if FoundUnder(raw, aliases, found) && found.Some? && pick.Some? {
      var a: nat, i: nat :| FirstAlias(raw, aliases, a, i) && raw[i].1 == found.value;
      var b: nat, j: nat :| FirstAlias(raw, aliases, b, j) && raw[j].1 == pick.value;
      assert a == b && i == j;
    }
  }

  /** The canonical fields of a row, told from what is found for each: the time, nothing without one;
      the level, INFO without one; the route unless it is null; the status if it is a number, a truth
      value, or a text that reads as a whole number; the message as text, nothing without one. */
  ghost predicate FieldsFrom(lib: Library, ts: Option<Value>, level: Option<Value>, route: Option<Value>,
    status: Option<Value>, msg: Option<Value>, f: Fields)
  {
    && TimeFrom(lib, ts, f.ts)
    && LevelFrom(level, f.level)
    && RouteFrom(route, f.route)
    && StatusFrom(lib, status, f.status)
    && MsgFrom(msg, f.msg)
  }

  ghost predicate RouteFrom(route: Option<Value>, got: Option<string>) {
    && (got.None? <==> route.None? || route == Some(Missing))
    && (got.Some? && route.Some? ==> ShownAs(route.value, got.value))
  }

  ghost predicate MsgFrom(msg: Option<Value>, got: string) {
    if msg.None? then got == "" else ShownAs(msg.value, got)
  }

  /** A value as text, with the names that Python gives its constants. */
  ghost predicate ShownAs(v: Value, s: string) {
    match v
    case Missing => s == "None"
    case Flag(b) => s == if b then "True" else "False"
    case Number(n) => s == Decimal(n)
    case Text(t) => s == t
    case Other(repr) => s == repr
  }

  ghost predicate TimeFrom(lib: Library, ts: Option<Value>, time: string) {
    if ts.None? then time == "" else NormalizeTs(lib, ts.value) == Some(time)
  }

  ghost predicate LevelFrom(level: Option<Value>, kind: string) {
    if level.None? then kind == "INFO" else kind == NormalizeLevel(level.value)
  }

  /** Each field is read from its own names, the earlier before the later. */
  lemma FieldsMean(lib: Library, raw: Raw, ts: Option<Value>, level: Option<Value>, route: Option<Value>,
    status: Option<Value>, msg: Option<Value>, f: Fields)
    requires FoundUnder(raw, ["ts", "timestamp", "time", "@timestamp", "datetime", "date", "eventtime"], ts)
    requires FoundUnder(raw, ["level", "severity", "levelname", "lvl", "log_level", "loglevel"], level)
    requires FoundUnder(raw, ["route", "path", "url", "uri", "endpoint", "request_path", "target"], route)
    requires FoundUnder(raw, ["status", "status_code", "statuscode", "http_status", "code"], status)
    requires FoundUnder(raw, ["msg", "message", "log", "event", "text", "body", "detail", "error"], msg)
    ensures ReadFields(lib, raw) == Some(f) <==> FieldsFrom(lib, ts, level, route, status, msg, f)
  {
    PickMeans(raw, TS_KEYS, ts);
    PickMeans(raw, LEVEL_KEYS, level);
    PickMeans(raw, ROUTE_KEYS, route);
    PickMeans(raw, STATUS_KEYS, status);
    PickMeans(raw, MSG_KEYS, msg);
    CoercedMeans(lib, ts, level, route, status, msg, f);
  }

  lemma CoercedMeans(lib: Library, ts: Option<Value>, level: Option<Value>, route: Option<Value>,
    status: Option<Value>, msg: Option<Value>, f: Fields)
    ensures Coerced(lib, ts, level, route, status, msg) == Some(f) <==>
      FieldsFrom(lib, ts, level, route, status, msg, f)
  {
    var time := if ts.Some? then NormalizeTs(lib, ts.value) else Some("");
    var kind := NormalizeLevel(if level.Some? then level.value else Missing);
    var coerced := Coerced(lib, ts, level, route, status, msg);
    LevelMeans(level, kind, f.level);
    TextsMean(route, msg, f);
    StatusMeans(lib, status, f.status);
    Assembled(time, kind, RouteOf(route), StatusOf(lib, status), MsgOf(msg), coerced, f);
  }

  lemma Assembled(time: Option<string>, kind: string, route: Option<string>, status: Option<int>, msg: string,
    fields: Option<Fields>, f: Fields)
    requires fields == if time.None? then None else Some(Fields(time.value, kind, route, status, msg))
    ensures fields == Some(f) <==>
      time == Some(f.ts) && kind == f.level && route == f.route && status == f.status && msg == f.msg
  {
  }

  lemma TextsMean(route: Option<Value>, msg: Option<Value>, f: Fields)
    ensures RouteOf(route) == f.route <==> RouteFrom(route, f.route)
    ensures MsgOf(msg) == f.msg <==> MsgFrom(msg, f.msg)
  {
  }

  lemma LevelMeans(level: Option<Value>, kind: string, given: string)
    requires kind == NormalizeLevel(if level.Some? then level.value else Missing)
    ensures kind == given <==> LevelFrom(level, given)
  {
  }

  /** The value reads as the status n. */
  ghost predicate StatusReads(lib: Library, v: Value, n: int) {
    || v == Number(n) || (v == Flag(true) && n == 1) || (v == Flag(false) && n == 0)
    || (v.Text? && lib.whole(v.s) == Some(n))
  }

  ghost predicate StatusFrom(lib: Library, v: Option<Value>, status: Option<int>) {
    if v.None? then status.None?
    else forall n :: status == Some(n) <==> StatusReads(lib, v.value, n)
  }

  lemma StatusMeans(lib: Library, v: Option<Value>, status: Option<int>)
    ensures StatusOf(lib, v) == status <==> StatusFrom(lib, v, status)
  {
    var read := StatusOf(lib, v);
    if v.Some? && StatusFrom(lib, v, status) {
      if status.Some? {
        assert StatusReads(lib, v.value, status.value);
      } else if read.Some? {
        assert StatusReads(lib, v.value, read.value);
      }
    }
  }

  // --- all rows, and their ids -----------------------------------------------------------------

  /** The next id to assign after these rows. */
  function NextId(rows: seq<LogRow>, start: int): int {
    if rows == [] then start
    else
      var next, id := NextId(rows[..|rows| - 1], start), rows[|rows| - 1].id;
      if id >= next then id + 1 else next
  }

  function Rows(read: Reader, raws: seq<Raw>, start: int): Option<seq<LogRow>> {
    if raws == [] then Some([])
    else
      var rest, fields := Rows(read, raws[..|raws| - 1], start), read(raws[|raws| - 1]);
      if rest.None? || fields.None? then None
      else Some(rest.value + [LogRow(IdFor(raws[|raws| - 1], NextId(rest.value, start)), fields.value)])
  }

  /** `normalize_log_rows`: None when a timestamp raises. */
  method NormalizeLogRows(read: Reader, raws: seq<Raw>, start: int) returns (res: Option<seq<LogRow>>)
    ensures res == Rows(read, raws, start)
  {
    var out: seq<LogRow> := [];
    var next := start;
    for i := 0 to |raws|
      invariant Rows(read, raws[..i], start) == Some(out)
      invariant next == NextId(out, start)
    {
      assert raws[..i + 1][..i] == raws[..i];
      var id := next;
      if Usable(raws[i]) {
        id := Get(raws[i], "id").value.n;
      } else {
        next := next + 1;
      }
      var fields := read(raws[i]);
      if fields.None? {
        RowsRaise(read, raws, i + 1, start);
        return None;
      }
      var row := LogRow(id, fields.value);
      assert (out + [row])[..|out|] == out;
      out := out + [row];
      if row.id >= next {
        next := row.id + 1;
      }
    }
    assert raws[..|raws|] == raws;
    return Some(out);
  }

  lemma {:induction false} RowsRaise(read: Reader, raws: seq<Raw>, i: nat, start: int)
    requires i <= |raws| && Rows(read, raws[..i], start).None?
    ensures Rows(read, raws, start).None?
    decreases |raws| - i
  {
    if i == |raws| {
      assert raws[..i] == raws;
    } else {
      assert raws[..i + 1][..i] == raws[..i];
      RowsRaise(read, raws, i + 1, start);
    }
  }

  lemma {:induction false} NextIdExceeds(rows: seq<LogRow>, start: int)
    ensures NextId(rows, start) >= start
    ensures forall r <- rows :: r.id < NextId(rows, start)
  {
    if rows != [] {
      NextIdExceeds(rows[..|rows| - 1], start);
      assert rows == rows[..|rows| - 1] + [rows[|rows| - 1]];
    }
  }

  lemma RowsStep(read: Reader, raws: seq<Raw>, start: int)
    requires raws != [] && Rows(read, raws, start).Some?
    ensures var n := |raws| - 1;
      && Rows(read, raws[..n], start).Some? && read(raws[n]).Some?
      && var rest := Rows(read, raws[..n], start).value;
         Rows(read, raws, start).value == rest + [LogRow(IdFor(raws[n], NextId(rest, start)), read(raws[n]).value)]
  {
  }

  lemma {:induction false} RowsKeepFields(read: Reader, raws: seq<Raw>, start: int)
    requires Rows(read, raws, start).Some?
    ensures |Rows(read, raws, start).value| == |raws|
    ensures forall i :: 0 <= i < |raws| ==> read(raws[i]) == Some(Rows(read, raws, start).value[i].fields)
  {
    if raws != [] {
      RowsStep(read, raws, start);
      RowsKeepFields(read, raws[..|raws| - 1], start);
    }
  }

  /** A usable id is kept; an assigned one exceeds every id before it. */
  ghost predicate IdRule(raw: Raw, rows: seq<LogRow>, i: nat, start: int)
    requires i < |rows|
  {
    if Usable(raw) then Get(raw, "id") == Some(Number(rows[i].id))
    else start <= rows[i].id && forall j :: 0 <= j < i ==> rows[j].id < rows[i].id
  }

  lemma {:induction false} AssignedIdsExceed(read: Reader, raws: seq<Raw>, start: int)
    requires Rows(read, raws, start).Some?
    ensures |Rows(read, raws, start).value| == |raws|
    ensures forall i :: 0 <= i < |raws| ==> IdRule(raws[i], Rows(read, raws, start).value, i, start)
  {
    RowsKeepFields(read, raws, start);
    if raws != [] {
      var n := |raws| - 1;
      RowsStep(read, raws, start);
      var rest, rows := Rows(read, raws[..n], start).value, Rows(read, raws, start).value;
      AssignedIdsExceed(read, raws[..n], start);
      forall i | 0 <= i < n ensures IdRule(raws[i], rows, i, start) {
        assert IdRule(raws[..n][i], rest, i, start);
      }
      LastIdRule(raws[n], rest, rows[n], start);
      assert rows == rest + [rows[n]];
    }
  }

  lemma LastIdRule(raw: Raw, rest: seq<LogRow>, row: LogRow, start: int)
    requires row.id == IdFor(raw, NextId(rest, start))
    ensures IdRule(raw, rest + [row], |rest|, start)
  {
    NextIdExceeds(rest, start);
    assert forall j :: 0 <= j < |rest| ==> rest[j] in rest;
  }

  // --- exactly when ingestion raises -----------------------------------------------------------

  /** The row's timestamp, under whichever alias it is found, is one that raises. */
  predicate RowRaises(lib: Library, raw: Raw) {
    var ts := Pick(raw, TS_KEYS);
    ts.Some? && Raises(lib, ts.value)
  }

  lemma ReadRaises(lib: Library, raw: Raw)
    ensures Canonical(lib)(raw).None? <==> RowRaises(lib, raw)
  {
    var ts := Pick(raw, TS_KEYS);
    if ts.Some? {
      NormalizeTsRaises(lib, ts.value);
    }
  }

  lemma {:induction false} SomeRowRaises(read: Reader, raws: seq<Raw>, start: int)
    ensures Rows(read, raws, start).None? <==> exists i :: 0 <= i < |raws| && read(raws[i]).None?
  {
    if raws != [] {
      var n := |raws| - 1;
      SomeRowRaises(read, raws[..n], start);
      assert forall i :: 0 <= i < n ==> raws[..n][i] == raws[i];
    }
  }

  /** A whole file is lost exactly when some row of it has such a timestamp. */
  lemma IngestRaises(lib: Library, raws: seq<Raw>, start: int)
    ensures Rows(Canonical(lib), raws, start).None? <==> exists i :: 0 <= i < |raws| && RowRaises(lib, raws[i])
  {
    var read := Canonical(lib);
    SomeRowRaises(read, raws, start);
    forall i | 0 <= i < |raws| ensures read(raws[i]).None? <==> RowRaises(lib, raws[i]) {
      ReadRaises(lib, raws[i]);
    }
  }

  // --- when ids are unique ---------------------------------------------------------------------

  /** The next id to assign after these raw rows, whatever their other fields. */
  function NextFree(raws: seq<Raw>, start: int): int {
    if raws == [] then start
    else
      var next := NextFree(raws[..|raws| - 1], start);
      var id := IdFor(raws[|raws| - 1], next);
      if id >= next then id + 1 else next
  }

  /** The id of the i-th row: its own, or the next free one. */
  function IdAt(raws: seq<Raw>, i: nat, start: int): int
    requires i < |raws|
  {
    IdFor(raws[i], NextFree(raws[..i], start))
  }

  /** The rows have the ids that the raw rows alone tell. */
  ghost predicate IdsOf(rows: seq<LogRow>, raws: seq<Raw>, start: int) {
    && |rows| == |raws| && NextId(rows, start) == NextFree(raws, start)
    && forall i :: 0 <= i < |raws| ==> rows[i].id == IdAt(raws, i, start)
  }

  lemma {:induction false} IdsAreThose(read: Reader, raws: seq<Raw>, start: int)
    requires Rows(read, raws, start).Some?
    ensures IdsOf(Rows(read, raws, start).value, raws, start)
  {
    if raws != [] {
      RowsStep(read, raws, start);
      IdsAreThose(read, raws[..|raws| - 1], start);
      IdsSnoc(Rows(read, raws[..|raws| - 1], start).value, Rows(read, raws, start).value, raws, start);
    }
  }

  lemma IdsSnoc(rest: seq<LogRow>, rows: seq<LogRow>, raws: seq<Raw>, start: int)
    requires raws != [] && IdsOf(rest, raws[..|raws| - 1], start)
    requires |rows| == |raws| && rows[..|raws| - 1] == rest
    requires rows[|raws| - 1].id == IdFor(raws[|raws| - 1], NextId(rest, start))
    ensures IdsOf(rows, raws, start)
  {
    var n := |raws| - 1;
    forall i | 0 <= i < |raws| ensures rows[i].id == IdAt(raws, i, start) {
      if i < n {
        assert raws[..n][..i] == raws[..i];
        assert rest[i].id == IdAt(raws[..n], i, start);
      }
    }
  }

  ghost predicate DistinctIds(rows: seq<LogRow>) {
    forall j, i :: 0 <= j < i < |rows| ==> rows[j].id != rows[i].id
  }

  /** Some row brings along the id of a row before it, be that brought along or assigned. */
  ghost predicate BringsTaken(raws: seq<Raw>, start: int) {
    exists j, i :: 0 <= j < i < |raws| && Get(raws[i], "id") == Some(Number(IdAt(raws, j, start)))
  }

  /** A repeated id is one that the later row brought along, and every taken id so brought repeats. */
  lemma RepeatsAreBrought(read: Reader, raws: seq<Raw>, start: int, j: nat, i: nat)
    requires Rows(read, raws, start).Some? && j < i < |raws|
    ensures |Rows(read, raws, start).value| == |raws|
    ensures var rows := Rows(read, raws, start).value;
      rows[j].id == rows[i].id <==> Get(raws[i], "id") == Some(Number(IdAt(raws, j, start)))
  {
    IdsAreThose(read, raws, start);
    AssignedIdsExceed(read, raws, start);
    assert IdRule(raws[i], Rows(read, raws, start).value, i, start);
  }

  /** Ids are unique exactly when no row brings along an id that is taken. */
  lemma UniqueExactly(read: Reader, raws: seq<Raw>, start: int)
    requires Rows(read, raws, start).Some?
    ensures DistinctIds(Rows(read, raws, start).value) <==> !BringsTaken(raws, start)
  {
    var rows := Rows(read, raws, start).value;
    IdsAreThose(read, raws, start);
    forall j, i | 0 <= j < i < |rows|
      ensures rows[j].id == rows[i].id <==> Get(raws[i], "id") == Some(Number(IdAt(raws, j, start)))
    {
      RepeatsAreBrought(read, raws, start, j, i);
    }
  }

  /** In particular when no row brings an id: the ids then count up from the start. */
  lemma AssignedAreUnique(read: Reader, raws: seq<Raw>, start: int)
    requires Rows(read, raws, start).Some? && forall r <- raws :: !Usable(r)
    ensures DistinctIds(Rows(read, raws, start).value)
  {
    UniqueExactly(read, raws, start);
    forall i | 0 <= i < |raws| ensures !Usable(raws[i]) {
      assert raws[i] in raws;
    }
  }

  /** And ids do repeat: an id assigned to one row can be brought along by the next. */
  lemma IdsCanRepeat(read: Reader, first: Raw, second: Raw, start: int)
    requires read(first).Some? && read(second).Some?
    requires !Usable(first) && Get(second, "id") == Some(Number(start))
    ensures Rows(read, [first, second], start).Some?
    ensures !DistinctIds(Rows(read, [first, second], start).value)
  {
    var row := LogRow(start, read(first).value);
    assert [first, second][..1] == [first] && [first][..0] == [] && [row][..0] == [];
    assert Rows(read, [], start) == Some([]) && [] + [row] == [row];
    assert Rows(read, [first], start) == Some([row]);
    var rows := Rows(read, [first, second], start).value;
    assert rows[0].id == rows[1].id;
  }

  lemma {:induction false} NoPick(raw: Raw, aliases: seq<string>)
    requires forall e <- raw :: Lower(e.0) !in aliases
    ensures Pick(raw, aliases) == None
  {
    if aliases != [] {
      NoSpelling(raw, aliases[0]);
      NoPick(raw, aliases[1..]);
    }
  }

  lemma {:induction false} NoSpelling(raw: Raw, want: string)
    requires forall e <- raw :: Lower(e.0) != want
    ensures Spelled(raw, want) == None
  {
    if raw != [] {
      NoSpelling(raw[..|raw| - 1], want);
    }
  }

  // --- idempotence ---------------------------------------------------------------------------

  /** Canonical fields written back as raw ones, in the order they were set. */
  function RawFields(f: Fields): Raw {
    [("ts", Text(f.ts)), ("level", Text(f.level))]
    + (if f.route.Some? then [("route", Text(f.route.value))] else [])
    + (if f.status.Some? then [("status", Number(f.status.value))] else [])
    + [("msg", Text(f.msg))]
  }

  function AsRaw(row: LogRow): Raw {
    [("id", Number(row.id))] + RawFields(row.fields)
  }

  function AllRaw(rows: seq<LogRow>): (raws: seq<Raw>)
    ensures |raws| == |rows| && forall i :: 0 <= i < |rows| ==> raws[i] == AsRaw(rows[i])
  {
    seq(|rows|, i requires 0 <= i < |rows| => AsRaw(rows[i]))
  }

  predicate Fixed(lib: Library, f: Fields) {
    NormalizeTs(lib, Text(f.ts)) == Some(f.ts) && NormalizeLevel(Text(f.level)) == f.level
  }

  /** The row's timestamp is one of the years 1 to 999. */
  predicate EarlyRow(lib: Library, raw: Raw) {
    var ts := Pick(raw, TS_KEYS);
    ts.Some? && Early(lib, ts.value)
  }

  lemma ReadFieldsFixes(lib: Library, raw: Raw)
    requires (EarlyRow(lib, raw) ==> RereadsEarly(lib)) && ReadFields(lib, raw).Some?
    ensures Fixed(lib, ReadFields(lib, raw).value)
  {
    var ts, level := Pick(raw, TS_KEYS), Pick(raw, LEVEL_KEYS);
    NormalizeTsTwice(lib, if ts.Some? then ts.value else Missing);
    NormalizeLevelTwice(if level.Some? then level.value else Missing);
  }

  lemma {:induction false} SpelledAt(raw: Raw, at: nat, want: string)
    requires at < |raw| && Lower(raw[at].0) == want
    requires forall i :: at < i < |raw| ==> Lower(raw[i].0) != want
    ensures Spelled(raw, want) == Some(raw[at].1)
    decreases |raw|
  {
    if at < |raw| - 1 {
      SpelledAt(raw[..|raw| - 1], at, want);
    }
  }

  lemma CanonicalKeys()
    ensures Lower("id") == "id" && Lower("ts") == "ts" && Lower("level") == "level"
    ensures Lower("route") == "route" && Lower("status") == "status" && Lower("msg") == "msg"
    ensures TS_KEYS[0] == "ts" && LEVEL_KEYS[0] == "level" && ROUTE_KEYS[0] == "route" && STATUS_KEYS[0] == "status"
      && MSG_KEYS[0] == "msg"
  {
  }

  lemma PicksField(raw: Raw, at: nat, aliases: seq<string>)
    requires aliases != [] && at < |raw| && Lower(raw[at].0) == aliases[0]
    requires forall i :: at < i < |raw| ==> Lower(raw[i].0) != aliases[0]
    ensures Pick(raw, aliases) == Some(raw[at].1)
  {
    SpelledAt(raw, at, aliases[0]);
  }

  lemma AbsentRoute(raw: Raw)
    requires forall e <- raw :: Lower(e.0) in ["id", "ts", "level", "status", "msg"]
    ensures Pick(raw, ROUTE_KEYS) == None
  {
    NoPick(raw, ROUTE_KEYS);
  }

  lemma AbsentStatus(raw: Raw)
    requires forall e <- raw :: Lower(e.0) in ["id", "ts", "level", "route", "msg"]
    ensures Pick(raw, STATUS_KEYS) == None
  {
    NoPick(raw, STATUS_KEYS);
  }

  lemma {:induction false} GetAt(raw: Raw, at: nat, key: string)
    requires at < |raw| && raw[at].0 == key && forall i :: at < i < |raw| ==> raw[i].0 != key
    ensures Get(raw, key) == Some(raw[at].1)
    decreases |raw|
  {
    if at < |raw| - 1 {
      GetAt(raw[..|raw| - 1], at, key);
    }
  }

  lemma RawKeepsId(row: LogRow)
    ensures Get(AsRaw(row), "id") == Some(Number(row.id))
  {
    GetAt(AsRaw(row), 0, "id");
  }

  lemma RawKeys(row: LogRow)
    ensures var raw, f := AsRaw(row), row.fields;
      && 4 <= |raw| <= 6
      && raw[1] == ("ts", Text(f.ts)) && raw[2] == ("level", Text(f.level)) && raw[|raw| - 1] == ("msg", Text(f.msg))
      && (f.route.Some? ==> |raw| > 4 && raw[3] == ("route", Text(f.route.value)))
      && (f.status.Some? ==> |raw| > 4 && raw[|raw| - 2] == ("status", Number(f.status.value)))
      && raw[0].0 == "id"
      && (forall i :: 3 <= i < |raw| - 1 ==>
            (raw[i].0 == "route" && f.route.Some? && i == 3) || (raw[i].0 == "status" && f.status.Some?))
  {
  }

  lemma PicksTsAndLevel(row: LogRow)
    ensures Pick(AsRaw(row), TS_KEYS) == Some(Text(row.fields.ts))
    ensures Pick(AsRaw(row), LEVEL_KEYS) == Some(Text(row.fields.level))
  {
    var raw := AsRaw(row);
    RawKeys(row);
    CanonicalKeys();
    PicksField(raw, 1, TS_KEYS);
    PicksField(raw, 2, LEVEL_KEYS);
  }

  lemma PicksMsg(row: LogRow)
    ensures Pick(AsRaw(row), MSG_KEYS) == Some(Text(row.fields.msg))
  {
    RawKeys(row);
    CanonicalKeys();
    PicksField(AsRaw(row), |AsRaw(row)| - 1, MSG_KEYS);
  }

  lemma PicksRoute(row: LogRow)
    ensures Pick(AsRaw(row), ROUTE_KEYS) == if row.fields.route.Some? then Some(Text(row.fields.route.value)) else None
  {
    var raw := AsRaw(row);
    RawKeys(row);
    CanonicalKeys();
    if row.fields.route.Some? {
      PicksField(raw, 3, ROUTE_KEYS);
    } else {
      forall e <- raw ensures Lower(e.0) in ["id", "ts", "level", "status", "msg"] {
        var i :| 0 <= i < |raw| && raw[i] == e;
        assert i < 3 || i == |raw| - 1 || raw[i].0 == "status";
      }
      AbsentRoute(raw);
    }
  }

  lemma PicksStatus(row: LogRow)
    ensures Pick(AsRaw(row), STATUS_KEYS) ==
      if row.fields.status.Some? then Some(Number(row.fields.status.value)) else None
  {
    var raw := AsRaw(row);
    RawKeys(row);
    CanonicalKeys();
    if row.fields.status.Some? {
      PicksField(raw, |raw| - 2, STATUS_KEYS);
    } else {
      forall e <- raw ensures Lower(e.0) in ["id", "ts", "level", "route", "msg"] {
        var i :| 0 <= i < |raw| && raw[i] == e;
        assert i < 3 || i == |raw| - 1 || raw[i].0 == "route";
      }
      AbsentStatus(raw);
    }
  }

  lemma CanonicalRowIsFixed(lib: Library, row: LogRow)
    requires Fixed(lib, row.fields)
    ensures ReadFields(lib, AsRaw(row)) == Some(row.fields)
  {
    PicksTsAndLevel(row);
    PicksMsg(row);
    PicksRoute(row);
    PicksStatus(row);
  }

  /** Normalising what was normalised changes nothing, whatever id the second pass starts at. */
  lemma {:induction false} NormalizeLogRowsTwice(lib: Library, raws: seq<Raw>, start: int, restart: int)
    requires (exists raw <- raws :: EarlyRow(lib, raw)) ==> RereadsEarly(lib)
    requires Rows(Canonical(lib), raws, start).Some?
    ensures Rows(Canonical(lib), AllRaw(Rows(Canonical(lib), raws, start).value), restart) ==
      Rows(Canonical(lib), raws, start)
  {
    var read := Canonical(lib);
    var rows := Rows(read, raws, start).value;
    RowsKeepFields(read, raws, start);
    forall row <- rows ensures read(AsRaw(row)) == Some(row.fields) {
      var i :| 0 <= i < |rows| && rows[i] == row;
      assert read(raws[i]) == Some(row.fields) && raws[i] in raws;
      ReadFieldsFixes(lib, raws[i]);
      CanonicalRowIsFixed(lib, row);
    }
    RereadRows(read, rows, restart);
  }

  lemma RowsSnoc(read: Reader, raws: seq<Raw>, start: int, rest: seq<LogRow>, row: LogRow)
    requires raws != [] && Rows(read, raws[..|raws| - 1], start) == Some(rest)
    requires read(raws[|raws| - 1]) == Some(row.fields) && Get(raws[|raws| - 1], "id") == Some(Number(row.id))
    ensures Rows(read, raws, start) == Some(rest + [row])
  {
    assert IdFor(raws[|raws| - 1], NextId(rest, start)) == row.id;
  }

  lemma {:induction false} RereadRows(read: Reader, rows: seq<LogRow>, start: int)
    requires forall row <- rows :: read(AsRaw(row)) == Some(row.fields)
    ensures Rows(read, AllRaw(rows), start) == Some(rows)
  {
    if rows != [] {
      var n := |rows| - 1;
      RereadRows(read, rows[..n], start);
      RawKeepsId(rows[n]);
      assert AllRaw(rows)[..n] == AllRaw(rows[..n]);
      assert AllRaw(rows)[n] == AsRaw(rows[n]) && rows[n] in rows;
      RowsSnoc(read, AllRaw(rows), start, rows[..n], rows[n]);
      assert rows == rows[..n] + [rows[n]];
    }
  }

  // --- a directory -----------------------------------------------------------------------------

  /** `row.pop("id", None)`. */
  function WithoutId(row: Raw): Raw {
    if row == [] then []
    else WithoutId(row[..|row| - 1]) + if row[|row| - 1].0 == "id" then [] else [row[|row| - 1]]
  }

  function Stream(files: seq<seq<Raw>>): seq<Raw> {
    if files == [] then [] else Stream(files[..|files| - 1]) + Anonymous(files[|files| - 1])
  }

  function Anonymous(rows: seq<Raw>): seq<Raw> {
    if rows == [] then [] else Anonymous(rows[..|rows| - 1]) + [WithoutId(rows[|rows| - 1])]
  }

  predicate EarlierTs(a: LogRow, b: LogRow) {
    LexLess(a.fields.ts, b.fields.ts)
  }

  function Renumbered(rows: seq<LogRow>): (r: seq<LogRow>) {
    seq(|rows|, i requires 0 <= i < |rows| => rows[i].(id := i))
  }

  function Directory(read: Reader, files: seq<seq<Raw>>): Option<seq<LogRow>> {
    var rows := Rows(read, Stream(files), 0);
    if rows.None? then None else Some(Renumbered(Sort(rows.value, EarlierTs)))
  }

  /** The rows of all files in one list, each without its id. */
  method MergeFiles(files: seq<seq<Raw>>) returns (raw: seq<Raw>)
    ensures raw == Stream(files)
  {
    raw := [];
    for f := 0 to |files|
      invariant raw == Stream(files[..f])
    {
      assert files[..f + 1][..f] == files[..f];
      ghost var before := raw;
      for i := 0 to |files[f]|
        invariant raw == before + Anonymous(files[f][..i])
      {
        assert files[f][..i + 1][..i] == files[f][..i];
        raw := raw + [WithoutId(files[f][i])];
      }
      assert files[f][..|files[f]|] == files[f];
    }
    assert files[..|files|] == files;
  }

  /** The directory branch of `read_log_source`, over the raw rows of its files in name order. */
  method ReadDirectory(read: Reader, files: seq<seq<Raw>>) returns (res: Option<seq<LogRow>>)
    ensures res == Directory(read, files)
  {
    var raw := MergeFiles(files);
    var normalized := NormalizeLogRows(read, raw, 0);
    if normalized.None? { return None; }
    var rows := Sort(normalized.value, EarlierTs);
    ghost var sorted := rows;
    for i := 0 to |rows|
      invariant |rows| == |sorted|
      invariant forall j :: 0 <= j < |rows| ==> rows[j] == if j < i then sorted[j].(id := j) else sorted[j]
    {
      rows := rows[i := rows[i].(id := i)];
    }
    assert rows == Renumbered(sorted);
    return Some(rows);
  }

  lemma EarlierTsIsOrder()
    ensures StrictWeak(EarlierTs)
  {
    forall a, b ensures EarlierTs(a, b) ==> !EarlierTs(b, a) {
      LexIsOrder(a.fields.ts, b.fields.ts, "");
    }
    forall a, b, c | !EarlierTs(a, b) && !EarlierTs(b, c) ensures !EarlierTs(a, c) {
      LexIsOrder(a.fields.ts, b.fields.ts, c.fields.ts);
    }
  }

  lemma {:induction false} NoIdLeft(row: Raw)
    ensures Get(WithoutId(row), "id") == None
  {
    if row != [] {
      NoIdLeft(row[..|row| - 1]);
      var rest, last := WithoutId(row[..|row| - 1]), row[|row| - 1];
      assert (rest + [last])[..|rest|] == rest;
      assert rest + [] == rest;
    }
  }

  lemma {:induction false} AnonymousRows(rows: seq<Raw>)
    ensures forall r <- Anonymous(rows) :: !Usable(r)
  {
    if rows != [] {
      AnonymousRows(rows[..|rows| - 1]);
      NoIdLeft(rows[|rows| - 1]);
    }
  }

  lemma {:induction false} StreamHasNoIds(files: seq<seq<Raw>>)
    ensures forall r <- Stream(files) :: !Usable(r)
  {
    if files != [] {
      StreamHasNoIds(files[..|files| - 1]);
      AnonymousRows(files[|files| - 1]);
    }
  }

  /** Without ids of their own, rows are numbered in ingest order. */
  lemma {:induction false} NumberedInOrder(read: Reader, raws: seq<Raw>, start: int)
    requires Rows(read, raws, start).Some? && forall r <- raws :: !Usable(r)
    ensures var rows := Rows(read, raws, start).value;
      && |rows| == |raws| && NextId(rows, start) == start + |rows|
      && forall i :: 0 <= i < |rows| ==> rows[i].id == start + i && read(raws[i]) == Some(rows[i].fields)
  {
    if raws != [] {
      var n := |raws| - 1;
      NumberedInOrder(read, raws[..n], start);
      var rest, rows := Rows(read, raws[..n], start).value, Rows(read, raws, start).value;
      assert raws[n] in raws;
      assert rows[..|rest|] == rest;
    }
  }

  /** Where the rows of file f begin in the merged stream. */
  function Before(files: seq<seq<Raw>>, f: nat): nat
    requires f <= |files|
  {
    if f == 0 then 0 else Before(files, f - 1) + |files[f - 1]|
  }

  /** Every entry but those under "id", in order: entry i of the rest is entry `at[i]` of the row. */
  ghost predicate LeavesId(row: Raw, rest: Raw, at: seq<nat>) {
    && |at| == |rest|
    && (forall i :: 0 <= i < |at| ==> at[i] < |row| && rest[i] == row[at[i]] && row[at[i]].0 != "id")
    && (forall i, j :: 0 <= i < j < |at| ==> at[i] < at[j])
    && forall k: nat :: k < |row| && row[k].0 != "id" ==> k in at
  }

  ghost predicate Popped(row: Raw, rest: Raw) {
    exists at: seq<nat> :: LeavesId(row, rest, at)
  }

  lemma {:induction false} PopsId(row: Raw)
    ensures Popped(row, WithoutId(row))
  {
    if row == [] {
      assert LeavesId(row, WithoutId(row), []);
    } else {
      var n := |row| - 1;
      PopsId(row[..n]);
      var at: seq<nat> :| LeavesId(row[..n], WithoutId(row[..n]), at);
      if row[n].0 == "id" {
        assert WithoutId(row) == WithoutId(row[..n]);
        PopsEntry(row, WithoutId(row), at);
      } else {
        assert WithoutId(row) == WithoutId(row[..n]) + [row[n]];
        KeepsEntry(row, WithoutId(row[..n]), at);
      }
    }
  }

  lemma PopsEntry(row: Raw, rest: Raw, at: seq<nat>)
    requires row != [] && LeavesId(row[..|row| - 1], rest, at) && row[|row| - 1].0 == "id"
    ensures LeavesId(row, rest, at)
  {
    forall k: nat | k < |row| && row[k].0 != "id" ensures k in at {
      assert row[..|row| - 1][k] == row[k];
    }
  }

  lemma KeepsEntry(row: Raw, rest: Raw, at: seq<nat>)
    requires row != [] && LeavesId(row[..|row| - 1], rest, at) && row[|row| - 1].0 != "id"
    ensures LeavesId(row, rest + [row[|row| - 1]], at + [|row| - 1])
  {
    forall k: nat | k < |row| && row[k].0 != "id" ensures k in at + [|row| - 1] {
      assert k < |row| - 1 ==> row[..|row| - 1][k] == row[k];
    }
  }

  lemma {:induction false} AnonymousAt(rows: seq<Raw>)
    ensures |Anonymous(rows)| == |rows| && forall i :: 0 <= i < |rows| ==> Anonymous(rows)[i] == WithoutId(rows[i])
  {
    if rows != [] {
      AnonymousAt(rows[..|rows| - 1]);
    }
  }

  lemma {:induction false} BeforeAgrees(some: seq<seq<Raw>>, all: seq<seq<Raw>>, f: nat)
    requires f <= |some| <= |all| && some == all[..|some|]
    ensures Before(some, f) == Before(all, f)
  {
    if f > 0 {
      BeforeAgrees(some, all, f - 1);
    }
  }

  lemma {:induction false} StreamLength(files: seq<seq<Raw>>)
    ensures |Stream(files)| == Before(files, |files|)
  {
    if files != [] {
      StreamLength(files[..|files| - 1]);
      BeforeAgrees(files[..|files| - 1], files, |files| - 1);
      AnonymousAt(files[|files| - 1]);
    }
  }

  /** The row stands here in the stream, without its id. */
  ghost predicate StandsAt(stream: seq<Raw>, at: nat, row: Raw) {
    at < |stream| && Popped(row, stream[at])
  }

  lemma StandsBefore(first: seq<Raw>, last: seq<Raw>, at: nat, row: Raw)
    requires StandsAt(first, at, row)
    ensures StandsAt(first + last, at, row)
  {
  }

  lemma StandsLast(first: seq<Raw>, last: seq<Raw>, i: nat, row: Raw)
    requires i < |last| && last[i] == WithoutId(row)
    ensures StandsAt(first + last, |first| + i, row)
  {
    PopsId(row);
    assert (first + last)[|first| + i] == last[i];
  }

  /** The stream has every row of every file and no more, in file order and each file's rows in
      theirs; no other entry of a row is lost with its id. */
  lemma {:induction false} StreamMeans(files: seq<seq<Raw>>, f: nat, i: nat)
    requires f < |files| && i < |files[f]|
    ensures |Stream(files)| == Before(files, |files|)
    ensures StandsAt(Stream(files), Before(files, f) + i, files[f][i])
    decreases |files|
  {
    var n := |files| - 1;
    StreamLength(files);
    BeforeAgrees(files[..n], files, f);
    if f < n {
      StreamMeans(files[..n], f, i);
      StandsBefore(Stream(files[..n]), Anonymous(files[n]), Before(files, f) + i, files[f][i]);
    } else {
      StreamLength(files[..n]);
      AnonymousAt(files[n]);
      StandsLast(Stream(files[..n]), Anonymous(files[n]), i, files[n][i]);
    }
  }

  /** The same rows, those of equal time in the same order. */
  ghost predicate Merge(sorted: seq<LogRow>, rows: seq<LogRow>) {
    && multiset(sorted) == multiset(rows)
    && forall a :: Tied(sorted, EarlierTs, a) == Tied(rows, EarlierTs, a)
  }

  ghost predicate InTimeOrder(rows: seq<LogRow>) {
    forall i, j :: 0 <= i < j < |rows| ==> !LexLess(rows[j].fields.ts, rows[i].fields.ts)
  }

  lemma SortMerges(rows: seq<LogRow>)
    ensures Merge(Sort(rows, EarlierTs), rows) && InTimeOrder(Sort(rows, EarlierTs))
  {
    var sorted := Sort(rows, EarlierTs);
    EarlierTsIsOrder();
    SortSorts(rows, EarlierTs);
    forall a ensures Tied(sorted, EarlierTs, a) == Tied(rows, EarlierTs, a) {
      SortStable(rows, EarlierTs, a);
    }
    forall i, j | 0 <= i < j < |sorted| ensures !LexLess(sorted[j].fields.ts, sorted[i].fields.ts) {
      assert !EarlierTs(sorted[j], sorted[i]);
    }
  }

  /** The merged rows: every file's rows and nothing else, each normalised, in time order, equal
      times in ingest order; ids are exactly the positions. */
  lemma DirectoryMerges(read: Reader, files: seq<seq<Raw>>)
    requires Directory(read, files).Some?
    ensures Rows(read, Stream(files), 0).Some?
    ensures var raws, rows, merged := Stream(files), Rows(read, Stream(files), 0).value, Directory(read, files).value;
      && |rows| == |raws|
      && (forall i :: 0 <= i < |raws| ==> rows[i].id == i && read(raws[i]) == Some(rows[i].fields))
      && (forall i :: 0 <= i < |merged| ==> merged[i].id == i)
      && InTimeOrder(merged)
      && exists sorted: seq<LogRow> :: Merge(sorted, rows) && merged == Renumbered(sorted)
  {
    StreamHasNoIds(files);
    NumberedInOrder(read, Stream(files), 0);
    var rows := Rows(read, Stream(files), 0).value;
    SortMerges(rows);
    assert Merge(Sort(rows, EarlierTs), rows) && Directory(read, files).value == Renumbered(Sort(rows, EarlierTs));
  }
}
