/** The dashboard backend: the station table `charge_points`, the three
    append-only event tables, the four POST endpoints that change them, the
    event log query, and one pass of the background liveness sweep.

    Tables are sequences in rowid order. A station row is keyed by its
    `cp_id`, which may be null: SQLite lets a TEXT PRIMARY KEY column hold
    NULL, and such a row matches no `WHERE cp_id = ?`. Times are integer
    seconds. */
module Backend {
  import opened JsonValues
  import opened OcppFrames
  import Text
  import opened EventLog

  /** The sweep heartbeats an idle station whose last heartbeat is at least
      this many seconds old. */
  const LivenessWindow: int := 60

  const Unknown: string := "Unknown"
  const Available: string := "Available"
  const Charging: string := "Charging"
  const SuspendedEVC: string := "SuspendedEVC"

  /** A row of `charge_points`. */
  datatype Row = Row(
    cpId: Option<string>,
    vendor: Option<string>,
    model: Option<string>,
    status: Option<string>,
    lastSeen: int,
    busy: int,
    lastHeartbeat: Option<int>)

  datatype BootRecord = BootRecord(cpId: Option<string>, vendor: Option<string>, model: Option<string>, timestamp: int)
  datatype HeartbeatRecord = HeartbeatRecord(cpId: Option<string>, timestamp: int)
  datatype StatusRecord = StatusRecord(cpId: Option<string>, status: Option<string>, timestamp: int)

  /** An HTTP answer: status code and JSON body. A handler that raises is
      answered 500; its body (Flask's error page) is not modelled. */
  datatype Reply = Reply(code: int, body: Json)

  const ServerError: Reply := Reply(500, JNull)

  /** What SQLite stores when a decoded JSON value is bound into a TEXT
      column: a string as it is, an integer or boolean as its decimal text,
      null as NULL. A list or dict cannot be bound: the statement raises. */
  function TextCell(j: Json): (r: Result<Option<string>, string>)
    ensures r.Err? <==> j.JArr? || j.JObj?
    ensures r == Ok(None) <==> j.JNull?
    ensures j.JStr? ==> r == Ok(Some(j.s))
  {
    match j
    case JNull => Ok(None)
    case JStr(s) => Ok(Some(s))
    case JInt(n) => Ok(Some(Text.IntText(n)))
    case JBool(b) => Ok(Some(if b then "1" else "0"))
    case _ => Err("unsupported parameter type")
  }

  /** `request.json or {}`: a falsy body counts as an empty dict. */
  function OrEmpty(body: Json): Json {
    if Truthy(body) then body else EmptyObject
  }

  /** SQL `cp_id = ?`: a NULL on either side never matches. */
  predicate Matches(r: Row, key: Option<string>) {
    key.Some? && r.cpId == key
  }

  /** No two rows share a non-null key. */
  predicate UniqueKeys(rows: seq<Row>) {
    forall i, j :: 0 <= i < |rows| && 0 <= j < |rows| && i != j && rows[i].cpId.Some? ==> rows[i].cpId != rows[j].cpId
  }

  /** The SET clauses of the UPDATE statements on `charge_points`. */
  datatype Assignment =
    | SetHeartbeat(at: int)
    | SetHeartbeatSeen(at: int)
    | SetStatusSeen(status: Option<string>, at: int)
    | SetCommand(newStatus: string, busy: int, at: int)

  function Apply(a: Assignment, r: Row): (r': Row)
    ensures r'.cpId == r.cpId && r'.vendor == r.vendor && r'.model == r.model
    ensures r'.busy == (if a.SetCommand? then a.busy else r.busy)
    ensures r'.status == (match a
      case SetStatusSeen(s, _) => s
      case SetCommand(s, _, _) => Some(s)
      case _ => r.status)
    ensures r'.lastSeen == (if a.SetHeartbeat? then r.lastSeen else a.at)
    ensures r'.lastHeartbeat == (if a.SetHeartbeat? || a.SetHeartbeatSeen? then Some(a.at) else r.lastHeartbeat)
  {
    match a
    case SetHeartbeat(t) => r.(lastHeartbeat := Some(t))
    case SetHeartbeatSeen(t) => r.(lastHeartbeat := Some(t), lastSeen := t)
    case SetStatusSeen(s, t) => r.(status := s, lastSeen := t)
    case SetCommand(s, b, t) => r.(status := Some(s), busy := b, lastSeen := t)
  }

  /** `UPDATE charge_points SET ... WHERE cp_id = key`. */
  function UpdateWhere(rows: seq<Row>, key: Option<string>, a: Assignment): (r: seq<Row>)
    ensures |r| == |rows|
    ensures forall i :: 0 <= i < |rows| ==> r[i] == (if Matches(rows[i], key) then Apply(a, rows[i]) else rows[i])
    ensures UniqueKeys(rows) ==> UniqueKeys(r)
  {
    seq(|rows|, i requires 0 <= i < |rows| => if Matches(rows[i], key) then Apply(a, rows[i]) else rows[i])
  }

  /** An UPDATE for a key no row has changes nothing. */
  lemma UpdateUnknownKey(rows: seq<Row>, key: Option<string>, a: Assignment)
    requires forall i :: 0 <= i < |rows| ==> !Matches(rows[i], key)
    ensures UpdateWhere(rows, key, a) == rows
  {
  }

  /** With unique keys, an UPDATE by key changes at most the one row that
      has it. */
  lemma UpdateChangesOneRow(rows: seq<Row>, k: int, a: Assignment)
    requires UniqueKeys(rows) && 0 <= k < |rows| && rows[k].cpId.Some?
    ensures UpdateWhere(rows, rows[k].cpId, a)[k] == Apply(a, rows[k])
    ensures forall i :: 0 <= i < |rows| && i != k ==> UpdateWhere(rows, rows[k].cpId, a)[i] == rows[i]
  {
  }

  /** The rows whose key is not `key`, in order (all rows when `key` is
      null). */
  function Without(rows: seq<Row>, key: Option<string>): (r: seq<Row>)
    ensures |r| <= |rows|
    ensures forall i :: 0 <= i < |r| ==> !Matches(r[i], key) && r[i] in rows
    ensures forall i :: 0 <= i < |rows| && !Matches(rows[i], key) ==> rows[i] in r
  {
    if rows == [] then []
    else (if Matches(rows[0], key) then [] else [rows[0]]) + Without(rows[1..], key)
  }

  /** Deleting by key works row by row: the table's two halves are
      filtered separately and kept in order. */
  lemma {:induction false} WithoutAppend(a: seq<Row>, b: seq<Row>, key: Option<string>)
    ensures Without(a + b, key) == Without(a, key) + Without(b, key)
  {
    if a == [] {
      assert a + b == b;
    } else {
      assert (a + b)[0] == a[0] && (a + b)[1..] == a[1..] + b;
      WithoutAppend(a[1..], b, key);
    }
  }

  /** Without is an order-preserving filter: each row is either dropped,
      when it holds the key, or kept in its place between the kept rows
      before it and the kept rows after it. */
  lemma WithoutInPlace(rows: seq<Row>, key: Option<string>, i: nat)
    requires i < |rows|
    ensures Without(rows, key) ==
      Without(rows[..i], key) + (if Matches(rows[i], key) then [] else [rows[i]]) + Without(rows[i + 1..], key)
  {
    assert rows == rows[..i] + ([rows[i]] + rows[i + 1..]);
    WithoutAppend(rows[..i], [rows[i]] + rows[i + 1..], key);
    assert ([rows[i]] + rows[i + 1..])[1..] == rows[i + 1..];
  }

  /** `INSERT OR REPLACE`: the row with the same key is deleted and the new
      row is appended with a fresh rowid. A row with a NULL key conflicts
      with nothing and is simply appended. */
  function Replace(rows: seq<Row>, row: Row): (r: seq<Row>)
    ensures |r| >= 1 && r[|r| - 1] == row
    ensures forall i :: 0 <= i < |r| - 1 ==> !Matches(r[i], row.cpId) && r[i] in rows
    ensures forall i :: 0 <= i < |rows| && !Matches(rows[i], row.cpId) ==> rows[i] in r
  {
    Without(rows, row.cpId) + [row]
  }

  /** Without keeps a table's keys unique. */
  lemma {:induction false} WithoutKeepsUnique(rows: seq<Row>, key: Option<string>)
    requires UniqueKeys(rows)
    ensures UniqueKeys(Without(rows, key))
  {
    if rows != [] {
      WithoutKeepsUnique(rows[1..], key);
      var rest := Without(rows[1..], key);
      if !Matches(rows[0], key) {
        var r := [rows[0]] + rest;
        forall i, j | 0 <= i < |r| && 0 <= j < |r| && i != j && r[i].cpId.Some?
          ensures r[i].cpId != r[j].cpId
        {
          if i == 0 {
            assert r[j] == rest[j - 1] && r[j] in rows[1..];
          } else if j == 0 {
            assert r[i] == rest[i - 1] && r[i] in rows[1..];
          } else {
            assert r[i] == rest[i - 1] && r[j] == rest[j - 1];
          }
        }
      }
    }
  }

  /** After a boot, the station's key is held by exactly the new last row,
      and the keys stay unique. */
  lemma ReplaceKeepsUnique(rows: seq<Row>, row: Row)
    requires UniqueKeys(rows)
    ensures UniqueKeys(Replace(rows, row))
  {
    WithoutKeepsUnique(rows, row.cpId);
  }

  /** The status and busy flag a dashboard command sets. Anything but
      `start`, `suspend` or `finish` (a missing command included) makes the
      station Available. */
  function CommandEffect(cmd: Json): (r: (string, int))
    ensures r.1 == 1 <==> r.0 == Charging
    ensures r.1 == 0 || r.1 == 1
    ensures r.0 in {Charging, SuspendedEVC, Available}
    ensures r.0 == Charging <==> cmd == JStr("start")
    ensures r.0 == SuspendedEVC <==> cmd == JStr("suspend")
  {
    if cmd == JStr("start") then (Charging, 1)
    else if cmd == JStr("suspend") then (SuspendedEVC, 0)
    else (Available, 0)
  }

  /** An idle station is due for a heartbeat when it has none yet or its
      last one is at least LivenessWindow seconds old. */
  predicate Due(r: Row, now: int) {
    r.busy == 0 && (r.lastHeartbeat.None? || r.lastHeartbeat.value + LivenessWindow <= now)
  }

  /** A due station stays due as time passes, until a sweep heartbeats it. */
  lemma StaysDue(r: Row, now: int, later: int)
    requires Due(r, now) && now <= later
    ensures Due(r, later)
  {
  }

  /** A row after the sweep: a due row with a key gets a heartbeat now. A
      due row without a key is heartbeated too, but its UPDATE matches no
      row, so the row itself stays as it was. */
  function Swept(r: Row, now: int): (r': Row)
    ensures r'.cpId == r.cpId
    ensures r' != r <==> Due(r, now) && r.cpId.Some?
    ensures Due(r, now) && r.cpId.Some? ==> r' == r.(lastHeartbeat := Some(now))
  {
    if Due(r, now) && r.cpId.Some? then r.(lastHeartbeat := Some(now)) else r
  }

  function SweepRows(rows: seq<Row>, now: int): (r: seq<Row>)
    ensures |r| == |rows|
    ensures forall i :: 0 <= i < |rows| ==> r[i] == Swept(rows[i], now)
  {
    seq(|rows|, i requires 0 <= i < |rows| => Swept(rows[i], now))
  }

  /** The heartbeat records the sweep writes for the first n rows of its
      snapshot: one `(cp_id, now)` per due row, in row order. */
  function SweepRecords(rows: seq<Row>, n: nat, now: int): (r: seq<HeartbeatRecord>)
    requires n <= |rows|
    ensures |r| <= n
    ensures forall k :: 0 <= k < |r| ==> r[k].timestamp == now
  {
    if n == 0 then []
    else SweepRecords(rows, n - 1, now) + (if Due(rows[n - 1], now) then [HeartbeatRecord(rows[n - 1].cpId, now)] else [])
  }

  /** Every due row among the first n gets its `(cp_id, now)` record. */
  lemma {:induction false} SweepRecordsComplete(rows: seq<Row>, n: nat, now: int, i: nat)
    requires n <= |rows| && i < n && Due(rows[i], now)
    ensures HeartbeatRecord(rows[i].cpId, now) in SweepRecords(rows, n, now)
  {
    if i < n - 1 {
      SweepRecordsComplete(rows, n - 1, now, i);
    }
  }

  /** Every record the sweep writes belongs to a due row among the first n. */
  lemma {:induction false} SweepRecordsSound(rows: seq<Row>, n: nat, now: int, k: nat)
    requires n <= |rows| && k < |SweepRecords(rows, n, now)|
    ensures exists i :: 0 <= i < n && Due(rows[i], now) && SweepRecords(rows, n, now)[k].cpId == rows[i].cpId
  {
    var front := SweepRecords(rows, n - 1, now);
    if k < |front| {
      SweepRecordsSound(rows, n - 1, now, k);
      assert SweepRecords(rows, n, now)[k] == front[k];
    } else {
      assert Due(rows[n - 1], now) && SweepRecords(rows, n, now)[k].cpId == rows[n - 1].cpId;
    }
  }

  /** The number of due rows among the first n. */
  function DueCount(rows: seq<Row>, n: nat, now: int): (c: nat)
    requires n <= |rows|
    ensures c <= n
  {
    if n == 0 then 0 else DueCount(rows, n - 1, now) + (if Due(rows[n - 1], now) then 1 else 0)
  }

  /** The sweep writes exactly one record per due row. */
  lemma {:induction false} SweepRecordsCount(rows: seq<Row>, n: nat, now: int)
    requires n <= |rows|
    ensures |SweepRecords(rows, n, now)| == DueCount(rows, n, now)
  {
    if n > 0 {
      SweepRecordsCount(rows, n - 1, now);
    }
  }

  /** In any table with unique keys, a busy station is never touched,
      however stale, and no record carries its key. */
  lemma SweepSkipsBusy(rows: seq<Row>, now: int, k: nat)
    requires UniqueKeys(rows) && k < |rows| && rows[k].busy != 0 && rows[k].cpId.Some?
    ensures SweepRows(rows, now)[k] == rows[k]
    ensures forall h :: h in SweepRecords(rows, |rows|, now) ==> h.cpId != rows[k].cpId
  {
    var recs := SweepRecords(rows, |rows|, now);
    forall h | h in recs ensures h.cpId != rows[k].cpId {
      var j :| 0 <= j < |recs| && recs[j] == h;
      SweepRecordsSound(rows, |rows|, now, j);
    }
  }

  /** No record is written when no row is due. */
  lemma {:induction false} NothingDueNoRecords(rows: seq<Row>, n: nat, now: int)
    requires n <= |rows|
    requires forall i :: 0 <= i < n ==> !Due(rows[i], now)
    ensures SweepRecords(rows, n, now) == []
  {
    if n > 0 {
      NothingDueNoRecords(rows, n - 1, now);
    }
  }

  /** After a sweep, every idle station with a key has a heartbeat less
      than LivenessWindow seconds old (or one in the future), so it is not
      due. */
  lemma SweptRowsAreRecent(rows: seq<Row>, now: int)
    ensures forall i :: 0 <= i < |rows| && rows[i].busy == 0 && rows[i].cpId.Some? ==>
      SweepRows(rows, now)[i].lastHeartbeat.Some? &&
      SweepRows(rows, now)[i].lastHeartbeat.value + LivenessWindow > now &&
      !Due(SweepRows(rows, now)[i], now)
  {
  }

  /** A second sweep at the same time finds nothing to do, as long as every
      station has a key. */
  lemma SweepIdempotent(rows: seq<Row>, now: int)
    requires forall i :: 0 <= i < |rows| ==> rows[i].cpId.Some?
    ensures SweepRows(SweepRows(rows, now), now) == SweepRows(rows, now)
    ensures SweepRecords(SweepRows(rows, now), |rows|, now) == []
  {
    var once := SweepRows(rows, now);
    forall i | 0 <= i < |once| ensures !Due(once[i], now) {
      assert once[i] == Swept(rows[i], now);
    }
    NothingDueNoRecords(once, |once|, now);
  }

  /** Without a key the sweep is not idempotent: an idle station whose
      boot carried no `cpId` is heartbeated on every sweep, because its
      UPDATE matches no row and it stays due. */
  lemma KeylessRowHeartbeatsForever(r: Row, now: int)
    requires r.cpId.None? && r.busy == 0 && r.lastHeartbeat.None?
    ensures SweepRows([r], now) == [r]
    ensures SweepRecords([r], 1, now) == [HeartbeatRecord(None, now)]
    ensures SweepRecords(SweepRows([r], now), 1, now) == [HeartbeatRecord(None, now)]
  {
    assert SweepRows([r], now) == [r];
    assert SweepRecords([r], 0, now) == [];
  }

  /** The log entry each stored record contributes. SQL `||` yields NULL
      when either side is NULL. */
  function BootEntry(b: BootRecord): LogEntry {
    LogEntry(BootNotification, b.cpId,
      if b.vendor.Some? && b.model.Some? then Some(b.vendor.value + " " + b.model.value) else None,
      b.timestamp)
  }

  function HeartbeatEntry(h: HeartbeatRecord): LogEntry {
    LogEntry(Heartbeat, h.cpId, Some("Heartbeat received"), h.timestamp)
  }

  function StatusEntry(s: StatusRecord): LogEntry {
    LogEntry(StatusNotification, s.cpId, if s.status.Some? then Some("Status: " + s.status.value) else None, s.timestamp)
  }

  /** Every record of the three tables, boots first, then heartbeats, then
      status records, each table in rowid order. */
  function Collected(boots: seq<BootRecord>, heartbeats: seq<HeartbeatRecord>, statuses: seq<StatusRecord>): (r: seq<LogEntry>)
    ensures |r| == |boots| + |heartbeats| + |statuses|
    ensures forall i :: 0 <= i < |boots| ==> r[i] == BootEntry(boots[i])
    ensures forall i :: 0 <= i < |heartbeats| ==> r[|boots| + i] == HeartbeatEntry(heartbeats[i])
    ensures forall i :: 0 <= i < |statuses| ==> r[|boots| + |heartbeats| + i] == StatusEntry(statuses[i])
  {
    seq(|boots|, i requires 0 <= i < |boots| => BootEntry(boots[i])) +
    seq(|heartbeats|, i requires 0 <= i < |heartbeats| => HeartbeatEntry(heartbeats[i])) +
    seq(|statuses|, i requires 0 <= i < |statuses| => StatusEntry(statuses[i]))
  }

  class Backend {
    var chargePoints: seq<Row>
    var boots: seq<BootRecord>
    var heartbeats: seq<HeartbeatRecord>
    var statuses: seq<StatusRecord>

    ghost predicate Valid()
      reads this
    {
      UniqueKeys(chargePoints)
    }

    /** A fresh database: every table empty. */
    constructor ()
      ensures Valid()
      ensures chargePoints == [] && boots == [] && heartbeats == [] && statuses == []
    {
      chargePoints := [];
      boots := [];
      heartbeats := [];
      statuses := [];
    }

    /** `POST /api/send_command/<cp_id>`: sets the station's status, busy
        flag and last-seen time, and logs a status record even when no
        station has that id. A body that is not a dict, or a command that
        cannot be looked up (a list or dict), fails with nothing stored. */
    method SendCommand(cpId: string, body: Json, now: int) returns (reply: Reply)
      requires Valid()
      modifies this`chargePoints, this`statuses
      ensures Valid()
      ensures var ok := body.JObj? && !Get(body.fields, "command").JArr? && !Get(body.fields, "command").JObj?;
        if !ok then reply == ServerError && chargePoints == old(chargePoints) && statuses == old(statuses)
        else
          var e := CommandEffect(Get(body.fields, "command"));
          reply.code == 200 &&
          chargePoints == UpdateWhere(old(chargePoints), Some(cpId), SetCommand(e.0, e.1, now)) &&
          statuses == old(statuses) + [StatusRecord(Some(cpId), Some(e.0), now)]
    {
      if !body.JObj? {
        return ServerError;
      }
      var cmd := Get(body.fields, "command");
      if cmd.JArr? || cmd.JObj? {
        return ServerError;
      }
      var e := CommandEffect(cmd);
      chargePoints := UpdateWhere(chargePoints, Some(cpId), SetCommand(e.0, e.1, now));
      statuses := statuses + [StatusRecord(Some(cpId), Some(e.0), now)];
      reply := Reply(200, JObj(map["status" := JStr("ok"), "new_status" := JStr(e.0), "busy" := JInt(e.1)]));
    }

    /** `POST /heartbeat`: without a truthy `cpId` the answer is 400 and
        nothing changes; otherwise the station's last heartbeat and last
        seen become now. No heartbeat record is written. */
    method Heartbeat(body: Json, now: int) returns (reply: Reply)
      requires Valid()
      modifies this`chargePoints
      ensures Valid()
      ensures var data := OrEmpty(body);
        if !data.JObj? then reply == ServerError && chargePoints == old(chargePoints)
        else if !Truthy(Get(data.fields, "cpId")) then reply.code == 400 && chargePoints == old(chargePoints)
        else match TextCell(Get(data.fields, "cpId"))
          case Err(_) => reply == ServerError && chargePoints == old(chargePoints)
          case Ok(key) =>
            key.Some? && reply.code == 200 &&
            chargePoints == UpdateWhere(old(chargePoints), key, SetHeartbeatSeen(now))
    {
      var data := OrEmpty(body);
      if !data.JObj? {
        return ServerError;
      }
      var cp := Get(data.fields, "cpId");
      if !Truthy(cp) {
        return Reply(400, JObj(map["error" := JStr("cpId missing")]));
      }
      var key := TextCell(cp);
      if key.Err? {
        return ServerError;
      }
      chargePoints := UpdateWhere(chargePoints, key.value, SetHeartbeatSeen(now));
      reply := Reply(200, JObj(map["status" := JStr("heartbeat received"), "cpId" := cp]));
    }

    /** `POST /bootnotification`: logs one boot record and replaces the
        station's row with a fresh Available, idle one without a heartbeat.
        Vendor and model default to "Unknown" only when the key is absent. */
    method BootNotification(body: Json, now: int) returns (reply: Reply)
      requires Valid()
      modifies this`chargePoints, this`boots
      ensures Valid()
      ensures var data := OrEmpty(body);
        if !data.JObj? then reply == ServerError && chargePoints == old(chargePoints) && boots == old(boots)
        else
          var k := TextCell(Get(data.fields, "cpId"));
          var v := TextCell(GetOr(data.fields, "chargePointVendor", JStr(Unknown)));
          var m := TextCell(GetOr(data.fields, "chargePointModel", JStr(Unknown)));
          if k.Err? || v.Err? || m.Err? then
            reply == ServerError && chargePoints == old(chargePoints) && boots == old(boots)
          else
            reply.code == 200 &&
            boots == old(boots) + [BootRecord(k.value, v.value, m.value, now)] &&
            chargePoints == Replace(old(chargePoints), Row(k.value, v.value, m.value, Some(Available), now, 0, None))
    {
      var data := OrEmpty(body);
      if !data.JObj? {
        return ServerError;
      }
      var k := TextCell(Get(data.fields, "cpId"));
      var v := TextCell(GetOr(data.fields, "chargePointVendor", JStr(Unknown)));
      var m := TextCell(GetOr(data.fields, "chargePointModel", JStr(Unknown)));
      if k.Err? || v.Err? || m.Err? {
        return ServerError;
      }
      boots := boots + [BootRecord(k.value, v.value, m.value, now)];
      ReplaceKeepsUnique(chargePoints, Row(k.value, v.value, m.value, Some(Available), now, 0, None));
      chargePoints := Replace(chargePoints, Row(k.value, v.value, m.value, Some(Available), now, 0, None));
      reply := Reply(200, JObj(map["status" := JStr("BootNotification stored")]));
    }

    /** `POST /statusnotification`: logs one status record and sets the
        station's status and last-seen time; the busy flag is left as it
        is. The status defaults to "Unknown" only when the key is absent. A
        body that is not a dict (null included: there is no `or {}` here)
        fails. */
    method StatusNotification(body: Json, now: int) returns (reply: Reply)
      requires Valid()
      modifies this`chargePoints, this`statuses
      ensures Valid()
      ensures
        if !body.JObj? then reply == ServerError && chargePoints == old(chargePoints) && statuses == old(statuses)
        else
          var k := TextCell(Get(body.fields, "cpId"));
          var s := TextCell(GetOr(body.fields, "status", JStr(Unknown)));
          if k.Err? || s.Err? then
            reply == ServerError && chargePoints == old(chargePoints) && statuses == old(statuses)
          else
            reply.code == 200 &&
            statuses == old(statuses) + [StatusRecord(k.value, s.value, now)] &&
            chargePoints == UpdateWhere(old(chargePoints), k.value, SetStatusSeen(s.value, now))
    {
      if !body.JObj? {
        return ServerError;
      }
      var k := TextCell(Get(body.fields, "cpId"));
      var s := TextCell(GetOr(body.fields, "status", JStr(Unknown)));
      if k.Err? || s.Err? {
        return ServerError;
      }
      statuses := statuses + [StatusRecord(k.value, s.value, now)];
      chargePoints := UpdateWhere(chargePoints, k.value, SetStatusSeen(s.value, now));
      reply := Reply(200, JObj(map["status" := JStr("StatusNotification stored")]));
    }

    /** `GET /api/logs`: one entry per stored record, newest first; entries
        stored at the same time stay in the order they were collected. */
    method GetLogs() returns (logs: seq<LogEntry>)
      ensures logs == SortNewest(Collected(boots, heartbeats, statuses))
      ensures |logs| == |boots| + |heartbeats| + |statuses|
      ensures multiset(logs) == multiset(Collected(boots, heartbeats, statuses))
      ensures NewestFirst(logs)
      ensures forall t :: At(logs, t) == At(Collected(boots, heartbeats, statuses), t)
    {
      ghost var want := Collected(boots, heartbeats, statuses);
      var acc: seq<LogEntry> := [];
      for i := 0 to |boots|
        invariant |acc| == i
        invariant forall j :: 0 <= j < |acc| ==> acc[j] == want[j]
      {
        acc := acc + [BootEntry(boots[i])];
      }
      for i := 0 to |heartbeats|
        invariant |acc| == |boots| + i
        invariant forall j :: 0 <= j < |acc| ==> acc[j] == want[j]
      {
        acc := acc + [HeartbeatEntry(heartbeats[i])];
      }
      for i := 0 to |statuses|
        invariant |acc| == |boots| + |heartbeats| + i
        invariant forall j :: 0 <= j < |acc| ==> acc[j] == want[j]
      {
        acc := acc + [StatusEntry(statuses[i])];
      }
      assert acc == want;
      logs := SortNewest(acc);
      SortPermutes(acc);
      SortIsNewestFirst(acc);
      forall t ensures At(logs, t) == At(acc, t) {
        SortIsStable(acc, t);
      }
    }

    /** One pass of the liveness sweep: over a snapshot of the table, every
        due station gets one `(cp_id, now)` heartbeat record and its last
        heartbeat set to now; nothing else changes. */
    method Sweep(now: int)
      requires Valid()
      modifies this`chargePoints, this`heartbeats
      ensures Valid()
      ensures chargePoints == SweepRows(old(chargePoints), now)
      ensures heartbeats == old(heartbeats) + SweepRecords(old(chargePoints), |old(chargePoints)|, now)
    {
      var clients := chargePoints;
      var i := 0;
      while i < |clients|
        invariant 0 <= i <= |clients|
        invariant |chargePoints| == |clients|
        invariant forall j :: 0 <= j < |clients| ==> chargePoints[j] == (if j < i then Swept(clients[j], now) else clients[j])
        invariant heartbeats == old(heartbeats) + SweepRecords(clients, i, now)
      {
        var c := clients[i];
        if Due(c, now) {
          heartbeats := heartbeats + [HeartbeatRecord(c.cpId, now)];
          chargePoints := UpdateWhere(chargePoints, c.cpId, SetHeartbeat(now));
        }
        i := i + 1;
      }
    }
  }
}
