/** One simulated charge point: its session state, the frames it sends over
    its websocket (kept here as the sequence `outbox`), the heartbeat
    interval it adopts from the server, and the dashboard commands it turns
    into status changes. */
module OcppClient {
  import opened JsonValues
  import opened OcppFrames
  import Text

  /** The heartbeat interval a station uses until the server sends one. */
  const DefaultInterval: int := 60

  const Available: string := "Available"
  const Charging: string := "Charging"
  const SuspendedEV: string := "SuspendedEV"

  /** The command as `_handle_command` looks it up: lower-cased, then
      stripped of surrounding whitespace. */
  function Normalize(cmd: string): (c: string)
    ensures |c| <= |cmd|
    ensures c == [] || (c[0] !in Text.Whitespace && c[|c| - 1] !in Text.Whitespace)
  {
    Text.Trim(Text.Lower(cmd), Text.Whitespace)
  }

  /** The status a dashboard command maps to; None for a command the
      station ignores. */
  function CommandStatus(cmd: string): (r: Option<string>)
    ensures r.Some? <==> Normalize(cmd) in {"start", "suspend", "finish"}
    ensures r.Some? ==> r.value in {Charging, SuspendedEV, Available}
    ensures r == Some(Charging) <==> Normalize(cmd) == "start"
    ensures r == Some(Available) <==> Normalize(cmd) == "finish"
  {
    var c := Normalize(cmd);
    if c == "start" then Some(Charging)
    else if c == "suspend" then Some(SuspendedEV)
    else if c == "finish" then Some(Available)
    else None
  }

  /** Commands are recognised whatever their letter case and whatever
      whitespace surrounds them: wrapping a word in whitespace, or changing
      the case of its ASCII letters, maps it to the same status. */
  lemma CommandIgnoresCaseAndSpace(lead: string, word: string, trail: string)
    requires forall i :: 0 <= i < |lead| ==> lead[i] in Text.Whitespace
    requires forall i :: 0 <= i < |trail| ==> trail[i] in Text.Whitespace
    requires word == [] || (Text.Lower(word)[0] !in Text.Whitespace && Text.Lower(word)[|word| - 1] !in Text.Whitespace)
    ensures CommandStatus(lead + word + trail) == CommandStatus(word)
    ensures CommandStatus(word) == CommandStatus(Text.Lower(word))
  {
    NormalizeWrapped(lead, word, trail);
    NormalizeTrimmed(word);
    CommandOfNormalized(lead + word + trail, word);
    CommandOfNormalized(word, Text.Lower(word));
  }

  /** CommandStatus sees a command only through Normalize. */
  lemma CommandOfNormalized(a: string, b: string)
    requires Normalize(a) == Normalize(b)
    ensures CommandStatus(a) == CommandStatus(b)
  {
  }

  /** A word without surrounding whitespace normalises, lower-cased or not,
      to its lower-cased self. */
  lemma NormalizeTrimmed(word: string)
    requires word == [] || (Text.Lower(word)[0] !in Text.Whitespace && Text.Lower(word)[|word| - 1] !in Text.Whitespace)
    ensures Normalize(word) == Text.Lower(word)
    ensures Normalize(Text.Lower(word)) == Text.Lower(word)
  {
    var w := Text.Lower(word);
    TrimmedFixed(w);
    LowerTwice(word);
  }

  /** Trim leaves a text alone when neither of its ends is whitespace. */
  lemma TrimmedFixed(w: string)
    requires w == [] || (w[0] !in Text.Whitespace && w[|w| - 1] !in Text.Whitespace)
    ensures Text.Trim(w, Text.Whitespace) == w
  {
    Text.TrimStartUnique([], w, Text.Whitespace);
    assert [] + w == w;
    Text.TrimEndUnique(w, [], Text.Whitespace);
    assert w + [] == w;
  }

  /** Normalising a word wrapped in whitespace gives the lower-cased word. */
  lemma NormalizeWrapped(lead: string, word: string, trail: string)
    requires forall i :: 0 <= i < |lead| ==> lead[i] in Text.Whitespace
    requires forall i :: 0 <= i < |trail| ==> trail[i] in Text.Whitespace
    requires word == [] || (Text.Lower(word)[0] !in Text.Whitespace && Text.Lower(word)[|word| - 1] !in Text.Whitespace)
    ensures Normalize(lead + word + trail) == Text.Lower(word)
  {
    var w := Text.Lower(word);
    LowerConcat(lead, word, trail);
    LowerKeepsWhitespace(lead);
    LowerKeepsWhitespace(trail);
    Text.TrimUnique(lead, w, trail, Text.Whitespace);
  }

  lemma LowerConcat(a: string, b: string, c: string)
    ensures Text.Lower(a + b + c) == Text.Lower(a) + Text.Lower(b) + Text.Lower(c)
  {
  }

  lemma LowerTwice(s: string)
    ensures Text.Lower(Text.Lower(s)) == Text.Lower(s)
  {
  }

  /** Lower-casing leaves whitespace as it is. */
  lemma LowerKeepsWhitespace(s: string)
    requires forall i :: 0 <= i < |s| ==> s[i] in Text.Whitespace
    ensures Text.Lower(s) == s
  {
    forall i | 0 <= i < |s| ensures Text.Lower(s)[i] == s[i] {
      assert !('A' <= s[i] <= 'Z');
    }
  }

  /** True of a frame whose type is CALLRESULT and whose payload is a dict:
      the only frames `handle_messages` reads a payload from. A list of
      fewer than three elements has the payload `{}`. */
  function ResultPayload(m: Json): (p: Option<map<string, Json>>)
    ensures p.Some? ==> m.JArr? && |m.items| >= 1 && m.items[0] == JInt(CallResultType)
    ensures m.JArr? && 1 <= |m.items| <= 2 && m.items[0] == JInt(CallResultType) ==> p == Some(map[])
    ensures m.JArr? && |m.items| > 2 && m.items[0] == JInt(CallResultType) ==>
      p == (if m.items[2].JObj? then Some(m.items[2].fields) else None)
  {
    if m.JArr? && |m.items| >= 1 && m.items[0] == JInt(CallResultType) then
      if |m.items| > 2 then
        (if m.items[2].JObj? then Some(m.items[2].fields) else None)
      else Some(map[])
    else None
  }

  /** The interval a received message makes the station adopt, if any: a
      CALLRESULT whose payload says `status` (or the misspelt `statyus`) is
      "Accepted" and carries a truthy `interval`. Every other message, a
      malformed one included, offers nothing. */
  function OfferedInterval(raw: Option<Json>): (r: Option<Json>)
    ensures r.Some? <==>
      raw.Some? && ResultPayload(raw.value).Some? &&
      var p := ResultPayload(raw.value).value;
      (Get(p, "status") == JStr("Accepted") || Get(p, "statyus") == JStr("Accepted")) &&
      Truthy(Get(p, "interval"))
    ensures r.Some? ==> Truthy(r.value) && r.value == ResultPayload(raw.value).value["interval"]
  {
    if raw.None? then None
    else match ResultPayload(raw.value)
      case None => None
      case Some(p) =>
        if Get(p, "status") == JStr("Accepted") && Truthy(Get(p, "interval")) then Some(p["interval"])
        else if Get(p, "statyus") == JStr("Accepted") && Truthy(Get(p, "interval")) then Some(p["interval"])
        else None
  }

  /** A CALLRESULT offering `{status: "Accepted", interval: 45}` sets the
      interval to 45; a CALL frame never changes it. */
  lemma OfferedIntervalExamples(id: Json, action: string, payload: Json)
    ensures OfferedInterval(Some(CallResult(id, JObj(map["status" := JStr("Accepted"), "interval" := JInt(45)])))) == Some(JInt(45))
    ensures OfferedInterval(Some(Call(id, action, payload))) == None
  {
    var p := map["status" := JStr("Accepted"), "interval" := JInt(45)];
    assert Get(p, "status") == JStr("Accepted");
    assert Get(p, "interval") == JInt(45);
  }

  /** How long `asyncio.sleep` waits for an interval value: a delay of
      zero or less returns at once, so a negative interval waits 0 s.
      None when the value is not a number, which makes the sleep raise. */
  function SleepSeconds(interval: Json): Option<int> {
    match interval
    case JInt(n) => Some(if n < 0 then 0 else n)
    case JBool(b) => Some(if b then 1 else 0)
    case _ => None
  }

  /** The heartbeat decision made after each sleep. */
  predicate HeartbeatDue(connected: bool, status: string) {
    connected && status == Available
  }

  /** Among the statuses a command sets, only `finish` (Available) lets
      the heartbeat loop send again; `start` and `suspend` silence it. */
  lemma CommandsGateHeartbeats(cmd: string)
    requires CommandStatus(cmd).Some?
    ensures HeartbeatDue(true, CommandStatus(cmd).value) <==> Normalize(cmd) == "finish"
    ensures !HeartbeatDue(false, CommandStatus(cmd).value)
  {
  }

  /** The payload of a StatusNotification: this station, connector 0. */
  function StatusPayload(cpId: string, status: string, now: int): Json {
    JObj(map["cpId" := JStr(cpId), "connectorId" := JInt(0), "status" := JStr(status), "timestamp" := JInt(now)])
  }

  /** The fixed BootNotification payload of every simulated station. */
  function BootPayload(cpId: string): Json {
    JObj(map[
      "cpId" := JStr(cpId),
      "chargePointVendor" := JStr("MyVendor"),
      "chargePointModel" := JStr("MyModel"),
      "chargePointSerialNumber" := JStr("1234567890"),
      "chargeBoxSerialNumber" := JStr("9876543210"),
      "firmwareVersion" := JStr("1.0.0"),
      "iccid" := JStr("89012345678901234"),
      "imsi" := JStr("123456789012345"),
      "meterType" := JStr("MyMeterType"),
      "meterSerialNumber" := JStr("1234567890")
    ])
  }

  /** The frames a station has sent: every one a CALL, numbered in sending
      order, so that no two carry the same id. */
  ghost predicate Numbered(frames: seq<Json>) {
    forall i :: 0 <= i < |frames| ==>
      frames[i].JArr? && |frames[i].items| == 4 &&
      frames[i].items[0] == JInt(CallType) && frames[i].items[1] == JInt(i)
  }

  class Client {
    const chargePointId: string
    var status: string
    var heartbeatInterval: Json
    var connected: bool
    /** Whether `self.websocket` has been set. */
    var hasSocket: bool
    /** `send_heartbeat_flag`; None until the first status notification. */
    var sendHeartbeatFlag: Option<bool>
    var lastMessageTime: int
    /** Every frame written to the websocket, in order. */
    var outbox: seq<Json>
    /** Message ids issued so far. */
    var issued: nat

    ghost predicate Valid()
      reads this
    {
      (connected ==> hasSocket) && |outbox| == issued && Numbered(outbox)
    }

    /** `__init__`: not connected, status Available, interval 60. */
    constructor (id: string, now: int)
      ensures Valid()
      ensures chargePointId == id && status == Available && heartbeatInterval == JInt(DefaultInterval)
      ensures !connected && !hasSocket && sendHeartbeatFlag.None?
      ensures lastMessageTime == now && outbox == []
    {
      chargePointId := id;
      status := Available;
      heartbeatInterval := JInt(DefaultInterval);
      connected := false;
      hasSocket := false;
      sendHeartbeatFlag := None;
      lastMessageTime := now;
      outbox := [];
      issued := 0;
    }

    /** `send_message`: nothing is sent, and None returned, unless the
        station is connected; otherwise one CALL with a fresh id. */
    method SendMessage(action: string, payload: Json, now: int) returns (id: Option<Json>)
      requires Valid()
      modifies this`outbox, this`issued, this`lastMessageTime
      ensures Valid()
      ensures !old(connected) ==> id.None? && outbox == old(outbox) && lastMessageTime == old(lastMessageTime)
      ensures old(connected) ==>
        (id == Some(JInt(|old(outbox)|)) &&
         outbox == old(outbox) + [Call(id.value, action, payload)] && lastMessageTime == now)
    {
      if !hasSocket || !connected {
        return None;
      }
      id := Some(JInt(issued));
      outbox := outbox + [Call(id.value, action, payload)];
      issued := issued + 1;
      lastMessageTime := now;
    }

    /** The part of `connect` that follows a successful handshake: the
        socket is set, the station is connected, and it announces itself
        with a BootNotification and its current status. */
    method OnConnected(now: int)
      requires Valid()
      modifies this
      ensures Valid()
      ensures hasSocket && connected && status == old(status)
      ensures sendHeartbeatFlag == Some(old(status) == Available)
      ensures heartbeatInterval == old(heartbeatInterval) && lastMessageTime == now
      ensures outbox == old(outbox) + [
        Call(JInt(|old(outbox)|), BootNotification, BootPayload(chargePointId)),
        Call(JInt(|old(outbox)| + 1), StatusNotification, StatusPayload(chargePointId, old(status), now))]
    {
      hasSocket := true;
      connected := true;
      SendBootNotification(now);
      SendStatusNotification(status, now);
    }

    /** A closed or failed connection: sends stop until the next one. */
    method OnDisconnected()
      requires Valid()
      modifies this`connected
      ensures Valid() && !connected
    {
      connected := false;
    }

    method SendBootNotification(now: int)
      requires Valid()
      modifies this`outbox, this`issued, this`lastMessageTime
      ensures Valid()
      ensures outbox == old(outbox) +
        (if old(connected) then [Call(JInt(|old(outbox)|), BootNotification, BootPayload(chargePointId))] else [])
      ensures lastMessageTime == (if old(connected) then now else old(lastMessageTime))
    {
      if !hasSocket || !connected {
        return;
      }
      var _ := SendMessage(BootNotification, BootPayload(chargePointId), now);
    }

    method SendHeartbeat(now: int)
      requires Valid()
      modifies this`outbox, this`issued, this`lastMessageTime
      ensures Valid()
      ensures outbox == old(outbox) +
        (if old(connected) then [Call(JInt(|old(outbox)|), Heartbeat, EmptyObject)] else [])
      ensures lastMessageTime == (if old(connected) then now else old(lastMessageTime))
    {
      var _ := SendMessage(Heartbeat, EmptyObject, now);
    }

    /** `send_status_notification`: while disconnected nothing changes;
        otherwise the status is set, the heartbeat flag says whether it is
        Available, and one StatusNotification for connector 0 is sent. */
    method SendStatusNotification(s: string, now: int)
      requires Valid()
      modifies this`status, this`sendHeartbeatFlag, this`outbox, this`issued, this`lastMessageTime
      ensures Valid()
      ensures !old(connected) ==>
        status == old(status) && sendHeartbeatFlag == old(sendHeartbeatFlag) && outbox == old(outbox) &&
        lastMessageTime == old(lastMessageTime)
      ensures old(connected) ==>
        status == s && sendHeartbeatFlag == Some(s == Available) && lastMessageTime == now &&
        outbox == old(outbox) + [Call(JInt(|old(outbox)|), StatusNotification, StatusPayload(chargePointId, s, now))]
    {
      if !hasSocket || !connected {
        return;
      }
      status := s;
      sendHeartbeatFlag := Some(s == Available);
      var _ := SendMessage(StatusNotification, StatusPayload(chargePointId, s, now), now);
    }

    /** `handle_messages`: only the heartbeat interval can change, and only
        to the interval an accepted CALLRESULT offers. */
    method HandleMessage(raw: Option<Json>)
      modifies this`heartbeatInterval
      ensures heartbeatInterval == (match OfferedInterval(raw) case Some(i) => i case None => old(heartbeatInterval))
    {
      var offer := OfferedInterval(raw);
      if offer.Some? {
        heartbeatInterval := offer.value;
      }
    }

    /** `_handle_command`: a recognised command becomes a status
        notification; any other leaves everything as it was. */
    method HandleCommand(cmd: string, now: int)
      requires Valid()
      modifies this`status, this`sendHeartbeatFlag, this`outbox, this`issued, this`lastMessageTime
      ensures Valid()
      ensures CommandStatus(cmd).None? || !old(connected) ==>
        status == old(status) && sendHeartbeatFlag == old(sendHeartbeatFlag) && outbox == old(outbox) &&
        lastMessageTime == old(lastMessageTime)
      ensures CommandStatus(cmd).Some? && old(connected) ==>
        status == CommandStatus(cmd).value &&
        sendHeartbeatFlag == Some(CommandStatus(cmd).value == Available) && lastMessageTime == now &&
        outbox == old(outbox) + [Call(JInt(|old(outbox)|), StatusNotification, StatusPayload(chargePointId, status, now))]
    {
      var next := CommandStatus(cmd);
      if next.Some? {
        SendStatusNotification(next.value, now);
      }
    }

    /** The head of one `heartbeat_loop` iteration: the loop runs only while
        connected, and it sleeps for the interval as it stands now. None
        means the loop ends here, because the station is disconnected or
        the interval is not a number. */
    method HeartbeatSleep() returns (wait: Option<int>)
      ensures !connected ==> wait.None?
      ensures connected && heartbeatInterval.JInt? ==>
        wait == Some(if heartbeatInterval.n < 0 then 0 else heartbeatInterval.n)
      ensures connected && heartbeatInterval.JBool? ==> wait == Some(if heartbeatInterval.b then 1 else 0)
      ensures heartbeatInterval.JNull? || heartbeatInterval.JStr? || heartbeatInterval.JArr? || heartbeatInterval.JObj? ==>
        wait.None?
    {
      if !connected {
        return None;
      }
      wait := SleepSeconds(heartbeatInterval);
    }

    /** The rest of the iteration, after the sleep: a Heartbeat goes out
        only if the station is still connected and Available. */
    method HeartbeatWake(now: int) returns (sent: bool)
      requires Valid()
      modifies this`outbox, this`issued, this`lastMessageTime
      ensures Valid()
      ensures sent == HeartbeatDue(old(connected), old(status))
      ensures outbox == old(outbox) + (if sent then [Call(JInt(|old(outbox)|), Heartbeat, EmptyObject)] else [])
      ensures lastMessageTime == (if sent then now else old(lastMessageTime))
    {
      sent := connected && status == Available;
      if sent {
        SendHeartbeat(now);
      }
    }
  }

  /** An interval adopted from a CALLRESULT paces the next heartbeat: on a
      connected station, once the offer is handled, the loop sleeps for
      exactly that many seconds, or not at all for a negative offer. */
  method AdoptedIntervalPacesHeartbeats(c: Client, raw: Option<Json>, n: int) returns (wait: Option<int>)
    requires c.connected && OfferedInterval(raw) == Some(JInt(n))
    modifies c`heartbeatInterval
    ensures wait == Some(if n < 0 then 0 else n)
  {
    c.HandleMessage(raw);
    wait := c.HeartbeatSleep();
  }
}
