/** How the three components fit together: the station's BootNotification,
    the server's answer and the interval the station adopts from it; and the
    server's relay bodies as the backend reads them. */
module Scenario {
  import opened JsonValues
  import opened OcppFrames
  import OcppServer
  import OcppClient
  import Backend

  /** The server answers any station's BootNotification with the interval
      it hands out, and the station adopts exactly that interval. */
  lemma BootAnswerSetsInterval(id: nat, cpId: string, now: int)
    ensures OcppServer.Respond(Some(Call(JInt(id), BootNotification, OcppClient.BootPayload(cpId))), now).Some?
    ensures OcppClient.OfferedInterval(OcppServer.Respond(Some(Call(JInt(id), BootNotification, OcppClient.BootPayload(cpId))), now))
      == Some(JInt(OcppServer.HeartbeatInterval))
  {
    var call := Call(JInt(id), BootNotification, OcppClient.BootPayload(cpId));
    assert OcppServer.IsCall(call);
    var reply := OcppServer.Respond(Some(call), now);
    var p := map["status" := JStr("Accepted"), "currentTime" := JInt(now), "interval" := JInt(OcppServer.HeartbeatInterval)];
    assert reply == Some(CallResult(JInt(id), JObj(p)));
    assert OcppClient.ResultPayload(reply.value) == Some(p);
    assert Get(p, "status") == JStr("Accepted");
    assert Get(p, "interval") == JInt(OcppServer.HeartbeatInterval);
  }

  /** The answers to a Heartbeat and to a StatusNotification offer no
      interval: the station keeps the one it has. */
  lemma OtherAnswersKeepInterval(id: nat, cpId: string, status: string, now: int)
    ensures OcppClient.OfferedInterval(OcppServer.Respond(Some(Call(JInt(id), Heartbeat, EmptyObject)), now)) == None
    ensures OcppClient.OfferedInterval(OcppServer.Respond(Some(Call(JInt(id), StatusNotification,
      OcppClient.StatusPayload(cpId, status, now))), now)) == None
  {
    var hb := Call(JInt(id), Heartbeat, EmptyObject);
    assert OcppServer.IsCall(hb);
    var p := map["currentTime" := JInt(now)];
    assert OcppServer.Respond(Some(hb), now) == Some(CallResult(JInt(id), JObj(p)));
    assert OcppClient.ResultPayload(CallResult(JInt(id), JObj(p))) == Some(p);
    assert Get(p, "status") == JNull && Get(p, "statyus") == JNull;
    var st := Call(JInt(id), StatusNotification, OcppClient.StatusPayload(cpId, status, now));
    assert OcppServer.IsCall(st);
    assert JStr(StatusNotification) != JStr(BootNotification);
    assert OcppServer.Respond(Some(st), now) == Some(CallResult(JInt(id), EmptyObject));
  }

  /** A station's BootNotification is posted to the backend's
      `/bootnotification` endpoint under the server's REST base, carrying
      the station id from the connection path. */
  lemma BootRelayedToBootEndpoint(base: string, cpId: string, id: nat, payload: map<string, Json>, now: int)
    ensures var ps := OcppServer.PostsFor(base, cpId, OcppServer.Incoming(Some(Call(JInt(id), BootNotification, JObj(payload))), now));
      |ps| == 1 && ps[0].url == OcppServer.UrlJoin(base, "/bootnotification") && ps[0].body[0] == ("cpId", JStr(cpId))
  {
    assert OcppServer.IsCall(Call(JInt(id), BootNotification, JObj(payload)));
  }

  /** The dict the backend decodes from a relay body: where a key repeats,
      the later value wins. */
  function ToDict(body: seq<(string, Json)>): map<string, Json> {
    if body == [] then map[]
    else
      var last := body[|body| - 1];
      ToDict(body[..|body| - 1])[last.0 := last.1]
  }

  /** A key that the body carries, always with the same value, decodes to
      that value. */
  lemma {:induction false} ToDictLookup(body: seq<(string, Json)>, at: nat, v: Json)
    requires at < |body|
    requires forall i :: 0 <= i < |body| && body[i].0 == body[at].0 ==> body[i].1 == v
    ensures body[at].0 in ToDict(body) && ToDict(body)[body[at].0] == v
  {
    var n := |body|;
    if body[n - 1].0 != body[at].0 {
      var front := body[..n - 1];
      assert front[at] == body[at];
      ToDictLookup(front, at, v);
    }
  }

  /** In a body shaped like a relay (`cpId` first, then each key with the
      payload's value), every key but `cpId` decodes to the payload's
      value. */
  lemma RelayBodyLookup(body: seq<(string, Json)>, keys: seq<string>, p: map<string, Json>, j: nat)
    requires OcppServer.KeysOf(body) == ["cpId"] + keys
    requires body[0].0 == "cpId"
    requires forall i :: 1 <= i < |body| ==> body[i].1 == Get(p, body[i].0)
    requires j < |keys| && keys[j] != "cpId"
    ensures keys[j] in ToDict(body) && ToDict(body)[keys[j]] == Get(p, keys[j])
  {
    RelayEntriesFor(body, keys, p, j);
    ToDictLookup(body, j + 1, Get(p, keys[j]));
  }

  /** Such a body holds key `keys[j]` at position `j + 1`, and every entry
      with that key carries the payload's value. */
  lemma RelayEntriesFor(body: seq<(string, Json)>, keys: seq<string>, p: map<string, Json>, j: nat)
    requires OcppServer.KeysOf(body) == ["cpId"] + keys
    requires body[0].0 == "cpId"
    requires forall i :: 1 <= i < |body| ==> body[i].1 == Get(p, body[i].0)
    requires j < |keys| && keys[j] != "cpId"
    ensures body[j + 1].0 == keys[j]
    ensures forall i :: 0 <= i < |body| && body[i].0 == keys[j] ==> body[i].1 == Get(p, keys[j])
  {
    assert OcppServer.KeysOf(body)[j + 1] == keys[j];
  }

  /** Every payload field the server relays reaches the backend with the
      value the station sent, or null when the station left it out; the
      relay body's `cpId` is the station id from the connection path. */
  lemma RelayedFieldReachesBackend(cpId: string, action: Json, p: map<string, Json>, j: nat)
    requires OcppServer.RelayShape(action).Some?
    requires j < |OcppServer.RelayShape(action).value.1|
    requires OcppServer.RelayShape(action).value.1[j] != "cpId"
    ensures var key := OcppServer.RelayShape(action).value.1[j];
      var d := ToDict(OcppServer.RelayFor(cpId, action, JObj(p)).value.body);
      key in d && d[key] == Get(p, key)
  {
    var r := OcppServer.RelayFor(cpId, action, JObj(p));
    RelayBodyLookup(r.value.body, OcppServer.RelayShape(action).value.1, p, j);
  }

  /** Because the relay always carries the keys the backend reads, the
      backend's "Unknown" defaults never apply to a relayed message: a
      station that leaves out its vendor, model or status is stored with
      null in that column. */
  lemma RelayedBodiesSkipDefaults(cpId: string, p: map<string, Json>, fallback: Json)
    ensures var d := ToDict(OcppServer.RelayFor(cpId, JStr(BootNotification), JObj(p)).value.body);
      GetOr(d, "chargePointVendor", fallback) == Get(p, "chargePointVendor") &&
      GetOr(d, "chargePointModel", fallback) == Get(p, "chargePointModel")
    ensures var d := ToDict(OcppServer.RelayFor(cpId, JStr(StatusNotification), JObj(p)).value.body);
      GetOr(d, "status", fallback) == Get(p, "status")
  {
    assert OcppServer.BootKeys[0] == "chargePointVendor";
    assert OcppServer.BootKeys[1] == "chargePointModel";
    assert OcppServer.StatusKeys[1] == "status";
    RelayedFieldReachesBackend(cpId, JStr(BootNotification), p, 0);
    RelayedFieldReachesBackend(cpId, JStr(BootNotification), p, 1);
    RelayedFieldReachesBackend(cpId, JStr(StatusNotification), p, 1);
  }

  /** A heartbeat the server relays for a station with a non-empty id
      refreshes that station's row in the backend, and only that row. */
  method RelayedHeartbeat(b: Backend.Backend, cpId: string, p: map<string, Json>, now: int) returns (reply: Backend.Reply)
    requires b.Valid() && cpId != ""
    modifies b`chargePoints
    ensures b.Valid()
    ensures reply.code == 200
    ensures b.boots == old(b.boots) && b.heartbeats == old(b.heartbeats) && b.statuses == old(b.statuses)
    ensures b.chargePoints == Backend.UpdateWhere(old(b.chargePoints), Some(cpId), Backend.SetHeartbeatSeen(now))
  {
    var body := OcppServer.RelayFor(cpId, JStr(Heartbeat), JObj(p)).value.body;
    var d := ToDict(body);
    assert body[0] == ("cpId", JStr(cpId));
    assert OcppServer.KeysOf(body) == ["cpId", "currentTime"];
    assert OcppServer.KeysOf(body)[1] == body[1].0;
    ToDictLookup(body, 0, JStr(cpId));
    assert Truthy(JObj(d));
    reply := b.Heartbeat(JObj(d), now);
  }
}
