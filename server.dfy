/** The central server: it accepts one websocket per charge point, answers
    every CALL with a CALLRESULT from a fixed dispatch table, and relays what
    each station reported to the REST backend as an ordered JSON body. */
module OcppServer {
  import opened JsonValues
  import opened OcppFrames
  import Text

  /** The heartbeat interval the server hands out in every BootNotification
      answer. */
  const HeartbeatInterval: int := 60

  /** REST_API_BASE when the environment does not set it. */
  const DefaultRestBase: string := "http://localhost:3000"

  const Slash: set<char> := {'/'}

  /** A frame as `handle_message` takes it apart. */
  datatype Frame = Frame(msgType: Json, msgId: Json, action: Json, payload: Json)

  /** One relay request: the endpoint and the body, whose keys keep the
      order in which the server lists them. */
  datatype Relay = Relay(endpoint: string, body: seq<(string, Json)>)

  /** A POST issued to the backend: the joined URL and the body. */
  datatype Post = Post(url: string, body: seq<(string, Json)>)

  /** A message read from a websocket: `raw` is None when its text is not
      JSON; `at` is the clock reading while it is processed. */
  datatype Incoming = Incoming(raw: Option<Json>, at: int)

  /** Frame parsing: type, id and action are the first three elements, the
      payload the fourth or `{}` when there are only three. Anything that is
      not a list of at least three elements raises inside the handler's
      `try` and is only logged. */
  function ParseFrame(m: Json): (r: Option<Frame>)
    ensures r.Some? <==> m.JArr? && |m.items| >= 3
    ensures r.Some? && |m.items| == 3 ==> r.value.payload == EmptyObject
  {
    if m.JArr? && |m.items| >= 3 then
      Some(Frame(m.items[0], m.items[1], m.items[2],
                 if |m.items| > 3 then m.items[3] else EmptyObject))
    else None
  }

  /** Parsing inverts the station's CALL encoding, with or without a payload. */
  lemma ParseCall(id: Json, action: string, payload: Json)
    ensures ParseFrame(Call(id, action, payload)) == Some(Frame(JInt(CallType), id, JStr(action), payload))
    ensures ParseFrame(JArr([JInt(CallType), id, JStr(action)])) == Some(Frame(JInt(CallType), id, JStr(action), EmptyObject))
  {
  }

  /** `process_call`: the dispatch table. The payload is never consulted. */
  function ProcessCall(action: Json, now: int): (r: Json)
    ensures r.JObj?
    ensures action == JStr(BootNotification) ==>
      r.fields == map["status" := JStr("Accepted"), "currentTime" := JInt(now), "interval" := JInt(HeartbeatInterval)]
    ensures action == JStr(Heartbeat) ==> r.fields == map["currentTime" := JInt(now)]
    ensures action != JStr(BootNotification) && action != JStr(Heartbeat) ==> r.fields == map[]
  {
    if action == JStr(BootNotification) then
      JObj(map["status" := JStr("Accepted"), "currentTime" := JInt(now), "interval" := JInt(HeartbeatInterval)])
    else if action == JStr(Heartbeat) then
      JObj(map["currentTime" := JInt(now)])
    else
      EmptyObject
  }

  /** True of the frames the server answers: a list of at least three
      elements whose type is CALL. */
  predicate IsCall(m: Json) {
    m.JArr? && |m.items| >= 3 && m.items[0] == JInt(CallType)
  }

  /** The reply `handle_message` writes back for one raw message, if any. */
  function Respond(raw: Option<Json>, now: int): (reply: Option<Json>)
    ensures reply.Some? <==> raw.Some? && IsCall(raw.value)
    ensures reply.Some? ==>
      reply.value == CallResult(raw.value.items[1], ProcessCall(raw.value.items[2], now))
  {
    if raw.None? then None
    else match ParseFrame(raw.value)
      case None => None
      case Some(f) =>
        if f.msgType == JInt(CallType) then Some(CallResult(f.msgId, ProcessCall(f.action, now)))
        else None
  }

  /** The payload fields relayed for each action, in body order after `cpId`. */
  const BootKeys: seq<string> := [
    "chargePointVendor", "chargePointModel", "chargePointSerialNumber",
    "chargeBoxSerialNumber", "firmwareVersion", "iccid", "imsi",
    "meterType", "meterSerialNumber"
  ]
  const HeartbeatKeys: seq<string> := ["currentTime"]
  const StatusKeys: seq<string> := [
    "connectorId", "status", "errorCode", "info", "timestamp",
    "vendorId", "vendorErrorCode"
  ]

  /** The endpoint and the payload keys the relay uses for an action; None
      for an action it does not relay. */
  function RelayShape(action: Json): (r: Option<(string, seq<string>)>)
    ensures r.Some? <==> action in {JStr(BootNotification), JStr(Heartbeat), JStr(StatusNotification)}
    ensures r.Some? ==> |r.value.0| > 1 && r.value.0[0] == '/' && "cpId" !in r.value.1
    ensures action == JStr(BootNotification) ==> r == Some(("/bootnotification", BootKeys))
    ensures action == JStr(Heartbeat) ==> r == Some(("/heartbeat", HeartbeatKeys))
    ensures action == JStr(StatusNotification) ==> r == Some(("/statusnotification", StatusKeys))
  {
    if action == JStr(BootNotification) then Some(("/bootnotification", BootKeys))
    else if action == JStr(Heartbeat) then Some(("/heartbeat", HeartbeatKeys))
    else if action == JStr(StatusNotification) then Some(("/statusnotification", StatusKeys))
    else None
  }

  function KeysOf(body: seq<(string, Json)>): (ks: seq<string>)
    ensures |ks| == |body|
    ensures forall i :: 0 <= i < |body| ==> ks[i] == body[i].0
  {
    seq(|body|, i requires 0 <= i < |body| => body[i].0)
  }

  /** `_log_action_to_rest`: the body and endpoint relayed for an action.
      An unknown action posts nothing; a payload that is not a dict makes
      `payload.get` raise inside the relay task, so nothing is posted then
      either. */
  function RelayFor(cpId: string, action: Json, payload: Json): (r: Option<Relay>)
    ensures r.Some? <==> RelayShape(action).Some? && payload.JObj?
    ensures r.Some? ==> r.value.endpoint == RelayShape(action).value.0
    ensures r.Some? ==> KeysOf(r.value.body) == ["cpId"] + RelayShape(action).value.1
    ensures r.Some? ==> r.value.body[0] == ("cpId", JStr(cpId))
    ensures r.Some? ==> forall i :: 1 <= i < |r.value.body| ==>
      r.value.body[i].1 == Get(payload.fields, r.value.body[i].0)
  {
    match RelayShape(action)
    case None => None
    case Some((endpoint, keys)) =>
      if payload.JObj? then
        var fields := seq(|keys|, i requires 0 <= i < |keys| => (keys[i], Get(payload.fields, keys[i])));
        var body := [("cpId", JStr(cpId))] + fields;
        assert KeysOf(body) == ["cpId"] + keys;
        Some(Relay(endpoint, body))
      else None
  }

  /** Body sizes: ten keys for a boot, two for a heartbeat, eight for a
      status change, and a payload field that is missing is relayed as null. */
  lemma RelayBodySizes(cpId: string, payload: map<string, Json>, key: string)
    ensures |RelayFor(cpId, JStr(BootNotification), JObj(payload)).value.body| == 10
    ensures |RelayFor(cpId, JStr(Heartbeat), JObj(payload)).value.body| == 2
    ensures |RelayFor(cpId, JStr(StatusNotification), JObj(payload)).value.body| == 8
    ensures key !in payload && key in StatusKeys ==>
      (key, JNull) in RelayFor(cpId, JStr(StatusNotification), JObj(payload)).value.body
  {
    var r := RelayFor(cpId, JStr(StatusNotification), JObj(payload)).value;
    if key !in payload && key in StatusKeys {
      var k :| 0 <= k < |StatusKeys| && StatusKeys[k] == key;
      assert KeysOf(r.body)[k + 1] == key;
      assert r.body[k + 1] == (key, JNull);
    }
  }

  /** The URL join of `_post_to_rest`: the base without its trailing `/`,
      one `/`, the endpoint without its leading `/`. */
  function UrlJoin(base: string, endpoint: string): (url: string)
    ensures |url| <= |base| + 1 + |endpoint|
    ensures var b := Text.TrimEnd(base, Slash);
      |b| < |url| && url[..|b|] == base[..|b|] && url[|b|] == '/' &&
      (b == [] || b[|b| - 1] != '/') && (|url| == |b| + 1 || url[|b| + 1] != '/')
    ensures url[|Text.TrimEnd(base, Slash)| + 1..] == Text.TrimStart(endpoint, Slash)
  {
    Text.TrimEnd(base, Slash) + "/" + Text.TrimStart(endpoint, Slash)
  }

  /** The join normalises the slashes between the two parts: a base that
      does not end in `/` and an endpoint that does not start with one are
      joined by exactly one `/`, whatever runs of slashes followed the base
      or preceded the endpoint. (Every base and endpoint splits this way,
      by the contracts of TrimEnd and TrimStart.) */
  lemma UrlJoinNormalizes(base: string, trail: string, lead: string, endpoint: string)
    requires forall i :: 0 <= i < |trail| ==> trail[i] == '/'
    requires forall i :: 0 <= i < |lead| ==> lead[i] == '/'
    requires base == [] || base[|base| - 1] != '/'
    requires endpoint == [] || endpoint[0] != '/'
    ensures UrlJoin(base + trail, lead + endpoint) == base + "/" + endpoint
  {
    Text.TrimEndUnique(base, trail, Slash);
    Text.TrimStartUnique(lead, endpoint, Slash);
  }

  /** A run of `n` slashes. */
  function Slashes(n: nat): (s: string)
    ensures |s| == n && forall i :: 0 <= i < n ==> s[i] == '/'
  {
    seq(n, _ => '/')
  }

  /** `path.strip('/')`: the station id taken from the request path. */
  function StationId(path: string): (id: string)
    ensures id == [] || (id[0] != '/' && id[|id| - 1] != '/')
  {
    Text.Trim(path, Slash)
  }

  /** The id a station connects with comes back from its path
      `/<id>` whatever slashes surround it. */
  lemma StationIdOfPath(id: string, lead: nat, trail: nat)
    requires id == [] || (id[0] != '/' && id[|id| - 1] != '/')
    ensures StationId(Slashes(lead) + id + Slashes(trail)) == id
  {
    Text.TrimUnique(Slashes(lead), id, Slashes(trail), Slash);
  }

  /** The POSTs that one incoming message causes: the relay is created only
      after the reply was sent. */
  function PostsFor(base: string, cpId: string, m: Incoming): (ps: seq<Post>)
    ensures |ps| <= 1
    ensures ps != [] ==> Respond(m.raw, m.at).Some?
    ensures Respond(m.raw, m.at).Some? ==>
      var items := m.raw.value.items;
      var payload := if |items| > 3 then items[3] else EmptyObject;
      ps == (match RelayFor(cpId, items[2], payload)
        case None => []
        case Some(r) => [Post(UrlJoin(base, r.endpoint), r.body)])
  {
    if Respond(m.raw, m.at).None? then []
    else
      var f := ParseFrame(m.raw.value).value;
      match RelayFor(cpId, f.action, f.payload)
      case None => []
      case Some(r) => [Post(UrlJoin(base, r.endpoint), r.body)]
  }

  /** The frame written back on websocket `ws` for one message, if any. */
  function Answer(ws: ConnId, m: Incoming): (out: seq<(ConnId, Json)>)
    ensures |out| <= 1
    ensures out != [] <==> m.raw.Some? && IsCall(m.raw.value)
    ensures out != [] ==> out[0] == (ws, Respond(m.raw, m.at).value)
  {
    match Respond(m.raw, m.at)
    case None => []
    case Some(reply) => [(ws, reply)]
  }

  /** What a connection's handler writes back for its messages, in order. */
  function Replies(ws: ConnId, inbox: seq<Incoming>, n: nat): (out: seq<(ConnId, Json)>)
    requires n <= |inbox|
    ensures |out| <= n
  {
    if n == 0 then []
    else Replies(ws, inbox, n - 1) + Answer(ws, inbox[n - 1])
  }

  /** All POSTs a connection's messages cause, in the order they are issued. */
  function Posts(base: string, cpId: string, inbox: seq<Incoming>, n: nat): seq<Post>
    requires n <= |inbox|
  {
    if n == 0 then []
    else Posts(base, cpId, inbox, n - 1) + PostsFor(base, cpId, inbox[n - 1])
  }

  /** `reply` is the CALLRESULT to the CALL at position `i` of `inbox`. */
  predicate AnswersCall(reply: Json, inbox: seq<Incoming>, i: int) {
    && 0 <= i < |inbox|
    && inbox[i].raw.Some?
    && IsCall(inbox[i].raw.value)
    && reply == CallResult(inbox[i].raw.value.items[1], ProcessCall(inbox[i].raw.value.items[2], inbox[i].at))
  }

  /** Every reply a connection sends goes back on that connection and
      answers one of its CALLs: it is a CALLRESULT with that CALL's id. */
  lemma {:induction false} RepliesMatchCalls(ws: ConnId, inbox: seq<Incoming>, n: nat, k: nat)
    requires n <= |inbox|
    requires k < |Replies(ws, inbox, n)|
    ensures Replies(ws, inbox, n)[k].0 == ws
    ensures exists i :: i < n && AnswersCall(Replies(ws, inbox, n)[k].1, inbox, i)
  {
    if k < |Replies(ws, inbox, n - 1)| {
      RepliesMatchCalls(ws, inbox, n - 1, k);
    } else {
      assert Replies(ws, inbox, n)[k] == Answer(ws, inbox[n - 1])[0];
      assert AnswersCall(Replies(ws, inbox, n)[k].1, inbox, n - 1);
    }
  }

  /** The number of CALL frames among the first `n` messages. */
  function CallCount(inbox: seq<Incoming>, n: nat): nat
    requires n <= |inbox|
  {
    if n == 0 then 0
    else CallCount(inbox, n - 1) + (if inbox[n - 1].raw.Some? && IsCall(inbox[n - 1].raw.value) then 1 else 0)
  }

  /** One reply per CALL: as many replies as CALL frames. */
  lemma {:induction false} OneReplyPerCall(ws: ConnId, inbox: seq<Incoming>, n: nat)
    requires n <= |inbox|
    ensures |Replies(ws, inbox, n)| == CallCount(inbox, n)
  {
    if n != 0 {
      OneReplyPerCall(ws, inbox, n - 1);
    }
  }

  /** One more message handled extends the replies by its answer. */
  lemma RepliesStep(before: seq<(ConnId, Json)>, ws: ConnId, inbox: seq<Incoming>, i: nat)
    requires i < |inbox|
    ensures before + Replies(ws, inbox, i) + Answer(ws, inbox[i]) == before + Replies(ws, inbox, i + 1)
  {
    assert Replies(ws, inbox, i + 1) == Replies(ws, inbox, i) + Answer(ws, inbox[i]);
  }

  /** One more message handled extends the posts by its relay. */
  lemma PostsStep(before: seq<Post>, base: string, cpId: string, inbox: seq<Incoming>, i: nat)
    requires i < |inbox|
    ensures before + Posts(base, cpId, inbox, i) + PostsFor(base, cpId, inbox[i]) == before + Posts(base, cpId, inbox, i + 1)
  {
    assert Posts(base, cpId, inbox, i + 1) == Posts(base, cpId, inbox, i) + PostsFor(base, cpId, inbox[i]);
  }

  /** Registering an id and then releasing it leaves the registry without
      that id, whatever it held for the id before. */
  lemma RegisterRelease(m: map<string, ConnId>, id: string, ws: ConnId)
    ensures m[id := ws] - {id} == m - {id}
  {
  }

  /** The connection registry and what the server has written: one handle
      per open websocket (`ConnId`), the frames sent on each, and the relay
      POSTs issued to the backend. */
  type ConnId = nat

  class Server {
    const restBase: string
    var connections: map<string, ConnId>
    var sent: seq<(ConnId, Json)>
    var posts: seq<Post>

    /** `__init__`: an empty registry; the REST base comes from the
        REST_API_BASE environment variable when it is set. */
    constructor (restApiBaseEnv: Option<string>)
      ensures restBase == (if restApiBaseEnv.Some? then restApiBaseEnv.value else DefaultRestBase)
      ensures connections == map[] && sent == [] && posts == []
    {
      restBase := if restApiBaseEnv.Some? then restApiBaseEnv.value else DefaultRestBase;
      connections := map[];
      sent := [];
      posts := [];
    }

    /** Accepting a connection registers it under the id taken from its
        path, replacing whatever that id pointed to. */
    method Accept(ws: ConnId, path: string) returns (id: string)
      modifies this`connections
      ensures id == StationId(path)
      ensures connections == old(connections)[id := ws]
    {
      id := StationId(path);
      connections := connections[id := ws];
    }

    /** The handler's `finally`: the id's entry goes, whichever connection it
        belongs to by now; every other entry stays. */
    method Release(id: string)
      modifies this`connections
      ensures connections == old(connections) - {id}
      ensures forall other :: other != id && other in old(connections) ==>
        other in connections && connections[other] == old(connections)[other]
    {
      connections := connections - {id};
    }

    /** `handle_message`: at most one reply, written on the same websocket,
        then at most one relay POST. */
    method HandleMessage(ws: ConnId, cpId: string, m: Incoming)
      modifies this`sent, this`posts
      ensures sent == old(sent) + Answer(ws, m)
      ensures posts == old(posts) + PostsFor(restBase, cpId, m)
    {
      var reply := Respond(m.raw, m.at);
      if reply.Some? {
        sent := sent + [(ws, reply.value)];
        posts := posts + PostsFor(restBase, cpId, m);
      }
    }

    /** `handle_client` for one connection: register, handle every message
        read before the socket closed, in order, then unregister. */
    method HandleClient(ws: ConnId, path: string, inbox: seq<Incoming>)
      modifies this`connections, this`sent, this`posts
      ensures connections == old(connections) - {StationId(path)}
      ensures sent == old(sent) + Replies(ws, inbox, |inbox|)
      ensures posts == old(posts) + Posts(restBase, StationId(path), inbox, |inbox|)
    {
      var id := Accept(ws, path);
      HandleAll(ws, id, inbox);
      Release(id);
      RegisterRelease(old(connections), id, ws);
    }

    /** The handler's read loop: each message in turn. */
    method HandleAll(ws: ConnId, cpId: string, inbox: seq<Incoming>)
      modifies this`sent, this`posts
      ensures sent == old(sent) + Replies(ws, inbox, |inbox|)
      ensures posts == old(posts) + Posts(restBase, cpId, inbox, |inbox|)
    {
      var i := 0;
      while i < |inbox|
        invariant 0 <= i <= |inbox|
        invariant sent == old(sent) + Replies(ws, inbox, i)
        invariant posts == old(posts) + Posts(restBase, cpId, inbox, i)
      {
        RepliesStep(old(sent), ws, inbox, i);
        PostsStep(old(posts), restBase, cpId, inbox, i);
        HandleMessage(ws, cpId, inbox[i]);
        i := i + 1;
      }
    }
  }

  /** Two connections for the same path: the second replaces the first,
      and when the first one's handler ends it removes the entry that now
      belongs to the second, so the registry is left empty although the
      second connection is still open. */
  method StaleReleaseScenario(path: string) returns (registry: map<string, ConnId>)
    ensures registry == map[]
  {
    var server := new Server(None);
    var first := server.Accept(1, path);
    var second := server.Accept(2, path);
    assert first == second && server.connections[first] == 2;
    server.Release(first);
    registry := server.connections;
  }
}
