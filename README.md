# OCPP charge-point simulator, modelled in Dafny

The system has three parts. Simulated charge points (stations) talk OCPP-J 1.6 over a websocket to a central server. The server answers every CALL and relays what each station reported, as a JSON body, to a REST backend. The backend keeps a SQLite database: a station table plus three append-only event tables. It also runs a background sweep that heartbeats idle stations.

This project models that core and proves properties about it:

- `json.dfy` (`JsonValues`) holds decoded JSON values. It gives Python's truthiness and `dict.get` explicitly, and defines `Option` and `Result`.
- `text.dfy` (`Text`) holds `strip`, `lstrip` and `rstrip` with a character set, ASCII `lower`, and the decimal text of an integer.
- `frames.dfy` (`OcppFrames`) holds the CALL `[2, id, action, payload]` and CALLRESULT `[3, id, payload]` frames, as defined in section 4 of the OCPP-J 1.6 specification.
- `server.dfy` (`OcppServer`) covers:
  - frame parsing and the answer to each CALL;
  - the relay bodies and their endpoints;
  - the URL join;
  - the station id taken from the connection path;
  - the `Server` class, with its connection registry and the frames and POSTs it has issued.
- `client.dfy` (`OcppClient`) covers:
  - the `Client` class, holding the status, heartbeat interval, connected flag, heartbeat flag and the frames it sent;
  - command normalisation;
  - adopting the heartbeat interval from a CALLRESULT;
  - the heartbeat-loop decision.
- `eventlog.dfy` (`EventLog`) holds the event log entries and the newest-first stable sort that `GET /api/logs` applies.
- `backend.dfy` (`Backend`) covers:
  - the tables as sequences in rowid order;
  - SQLite's TEXT binding of decoded values;
  - `UPDATE … WHERE cp_id = ?` and `INSERT OR REPLACE`;
  - the four POST endpoints and the log query, as methods of the `Backend` class;
  - one pass of the liveness sweep, as a loop over a snapshot.
- `scenario.dfy` (`Scenario`) connects the components:
  - the station adopts the interval from the server's BootNotification answer;
  - the backend reads the server's relay bodies as they are sent.

Some conventions apply throughout:

- Times are integer seconds. Wherever a component stamps the current time, the time is a parameter `now`. The server's `currentTime` fields and the station's `timestamp` field carry `JInt(now)`.
- Message ids are a per-station counter, so the n-th frame a station sends, counting from 0, has id `JInt(n)`.
- The `charge_points` table is a sequence, not a map, because its `cp_id` can be NULL. SQLite accepts NULL in a TEXT PRIMARY KEY column. A boot without `cpId` therefore stores a row that no `WHERE cp_id = ?` ever matches. `Backend.KeylessRowHeartbeatsForever` shows that the sweep then heartbeats such a row on every pass. Idempotence of the sweep is proved for keyed rows only.
- The backend's `send_command` writes `SuspendedEVC` where the station uses `SuspendedEV`. Each component is modelled with its own constant.

Two behaviours of the code worth knowing:

- `handle_client` removes the registry entry for its station id unconditionally when the connection ends, even when a newer connection for the same id has replaced it. `OcppServer.StaleReleaseScenario` shows this.
- The station also accepts the misspelt key `statyus` when deciding whether to adopt an interval.

## Model

| member | source | states |
|---|---|---|
| Text.TrimStart | server/ocpp_server.py:30 | `lstrip`: the result is a suffix that does not start with a set character, and everything dropped is in the set |
| Text.TrimEnd | server/ocpp_server.py:30 | `rstrip`: the result is a prefix that does not end with a set character, and everything dropped is in the set |
| Text.Trim | server/ocpp_server.py:117 | `strip`: neither end of the result is in the set |
| Text.TrimStartUnique | server/ocpp_server.py:30 | any run of set characters put before a text that does not start with one is removed exactly |
| Text.TrimEndUnique | server/ocpp_server.py:30 | the mirror image for trailing runs |
| Text.TrimUnique | server/ocpp_server.py:117 | stripping a text wrapped in runs of set characters gives back exactly that text |
| Text.Lower | client/ocpp_client.py:193 | lower-casing keeps the length and maps each character on its own |
| OcppServer.ParseFrame | server/ocpp_server.py:140-145 | a frame parses exactly when it is a list of at least three elements; with three elements the payload is `{}` |
| OcppServer.ParseCall | server/ocpp_server.py:142-145 | parsing gives back the type, id, action and payload of a station's CALL, with or without a payload |
| OcppServer.ProcessCall | server/ocpp_server.py:161-176 | BootNotification gets Accepted, the time and interval 60; Heartbeat gets the time; every other action gets `{}` |
| OcppServer.Respond | server/ocpp_server.py:138-159 | a reply exists exactly for a CALL list of at least three elements, and it is the CALLRESULT with the CALL's id and the dispatch answer |
| OcppServer.RelayFor | server/ocpp_server.py:47-89 | only the three known actions with a dict payload are relayed; the body starts with `cpId`, then the action's fixed keys in order, each with the payload's value |
| OcppServer.RelayBodySizes | server/ocpp_server.py:52-85 | bodies have 10, 2 and 8 entries, and a missing status field is relayed as null |
| OcppServer.UrlJoin | server/ocpp_server.py:30 | the URL keeps the base up to its trailing slashes, then exactly one `/`, then exactly the endpoint without its leading slashes |
| OcppServer.RelayShape | server/ocpp_server.py:51-89 | exactly BootNotification, Heartbeat and StatusNotification are relayed, to `/bootnotification`, `/heartbeat` and `/statusnotification` with their own key lists; no relayed key is `cpId` |
| OcppServer.UrlJoinNormalizes | server/ocpp_server.py:30 | however many slashes end the base or start the endpoint, the URL has exactly one between them |
| OcppServer.StationId | server/ocpp_server.py:117 | the station id neither starts nor ends with `/` |
| OcppServer.StationIdOfPath | server/ocpp_server.py:117 | any slashes around an id are stripped, giving back exactly that id |
| OcppServer.PostsFor | server/ocpp_server.py:149-156 | at most one relay POST per message, only for an answered CALL: the POST of the CALL's action and payload (or `{}`) to the joined URL, with the relay body |
| OcppServer.Answer | server/ocpp_server.py:149-153 | exactly for a CALL, one reply: the CALL's CALLRESULT, on the socket it came from; none otherwise |
| OcppServer.RepliesMatchCalls | server/ocpp_server.py:123-153 | every reply goes back on the station's own socket and answers one of its CALLs with that CALL's id |
| OcppServer.OneReplyPerCall | server/ocpp_server.py:123-153 | a connection gets exactly as many replies as it sent CALL frames |
| OcppServer.RegisterRelease | server/ocpp_server.py:120-136 | registering an id and then popping it leaves the registry without the id |
| OcppServer.Server.constructor | server/ocpp_server.py:21-27 | the registry starts empty; the REST base is `REST_API_BASE` or `http://localhost:3000` |
| OcppServer.Server.Accept | server/ocpp_server.py:116-120 | the path is stripped to the station id, which now maps to this connection |
| OcppServer.Server.Release | server/ocpp_server.py:135-136 | the id is removed, whatever connection it maps to; other entries stay |
| OcppServer.Server.HandleMessage | server/ocpp_server.py:138-159 | the message's reply is appended to the sent frames and its relay to the POSTs |
| OcppServer.Server.HandleAll | server/ocpp_server.py:123-125 | the messages are handled in order: sent frames and POSTs grow by exactly the replies and relays of the whole inbox |
| OcppServer.Server.HandleClient | server/ocpp_server.py:116-136 | a connection's whole life: replies and relays for its messages, then its id is gone from the registry |
| OcppServer.StaleReleaseScenario | server/ocpp_server.py:120-136 | when a second connection with the same path replaced the first, the first one's exit leaves the registry empty while the second is still open |
| OcppClient.Normalize | client/ocpp_client.py:193 | the normalised command is no longer than the command and neither starts nor ends with whitespace |
| OcppClient.CommandStatus | client/ocpp_client.py:192-201 | exactly `start`, `suspend` and `finish`, once normalised, map to Charging, SuspendedEV and Available |
| OcppClient.CommandIgnoresCaseAndSpace | client/ocpp_client.py:193 | surrounding whitespace and the letter case of a command do not change the status it maps to |
| OcppClient.NormalizeWrapped | client/ocpp_client.py:193 | normalising a word wrapped in whitespace gives the lower-cased word |
| OcppClient.ResultPayload | client/ocpp_client.py:98-101 | a payload is read only from a CALLRESULT; with more than two elements it is the third, when that is a dict; a shorter frame has payload `{}` |
| OcppClient.OfferedInterval | client/ocpp_client.py:96-108 | an interval is offered exactly by a CALLRESULT whose dict payload says `status` (or `statyus`) Accepted with a truthy interval, and then it is that interval |
| OcppClient.OfferedIntervalExamples | client/ocpp_client.py:100-106 | `{status: Accepted, interval: 45}` sets 45; a CALL never changes the interval |
| OcppClient.Client.constructor | client/ocpp_client.py:21-36 | a new station is disconnected and Available, with interval 60, and has sent nothing |
| OcppClient.Client.SendMessage | client/ocpp_client.py:110-121 | without a connection nothing is sent and None is returned; otherwise one CALL with a fresh id is appended |
| OcppClient.Client.OnConnected | client/ocpp_client.py:56-72 | after the handshake the station is connected and sends a BootNotification, then its current status; the last-message time becomes now |
| OcppClient.Client.OnDisconnected | client/ocpp_client.py:80-82 | a failed or closed connection clears the connected flag |
| OcppClient.Client.SendBootNotification | client/ocpp_client.py:124-140 | when connected, one BootNotification with the fixed payload and the last-message time set to now; otherwise nothing |
| OcppClient.Client.SendHeartbeat | client/ocpp_client.py:143-146 | when connected, one Heartbeat with payload `{}` and the last-message time set to now; otherwise nothing |
| OcppClient.Client.SendStatusNotification | client/ocpp_client.py:149-162 | disconnected: nothing changes; connected: status, heartbeat flag and last-message time are set, and one StatusNotification for connector 0 is sent |
| OcppClient.Client.HandleMessage | client/ocpp_client.py:96-108 | only the interval can change, and only to the offered one; a malformed message changes nothing |
| OcppClient.Client.HandleCommand | client/ocpp_client.py:192-201 | on a connected station a recognised command sets the status, the heartbeat flag and the last-message time and sends one status notification; any other command changes nothing |
| OcppClient.CommandsGateHeartbeats | client/ocpp_client.py:168 | among the statuses commands set, only `finish` makes heartbeats due again, and never while disconnected |
| OcppClient.Client.HeartbeatSleep | client/ocpp_client.py:164-167 | disconnected: the loop ends; connected: it waits the integer interval, or 0 s when it is negative, as `asyncio.sleep` returns at once for a delay of zero or less (a boolean counts as 1 or 0); a string, list, dict or null interval ends it |
| OcppClient.AdoptedIntervalPacesHeartbeats | client/ocpp_client.py:103-167 | on a connected station, after an offer of interval n is handled, the heartbeat loop sleeps exactly n seconds, or not at all when n is negative, so an Available station then heartbeats back to back |
| OcppClient.Client.HeartbeatWake | client/ocpp_client.py:168-169 | a Heartbeat goes out exactly when connected and Available, and only then does the last-message time change |
| EventLog.InsertNewest | backend/app.py:290 | insertion grows the log by one entry and puts either the new entry or the old head first |
| EventLog.InsertPermutes | backend/app.py:290 | insertion adds exactly the new entry |
| EventLog.InsertKeepsNewestFirst | backend/app.py:290 | insertion keeps a log ordered newest first |
| EventLog.SortNewest | backend/app.py:290 | sorting keeps the length |
| EventLog.SortPermutes | backend/app.py:290 | sorting is a permutation |
| EventLog.SortIsNewestFirst | backend/app.py:290 | the sorted log is ordered newest first |
| EventLog.NewestFirstPairwise | backend/app.py:290 | newest-first order holds between any two entries, not only neighbours |
| EventLog.InsertKeepsOrderAt | backend/app.py:290 | insertion puts the new entry before the entries of equal time |
| EventLog.SortIsStable | backend/app.py:290 | entries with the same timestamp keep their collection order |
| Backend.TextCell | backend/database.py:16-44 | a list or dict cannot be bound; null becomes NULL; a string is stored as is |
| Backend.Apply | backend/app.py:180-181 | each SET clause, column by column: the heartbeat UPDATE sets last heartbeat and last seen, the status UPDATE status and last seen, the command UPDATE status, busy and last seen, the sweep UPDATE only last heartbeat; every other column, key, vendor and model included, is kept |
| Backend.UpdateWhere | backend/app.py:270-273 | exactly the rows whose key equals a non-null key are updated; keys stay unique |
| Backend.UpdateUnknownKey | backend/app.py:201-204 | an UPDATE for an unknown id changes nothing |
| Backend.UpdateChangesOneRow | backend/app.py:201-204 | with unique keys, an UPDATE by key changes only the one row holding it |
| Backend.Without | backend/app.py:251-254 | `INSERT OR REPLACE` deletes exactly the rows holding the new row's key: every kept row comes from the table and lacks the key, and every row that lacks it is kept |
| Backend.WithoutAppend | backend/app.py:251-254 | deleting by key filters the two halves of a table separately and keeps them in order |
| Backend.WithoutInPlace | backend/app.py:251-254 | each row is dropped exactly when it holds the key, and otherwise kept in its place among the kept rows |
| Backend.Replace | backend/app.py:251-254 | the new row comes last, no other row holds its key, and every row of another station is kept |
| Backend.WithoutKeepsUnique | backend/app.py:251-254 | deleting by key keeps keys unique |
| Backend.ReplaceKeepsUnique | backend/app.py:251-254 | `INSERT OR REPLACE` keeps keys unique |
| Backend.CommandEffect | backend/app.py:174-177 | busy is 1 exactly when the new status is Charging, and that happens exactly for `start`; `suspend` exactly gives SuspendedEVC, and everything else gives Available |
| Backend.Swept | backend/app.py:300-306 | a row changes exactly when it is due and has a key, and then only its last heartbeat, which becomes now |
| Backend.StaysDue | backend/app.py:302 | an idle station with no heartbeat, or one at least 60 s old, is due, and stays due as time passes until a sweep heartbeats it |
| Backend.SweepRows | backend/app.py:299-306 | every row becomes its swept form |
| Backend.SweepRecords | backend/app.py:303-304 | the sweep writes at most one record per row, each stamped now |
| Backend.SweepRecordsCount | backend/app.py:302-304 | the sweep writes exactly as many records as there are due rows |
| Backend.SweepRecordsComplete | backend/app.py:302-304 | every due row gets a `(cp_id, now)` record |
| Backend.SweepRecordsSound | backend/app.py:302-304 | every record carries the `cp_id` of a due row |
| Backend.SweepSkipsBusy | backend/app.py:302 | in any table with unique keys, a busy station is never touched and no record carries its key, however stale |
| Backend.NothingDueNoRecords | backend/app.py:302-304 | no due row, no record |
| Backend.SweptRowsAreRecent | backend/app.py:302-306 | after a sweep, every idle keyed row has a heartbeat less than 60 s old and is not due |
| Backend.SweepIdempotent | backend/app.py:302-306 | when every row has a key, a second sweep at the same time changes nothing and writes nothing |
| Backend.KeylessRowHeartbeatsForever | backend/app.py:302-306 | an idle row without a key stays due and is heartbeated again on every sweep |
| Backend.Collected | backend/app.py:283-288 | the log holds one entry per boot, heartbeat and status record, in that order |
| Backend.Backend.constructor | backend/database.py:13-46 | every table starts empty |
| Backend.Backend.SendCommand | backend/app.py:172-189 | a non-dict body or an unhashable command fails with nothing stored; otherwise the row's status, busy and last seen are set, and one status record is logged even for an unknown id |
| Backend.Backend.Heartbeat | backend/app.py:191-208 | a falsy `cpId` gives 400 and nothing changes; otherwise only that station's last heartbeat and last seen become now, and no record is written |
| Backend.Backend.BootNotification | backend/app.py:239-257 | one boot record; the row is replaced by an Available, idle row without a heartbeat; vendor and model default to Unknown only when absent |
| Backend.Backend.StatusNotification | backend/app.py:259-276 | one status record; only status and last seen change, and busy is kept; a non-dict body fails |
| Backend.Backend.GetLogs | backend/app.py:279-291 | one entry per record, newest first, with entries of equal time in collection order |
| Backend.Backend.Sweep | backend/app.py:294-309 | each due row of the snapshot gets one `(cp_id, now)` record and a heartbeat now; nothing else changes |
| Scenario.BootAnswerSetsInterval | server/ocpp_server.py:162-167 | the server's answer to a station's BootNotification makes the station adopt interval 60 |
| Scenario.OtherAnswersKeepInterval | server/ocpp_server.py:168-176 | the answers to Heartbeat and StatusNotification leave the station's interval as it is |
| Scenario.BootRelayedToBootEndpoint | server/ocpp_server.py:51-64 | a station's BootNotification leads to exactly one POST, to the REST base joined with `/bootnotification`, with the station id first in the body |
| Scenario.RelayBodyLookup | server/ocpp_server.py:47-89 | in a relay-shaped body, every key but `cpId` decodes to the payload's value |
| Scenario.RelayedFieldReachesBackend | server/ocpp_server.py:47-89 | every relayed field reaches the backend with the station's value, or null when it was missing |
| Scenario.RelayedBodiesSkipDefaults | backend/app.py:241-263 | the backend's Unknown defaults never apply to relayed boots and status changes |
| Scenario.RelayedHeartbeat | backend/app.py:191-208 | a heartbeat relayed for a station with a non-empty id refreshes exactly that station's row and writes no event record |

## Left out

- Network and transport: websocket and TLS setup, `Server.start`, the station's `start` retry loop, `message_listener`, `command_poll_loop`, and the aiohttp POST itself. The server records each POST it issues, not the outcome of the POST.
- Concurrency: asyncio tasks, the sweep's daemon thread and sleeps, and interleavings between them. One sweep pass, or one heartbeat-loop iteration split at its sleep, is one method call.
- Clocks, formatting and randomness: `datetime`, ISO strings, `strftime` and `uuid4`. Times are integer seconds and ids are counters. The log sort compares `isoformat()` strings, which omit the fraction when the microsecond is 0. Such a string is a prefix of the strings of the same second that carry a fraction, so it sorts before them, and records of different seconds sort by their seconds.
- EventLog.SortNewest and Backend.Backend.GetLogs: records of the same whole second are ties kept in collection order, because times are whole seconds; the source stamps microseconds and orders such records by them.
- Floating-point JSON numbers and integers too large for SQLite's 64-bit binding. JSON numbers are integers here.
- A request body that is not JSON at all. Flask raises when a handler first reads `request.json`, which is each handler's first statement, so the request fails with nothing stored.
- Lower-casing of non-ASCII letters: `Text.Lower` maps only A–Z. The only non-ASCII capitals that Python lower-cases to ASCII letters are U+212A (to `k`) and U+0130 (to `i` plus a combining dot). Neither can produce `start`, `suspend` or `finish`, so the set of recognised commands is the same.
- OcppClient.Client.SendMessage: does not model a websocket send that raises. In that case the source returns None and does not update `last_message_time`.
- Flask routing, templates and CORS; the database file removal at import; `get_charge_points` with its random demo seeding and the dead code after it; `get_evc_details`; `_send_call`, which calls a method that does not exist; the `main` functions and logging.
- backend/database.py is not part of this model beyond its schema: the tables, their column affinities and the `cp_id` primary key.
- A raw server frame that is a JSON string is treated as malformed. In the source, indexing such a string yields characters, which never equal the CALL type 2. Either way no reply is sent.
