/** The two OCPP-J 1.6 frame shapes this system exchanges (section 4 of the
    OCPP-J 1.6 specification): CALL `[2, id, action, payload]` and CALLRESULT
    `[3, id, payload]`. CALLERROR (type 4) is not implemented by either side. */
module OcppFrames {
  import opened JsonValues

  const CallType: int := 2
  const CallResultType: int := 3

  const BootNotification: string := "BootNotification"
  const Heartbeat: string := "Heartbeat"
  const StatusNotification: string := "StatusNotification"

  /** A CALL frame as the station sends it. */
  function Call(id: Json, action: string, payload: Json): Json {
    JArr([JInt(CallType), id, JStr(action), payload])
  }

  /** A CALLRESULT frame as the server answers. */
  function CallResult(id: Json, payload: Json): Json {
    JArr([JInt(CallResultType), id, payload])
  }
}
