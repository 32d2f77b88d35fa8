/** One station of the link: what each atomic step of dcl2.c does between taking and releasing the mutex.
    The two blocking calls are cut where they wait on the condition variable. */
module Station {
  import opened Fcs
  import opened Control

  const PAYLOAD_MAX_LEN := 249
  const MAX_FAILURE_COUNT := 3
  const MAX_FRAME_LEN := PAYLOAD_MAX_LEN * 2 + 10

  datatype LinkState = DISCONNECTED | CONNECTING | CONNECTED | TRANSMITTING

  datatype Response = RESP_OK | RESP_REJECT | RESP_NOLINK

  datatype Result = DC_OK | DC_FAILURE | DC_NOT_CONNECTED | DC_LINK_RESET

  /** The link fields of DeadcomL2. `extraction` is the filled part of the extraction buffer; `signaled` is the
      state of the condition variable: signalled since the current wait began. */
  datatype Station = Station(
    state: LinkState, extraction: seq<byte>, complete: bool, sendNumber: SeqNo, nextExpectedAck: SeqNo,
    recvNumber: SeqNo, failureCount: nat, lastResponse: Response, signaled: bool)

  /** dcInit */
  const INITIAL := Station(DISCONNECTED, [], false, 0, 0, 0, 0, RESP_OK, false)

  predicate Up(st: Station) { st.state == CONNECTED || st.state == TRANSMITTING }

  /** resetLink */
  function ResetLink(st: Station): Station {
    Station(DISCONNECTED, [], false, 0, 0, 0, 0, st.lastResponse, st.signaled)
  }

  function Succ(n: SeqNo): SeqNo { (n + 1) % 8 }

  function Pred(n: SeqNo): SeqNo { (n + 7) % 8 }

  function Ack(recvNumber: SeqNo): Packet { Packet(Control(ACK, 0, Pred(recvNumber)), []) }

  function Data(st: Station, message: seq<byte>): Packet {
    Packet(Control(DATA, st.sendNumber, st.recvNumber), message)
  }

  const CONN_PACKET := Packet(Control(CONN, 0, 0), [])
  const CONN_ACK_PACKET := Packet(Control(CONN_ACK, 0, 0), [])

  // ---- The receive thread ----

  function HandleData(st: Station, seqNo: SeqNo, payload: seq<byte>): (Station, seq<Packet>) {
    if !Up(st) then (st, [])
    else if seqNo == st.recvNumber then
      if st.extraction == [] && payload != [] then
        (st.(extraction := payload, complete := true, recvNumber := Succ(st.recvNumber)), [])
      else (st, [])
    else if !st.complete && Succ(seqNo) == st.recvNumber then (st, [Ack(st.recvNumber)])
    else (st, [])
  }

  function HandleConn(st: Station): (Station, seq<Packet>) {
    var cleared := ResetLink(st);
    var st' :=
      if st.state == TRANSMITTING then cleared.(state := CONNECTED, lastResponse := RESP_NOLINK, signaled := true)
      else if st.state == CONNECTING then cleared.(state := CONNECTING, lastResponse := RESP_OK, signaled := true)
      else cleared.(state := CONNECTED);
    (st', [CONN_ACK_PACKET])
  }

  /** The switch of dcProcessData: new state, and the frames transmitted in response. */
  function HandleFrame(st: Station, f: Packet): (Station, seq<Packet>) {
    match f.control.frame
    case DATA => HandleData(st, f.control.sendSeq, f.payload)
    case ACK =>
      if st.state == TRANSMITTING && f.control.recvSeq == st.nextExpectedAck then
        (st.(nextExpectedAck := Succ(st.nextExpectedAck), lastResponse := RESP_OK, signaled := true), [])
      else (st, [])
    case NACK =>
      if st.state == TRANSMITTING then (st.(lastResponse := RESP_REJECT, signaled := true), []) else (st, [])
    case CONN => HandleConn(st)
    case CONN_ACK =>
      if st.state == CONNECTING then (st.(lastResponse := RESP_OK, signaled := true), []) else (st, [])
  }

  // ---- The application's calls ----

  datatype Begun = Refused(result: Result) | Waiting(frame: Packet)

  /** dcSendMessage up to its first wait. */
  function BeginSend(st: Station, message: seq<byte>): (Station, Begun) {
    if message == [] || |message| > PAYLOAD_MAX_LEN then (st, Refused(DC_FAILURE))
    else if st.state == TRANSMITTING then (st, Refused(DC_FAILURE))
    else if st.state != CONNECTED then (st, Refused(DC_NOT_CONNECTED))
    else
      (st.(sendNumber := Succ(st.sendNumber), failureCount := 0, state := TRANSMITTING, signaled := false),
       Waiting(Data(st, message)))
  }

  datatype Woken = Returned(result: Result) | Retransmit

  /** dcSendMessage from the end of one wait to its return or its next wait. */
  function WakeSend(st: Station, timedOut: bool): (Station, Woken) {
    if !timedOut && st.lastResponse == RESP_OK then (st.(state := CONNECTED), Returned(DC_OK))
    else if !timedOut && st.lastResponse == RESP_NOLINK then (ResetLink(st), Returned(DC_LINK_RESET))
    else if st.failureCount + 1 < MAX_FAILURE_COUNT then
      (st.(failureCount := st.failureCount + 1, signaled := false), Retransmit)
    else (ResetLink(st), Returned(DC_LINK_RESET))
  }

  /** dcConnect up to its wait. */
  function BeginConnect(st: Station): (Station, Begun) {
    if st.state == CONNECTED then (st, Refused(DC_OK))
    else if st.state == CONNECTING then (st, Refused(DC_FAILURE))
    else (st.(state := CONNECTING, signaled := false), Waiting(CONN_PACKET))
  }

  /** dcConnect from the end of its wait to its return. */
  function WakeConnect(st: Station, timedOut: bool): (Station, Result) {
    if timedOut then (st.(state := DISCONNECTED), DC_NOT_CONNECTED)
    else (ResetLink(st).(state := CONNECTED), DC_OK)
  }

  /** dcDisconnect */
  function Disconnect(st: Station): (Station, Result) {
    if st.state == CONNECTING then (st, DC_FAILURE) else (st.(state := DISCONNECTED), DC_OK)
  }

  datatype Fetched = Fetched(result: Result, message: seq<byte>)

  /** dcGetReceivedMsg without a buffer. */
  function Peek(st: Station): (Result, nat) {
    if !Up(st) then (DC_NOT_CONNECTED, 0)
    else if !st.complete then (DC_OK, 0)
    else (DC_OK, |st.extraction|)
  }

  /** dcGetReceivedMsg with a buffer: hands over the message and acknowledges it. */
  function PickUp(st: Station): (Station, Fetched, seq<Packet>) {
    if !Up(st) then (st, Fetched(DC_NOT_CONNECTED, []), [])
    else if !st.complete then (st, Fetched(DC_OK, []), [])
    else (st.(extraction := [], complete := false), Fetched(DC_OK, st.extraction), [Ack(st.recvNumber)])
  }
}
