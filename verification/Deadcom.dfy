/** The link object of dcl2.c: fields updated in place, bytes in and bytes out, proved against the station steps. */
module Deadcom {
  import opened Fcs
  import opened Control
  import opened Framing
  import opened Parser
  import opened Deframing
  import opened Streams
  import opened Station

  // ---- Events of the deframer, seen by a station ----

  /** What the link layer makes of an accepted frame: the stored bytes without the FCS. */
  function Received(c: Control, data: seq<byte>): Packet {
    Packet(c, if |data| >= 2 then data[..|data| - 2] else [])
  }

  function HandleEvent(st: Station, ev: Event): (Station, seq<Packet>) {
    match ev
    case Rejected => (st, [])
    case Accepted(c, data) => HandleFrame(st, Received(c, data))
  }

  /** A station as a value: its link fields, its parser, and every frame it has transmitted. */
  datatype Box = Box(st: Station, parser: Parser, sent: seq<Packet>)

  function Handle(box: Box, es: seq<Event>): Box {
    if es == [] then box
    else
      var b := Handle(box, es[..|es| - 1]);
      var (st, out) := HandleEvent(b.st, es[|es| - 1]);
      b.(st := st, sent := b.sent + out)
  }

  /** A buffer of received bytes. */
  function Feed(box: Box, data: seq<byte>): Box {
    Handle(box, Events(box.parser, data)).(parser := After(box.parser, data))
  }

  /** DATA frames carry between 0 and 249 bytes, as the protocol limits the information field. */
  predicate WithinLimits(ev: Event) {
    ev.Accepted? && ev.control.frame.DATA? ==> 2 <= |ev.data| <= PAYLOAD_MAX_LEN + 2
  }

  predicate Limited(p: Parser, data: seq<byte>) {
    forall i :: 0 <= i < |Events(p, data)| ==> WithinLimits(Events(p, data)[i])
  }

  lemma {:induction false} HandleAppend(box: Box, es: seq<Event>, es': seq<Event>)
    ensures Handle(box, es + es') == Handle(Handle(box, es), es')
  {
    if es' == [] {
      assert es + es' == es;
    } else {
      assert (es + es')[..|es + es'| - 1] == es + es'[..|es'| - 1];
      HandleAppend(box, es, es'[..|es'| - 1]);
    }
  }

  lemma {:induction false} HandleKeepsParser(box: Box, es: seq<Event>)
    ensures Handle(box, es).parser == box.parser
    ensures forall p :: Handle(box.(parser := p), es) == Handle(box, es).(parser := p)
  {
    if es != [] {
      HandleKeepsParser(box, es[..|es| - 1]);
    }
  }

  lemma HandleOne(box: Box, ev: Event)
    ensures Handle(box, [ev]) == var (st, out) := HandleEvent(box.st, ev); box.(st := st, sent := box.sent + out)
  {
    assert [ev][..0] == [];
  }

  /** Feeding two buffers is feeding one. */
  lemma FeedAppend(box: Box, s: seq<byte>, t: seq<byte>)
    ensures Feed(box, s + t) == Feed(Feed(box, s), t)
  {
    var p, q := box.parser, After(box.parser, s);
    ParseAppend(p, s, t);
    HandleAppend(box, Events(p, s), Events(q, t));
    HandleKeepsParser(Handle(box, Events(p, s)), Events(q, t));
    HandleKeepsParser(box, Events(p, s));
  }

  /** The first report of a buffer can be handled before the rest of the buffer is read. */
  lemma FeedReport(box: Box, src: seq<byte>, i: nat, ev: Event)
    requires Reports(box.parser, src, i, ev) && Limited(box.parser, src)
    ensures Feed(box, src) == Feed(Handle(box, [ev]).(parser := Reset(box.parser.maxLen)), src[i..])
    ensures WithinLimits(ev) && Limited(Reset(box.parser.maxLen), src[i..])
  {
    hide Handle, Events, After, WithinLimits;
    var p, r, rest := box.parser, Reset(box.parser.maxLen), src[i..];
    var es := Events(r, rest);
    assert Events(p, src)[0] == ev;
    forall k | 0 <= k < |es|
      ensures WithinLimits(es[k])
    {
      assert Events(p, src)[k + 1] == es[k];
    }
    HandleAppend(box, [ev], es);
    HandleKeepsParser(Handle(box, [ev]), es);
    HandleKeepsParser(box, [ev]);
  }

  lemma HandleRejected(box: Box)
    ensures Handle(box, [Rejected]) == box
  {
    HandleOne(box, Rejected);
  }

  lemma FeedQuiet(box: Box, src: seq<byte>)
    requires Events(box.parser, src) == []
    ensures Feed(box, src) == box.(parser := After(box.parser, src))
  {
  }

  // ---- Activity of the other threads while a call waits ----

  datatype Activity = Arrives(data: seq<byte>) | Fetches

  /** One wait on the condition variable: what happens meanwhile, and whether the clock runs out anyway. */
  datatype Wait = Wait(during: seq<Activity>, clock: bool)

  function Act(box: Box, a: Activity): Box {
    match a
    case Arrives(data) => if data == [] then box else Feed(box, data)
    case Fetches => var (st, _, out) := PickUp(box.st); box.(st := st, sent := box.sent + out)
  }

  function ActAll(box: Box, during: seq<Activity>): Box
    decreases |during|
  {
    if during == [] then box else ActAll(Act(box, during[0]), during[1..])
  }

  predicate LimitedActs(p: Parser, during: seq<Activity>)
    decreases |during|
  {
    during == [] || (LimitedAct(p, during[0]) && LimitedActs(ParserAfter(p, during[0]), during[1..]))
  }

  predicate LimitedAct(p: Parser, a: Activity) { a.Arrives? ==> Limited(p, a.data) }

  function ParserAfter(p: Parser, a: Activity): Parser {
    match a
    case Arrives(data) => After(p, data)
    case Fetches => p
  }

  function ParserAfterAll(p: Parser, during: seq<Activity>): Parser
    decreases |during|
  {
    if during == [] then p else ParserAfterAll(ParserAfter(p, during[0]), during[1..])
  }

  lemma ActParser(box: Box, a: Activity)
    ensures Act(box, a).parser == ParserAfter(box.parser, a)
  {
    if a.Arrives? {
      HandleKeepsParser(box, Events(box.parser, a.data));
    }
  }

  lemma {:induction false} ActAllParser(box: Box, during: seq<Activity>)
    ensures ActAll(box, during).parser == ParserAfterAll(box.parser, during)
    decreases |during|
  {
    if during != [] {
      ActParser(box, during[0]);
      ActAllParser(Act(box, during[0]), during[1..]);
    }
  }

  predicate LimitedWaits(p: Parser, waits: seq<Wait>)
    decreases |waits|
  {
    waits == [] || (LimitedActs(p, waits[0].during) && LimitedWaits(ParserAfterAll(p, waits[0].during), waits[1..]))
  }

  /** The outcome of a blocking call; it is still waiting when the given waits are used up. */
  datatype Outcome = Done(result: Result) | StillWaiting

  function Transmitted(box: Box, f: Packet): Box { box.(sent := box.sent + [f]) }

  /** A wait begins with the condition variable not signalled. */
  function Quiet(box: Box): Box { box.(st := box.st.(signaled := false)) }

  /** What a sender concludes from the end of a wait. */
  datatype Reply = Acknowledged | NoLink | NoAnswer

  function ReplyOf(st: Station, timedOut: bool): Reply {
    if !timedOut && st.lastResponse == RESP_OK then Acknowledged
    else if !timedOut && st.lastResponse == RESP_NOLINK then NoLink
    else NoAnswer
  }

  /** dcSendMessage from the moment it transmits `frame` and waits. */
  function SendLoop(box: Box, frame: Packet, waits: seq<Wait>): (Box, Outcome)
    decreases |waits|
  {
    var b := Transmitted(box, frame);
    if waits == [] then (b, StillWaiting)
    else
      var b' := ActAll(b, waits[0].during);
      var (st, woken) := WakeSend(b'.st, waits[0].clock || !b'.st.signaled);
      match woken
      case Returned(r) => (b'.(st := st), Done(r))
      case Retransmit => SendLoop(b'.(st := st), frame, waits[1..])
  }

  /** One round of the loop, in the terms of the source: the response is classified, and only an unanswered round counts
      as a failure. */
  lemma RoundOf(box: Box, frame: Packet, waits: seq<Wait>)
    requires waits != []
    ensures var b := ActAll(Transmitted(box, frame), waits[0].during);
            var next := b.(st := b.st.(failureCount := b.st.failureCount + 1));
            SendLoop(box, frame, waits) ==
            match ReplyOf(b.st, waits[0].clock || !b.st.signaled)
            case Acknowledged => (b.(st := b.st.(state := CONNECTED)), Done(DC_OK))
            case NoLink => (b.(st := ResetLink(b.st)), Done(DC_LINK_RESET))
            case NoAnswer =>
              if next.st.failureCount < MAX_FAILURE_COUNT then SendLoop(Quiet(next), frame, waits[1..])
              else (next.(st := ResetLink(next.st)), Done(DC_LINK_RESET))
  {
    hide ActAll;
  }

  lemma NoMoreWaits(box: Box, frame: Packet)
    ensures SendLoop(box, frame, []) == (Transmitted(box, frame), StillWaiting)
  {
  }

  lemma LimitedRound(p: Parser, waits: seq<Wait>)
    requires waits != [] && LimitedWaits(p, waits)
    ensures LimitedActs(p, waits[0].during) && LimitedWaits(ParserAfterAll(p, waits[0].during), waits[1..])
  {
  }

  function Send(box: Box, message: seq<byte>, waits: seq<Wait>): (Box, Outcome) {
    var (st, begun) := BeginSend(box.st, message);
    match begun
    case Refused(r) => (box.(st := st), Done(r))
    case Waiting(frame) => SendLoop(box.(st := st), frame, waits)
  }

  /** dcConnect */
  function Connect(box: Box, waits: seq<Wait>): (Box, Outcome) {
    var (st, begun) := BeginConnect(box.st);
    match begun
    case Refused(r) => (box.(st := st), Done(r))
    case Waiting(frame) =>
      var b := Transmitted(box.(st := st), frame);
      if waits == [] then (b, StillWaiting)
      else
        var b' := ActAll(b, waits[0].during);
        var (st', r) := WakeConnect(b'.st, waits[0].clock || !b'.st.signaled);
        (b'.(st := st'), Done(r))
  }

  // ---- The object ----

  class DeadcomL2 {
    var state: LinkState
    const extractionBuffer: array<byte>
    const scratchpadBuffer: array<byte>
    var extractionBufferSize: nat
    var extractionComplete: bool
    const yahdlc: Deframer
    var sendNumber: SeqNo
    var nextExpectedAck: SeqNo
    var recvNumber: SeqNo
    var failureCount: nat
    var lastResponse: Response
    /** The condition variable: signalled since the current wait began. */
    var signaled: bool
    /** Everything handed to the transmit callback. */
    var wire: seq<byte>
    /** The frames those bytes encode. */
    ghost var sent: seq<Packet>

    ghost predicate Valid()
      reads this, yahdlc
    {
      && extractionBuffer != scratchpadBuffer
      && extractionBuffer.Length == PAYLOAD_MAX_LEN && extractionBufferSize <= PAYLOAD_MAX_LEN
      && yahdlc.Valid(scratchpadBuffer) && yahdlc.maxFrameLen == MAX_FRAME_LEN
      && wire == EncodeAll(sent)
    }

    ghost function View(): Station
      requires extractionBufferSize <= extractionBuffer.Length
      reads this, extractionBuffer
    {
      Station(state, extractionBuffer[..extractionBufferSize], extractionComplete, sendNumber, nextExpectedAck,
              recvNumber, failureCount, lastResponse, signaled)
    }

    ghost function AsBox(): Box
      requires Valid()
      reads this, extractionBuffer, scratchpadBuffer, yahdlc
    {
      Box(View(), yahdlc.State(scratchpadBuffer), sent)
    }

    /** dcInit. The scratchpad is as long as yahdlc_get_data demands of its destination. */
    constructor ()
      ensures Valid() && fresh(yahdlc) && fresh(extractionBuffer) && fresh(scratchpadBuffer)
      ensures AsBox() == Box(INITIAL, Reset(MAX_FRAME_LEN), [])
    {
      state := DISCONNECTED;
      extractionBuffer := new byte[PAYLOAD_MAX_LEN];
      scratchpadBuffer := new byte[MAX_FRAME_LEN];
      extractionBufferSize, extractionComplete := 0, false;
      sendNumber, nextExpectedAck, recvNumber, failureCount := 0, 0, 0, 0;
      lastResponse, signaled := RESP_OK, false;
      wire, sent := [], [];
      yahdlc := new Deframer(MAX_FRAME_LEN);
    }

    /** resetLink */
    method DropLink()
      requires Valid()
      modifies this
      ensures Valid() && AsBox() == old(AsBox()).(st := ResetLink(old(View())))
    {
      hide EncodeAll;
      sendNumber := 0;
      nextExpectedAck := 0;
      recvNumber := 0;
      failureCount := 0;
      extractionBufferSize := 0;
      assert extractionBuffer[..0] == [];
      extractionComplete := false;
      state := DISCONNECTED;
    }

    /** Build a frame in a buffer of exactly the length the dry run reports, and transmit it. */
    method Transmit(frame: Packet)
      requires Valid()
      modifies this`wire, this`sent
      ensures Valid() && sent == old(sent) + [frame]
    {
      var length := FrameData(frame.control, frame.payload, null);
      var buffer := new byte[length];
      length := FrameData(frame.control, frame.payload, buffer);
      wire := wire + buffer[..length];
      sent := sent + [frame];
    }

    /** The switch of dcProcessData, for an accepted frame whose stored bytes are in the scratchpad. */
    method OnFrame(control: Control, destLen: nat, ghost data: seq<byte>)
      requires Valid() && |data| <= scratchpadBuffer.Length && scratchpadBuffer[..|data|] == data
      requires destLen == LengthWithoutFcs(|data|) && WithinLimits(Accepted(control, data))
      modifies this, extractionBuffer
      ensures Valid() && AsBox() == Handle(old(AsBox()), [Accepted(control, data)])
    {
      hide EncodeAll;
      HandleOne(AsBox(), Accepted(control, data));
      hide Handle;
      match control.frame
      case DATA =>
        OnData(control.sendSeq, destLen, data);
      case ACK =>
        if state == TRANSMITTING {
          if control.recvSeq == nextExpectedAck {
            nextExpectedAck := (nextExpectedAck + 1) % 8;
            lastResponse := RESP_OK;
            signaled := true;
          }
        }
      case NACK =>
        if state == TRANSMITTING {
          lastResponse := RESP_REJECT;
          signaled := true;
        }
      case CONN =>
        Transmit(CONN_ACK_PACKET);
        var originalState := state;
        DropLink();
        state := CONNECTED;
        if originalState == TRANSMITTING {
          lastResponse := RESP_NOLINK;
          signaled := true;
        } else if originalState == CONNECTING {
          lastResponse := RESP_OK;
          state := CONNECTING;
          signaled := true;
        }
      case CONN_ACK =>
        if state == CONNECTING {
          lastResponse := RESP_OK;
          signaled := true;
        }
    }

    method CopyPayload(n: nat)
      requires n <= extractionBuffer.Length && n <= scratchpadBuffer.Length && extractionBuffer != scratchpadBuffer
      modifies extractionBuffer
      ensures extractionBuffer[..n] == scratchpadBuffer[..n]
    {
      forall i | 0 <= i < n {
        extractionBuffer[i] := scratchpadBuffer[i];
      }
    }

    method OnData(sendSeq: SeqNo, destLen: nat, ghost data: seq<byte>)
      requires Valid() && |data| <= scratchpadBuffer.Length && scratchpadBuffer[..|data|] == data
      requires destLen == LengthWithoutFcs(|data|) && 2 <= |data| <= PAYLOAD_MAX_LEN + 2
      modifies this, extractionBuffer
      ensures Valid()
      ensures var (st, out) := HandleData(old(View()), sendSeq, data[..|data| - 2]);
              AsBox() == old(AsBox()).(st := st, sent := old(sent) + out)
    {
      hide EncodeAll;
      if state == CONNECTED || state == TRANSMITTING {
        if sendSeq == recvNumber {
          if extractionBufferSize == 0 && destLen != 0 {
            extractionBufferSize := destLen;
            extractionComplete := true;
            CopyPayload(destLen);
            assert data[..destLen] == scratchpadBuffer[..destLen];
            recvNumber := (recvNumber + 1) % 8;
          }
        } else if !extractionComplete && (sendSeq + 1) % 8 == recvNumber {
          Transmit(Packet(Control(ACK, 0, (recvNumber + 7) % 8), []));
        }
      }
    }

    /** One round of the loop of dcProcessData: ask the deframer for the next report and act on it. */
    method NextReport(data: seq<byte>) returns (consumed: nat, finished: bool)
      requires Valid() && Limited(yahdlc.State(scratchpadBuffer), data)
      modifies this, extractionBuffer, scratchpadBuffer, yahdlc
      ensures Valid()
      ensures finished ==> AsBox() == Feed(old(AsBox()), data)
      ensures !finished ==>
                && consumed < |data|
                && Feed(old(AsBox()), data) == Feed(AsBox(), data[consumed..])
                && Limited(yahdlc.State(scratchpadBuffer), data[consumed..])
                && yahdlc.startIndex < 0 && (consumed == 0 ==> old(yahdlc.startIndex) >= 0)
    {
      hide EncodeAll, Feed, Limited, After, Events, Handle;
      ghost var box := AsBox();
      var ret, control, destLen, stored := yahdlc.GetData(data, scratchpadBuffer);
      finished := false;
      if ret == -EIO {
        FeedReport(box, data, destLen, Rejected);
        HandleRejected(box);
        consumed := destLen;
      } else if ret == -ENOMSG {
        FeedQuiet(box, data);
        consumed, finished := |data|, true;
      } else {
        FeedReport(box, data, ret, Accepted(control, stored));
        HandleKeepsParser(box, [Accepted(control, stored)]);
        consumed := ret;
        OnFrame(control, destLen, stored);
      }
    }

    /** The consuming loop of dcProcessData. */
    method Consume(data: seq<byte>)
      requires Valid() && data != [] && Limited(yahdlc.State(scratchpadBuffer), data)
      modifies this, extractionBuffer, scratchpadBuffer, yahdlc
      ensures Valid() && AsBox() == Feed(old(AsBox()), data)
    {
      hide EncodeAll, Feed, Limited;
      ghost var box := AsBox();
      var processed := 0;
      assert data[0..] == data;
      while processed < |data|
        invariant processed <= |data| && Valid()
        invariant processed == |data| ==> AsBox() == Feed(box, data)
        invariant processed < |data| ==>
                    && Feed(box, data) == Feed(AsBox(), data[processed..])
                    && Limited(yahdlc.State(scratchpadBuffer), data[processed..])
        decreases |data| - processed, if yahdlc.startIndex >= 0 then 1 else 0
      {
        var consumed, finished := NextReport(data[processed..]);
        if !finished {
          assert data[processed..][consumed..] == data[processed + consumed..];
        }
        processed := if finished then |data| else processed + consumed;
      }
    }

    /** dcProcessData: every byte of the buffer is consumed, and every frame completed in it is handled. */
    method ProcessData(data: seq<byte>) returns (result: Result)
      requires Valid() && Limited(yahdlc.State(scratchpadBuffer), data)
      modifies this, extractionBuffer, scratchpadBuffer, yahdlc
      ensures Valid() && AsBox() == Act(old(AsBox()), Arrives(data))
      ensures result == if data == [] then DC_FAILURE else DC_OK
    {
      if data == [] {
        return DC_FAILURE;
      }
      Consume(data);
      result := DC_OK;
    }

    /** What another thread does while a call waits. */
    method OtherThread(a: Activity)
      requires Valid() && LimitedAct(yahdlc.State(scratchpadBuffer), a)
      modifies this, extractionBuffer, scratchpadBuffer, yahdlc
      ensures Valid() && AsBox() == Act(old(AsBox()), a)
    {
      match a
      case Arrives(data) =>
        var _ := ProcessData(data);
      case Fetches =>
        var _, _ := GetReceivedMsg();
    }

    /** One wait on the condition variable: the wait clears the signal, other threads run, and the wait ends by
        the clock unless it was signalled. */
    method CondvarWait(wait: Wait) returns (timedOut: bool)
      requires Valid() && LimitedActs(yahdlc.State(scratchpadBuffer), wait.during)
      modifies this, extractionBuffer, scratchpadBuffer, yahdlc
      ensures Valid() && AsBox() == ActAll(Quiet(old(AsBox())), wait.during)
      ensures timedOut == (wait.clock || !signaled)
    {
      hide EncodeAll, Act, LimitedAct;
      signaled := false;
      ghost var box := AsBox();
      var k := 0;
      assert wait.during[0..] == wait.during;
      while k < |wait.during|
        invariant 0 <= k <= |wait.during| && Valid()
        invariant ActAll(box, wait.during) == ActAll(AsBox(), wait.during[k..])
        invariant LimitedActs(yahdlc.State(scratchpadBuffer), wait.during[k..])
      {
        assert wait.during[k..][1..] == wait.during[k + 1..];
        ActParser(AsBox(), wait.during[k]);
        OtherThread(wait.during[k]);
        k := k + 1;
      }
      timedOut := wait.clock || !signaled;
    }

    /** dcSendMessage, running until it returns or the given waits are used up. */
    method SendMessage(message: seq<byte>, waits: seq<Wait>) returns (outcome: Outcome)
      requires Valid() && LimitedWaits(yahdlc.State(scratchpadBuffer), waits)
      modifies this, extractionBuffer, scratchpadBuffer, yahdlc
      ensures Valid() && (AsBox(), outcome) == Send(old(AsBox()), message, waits)
    {
      hide EncodeAll, LimitedWaits;
      if message == [] || |message| > PAYLOAD_MAX_LEN {
        outcome := Done(DC_FAILURE);
      } else if state == TRANSMITTING {
        outcome := Done(DC_FAILURE);
      } else if state != CONNECTED {
        outcome := Done(DC_NOT_CONNECTED);
      } else {
        var frame := Packet(Control(DATA, sendNumber, recvNumber), message);
        sendNumber := (sendNumber + 1) % 8;
        failureCount := 0;
        state := TRANSMITTING;
        outcome := Retry(frame, waits);
      }
    }

    /** One round of the retry loop: transmit, wait, and look at the response. */
    method Attempt(frame: Packet, wait: Wait) returns (response: Reply)
      requires Valid() && LimitedActs(yahdlc.State(scratchpadBuffer), wait.during)
      modifies this, extractionBuffer, scratchpadBuffer, yahdlc
      ensures Valid()
      ensures var b := ActAll(Transmitted(Quiet(old(AsBox())), frame), wait.during);
              && response == ReplyOf(b.st, wait.clock || !b.st.signaled)
              && AsBox() == if response.NoAnswer? then b.(st := b.st.(failureCount := b.st.failureCount + 1)) else b
    {
      hide EncodeAll, ActAll, LimitedActs;
      Transmit(frame);
      var timedOut := CondvarWait(wait);
      if !timedOut {
        if lastResponse == RESP_OK {
          return Acknowledged;
        } else if lastResponse == RESP_NOLINK {
          return NoLink;
        }
      }
      failureCount := failureCount + 1;
      response := NoAnswer;
    }

    /** The retry loop of dcSendMessage. */
    method Retry(frame: Packet, waits: seq<Wait>) returns (outcome: Outcome)
      requires Valid() && LimitedWaits(yahdlc.State(scratchpadBuffer), waits) && failureCount < MAX_FAILURE_COUNT
      modifies this, extractionBuffer, scratchpadBuffer, yahdlc
      ensures Valid()
      ensures (AsBox(), outcome) == SendLoop(Quiet(old(AsBox())), frame, waits)
    {
      hide EncodeAll, ActAll, LimitedActs, LimitedWaits, SendLoop, ReplyOf, ResetLink;
      ghost var box := Quiet(AsBox());
      var success := false;
      var k := 0;
      assert waits[0..] == waits;
      while failureCount < MAX_FAILURE_COUNT
        invariant 0 <= k <= |waits| && Valid() && !success
        invariant LimitedWaits(yahdlc.State(scratchpadBuffer), waits[k..])
        invariant SendLoop(box, frame, waits) ==
                  if failureCount < MAX_FAILURE_COUNT then SendLoop(Quiet(AsBox()), frame, waits[k..])
                  else (AsBox().(st := ResetLink(View())), Done(DC_LINK_RESET))
        decreases |waits| - k
      {
        if k == |waits| {
          NoMoreWaits(Quiet(AsBox()), frame);
          Transmit(frame);
          signaled := false;
          return StillWaiting;
        }
        assert waits[k..][1..] == waits[k + 1..];
        ActAllParser(Transmitted(Quiet(AsBox()), frame), waits[k].during);
        RoundOf(Quiet(AsBox()), frame, waits[k..]);
        LimitedRound(yahdlc.State(scratchpadBuffer), waits[k..]);
        var response := Attempt(frame, waits[k]);
        k := k + 1;
        if response == Acknowledged {
          success := true;
          break;
        } else if response == NoLink {
          break;
        }
      }
      outcome := Conclude(success);
    }

    /** The end of dcSendMessage: connected again, or the link dropped. */
    method Conclude(success: bool) returns (outcome: Outcome)
      requires Valid()
      modifies this
      ensures Valid()
      ensures var st := old(View());
              AsBox() == old(AsBox()).(st := if success then st.(state := CONNECTED) else ResetLink(st))
      ensures outcome == Done(if success then DC_OK else DC_LINK_RESET)
    {
      hide EncodeAll;
      if success {
        state := CONNECTED;
        outcome := Done(DC_OK);
      } else {
        DropLink();
        outcome := Done(DC_LINK_RESET);
      }
    }

    /** dcConnect, running until it returns or the given waits are used up. */
    method ConnectLink(waits: seq<Wait>) returns (outcome: Outcome)
      requires Valid() && LimitedWaits(yahdlc.State(scratchpadBuffer), waits)
      modifies this, extractionBuffer, scratchpadBuffer, yahdlc
      ensures Valid() && (AsBox(), outcome) == Connect(old(AsBox()), waits)
    {
      hide EncodeAll, ActAll, LimitedActs;
      if state == CONNECTED {
        outcome := Done(DC_OK);
      } else if state == CONNECTING {
        outcome := Done(DC_FAILURE);
      } else {
        state := CONNECTING;
        Transmit(CONN_PACKET);
        if waits == [] {
          signaled := false;
          outcome := StillWaiting;
        } else {
          var timedOut := CondvarWait(waits[0]);
          outcome := Answered(timedOut);
        }
      }
    }

    /** The end of dcConnect. */
    method Answered(timedOut: bool) returns (outcome: Outcome)
      requires Valid()
      modifies this
      ensures Valid()
      ensures var (st, r) := WakeConnect(old(View()), timedOut);
              AsBox() == old(AsBox()).(st := st) && outcome == Done(r)
    {
      hide EncodeAll;
      if timedOut {
        state := DISCONNECTED;
        outcome := Done(DC_NOT_CONNECTED);
      } else {
        DropLink();
        state := CONNECTED;
        outcome := Done(DC_OK);
      }
    }

    /** dcGetReceivedMsg with a buffer. */
    method GetReceivedMsg() returns (result: Result, message: seq<byte>)
      requires Valid()
      modifies this
      ensures Valid() && AsBox() == Act(old(AsBox()), Fetches)
      ensures Fetched(result, message) == PickUp(old(View())).1
    {
      hide EncodeAll;
      message := [];
      if state == DISCONNECTED || state == CONNECTING {
        return DC_NOT_CONNECTED, [];
      }
      if !extractionComplete {
        return DC_OK, [];
      }
      message := extractionBuffer[..extractionBufferSize];
      Transmit(Packet(Control(ACK, 0, Pred(recvNumber)), []));
      extractionBufferSize := 0;
      extractionComplete := false;
      result := DC_OK;
    }

    /** dcGetReceivedMsg without a buffer. */
    method PeekReceivedMsg() returns (result: Result, length: nat)
      requires Valid()
      ensures (result, length) == Peek(View())
    {
      if state == DISCONNECTED || state == CONNECTING {
        return DC_NOT_CONNECTED, 0;
      }
      if !extractionComplete {
        return DC_OK, 0;
      }
      return DC_OK, extractionBufferSize;
    }

    /** dcDisconnect */
    method DisconnectLink() returns (result: Result)
      requires Valid()
      modifies this`state
      ensures Valid() && AsBox() == old(AsBox()).(st := Disconnect(old(View())).0)
      ensures result == Disconnect(old(View())).1
    {
      if state == CONNECTING {
        return DC_FAILURE;
      }
      state := DISCONNECTED;
      return DC_OK;
    }
  }
}
