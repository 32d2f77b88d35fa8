/** What the calls of a station answer and what they leave behind, in every state and not only inside a session. */
module Answers {
  import opened Fcs
  import opened Control
  import opened Parser
  import opened Station
  import opened Deadcom
  import opened Link

  // ---- dcSendMessage ----

  predicate Legal(message: seq<byte>) { 1 <= |message| <= 249 }

  /** The DATA frame for this message, with the station's own numbers. */
  predicate CarriesMessage(f: Packet, message: seq<byte>, st: Station) {
    && f.control.frame == DATA && f.payload == message
    && f.control.sendSeq == st.sendNumber && f.control.recvSeq == st.recvNumber
  }

  lemma HandledExtends(box: Box, data: seq<byte>)
    ensures box.sent <= Feed(box, data).sent
  {
    HandleExtends(box, Events(box.parser, data));
  }

  lemma {:induction false} HandleExtends(box: Box, es: seq<Event>)
    ensures box.sent <= Handle(box, es).sent
  {
    hide HandleEvent;
    if es != [] {
      HandleExtends(box, es[..|es| - 1]);
    }
  }

  lemma ActExtends(box: Box, a: Activity)
    ensures box.sent <= Act(box, a).sent
  {
    hide Feed;
    if a.Arrives? {
      HandledExtends(box, a.data);
    }
  }

  lemma {:induction false} ActAllExtends(box: Box, during: seq<Activity>)
    ensures box.sent <= ActAll(box, during).sent
    decreases |during|
  {
    hide Act;
    if during != [] {
      ActExtends(box, during[0]);
      ActAllExtends(Act(box, during[0]), during[1..]);
    }
  }

  /** A send that has begun transmits its frame first of all, and ends connected with DC_OK or with the link dropped. */
  lemma {:induction false} LoopAnswers(box: Box, frame: Packet, waits: seq<Wait>)
    ensures var (b, outcome) := SendLoop(box, frame, waits);
            && box.sent + [frame] <= b.sent
            && (outcome == StillWaiting || outcome == Done(DC_OK) || outcome == Done(DC_LINK_RESET))
            && (outcome == Done(DC_OK) ==> b.st.state == CONNECTED)
            && (outcome == Done(DC_LINK_RESET) ==> b.st == ResetLink(b.st))
    decreases |waits|
  {
    hide ActAll, WakeSend;
    if waits != [] {
      var b := ActAll(Transmitted(box, frame), waits[0].during);
      ActAllExtends(Transmitted(box, frame), waits[0].during);
      WakeAnswers(b.st, waits[0].clock || !b.st.signaled);
      LoopAnswers(b.(st := WakeSend(b.st, waits[0].clock || !b.st.signaled).0), frame, waits[1..]);
    }
  }

  lemma WakeAnswers(st: Station, timedOut: bool)
    ensures var (st', woken) := WakeSend(st, timedOut);
            match woken
            case Retransmit => true
            case Returned(r) =>
              && (r == DC_OK || r == DC_LINK_RESET)
              && (r == DC_OK ==> st'.state == CONNECTED && st == st'.(state := st.state))
              && (r == DC_LINK_RESET ==> st' == ResetLink(st'))
  {
  }

  /** What dcSendMessage answers, whatever happens during its waits. An illegal message and a send under way are
      refused with DC_FAILURE, a link that is down with DC_NOT_CONNECTED, and then nothing changes. Otherwise the frame
      is transmitted; DC_OK leaves the link connected, DC_LINK_RESET leaves it dropped. */
  lemma SendAnswers(box: Box, message: seq<byte>, waits: seq<Wait>)
    ensures var (b, outcome) := Send(box, message, waits);
            && (outcome == Done(DC_FAILURE) <==> !Legal(message) || box.st.state == TRANSMITTING)
            && (outcome == Done(DC_NOT_CONNECTED) <==> Legal(message) && !Up(box.st))
            && (outcome == Done(DC_FAILURE) || outcome == Done(DC_NOT_CONNECTED) ==> b == box)
            && (outcome == Done(DC_OK) ==> b.st.state == CONNECTED)
            && (outcome == Done(DC_LINK_RESET) ==> b.st == ResetLink(b.st))
    ensures var (b, outcome) := Send(box, message, waits);
            outcome != Done(DC_FAILURE) && outcome != Done(DC_NOT_CONNECTED) ==>
              && Legal(message) && box.st.state == CONNECTED
              && exists f :: CarriesMessage(f, message, box.st) && box.sent + [f] <= b.sent
  {
    match BeginSend(box.st, message).1
    case Refused(_) =>
    case Waiting(frame) =>
      LoopAnswers(box.(st := BeginSend(box.st, message).0), frame, waits);
      assert CarriesMessage(frame, message, box.st);
      hide SendLoop;
  }

  /** Three waits without an answer: the frame has been transmitted three times, and the link is dropped. */
  lemma SilenceDropsLink(box: Box, message: seq<byte>, clocks: seq<bool>)
    requires Legal(message) && box.st.state == CONNECTED && |clocks| == 3
    ensures var waits := [Wait([], clocks[0]), Wait([], clocks[1]), Wait([], clocks[2])];
            var (b, outcome) := Send(box, message, waits);
            && outcome == Done(DC_LINK_RESET) && b.st.state == DISCONNECTED
            && exists f :: CarriesMessage(f, message, box.st) && b.sent == box.sent + [f, f, f]
  {
    var waits := [Wait([], clocks[0]), Wait([], clocks[1]), Wait([], clocks[2])];
    var (st, begun) := BeginSend(box.st, message);
    var f := begun.frame;
    var b0 := box.(st := st);
    var b1 := SilentRound(b0, f, waits);
    assert waits[1..] == [Wait([], clocks[1]), Wait([], clocks[2])];
    var b2 := SilentRound(b1, f, waits[1..]);
    assert waits[1..][1..] == [Wait([], clocks[2])];
    SilentEnd(b2, f, waits[1..][1..]);
    hide SendLoop;
    assert CarriesMessage(f, message, box.st);
    assert box.sent + [f] + [f] + [f] == box.sent + [f, f, f];
  }

  lemma SilentRound(box: Box, f: Packet, waits: seq<Wait>) returns (next: Box)
    requires waits != [] && waits[0].during == [] && !box.st.signaled && box.st.failureCount < 2
    ensures next == box.(st := box.st.(failureCount := box.st.failureCount + 1), sent := box.sent + [f])
    ensures SendLoop(box, f, waits) == SendLoop(next, f, waits[1..])
  {
    next := box.(st := box.st.(failureCount := box.st.failureCount + 1), sent := box.sent + [f]);
  }

  lemma SilentEnd(box: Box, f: Packet, waits: seq<Wait>)
    requires waits != [] && waits[0].during == [] && !box.st.signaled && box.st.failureCount == 2
    ensures var (b, outcome) := SendLoop(box, f, waits);
            outcome == Done(DC_LINK_RESET) && b.st.state == DISCONNECTED && b.sent == box.sent + [f]
  {
  }

  /** A rejection counts as a time-out. */
  lemma RejectIsTimeout(st: Station, f: Packet)
    requires f.control.frame == NACK
    ensures var (st', out) := HandleFrame(st, f);
            && out == []
            && (st.state != TRANSMITTING ==> st' == st)
            && (st.state == TRANSMITTING ==> st'.signaled && WakeSend(st', false) == WakeSend(st', true))
            && WakeSend(st', true).1 == WakeSend(st, true).1
  {
  }

  // ---- dcProcessData: DATA frames ----

  /** Every DATA frame, in every state: it is either ignored; or stored, when it bears the number expected, has a
      payload and nothing is stored; or acknowledged with its own number, the station unchanged, when it bears the
      number before and nothing is pending. */
  lemma DataAnswers(st: Station, f: Packet)
    requires f.control.frame == DATA
    ensures var (st', out) := HandleFrame(st, f);
            var number, stored := f.control.sendSeq, st.extraction;
            && (out == [] || (|out| == 1 && out[0] == Packet(Control(ACK, 0, number), []) && st' == st))
            && (out != [] <==> Up(st) && !st.complete && (number + 1) % 8 == st.recvNumber)
            && (st' != st <==> Up(st) && number == st.recvNumber && f.payload != [] && stored == [])
            && (st' != st ==> st'.extraction == f.payload && st'.complete && st'.recvNumber == (number + 1) % 8)
            && (st' != st ==> st == st'.(extraction := [], complete := st.complete, recvNumber := number))
  {
  }

  // ---- dcProcessData: connection requests ----

  /** Every request is answered, in every state, and clears what the link had. It connects the link unless a dcConnect
      is under way, which it wakes; a dcSendMessage it wakes to drop the link; no other call is woken. */
  lemma RequestAnswers(st: Station, f: Packet)
    requires f.control.frame == CONN
    ensures var (st', out) := HandleFrame(st, f);
            && |out| == 1 && out[0].control.frame == CONN_ACK && out[0].payload == []
            && st' == ResetLink(st').(state := st'.state)
            && (st.state == CONNECTING <==> st'.state == CONNECTING) && (st.state != CONNECTING <==> Up(st'))
            && (st.state == TRANSMITTING ==>
                  st'.signaled && WakeSend(st', false) == (ResetLink(st'), Returned(DC_LINK_RESET)))
            && (st.state == CONNECTING ==> st'.signaled && st'.lastResponse == RESP_OK)
            && (!st.state.TRANSMITTING? && !st.state.CONNECTING? ==>
                  st'.signaled == st.signaled && st'.lastResponse == st.lastResponse)
  {
  }

  // ---- dcGetReceivedMsg ----

  /** Both forms of the call answer DC_OK exactly if the link is up, and otherwise DC_NOT_CONNECTED. They agree on the
      length; a message is handed over exactly if one is complete, and then acknowledged with its own number; what was
      handed over is gone. */
  lemma PickUpAnswers(st: Station)
    ensures var (result, length) := Peek(st);
            var (st', fetched, out) := PickUp(st);
            && result == fetched.result && length == |fetched.message|
            && (result == DC_OK <==> Up(st)) && (result == DC_NOT_CONNECTED <==> !Up(st))
            && (Up(st) && st.complete ==>
                  && fetched.message == st.extraction
                  && |out| == 1 && out[0].control.frame == ACK && (out[0].control.recvSeq + 1) % 8 == st.recvNumber
                  && st == st'.(extraction := st.extraction, complete := true))
            && (!Up(st) || !st.complete ==> fetched.message == [] && length == 0 && out == [] && st' == st)
            && PickUp(st').1.message == [] && PickUp(st').2 == []
  {
  }

  // ---- dcConnect ----

  /** What dcConnect answers at once: DC_OK when connected, DC_FAILURE while another thread connects, and then nothing
      changes and nothing is transmitted. Otherwise a request is transmitted, and the call ends connected with DC_OK or
      disconnected with DC_NOT_CONNECTED: exactly if the wait ended by the clock. A request that nothing answers leaves
      no other trace. */
  lemma ConnectAnswers(box: Box, waits: seq<Wait>)
    ensures var (b, outcome) := Connect(box, waits);
            && (box.st.state == CONNECTED ==> outcome == Done(DC_OK) && b == box)
            && (box.st.state == CONNECTING <==> outcome == Done(DC_FAILURE))
            && (outcome == Done(DC_FAILURE) ==> b == box)
            && (box.st.state != CONNECTED && box.st.state != CONNECTING ==>
                  && |box.sent| < |b.sent| && box.sent == b.sent[..|box.sent|]
                  && b.sent[|box.sent|].control.frame == CONN
                  && (outcome == StillWaiting <==> waits == [])
                  && (waits != [] ==>
                        var m := ActAll(Transmitted(box.(st := BeginConnect(box.st).0), CONN_PACKET), waits[0].during);
                        && (outcome == Done(DC_NOT_CONNECTED) <==> waits[0].clock || !m.st.signaled)
                        && (outcome == Done(DC_OK) <==> !waits[0].clock && m.st.signaled)
                        && (outcome == Done(DC_OK) ==> b.st == ResetLink(b.st).(state := CONNECTED))
                        && (outcome == Done(DC_NOT_CONNECTED) ==> b.st == m.st.(state := DISCONNECTED))
                        && (waits[0].during == [] ==>
                              && outcome == Done(DC_NOT_CONNECTED) && |b.sent| == |box.sent| + 1
                              && b.st == box.st.(state := DISCONNECTED, signaled := false))))
  {
    var c := Transmitted(box.(st := BeginConnect(box.st).0), CONN_PACKET);
    if waits != [] {
      ActAllExtends(c, waits[0].during);
    }
    hide ActAll;
  }

  // ---- dcDisconnect ----

  /** dcDisconnect fails exactly while the link is connecting, and then changes nothing; otherwise the link is down, and
      everything else is as before. */
  lemma DisconnectAnswers(st: Station)
    ensures var (st', result) := Disconnect(st);
            && (result == DC_FAILURE <==> st.state == CONNECTING) && (result == DC_OK <==> st.state != CONNECTING)
            && (result == DC_FAILURE ==> st' == st)
            && (result == DC_OK ==> st'.state == DISCONNECTED && st == st'.(state := st.state))
  {
  }

  /** A station that is in no blocking call can hang up, and then its link is down. */
  lemma HangupDrops(l: Link)
    requires l.a.call == Idle && Settled(l.a)
    ensures MayMove(l, Hangup)
    ensures var l' := Apply(l, Hangup);
            !Up(l'.a.st) && l'.a.st.state == DISCONNECTED && l'.a.call == Idle && l' == l.(a := l.a.(st := l'.a.st))
  {
  }

  /** The station does not connect, and is handed no request. */
  predicate LeftAlone(l: Link, s: Step) {
    s.side == A ==> !s.move.ConnectBegin? && (s.move.Deliver? && l.ba != [] ==> !IsConn(l.ba[0]))
  }

  predicate AllLeaveAlone(l: Link, steps: seq<Step>)
    requires Runs(l, steps)
    decreases |steps|
  {
    steps == [] || (LeftAlone(l, steps[0]) && AllLeaveAlone(Next(l, steps[0]), steps[1..]))
  }

  lemma DownIdles(l: Link, s: Step)
    requires l.a.st.state == DISCONNECTED && l.a.call == Idle && Enabled(l, s) && LeftAlone(l, s)
    ensures Next(l, s).a == l.a && |Next(l, s).ab| <= |l.ab|
  {
    assert l.ab + [] == l.ab;
  }

  lemma {:induction false} DownForGood(l: Link, steps: seq<Step>)
    requires l.a.st.state == DISCONNECTED && l.a.call == Idle && Runs(l, steps) && AllLeaveAlone(l, steps)
    ensures Final(l, steps).a == l.a && |Final(l, steps).ab| <= |l.ab|
    decreases |steps|
  {
    hide Enabled, Next, LeftAlone;
    if steps != [] {
      DownIdles(l, steps[0]);
      DownForGood(Next(l, steps[0]), steps[1..]);
    }
  }

  /** After a hang-up, in every run in which the station does not connect and is handed no request, whatever else is
      called or arrives: it submits, stores, picks up, reports and transmits nothing, and stays disconnected. */
  lemma HangupSilences(l: Link, steps: seq<Step>)
    requires MayMove(l, Hangup) && Settled(l.a)
    requires Runs(Next(l, Step(A, Hangup)), steps) && AllLeaveAlone(Next(l, Step(A, Hangup)), steps)
    ensures var f := Final(Next(l, Step(A, Hangup)), steps);
            && f.a.st.state == DISCONNECTED && f.a == l.a.(st := l.a.st.(state := DISCONNECTED))
            && |f.ab| <= |l.ab|
  {
    HangupDrops(l);
    hide AllLeaveAlone, Runs, Final;
    DownForGood(Next(l, Step(A, Hangup)), steps);
  }

  // ---- dcInit ----

  /** A new station is as one whose link was reset. */
  lemma NewIsReset()
    ensures ResetLink(INITIAL) == INITIAL
  {
  }
}
