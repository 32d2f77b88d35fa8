/** Runs in which what one would expect fails, because a condition of a theorem is not met. */
module Failures {
  import opened Fcs
  import opened Control
  import opened Station
  import opened Link
  import opened Session
  import opened Handshake
  import opened Recovery

  predicate Sendable(message: seq<byte>) { 1 <= |message| <= PAYLOAD_MAX_LEN }

  /** Take `steps` one after the other, ending in `goal`. */
  predicate Leads(l: Link, steps: seq<Step>, goal: Link) { Runs(l, steps) && Final(l, steps) == goal }

  lemma Leads1(l: Link, s: Step)
    requires Enabled(l, s)
    ensures Leads(l, [s], Next(l, s))
  {
    hide Enabled, Next;
    NoSteps(Next(l, s));
    assert [s] + [] == [s];
    RunsFirst(l, s, []);
  }

  lemma LeadsFurther(l: Link, steps: seq<Step>, m: Link, s: Step)
    requires Leads(l, steps, m) && Enabled(m, s)
    ensures Leads(l, steps + [s], Next(m, s))
  {
    hide Enabled, Next;
    Leads1(m, s);
    RunsAppend(l, steps, [s]);
  }

  // ---- A busy peer ----

  /** The peer begins to send before the request reaches it, and its call wakes by the clock afterwards: the old message
      follows the peer's answer. */
  function BusyPeerRun(message: seq<byte>): seq<Step> {
    [Step(A, ConnectBegin)] + [Step(B, SendBegin(message))] + [Step(B, Deliver)] + [Step(B, SendWake(true))]
    + [Step(A, Deliver)] + [Step(A, Deliver)] + [Step(A, ConnectWake(false))] + [Step(A, Deliver)]
  }

  /** Both stations are idle with nothing under way; the peer is connected and numbers its next message 0. */
  predicate QuietPeer(l: Link) {
    && BeforeConnect(l) && l.ab == [] && l.ba == []
    && l.b.st.state == CONNECTED && l.b.call == Idle && l.b.st.sendNumber == 0
  }

  lemma BusyPeerAnswersFirst(l: Link, message: seq<byte>) returns (steps: seq<Step>, m: Link)
    requires QuietPeer(l) && Sendable(message)
    ensures steps == [Step(A, ConnectBegin)] + [Step(B, SendBegin(message))] + [Step(B, Deliver)]
                     + [Step(B, SendWake(true))]
    ensures Leads(l, steps, m) && AwaitsAnswer(m) && m.ab == [] && m.a.connects == l.a.connects
    ensures m.ba == [Data(l.b.st, message), CONN_ACK_PACKET, Data(l.b.st, message)] && m.b.submitted == []
  {
    var l1 := Next(l, Step(A, ConnectBegin));
    var l2 := Next(l1, Step(B, SendBegin(message)));
    var l3 := Next(l2, Step(B, Deliver));
    m := Next(l3, Step(B, SendWake(true)));
    hide Enabled, Next, Leads;
    Leads1(l, Step(A, ConnectBegin));
    steps := [Step(A, ConnectBegin)];
    LeadsFurther(l, steps, l1, Step(B, SendBegin(message)));
    steps := steps + [Step(B, SendBegin(message))];
    LeadsFurther(l, steps, l2, Step(B, Deliver));
    steps := steps + [Step(B, Deliver)];
    LeadsFurther(l, steps, l3, Step(B, SendWake(true)));
    steps := steps + [Step(B, SendWake(true))];
  }

  /** Without the condition on the peer the claim is false, for every message: dcConnect returns DC_OK, and then the
      caller receives a message that was never submitted in the session. */
  lemma BusyPeerBreaksSession(l: Link, message: seq<byte>)
    requires QuietPeer(l) && Sendable(message)
    ensures Runs(l, BusyPeerRun(message))
    ensures var f := Final(l, BusyPeerRun(message));
            && f.a.connects == l.a.connects + [DC_OK] && f.a.st.state == CONNECTED
            && Arrived(f.a) == [message] && f.b.submitted == [] && !InOrder(f)
  {
    var steps, m := BusyPeerAnswersFirst(l, message);
    var m1 := Next(m, Step(A, Deliver));
    var m2 := Next(m1, Step(A, Deliver));
    var m3 := Next(m2, Step(A, ConnectWake(false)));
    var m4 := Next(m3, Step(A, Deliver));
    assert m3.a.connects == l.a.connects + [DC_OK] && m3.ba == [Data(l.b.st, message)];
    hide Enabled, Next, Leads;
    LeadsFurther(l, steps, m, Step(A, Deliver));
    LeadsFurther(l, steps + [Step(A, Deliver)], m1, Step(A, Deliver));
    LeadsFurther(l, steps + [Step(A, Deliver)] + [Step(A, Deliver)], m2, Step(A, ConnectWake(false)));
    LeadsFurther(
      l, steps + [Step(A, Deliver)] + [Step(A, Deliver)] + [Step(A, ConnectWake(false))], m3, Step(A, Deliver));
    LeadsTo(l, BusyPeerRun(message), m4);
  }

  lemma LeadsTo(l: Link, steps: seq<Step>, goal: Link)
    requires Leads(l, steps, goal)
    ensures Runs(l, steps) && Final(l, steps) == goal
  {
  }

  // ---- A late answer ----

  const FRESH := Node(INITIAL, Idle, [], 0, [], [], 0)

  /** Two stations just initialised. */
  const START := Link(FRESH, FRESH, [], [])

  /** A's second attempt was ended by the answer to its first; its second request is still under way. */
  predicate SecondRequestPending(l: Link) {
    && l.a.st.state == CONNECTED && l.a.call == Idle && l.a.connects == [DC_NOT_CONNECTED, DC_OK]
    && l.a.st.recvNumber == 0 && l.a.st.extraction == [] && !l.a.st.complete && l.a.picked == []
    && l.b.st.state == CONNECTED && l.b.call == Idle && l.b.st.sendNumber == 0
    && l.ab == [CONN_PACKET] && l.ba == []
  }

  /** A has received and picked up `first`; nothing else is to come from A's side of the session. */
  predicate HasFirst(l: Link, first: seq<byte>) {
    && l.a.st.state == CONNECTED && l.a.call == Idle && l.a.picked == [first]
    && l.a.st.recvNumber == 1 && l.a.st.extraction == [] && !l.a.st.complete
  }

  /** The request is still to reach the peer, which has not heard of the pick-up. */
  predicate FirstPickedUp(l: Link, first: seq<byte>) {
    && HasFirst(l, first) && l.ab == [CONN_PACKET, Ack(1)] && l.ba == []
    && l.b.st.state == TRANSMITTING && l.b.call.Sending? && IsData(l.b.call.frame) && l.b.st.failureCount == 0
  }

  /** The peer's call has failed, and then the request has restarted it. */
  predicate PeerStartsOver(l: Link, first: seq<byte>) {
    && HasFirst(l, first) && l.ab == []
    && l.b.st.state == CONNECTED && l.b.call == Idle && l.b.submitted == [] && l.b.confirmed == 0
    && l.b.st.sendNumber == 0 && l.b.st.nextExpectedAck == 0
  }

  function LateAnswerSteps(): seq<Step> {
    [Step(A, ConnectBegin)] + [Step(B, Deliver)] + [Step(A, ConnectWake(true))] + [Step(A, ConnectBegin)]
    + [Step(A, Deliver)] + [Step(A, ConnectWake(false))]
  }

  /** A gives up its first attempt, and takes the answer to it for the answer to its second. */
  lemma AnsweredLate(l: Link) returns (m: Link)
    requires l == START
    ensures Leads(l, LateAnswerSteps(), m) && SecondRequestPending(m)
  {
    var l1 := Next(l, Step(A, ConnectBegin));
    var l2 := Next(l1, Step(B, Deliver));
    var l3 := Next(l2, Step(A, ConnectWake(true)));
    var l4 := Next(l3, Step(A, ConnectBegin));
    var l5 := Next(l4, Step(A, Deliver));
    m := Next(l5, Step(A, ConnectWake(false)));
    hide Enabled, Next, Leads;
    Leads1(l, Step(A, ConnectBegin));
    var steps := [Step(A, ConnectBegin)];
    LeadsFurther(l, steps, l1, Step(B, Deliver));
    steps := steps + [Step(B, Deliver)];
    LeadsFurther(l, steps, l2, Step(A, ConnectWake(true)));
    steps := steps + [Step(A, ConnectWake(true))];
    LeadsFurther(l, steps, l3, Step(A, ConnectBegin));
    steps := steps + [Step(A, ConnectBegin)];
    LeadsFurther(l, steps, l4, Step(A, Deliver));
    steps := steps + [Step(A, Deliver)];
    LeadsFurther(l, steps, l5, Step(A, ConnectWake(false)));
  }

  function FirstMessageSteps(first: seq<byte>): seq<Step> {
    [Step(B, SendBegin(first))] + [Step(A, Deliver)] + [Step(A, Fetch)]
  }

  lemma FirstMessage(l: Link, first: seq<byte>) returns (m: Link)
    requires SecondRequestPending(l) && Sendable(first)
    ensures Leads(l, FirstMessageSteps(first), m) && FirstPickedUp(m, first)
  {
    var l1 := Next(l, Step(B, SendBegin(first)));
    var l2 := Next(l1, Step(A, Deliver));
    m := Next(l2, Step(A, Fetch));
    hide Enabled, Next, Leads;
    Leads1(l, Step(B, SendBegin(first)));
    var steps := [Step(B, SendBegin(first))];
    LeadsFurther(l, steps, l1, Step(A, Deliver));
    steps := steps + [Step(A, Deliver)];
    LeadsFurther(l, steps, l2, Step(A, Fetch));
  }

  function PeerRestartSteps(): seq<Step> {
    [Step(B, SendWake(true))] + [Step(B, SendWake(true))] + [Step(B, SendWake(true))] + [Step(B, Deliver)]
    + [Step(B, Deliver)]
  }

  lemma PeerRestarts(l: Link, first: seq<byte>) returns (m: Link)
    requires FirstPickedUp(l, first)
    ensures Leads(l, PeerRestartSteps(), m) && PeerStartsOver(m, first) && |m.ba| == 3 && IsConnAck(m.ba[2])
  {
    var l1 := Next(l, Step(B, SendWake(true)));
    var l2 := Next(l1, Step(B, SendWake(true)));
    var l3 := Next(l2, Step(B, SendWake(true)));
    var l4 := Next(l3, Step(B, Deliver));
    m := Next(l4, Step(B, Deliver));
    hide Enabled, Next, Leads;
    Leads1(l, Step(B, SendWake(true)));
    var steps := [Step(B, SendWake(true))];
    LeadsFurther(l, steps, l1, Step(B, SendWake(true)));
    steps := steps + [Step(B, SendWake(true))];
    LeadsFurther(l, steps, l2, Step(B, SendWake(true)));
    steps := steps + [Step(B, SendWake(true))];
    LeadsFurther(l, steps, l3, Step(B, Deliver));
    steps := steps + [Step(B, Deliver)];
    LeadsFurther(l, steps, l4, Step(B, Deliver));
  }

  function CopiesLostSteps(): seq<Step> {
    [Step(A, Lose(0))] + [Step(A, Lose(0))] + [Step(A, Deliver)]
  }

  lemma CopiesLost(l: Link, first: seq<byte>) returns (m: Link)
    requires PeerStartsOver(l, first) && |l.ba| == 3 && IsConnAck(l.ba[2])
    ensures Leads(l, CopiesLostSteps(), m) && PeerStartsOver(m, first) && m.ba == []
  {
    var l1 := Next(l, Step(A, Lose(0)));
    var l2 := Next(l1, Step(A, Lose(0)));
    m := Next(l2, Step(A, Deliver));
    hide Enabled, Next, Leads;
    Leads1(l, Step(A, Lose(0)));
    var steps := [Step(A, Lose(0))];
    LeadsFurther(l, steps, l1, Step(A, Lose(0)));
    steps := steps + [Step(A, Lose(0))];
    LeadsFurther(l, steps, l2, Step(A, Deliver));
  }

  function SecondMessageSteps(second: seq<byte>): seq<Step> {
    [Step(B, SendBegin(second))] + [Step(A, Deliver)] + [Step(B, Deliver)] + [Step(B, SendWake(false))]
  }

  /** A takes the new message for a copy of the old one and acknowledges it. */
  lemma SecondMessage(l: Link, first: seq<byte>, second: seq<byte>) returns (m: Link)
    requires PeerStartsOver(l, first) && l.ba == [] && Sendable(second)
    ensures Leads(l, SecondMessageSteps(second), m)
    ensures m.a.picked == [first] && m.b.submitted == [second] && m.b.confirmed == 1
  {
    var l1 := Next(l, Step(B, SendBegin(second)));
    var l2 := Next(l1, Step(A, Deliver));
    var l3 := Next(l2, Step(B, Deliver));
    m := Next(l3, Step(B, SendWake(false)));
    hide Enabled, Next, Leads;
    Leads1(l, Step(B, SendBegin(second)));
    var steps := [Step(B, SendBegin(second))];
    LeadsFurther(l, steps, l1, Step(A, Deliver));
    steps := steps + [Step(A, Deliver)];
    LeadsFurther(l, steps, l2, Step(B, Deliver));
    steps := steps + [Step(B, Deliver)];
    LeadsFurther(l, steps, l3, Step(B, SendWake(false)));
  }

  function LateAnswerRun(first: seq<byte>, second: seq<byte>): seq<Step> {
    LateAnswerSteps() + FirstMessageSteps(first) + PeerRestartSteps() + CopiesLostSteps() + SecondMessageSteps(second)
  }

  lemma LeadsOn(l: Link, s: seq<Step>, m: Link, t: seq<Step>, n: Link)
    requires Leads(l, s, m) && Leads(m, t, n)
    ensures Leads(l, s + t, n)
  {
    RunsAppend(l, s, t);
  }

  /** Without the condition on older answers the claim is false, for every two different messages: dcConnect returns
      DC_OK on an answer to its earlier attempt, and later a send returns DC_OK for a message that the other end never
      picks up. */
  lemma LateAnswerBreaksSession(first: seq<byte>, second: seq<byte>)
    requires Sendable(first) && Sendable(second) && first != second
    ensures Runs(START, LateAnswerRun(first, second))
    ensures var f := Final(START, LateAnswerRun(first, second));
            && f.a.picked == [first] && f.b.submitted == [second] && f.b.confirmed == 1
            && !ConfirmedArePicked(f)
  {
    hide *;
    var l1 := AnsweredLate(START);
    var l2 := FirstMessage(l1, first);
    var l3 := PeerRestarts(l2, first);
    var l4 := CopiesLost(l3, first);
    var l5 := SecondMessage(l4, first, second);
    LeadsOn(START, LateAnswerSteps(), l1, FirstMessageSteps(first), l2);
    LeadsOn(START, LateAnswerSteps() + FirstMessageSteps(first), l2, PeerRestartSteps(), l3);
    LeadsOn(START, LateAnswerSteps() + FirstMessageSteps(first) + PeerRestartSteps(), l3, CopiesLostSteps(), l4);
    LeadsOn(START, LateAnswerSteps() + FirstMessageSteps(first) + PeerRestartSteps() + CopiesLostSteps(), l4,
            SecondMessageSteps(second), l5);
    NotPickedUp(l5, first, second);
    TheRun(first, second);
    LeadsTo(START, LateAnswerRun(first, second), l5);
  }

  lemma TheRun(first: seq<byte>, second: seq<byte>)
    ensures LateAnswerRun(first, second) ==
            LateAnswerSteps() + FirstMessageSteps(first) + PeerRestartSteps() + CopiesLostSteps()
            + SecondMessageSteps(second)
  {
  }

  lemma NotPickedUp(l: Link, first: seq<byte>, second: seq<byte>)
    requires l.a.picked == [first] && l.b.submitted == [second] && l.b.confirmed == 1 && first != second
    ensures !ConfirmedArePicked(l)
  {
    assert l.b.submitted[..1][0] != l.a.picked[0];
  }

  // ---- An overlooked signal ----

  /** The clock ends the first wait although the acknowledgement has just been counted. */
  function OverlookedRun(message: seq<byte>): seq<Step> {
    [Step(A, SendBegin(message))] + [Step(B, Deliver)] + [Step(B, Fetch)] + [Step(A, Deliver)]
    + [Step(A, SendWake(true))]
  }

  lemma OverlookedLeads(l: Link, message: seq<byte>) returns (m: Link)
    requires Established(l) && l.ab == [] && l.ba == [] && Sendable(message)
    ensures Leads(l, OverlookedRun(message), m)
    ensures m.a.st.state == TRANSMITTING && m.a.st.failureCount == 1 && m.b.st.state == CONNECTED
    ensures m.a.submitted == [message] && m.b.picked == [message] && m.a.confirmed == 0
    ensures m.a.st.nextExpectedAck == 1 && !m.a.st.signaled
  {
    var l1 := Next(l, Step(A, SendBegin(message)));
    var l2 := Next(l1, Step(B, Deliver));
    var l3 := Next(l2, Step(B, Fetch));
    var l4 := Next(l3, Step(A, Deliver));
    m := Next(l4, Step(A, SendWake(true)));
    hide Enabled, Next, Leads;
    Leads1(l, Step(A, SendBegin(message)));
    var steps := [Step(A, SendBegin(message))];
    LeadsFurther(l, steps, l1, Step(B, Deliver));
    steps := steps + [Step(B, Deliver)];
    LeadsFurther(l, steps, l2, Step(B, Fetch));
    steps := steps + [Step(B, Fetch)];
    LeadsFurther(l, steps, l3, Step(A, Deliver));
    steps := steps + [Step(A, Deliver)];
    LeadsFurther(l, steps, l4, Step(A, SendWake(true)));
  }

  lemma OverlookedNeverReported(m: Link)
    requires Inv(m) && m.a.st.state == TRANSMITTING && Up(m.b.st) && Acked(m.a) && !m.a.st.signaled
    ensures NeverReported(m)
  {
    hide Inv, Acked, Traces, BringsHome, NeverReported;
    RecoverableExactly(m);
  }

  /** A new session can come to an overlooked signal, for every message: it is picked up and never reported. */
  lemma SignalOverlooked(l: Link, message: seq<byte>)
    requires Established(l) && l.ab == [] && l.ba == [] && Sendable(message)
    ensures Runs(l, OverlookedRun(message))
    ensures var f := Final(l, OverlookedRun(message));
            && f.a.st.state == TRANSMITTING && f.a.st.failureCount + 1 < MAX_FAILURE_COUNT && Up(f.b.st)
            && f.a.submitted == [message] && f.b.picked == [message] && f.a.confirmed == 0 && NeverReported(f)
  {
    var steps := OverlookedRun(message);
    assert SessionSteps(steps);
    hide Leads, Inv, Established, SessionSteps, OverlookedRun, Runs, Final, NeverReported;
    var m := OverlookedLeads(l, message);
    LeadsTo(l, steps, m);
    EstablishedInv(l);
    RunKeeps(l, steps);
    OverlookedNeverReported(m);
  }

  // ---- A lost request ----

  /** B has received and picked up `first` in the session before, and takes the next message to be number 1. */
  predicate StillHasFirst(n: Node, first: seq<byte>) {
    && n.st.state == CONNECTED && n.call == Idle && n.picked == [first]
    && n.st.recvNumber == 1 && n.st.extraction == [] && !n.st.complete
  }

  /** A's send has failed although the message was picked up; a late answer heads its incoming channel. */
  predicate SendFailed(l: Link, first: seq<byte>) {
    && l.a.st.state == DISCONNECTED && l.a.call == Idle && StillHasFirst(l.b, first)
    && |l.ab| == 2 && |l.ba| == 2 && IsConnAck(l.ba[0])
  }

  predicate RequestLost(l: Link, first: seq<byte>) {
    && AwaitsAnswer(l) && !l.a.st.signaled && StillHasFirst(l.b, first)
    && l.ab == [] && |l.ba| == 2 && IsConnAck(l.ba[0])
  }

  predicate AloneConnected(l: Link, first: seq<byte>) {
    && Restart(l.a) && l.a.st.state == CONNECTED && StillHasFirst(l.b, first) && l.ab == [] && l.ba == []
  }

  function FirstSendSteps(first: seq<byte>): seq<Step> {
    [Step(A, SendBegin(first))] + [Step(B, Deliver)] + [Step(B, Fetch)] + [Step(A, SendWake(true))]
    + [Step(A, SendWake(true))] + [Step(A, SendWake(true))]
  }

  lemma FirstSendFails(l: Link, first: seq<byte>) returns (m: Link)
    requires Established(l) && l.ab == [] && l.ba == [CONN_ACK_PACKET] && Sendable(first)
    ensures Leads(l, FirstSendSteps(first), m) && SendFailed(m, first) && m.a.connects == l.a.connects
  {
    var l1 := Next(l, Step(A, SendBegin(first)));
    var l2 := Next(l1, Step(B, Deliver));
    var l3 := Next(l2, Step(B, Fetch));
    var l4 := Next(l3, Step(A, SendWake(true)));
    var l5 := Next(l4, Step(A, SendWake(true)));
    m := Next(l5, Step(A, SendWake(true)));
    hide Enabled, Next, Leads;
    Leads1(l, Step(A, SendBegin(first)));
    var steps := [Step(A, SendBegin(first))];
    LeadsFurther(l, steps, l1, Step(B, Deliver));
    steps := steps + [Step(B, Deliver)];
    LeadsFurther(l, steps, l2, Step(B, Fetch));
    steps := steps + [Step(B, Fetch)];
    LeadsFurther(l, steps, l3, Step(A, SendWake(true)));
    steps := steps + [Step(A, SendWake(true))];
    LeadsFurther(l, steps, l4, Step(A, SendWake(true)));
    steps := steps + [Step(A, SendWake(true))];
    LeadsFurther(l, steps, l5, Step(A, SendWake(true)));
  }

  function RequestLostSteps(): seq<Step> {
    [Step(A, ConnectBegin)] + [Step(B, Lose(2))] + [Step(B, Lose(1))] + [Step(B, Lose(0))]
  }

  lemma RequestIsLost(l: Link, first: seq<byte>) returns (m: Link)
    requires SendFailed(l, first)
    ensures Leads(l, RequestLostSteps(), m) && RequestLost(m, first) && m.a.connects == l.a.connects
  {
    var l1 := Next(l, Step(A, ConnectBegin));
    var l2 := Next(l1, Step(B, Lose(2)));
    var l3 := Next(l2, Step(B, Lose(1)));
    m := Next(l3, Step(B, Lose(0)));
    hide Enabled, Next, Leads;
    Leads1(l, Step(A, ConnectBegin));
    var steps := [Step(A, ConnectBegin)];
    LeadsFurther(l, steps, l1, Step(B, Lose(2)));
    steps := steps + [Step(B, Lose(2))];
    LeadsFurther(l, steps, l2, Step(B, Lose(1)));
    steps := steps + [Step(B, Lose(1))];
    LeadsFurther(l, steps, l3, Step(B, Lose(0)));
  }

  function LateAnswerTakenSteps(): seq<Step> {
    [Step(A, Deliver)] + [Step(A, ConnectWake(false))] + [Step(A, Lose(0))]
  }

  lemma LateAnswerTaken(l: Link, first: seq<byte>) returns (m: Link)
    requires RequestLost(l, first)
    ensures Leads(l, LateAnswerTakenSteps(), m) && AloneConnected(m, first) && m.a.connects == l.a.connects + [DC_OK]
  {
    var l1 := Next(l, Step(A, Deliver));
    var l2 := Next(l1, Step(A, ConnectWake(false)));
    m := Next(l2, Step(A, Lose(0)));
    hide Enabled, Next, Leads;
    Leads1(l, Step(A, Deliver));
    var steps := [Step(A, Deliver)];
    LeadsFurther(l, steps, l1, Step(A, ConnectWake(false)));
    steps := steps + [Step(A, ConnectWake(false))];
    LeadsFurther(l, steps, l2, Step(A, Lose(0)));
  }

  function SecondSendSteps(second: seq<byte>): seq<Step> {
    [Step(A, SendBegin(second))] + [Step(B, Deliver)] + [Step(A, Deliver)] + [Step(A, SendWake(false))]
  }

  /** B takes the new message for a copy of the old one and acknowledges it. */
  lemma SecondTakenForFirst(l: Link, first: seq<byte>, second: seq<byte>) returns (m: Link)
    requires AloneConnected(l, first) && Sendable(second)
    ensures Leads(l, SecondSendSteps(second), m)
    ensures m.a.submitted == [second] && m.a.confirmed == 1 && m.b.picked == [first] && m.a.connects == l.a.connects
  {
    var l1 := Next(l, Step(A, SendBegin(second)));
    var l2 := Next(l1, Step(B, Deliver));
    var l3 := Next(l2, Step(A, Deliver));
    m := Next(l3, Step(A, SendWake(false)));
    hide Enabled, Next, Leads;
    Leads1(l, Step(A, SendBegin(second)));
    var steps := [Step(A, SendBegin(second))];
    LeadsFurther(l, steps, l1, Step(B, Deliver));
    steps := steps + [Step(B, Deliver)];
    LeadsFurther(l, steps, l2, Step(A, Deliver));
    steps := steps + [Step(A, Deliver)];
    LeadsFurther(l, steps, l3, Step(A, SendWake(false)));
  }

  function LostRequestRun(first: seq<byte>, second: seq<byte>): seq<Step> {
    FirstSendSteps(first) + RequestLostSteps() + LateAnswerTakenSteps() + SecondSendSteps(second)
  }

  lemma TheLostRun(first: seq<byte>, second: seq<byte>)
    ensures LostRequestRun(first, second) ==
            FirstSendSteps(first) + RequestLostSteps() + LateAnswerTakenSteps() + SecondSendSteps(second)
  {
  }

  lemma NotReceived(l: Link, first: seq<byte>, second: seq<byte>)
    requires l.b.picked == [first] && l.a.submitted == [second] && l.a.confirmed == 1 && first != second
    ensures !ConfirmedArePicked(l)
  {
    assert l.a.submitted[..1][0] != l.b.picked[0];
  }

  /** Without the condition on older answers, when the request itself is lost: from any new session with a late answer
      under way, as simultaneous connects leave one behind, and for every two different messages, dcConnect returns
      DC_OK although the peer never hears of it, and then a send returns DC_OK for a message never picked up. */
  lemma LostRequestBreaksSession(l: Link, first: seq<byte>, second: seq<byte>)
    requires Established(l) && l.ab == [] && l.ba == [CONN_ACK_PACKET]
    requires Sendable(first) && Sendable(second) && first != second
    ensures Runs(l, LostRequestRun(first, second))
    ensures var f := Final(l, LostRequestRun(first, second));
            && f.a.connects == l.a.connects + [DC_OK]
            && f.a.submitted == [second] && f.a.confirmed == 1 && f.b.picked == [first]
            && !ConfirmedArePicked(f)
  {
    hide *;
    var l1 := FirstSendFails(l, first);
    var l2 := RequestIsLost(l1, first);
    var l3 := LateAnswerTaken(l2, first);
    var l4 := SecondTakenForFirst(l3, first, second);
    LeadsOn(l, FirstSendSteps(first), l1, RequestLostSteps(), l2);
    LeadsOn(l, FirstSendSteps(first) + RequestLostSteps(), l2, LateAnswerTakenSteps(), l3);
    LeadsOn(l, FirstSendSteps(first) + RequestLostSteps() + LateAnswerTakenSteps(), l3, SecondSendSteps(second), l4);
    NotReceived(l4, first, second);
    TheLostRun(first, second);
    LeadsTo(l, LostRequestRun(first, second), l4);
  }
}
