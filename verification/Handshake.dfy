/** Establishing a session: one station connects, whatever is under way and whatever the peer is doing. */
module Handshake {
  import opened Fcs
  import opened Control
  import opened Station
  import opened Link
  import opened Session

  /** A frame that ends the wait of dcConnect. */
  predicate IsAnswer(f: Packet) { IsConn(f) || IsConnAck(f) }

  /** A is about to connect. The channels may hold anything: frames of earlier sessions, and requests and answers of
      earlier attempts. The peer may be connected or not, idle, sending or connecting. */
  predicate BeforeConnect(l: Link) {
    l.a.st.state == DISCONNECTED && l.a.call == Idle && Settled(l.b)
  }

  predicate AwaitsAnswer(l: Link) { l.a.st.state == CONNECTING && l.a.call == Connecting }

  // ---- What becomes of the request ----

  /** The request is the last frame of its channel; or lost; or handled, and so many frames at the head of the other
      channel were sent before that. */
  datatype Request = UnderWay | Lost | Handled(stale: nat)

  function Track(l: Link, r: Request, s: Step): Request {
    match r
    case UnderWay =>
      if s == Step(B, Deliver) && |l.ab| == 1 then Handled(|l.ba|)
      else if s.side == B && s.move.Lose? && s.move.at + 1 == |l.ab| then Lost
      else r
    case Lost => r
    case Handled(n) =>
      if n > 0 && (s == Step(A, Deliver) || (s.side == A && s.move.Lose? && s.move.at < n)) then Handled(n - 1) else r
  }

  /** A frame of the peer's new session. */
  predicate IsNew(f: Packet, sub: seq<seq<byte>>) { IsData(f) && |sub| == 1 && Copy(f, 0, sub) }

  predicate AllNew(ch: seq<Packet>, sub: seq<seq<byte>>) { forall i :: 0 <= i < |ch| ==> IsNew(ch[i], sub) }

  /** The answer, unless it has arrived or is lost, and then frames of the new session only. */
  predicate AnswerThenNew(ch: seq<Packet>, sub: seq<seq<byte>>) {
    ch == [] || ((IsConnAck(ch[0]) || IsNew(ch[0], sub)) && AllNew(ch[1..], sub))
  }

  /** The peer has restarted, or its own dcConnect will when it returns: nothing received, at most one message submitted
      and none confirmed. */
  predicate FreshPeer(n: Node) {
    && SenderOk(n, 0) && n.picked == [] && n.st.recvNumber == 0 && n.st.extraction == [] && !n.st.complete
  }

  predicate Handshaking(l: Link, r: Request, before: nat) {
    && AwaitsAnswer(l) && Settled(l.b) && before <= l.b.restarts
    && match r
       case UnderWay => !l.a.st.signaled && l.ab != [] && IsConn(l.ab[|l.ab| - 1])
       case Lost => !l.a.st.signaled
       case Handled(n) =>
         && l.ab == [] && before < l.b.restarts && FreshPeer(l.b)
         && n <= |l.ba| && AnswerThenNew(l.ba[n..], l.b.submitted)
         && (l.a.st.signaled ==> n == 0 && AllNew(l.ba, l.b.submitted))
  }

  /** The conditions on a step while dcConnect waits: the peer is in no send call when it handles the request, and does
      not connect anew after that; and A is handed no request or answer older than that. */
  predicate Undisturbed(l: Link, r: Request, s: Step) {
    && (s == Step(B, Deliver) && r == UnderWay && |l.ab| == 1 ==> !l.b.call.Sending?)
    && (s == Step(B, ConnectBegin) && r.Handled? ==> l.b.st.state == CONNECTED)
    && (s == Step(A, Deliver) && l.ba != [] && IsAnswer(l.ba[0]) ==> r == Handled(0))
  }

  lemma BeginHandshake(l: Link)
    requires BeforeConnect(l)
    ensures Enabled(l, Step(A, ConnectBegin)) && Handshaking(Next(l, Step(A, ConnectBegin)), UnderWay, l.b.restarts)
  {
  }

  /** Whatever is not an answer is ignored while the station waits for one. */
  lemma AwaitingHandler(st: Station, f: Packet)
    requires st.state == CONNECTING
    ensures !IsAnswer(f) ==> HandleFrame(st, f) == (st, [])
    ensures IsConnAck(f) ==> HandleFrame(st, f) == (st.(lastResponse := RESP_OK, signaled := true), [])
  {
  }

  lemma Shorter(ch: seq<Packet>, n: nat)
    requires ch != []
    ensures 0 < n <= |ch| ==> ch[1..][n - 1..] == ch[n..]
    ensures ch[0..] == ch && ch[1..][0..] == ch[1..]
  {
  }

  lemma OwnDelivery(l: Link, r: Request, before: nat)
    requires Handshaking(l, r, before) && l.ba != [] && Undisturbed(l, r, Step(A, Deliver))
    ensures Handshaking(Apply(l, Deliver), Track(l, r, Step(A, Deliver)), before)
  {
    hide FreshPeer, Settled, HandleFrame, Copy;
    AwaitingHandler(l.a.st, l.ba[0]);
    if r.Handled? {
      Shorter(l.ba, r.stale);
    }
    assert l.ab + [] == l.ab;
  }

  /** The caller's application can do nothing else while it waits. */
  lemma NothingElse(l: Link, m: Move)
    requires AwaitsAnswer(l) && MayMove(l, m) && !m.Deliver? && !m.Lose? && !m.ConnectWake?
    ensures Apply(l, m) == l
  {
    assert l.ab + [] == l.ab;
  }

  lemma OwnFrameLost(l: Link, r: Request, at: nat, before: nat)
    requires Handshaking(l, r, before) && at < |l.ba|
    ensures Handshaking(Apply(l, Lose(at)), Track(l, r, Step(A, Lose(at))), before)
  {
    if r.Handled? {
      OwnLoss(l.ba, at, r.stale, l.b.submitted);
    }
    hide FreshPeer, Settled, AnswerThenNew, AllNew;
  }

  lemma OwnStepKeeps(l: Link, r: Request, m: Move, before: nat)
    requires Handshaking(l, r, before) && MayMove(l, m) && !m.ConnectWake? && Undisturbed(l, r, Step(A, m))
    ensures Handshaking(Apply(l, m), Track(l, r, Step(A, m)), before)
  {
    if m.Deliver? {
      OwnDelivery(l, r, before);
    } else if m.Lose? {
      OwnFrameLost(l, r, m.at, before);
    } else {
      NothingElse(l, m);
    }
    hide FreshPeer, Settled, AnswerThenNew, AllNew, Apply, Undisturbed;
  }

  lemma OwnLoss(ch: seq<Packet>, at: nat, n: nat, sub: seq<seq<byte>>)
    requires at < |ch| && n <= |ch| && AnswerThenNew(ch[n..], sub)
    ensures at < n ==> Removed(ch, at)[n - 1..] == ch[n..]
    ensures at >= n ==> AnswerThenNew(Removed(ch, at)[n..], sub)
    ensures AllNew(ch, sub) ==> AllNew(Removed(ch, at), sub)
  {
    hide IsNew;
    var r := Removed(ch, at);
    assert forall i :: 0 <= i < |r| ==> r[i] == if i < at then ch[i] else ch[i + 1];
    if at < n {
      assert r[n - 1..] == ch[n..];
    } else {
      assert r[n..] == Removed(ch[n..], at - n);
      TailLoss(ch[n..], at - n, sub);
    }
  }

  lemma TailLoss(ch: seq<Packet>, at: nat, sub: seq<seq<byte>>)
    requires at < |ch| && AnswerThenNew(ch, sub)
    ensures AnswerThenNew(Removed(ch, at), sub)
  {
    hide IsNew;
    var t, r := ch[1..], Removed(ch, at);
    if at == 0 {
      assert r == t;
      assert r != [] ==> forall i :: 0 <= i < |r[1..]| ==> r[1..][i] == t[i + 1];
    } else {
      assert r[0] == ch[0] && r[1..] == Removed(t, at - 1);
    }
  }

  /** While the request is under way or lost, what the peer does is of no concern, but for handling the request. */
  lemma OldPeerStep(l: Link, r: Request, m: Move, before: nat)
    requires Handshaking(l, r, before) && !r.Handled?
    requires MayMove(Swap(l), m) && Undisturbed(l, r, Step(B, m))
    ensures Handshaking(Next(l, Step(B, m)), Track(l, r, Step(B, m)), before)
  {
    SettledKept(Swap(l), m);
    if r == UnderWay && m.Deliver? && |l.ab| == 1 {
      RequestHandled(l, before);
    } else {
      hide HandleFrame, Settled, FreshPeer;
    }
  }

  lemma RequestHandled(l: Link, before: nat)
    requires Handshaking(l, UnderWay, before) && |l.ab| == 1 && !l.b.call.Sending?
    ensures Handshaking(Next(l, Step(B, Deliver)), Handled(|l.ba|), before)
  {
    assert (l.ba + [CONN_ACK_PACKET])[|l.ba|..] == [CONN_ACK_PACKET];
  }

  lemma FreshPeerStep(l: Link, r: Request, m: Move, before: nat)
    requires Handshaking(l, r, before) && r.Handled?
    requires MayMove(Swap(l), m) && Undisturbed(l, r, Step(B, m))
    ensures Handshaking(Next(l, Step(B, m)), Track(l, r, Step(B, m)), before)
  {
    SettledKept(Swap(l), m);
    FreshPeerSends(l, m);
    hide FreshPeer, Settled, AnswerThenNew, AllNew, IsNew, Apply, MayMove;
    var l' := Next(l, Step(B, m));
    if l'.ba != l.ba {
      var f :| l'.ba == l.ba + [f] && IsNew(f, l'.b.submitted)
               && (l.b.submitted == [] || l'.b.submitted == l.b.submitted);
      TailGrows(l.ba, f, r.stale);
      NewGrows(l.ba[r.stale..], f, l.b.submitted, l'.b.submitted);
      NewGrows(l.ba, f, l.b.submitted, l'.b.submitted);
    }
  }

  /** Whatever was new stays new, also when the first message is submitted. */
  lemma NewGrows(ch: seq<Packet>, f: Packet, sub: seq<seq<byte>>, sub': seq<seq<byte>>)
    requires IsNew(f, sub') && (sub == [] || sub' == sub)
    ensures AnswerThenNew(ch, sub) ==> AnswerThenNew(ch + [f], sub')
    ensures AllNew(ch, sub) ==> AllNew(ch + [f], sub')
  {
  }

  lemma TailGrows(ch: seq<Packet>, f: Packet, n: nat)
    requires n <= |ch|
    ensures (ch + [f])[n..] == ch[n..] + [f]
  {
  }

  /** What a restarted peer may transmit is a copy of its first message. */
  lemma FreshPeerSends(l: Link, m: Move)
    requires l.ab == [] && FreshPeer(l.b) && MayMove(Swap(l), m)
    requires m.ConnectBegin? ==> l.b.st.state == CONNECTED
    ensures var l' := Next(l, Step(B, m));
            && l'.a == l.a && l'.ab == [] && FreshPeer(l'.b) && l.b.restarts <= l'.b.restarts
            && ((l'.ba == l.ba && l'.b.submitted == l.b.submitted)
                || (exists f :: l'.ba == l.ba + [f] && IsNew(f, l'.b.submitted)
                                && (l.b.submitted == [] || l'.b.submitted == l.b.submitted)))
  {
    assert l.ba + [] == l.ba;
    match m
    case SendBegin(message) =>
      var begun := BeginSend(l.b.st, message).1;
      if begun.Waiting? {
        assert Next(l, Step(B, m)).ba == l.ba + [begun.frame];
        assert IsNew(begun.frame, Next(l, Step(B, m)).b.submitted);
      }
    case SendWake(clock) =>
      if WakeSend(l.b.st, clock).1.Retransmit? {
        assert Next(l, Step(B, m)).ba == l.ba + [l.b.call.frame];
        assert IsNew(l.b.call.frame, l.b.submitted);
      }
    case _ =>
  }

  lemma HandshakeKeeps(l: Link, r: Request, s: Step, before: nat)
    requires Handshaking(l, r, before) && Enabled(l, s) && Undisturbed(l, r, s)
    requires !(s.side == A && s.move.ConnectWake?)
    ensures Handshaking(Next(l, s), Track(l, r, s), before)
  {
    if s.side == A {
      OwnStepKeeps(l, r, s.move, before);
    } else if r.Handled? {
      hide *;
      FreshPeerStep(l, r, s.move, before);
    } else {
      OldPeerStep(l, r, s.move, before);
    }
  }

  /** A run during which A's dcConnect does not return, and which meets the conditions at every step. */
  predicate DuringConnect(l: Link, r: Request, steps: seq<Step>)
    requires Runs(l, steps)
    decreases |steps|
  {
    steps == [] ||
    (Undisturbed(l, r, steps[0]) && !(steps[0].side == A && steps[0].move.ConnectWake?)
     && DuringConnect(Next(l, steps[0]), Track(l, r, steps[0]), steps[1..]))
  }

  function TrackAll(l: Link, r: Request, steps: seq<Step>): Request
    requires Runs(l, steps)
    decreases |steps|
  {
    if steps == [] then r else TrackAll(Next(l, steps[0]), Track(l, r, steps[0]), steps[1..])
  }

  lemma {:induction false} HandshakeRun(l: Link, r: Request, steps: seq<Step>, before: nat)
    requires Handshaking(l, r, before) && Runs(l, steps) && DuringConnect(l, r, steps)
    ensures Handshaking(Final(l, steps), TrackAll(l, r, steps), before)
    decreases |steps|
  {
    hide Handshaking, Undisturbed, Enabled, Next, Track;
    if steps != [] {
      HandshakeKeeps(l, r, steps[0], before);
      HandshakeRun(Next(l, steps[0]), Track(l, r, steps[0]), steps[1..], before);
    }
  }

  /** What a successful dcConnect finds: both ends restarted from zero during the call, and nothing of the past under
      way. */
  predicate Joined(l: Link, before: nat) {
    && Restart(l.a) && l.a.st.state == CONNECTED
    && before < l.b.restarts && FreshPeer(l.b)
    && l.ab == [] && AllNew(l.ba, l.b.submitted)
  }

  /** dcConnect is about to return DC_OK. */
  predicate WillSucceed(l: Link) { l.a.call == Connecting && l.a.st.signaled }

  function Succeed(l: Link): Link
    requires WillSucceed(l)
  {
    Next(l, Step(A, ConnectWake(false)))
  }

  lemma WakeJoins(l: Link, r: Request, before: nat)
    requires Handshaking(l, r, before) && WillSucceed(l)
    ensures WakeConnect(l.a.st, false).1 == DC_OK && Joined(Succeed(l), before)
  {
    hide FreshPeer;
  }

  lemma JoinedIsSession(l: Link, before: nat)
    requires Joined(l, before)
    ensures Inv(l)
  {
  }

  /** Session establishment, from any state in which one station is disconnected and calls dcConnect: if the peer was
      in no send call when it handled the request, and no older request or answer was handed to the caller, then
      whenever dcConnect returns DC_OK both ends have restarted from zero counters, every frame still under way belongs
      to the new session, and everything proved of sessions holds. */
  lemma ConnectEstablishes(l: Link, steps: seq<Step>)
    requires BeforeConnect(l)
    requires Runs(Next(l, Step(A, ConnectBegin)), steps)
    requires DuringConnect(Next(l, Step(A, ConnectBegin)), UnderWay, steps)
    requires WillSucceed(Final(Next(l, Step(A, ConnectBegin)), steps))
    ensures var j := Succeed(Final(Next(l, Step(A, ConnectBegin)), steps));
            Joined(j, l.b.restarts) && Inv(j)
  {
    BeginHandshake(l);
    var c := Next(l, Step(A, ConnectBegin));
    hide Handshaking, Joined, Inv, BeforeConnect, WillSucceed, Apply;
    HandshakeRun(c, UnderWay, steps, l.b.restarts);
    WakeJoins(Final(c, steps), TrackAll(c, UnderWay, steps), l.b.restarts);
    JoinedIsSession(Succeed(Final(c, steps)), l.b.restarts);
  }

  /** From the request to the last message: after such a connection, every run of sends, timeouts, retransmissions,
      losses, deliveries and pick-ups delivers in order, and reports only what was picked up. */
  lemma ConnectionDelivers(l: Link, steps: seq<Step>, session: seq<Step>)
    requires BeforeConnect(l)
    requires Runs(Next(l, Step(A, ConnectBegin)), steps)
    requires DuringConnect(Next(l, Step(A, ConnectBegin)), UnderWay, steps)
    requires WillSucceed(Final(Next(l, Step(A, ConnectBegin)), steps))
    requires Runs(Succeed(Final(Next(l, Step(A, ConnectBegin)), steps)), session)
    requires SessionSteps(session)
    ensures var j := Succeed(Final(Next(l, Step(A, ConnectBegin)), steps));
            InOrder(Final(j, session)) && ConfirmedArePicked(Final(j, session))
  {
    ConnectEstablishes(l, steps);
    hide Apply, Inv, DuringConnect, InOrder, ConfirmedArePicked, WillSucceed, Succeed;
    SessionDelivers(Succeed(Final(Next(l, Step(A, ConnectBegin)), steps)), session);
  }

  // ---- The conditions are needed ----

  /** What a success finds as far as the past is concerned, whatever call the peer is in: both ends have started over
      with zero counters and nothing received, and every frame under way belongs to the new session. */
  predicate Clean(l: Link, before: nat) {
    && Restart(l.a) && l.a.st.state == CONNECTED
    && before < l.b.restarts && l.b.picked == [] && l.b.st.recvNumber == 0 && l.b.st.extraction == []
    && l.ab == [] && AllNew(l.ba, l.b.submitted)
  }

  /** However the call goes on from here, if it succeeds it leaves nothing of the past. */
  ghost predicate AlwaysClean(l: Link, r: Request, before: nat) {
    forall steps :: Runs(l, steps) && DuringConnect(l, r, steps) && WillSucceed(Final(l, steps))
                    ==> Clean(Succeed(Final(l, steps)), before)
  }

  function Losses(n: nat): seq<Step> { if n == 0 then [] else [Step(A, Lose(0))] + Losses(n - 1) }

  lemma FirstStep(l: Link, r: Request, s: Step, rest: seq<Step>)
    requires Enabled(l, s) && Undisturbed(l, r, s) && !(s.side == A && s.move.ConnectWake?)
    requires Runs(Next(l, s), rest) && DuringConnect(Next(l, s), Track(l, r, s), rest)
    ensures Runs(l, [s] + rest) && DuringConnect(l, r, [s] + rest)
    ensures Final(l, [s] + rest) == Final(Next(l, s), rest)
  {
    hide Enabled, Next, Undisturbed, Track;
    assert ([s] + rest)[1..] == rest;
  }

  /** The answer has been handed over and ends the wait; what was sent behind it is still under way. */
  predicate AnswerTaken(l: Link, f: Link, behind: seq<Packet>) {
    WillSucceed(f) && f.a.st.state == CONNECTING && f.b == l.b && f.ab == l.ab && f.ba == behind
  }

  lemma AnswerArrives(l: Link)
    requires AwaitsAnswer(l) && l.ba != [] && IsConnAck(l.ba[0])
    ensures var steps := [Step(A, Deliver)] + [];
            && Runs(l, steps) && DuringConnect(l, Handled(0), steps) && AnswerTaken(l, Final(l, steps), l.ba[1..])
  {
    var s := Step(A, Deliver);
    AwaitingHandler(l.a.st, l.ba[0]);
    assert l.ab + [] == l.ab;
    NoSteps(Next(l, s));
    assert DuringConnect(Next(l, s), Handled(0), []);
    FirstStep(l, Handled(0), s, []);
    hide HandleFrame, Runs, Final, DuringConnect;
  }

  lemma OldestLost(l: Link, n: nat)
    requires AwaitsAnswer(l) && 0 < n < |l.ba|
    ensures var s := Step(A, Lose(0));
            && Enabled(l, s) && Undisturbed(l, Handled(n), s) && Track(l, Handled(n), s) == Handled(n - 1)
            && Next(l, s).ba == l.ba[1..] && AwaitsAnswer(Next(l, s)) && Next(l, s).b == l.b && Next(l, s).ab == l.ab
  {
  }

  /** Everything older than the answer may get lost. */
  lemma {:induction false} OldFramesLost(l: Link, n: nat)
    requires AwaitsAnswer(l) && n < |l.ba| && IsConnAck(l.ba[n])
    ensures var steps := Losses(n) + ([Step(A, Deliver)] + []);
            && Runs(l, steps) && DuringConnect(l, Handled(n), steps)
            && AnswerTaken(l, Final(l, steps), l.ba[n + 1..])
    decreases n
  {
    hide Enabled, Next, Undisturbed, Track, WillSucceed, Runs, Final, DuringConnect, AwaitsAnswer;
    var last := [Step(A, Deliver)] + [];
    if n == 0 {
      AnswerArrives(l);
      assert Losses(0) + last == last;
    } else {
      var s := Step(A, Lose(0));
      OldestLost(l, n);
      var l' := Next(l, s);
      OldFramesLost(l', n - 1);
      assert l'.ba[n..] == l.ba[n + 1..];
      FirstStep(l, Handled(n), s, Losses(n - 1) + last);
      assert Losses(n) + last == [s] + (Losses(n - 1) + last);
    }
  }

  lemma FreePeerClean(m: Link, r: Request, before: nat)
    requires Handshaking(m, r, before)
    ensures AlwaysClean(m, r, before)
  {
    hide Handshaking, WillSucceed, DuringConnect, Runs, Final;
    forall steps | Runs(m, steps) && DuringConnect(m, r, steps) && WillSucceed(Final(m, steps))
      ensures Clean(Succeed(Final(m, steps)), before)
    {
      HandshakeRun(m, r, steps, before);
      WakeJoins(Final(m, steps), TrackAll(m, r, steps), before);
    }
  }

  /** The peer wakes by the clock and sends its old message again; then everything older than the answer gets lost. */
  function BusySteps(n: nat): seq<Step> {
    [Step(B, SendWake(true))] + (Losses(n) + ([Step(A, Deliver)] + []))
  }

  /** The peer has handled the request in a send call: its link is reset, and it has not noticed. */
  predicate PeerCut(m: Link, n: nat, frame: Packet) {
    && AwaitsAnswer(m) && m.ab == [] && |m.ba| == n + 1 && m.ba[n] == CONN_ACK_PACKET
    && m.b.call == Sending(frame) && IsData(frame) && Interrupted(m.b) && m.b.st.failureCount == 0
    && m.b.submitted == [] && m.b.confirmed == 0 && m.b.picked == []
    && m.b.st.recvNumber == 0 && m.b.st.extraction == [] && !m.b.st.complete
  }

  lemma RequestCuts(l: Link, before: nat)
    requires Handshaking(l, UnderWay, before) && |l.ab| == 1 && l.b.call.Sending?
    ensures PeerCut(Next(l, Step(B, Deliver)), |l.ba|, l.b.call.frame)
  {
  }

  lemma CutPeerRepeats(m: Link, n: nat, frame: Packet)
    requires PeerCut(m, n, frame)
    ensures var s := Step(B, SendWake(true));
            && Enabled(m, s) && Undisturbed(m, Handled(n), s) && Track(m, Handled(n), s) == Handled(n)
            && AwaitsAnswer(Next(m, s)) && Next(m, s).ab == [] && Next(m, s).ba == m.ba + [frame]
            && Next(m, s).b.submitted == [] && Next(m, s).b.picked == [] && Next(m, s).a == m.a
  {
  }

  /** An interrupted peer can put its old message behind the answer. */
  lemma OldMessageFollows(m: Link, n: nat, frame: Packet)
    requires PeerCut(m, n, frame)
    ensures var steps := BusySteps(n);
            && Runs(m, steps) && DuringConnect(m, Handled(n), steps) && WillSucceed(Final(m, steps))
            && Final(m, steps).a.st.state == CONNECTING && Final(m, steps).ba == [frame]
            && Final(m, steps).b.submitted == [] && Final(m, steps).b.picked == []
  {
    var s := Step(B, SendWake(true));
    CutPeerRepeats(m, n, frame);
    var m' := Next(m, s);
    assert m'.ba[n] == CONN_ACK_PACKET && m'.ba[n + 1..] == [frame];
    hide Enabled, Next, Undisturbed, Track, WillSucceed, Runs, Final, DuringConnect, AwaitsAnswer, PeerCut;
    OldFramesLost(m', n);
    FirstStep(m, Handled(n), s, Losses(n) + ([Step(A, Deliver)] + []));
  }

  lemma CutPeerSpoils(m: Link, n: nat, frame: Packet, before: nat)
    requires PeerCut(m, n, frame)
    ensures !AlwaysClean(m, Handled(n), before)
  {
    OldMessageFollows(m, n, frame);
    hide Runs, DuringConnect, PeerCut, HandleFrame;
    var f := Final(m, BusySteps(n));
    var j := Succeed(f);
    assert j.ba == [frame] && j.b == f.b && !IsNew(j.ba[0], j.b.submitted);
  }

  /** The guard of the source, exactly: from the moment the peer handles the request, every success of the call leaves
      nothing of the past if and only if that guard did not find the peer transmitting, and no earlier request had
      interrupted it. Otherwise an old message of the peer can be under way behind its answer. */
  lemma PeerMustBeFree(l: Link, before: nat)
    requires Handshaking(l, UnderWay, before) && |l.ab| == 1
    ensures AlwaysClean(Next(l, Step(B, Deliver)), Handled(|l.ba|), before)
            <==> l.b.st.state != TRANSMITTING && !Interrupted(l.b)
  {
    var m := Next(l, Step(B, Deliver));
    if l.b.call.Sending? {
      RequestCuts(l, before);
      hide AlwaysClean, Next;
      CutPeerSpoils(m, |l.ba|, l.b.call.frame, before);
    } else {
      RequestHandled(l, before);
      hide AlwaysClean, Next;
      FreePeerClean(m, Handled(|l.ba|), before);
    }
  }

  // ---- Older answers ----

  /** What an answer handed over at this point finds. Unless the request was lost, a new session exactly if the peer had
      handled it and nothing but frames of the new session is behind the answer. If it was lost, an older request, or a
      dcConnect of its own, must have made the peer start over since the call began, nothing more may be under way to
      it, and it must still be as that left it. */
  predicate AnswerFits(l: Link, r: Request, before: nat)
    requires l.ba != []
  {
    && IsConnAck(l.ba[0]) && AllNew(l.ba[1..], l.b.submitted)
    && match r
       case UnderWay => false
       case Lost => before < l.b.restarts && l.ab == [] && FreshPeer(l.b)
       case Handled(_) => true
  }

  /** Any request or answer handed to the caller ends the call with DC_OK, and with a new session exactly if it fits. */
  lemma AnswerExactly(l: Link, r: Request, before: nat)
    requires Handshaking(l, r, before) && l.ba != [] && IsAnswer(l.ba[0])
    ensures var m := Next(l, Step(A, Deliver));
            && WillSucceed(m) && WakeConnect(m.a.st, false).1 == DC_OK
            && (Joined(Succeed(m), before) <==> AnswerFits(l, r, before))
  {
    assert l.ab + [] == l.ab;
    hide FreshPeer, AnswerThenNew, Settled, AllNew;
  }

  /** In particular an answer to an earlier attempt, while the request, or the answer to it, is under way; or once the
      request was lost and the peer has not started over. */
  lemma OlderAnswerSpoils(l: Link, r: Request, before: nat)
    requires Handshaking(l, r, before) && l.ba != [] && IsAnswer(l.ba[0])
    requires match r
             case UnderWay => true
             case Lost => l.b.restarts == before
             case Handled(n) => 0 < n < |l.ba| && IsConnAck(l.ba[n])
    ensures var m := Next(l, Step(A, Deliver)); WillSucceed(m) && !Joined(Succeed(m), before)
  {
    AnswerExactly(l, r, before);
    if r.Handled? {
      assert l.ba[1..][r.stale - 1] == l.ba[r.stale] && !IsNew(l.ba[r.stale], l.b.submitted);
    }
    hide Handshaking, Joined, WillSucceed, Next;
  }

  // A lost request: when no other request of A is under way, and the peer completes no dcConnect of its own, the peer
  // does not start over, so every answer that arrives is an older one.

  predicate NoConn(ch: seq<Packet>) { forall i :: 0 <= i < |ch| ==> !IsConn(ch[i]) }

  /** A's dcConnect goes on waiting, and the peer completes none. */
  predicate StillWaits(l: Link, s: Step) {
    && !(s == Step(A, Deliver) && l.ba != [] && IsAnswer(l.ba[0]))
    && !s.move.ConnectWake?
  }

  predicate WaitsThroughout(l: Link, steps: seq<Step>)
    requires Runs(l, steps)
    decreases |steps|
  {
    steps == [] || (StillWaits(l, steps[0]) && WaitsThroughout(Next(l, steps[0]), steps[1..]))
  }

  /** The request is the only one in its channel, and the peer has started over exactly if it has handled it. */
  predicate OnlyRequest(l: Link, r: Request, before: nat) {
    && AwaitsAnswer(l) && !l.a.st.signaled
    && match r
       case UnderWay =>
         l.ab != [] && IsConn(l.ab[|l.ab| - 1]) && NoConn(l.ab[..|l.ab| - 1]) && l.b.restarts == before
       case Lost => NoConn(l.ab) && l.b.restarts == before
       case Handled(_) => NoConn(l.ab) && l.b.restarts == before + 1
  }

  lemma NoConnRemoved(ch: seq<Packet>, at: nat)
    requires at < |ch|
    ensures NoConn(ch) ==> NoConn(Removed(ch, at)) && !IsConn(ch[0])
    ensures Removed(ch, 0) == ch[1..]
  {
    hide IsConn;
    var r := Removed(ch, at);
    assert forall i :: 0 <= i < |r| ==> r[i] == if i < at then ch[i] else ch[i + 1];
  }

  /** A channel that ends with the request, when a frame is taken from it. */
  lemma RequestRemoved(ch: seq<Packet>, at: nat)
    requires at < |ch| && NoConn(ch[..|ch| - 1])
    ensures at + 1 == |ch| ==> NoConn(Removed(ch, at))
    ensures at + 1 < |ch| ==>
              var r := Removed(ch, at);
              r != [] && NoConn(r[..|r| - 1]) && r[|r| - 1] == ch[|ch| - 1] && !IsConn(ch[0])
  {
    hide IsConn;
    var p := ch[..|ch| - 1];
    if at + 1 == |ch| {
      assert Removed(ch, at) == p;
    } else {
      NoConnRemoved(p, at);
      assert Removed(ch, at) == Removed(p, at) + [ch[|ch| - 1]];
      assert ch[0] == p[0];
    }
  }

  lemma OnlyRequestOwn(l: Link, r: Request, m: Move, before: nat)
    requires OnlyRequest(l, r, before) && MayMove(l, m) && StillWaits(l, Step(A, m))
    ensures OnlyRequest(Apply(l, m), Track(l, r, Step(A, m)), before)
  {
    if m.Deliver? {
      AwaitingHandler(l.a.st, l.ba[0]);
      assert l.ab + [] == l.ab;
      assert Apply(l, m) == l.(ba := l.ba[1..]);
    } else if m.Lose? {
      assert Apply(l, m).ab == l.ab;
    } else {
      NothingElse(l, m);
    }
    hide HandleFrame, NoConn, Apply;
  }

  /** What a step of the peer means to A: frames leave A's channel, and the peer may start over. */
  lemma PeerTakes(l: Link, m: Move)
    requires MayMove(Swap(l), m)
    ensures var l' := Next(l, Step(B, m));
            && l'.a == l.a && l'.b.restarts == l.b.restarts + Restarts(l, Step(B, m))
            && l'.ab == match m
                        case Deliver => l.ab[1..]
                        case Lose(i) => Removed(l.ab, i)
                        case _ => l.ab
  {
    RestartsCounted(l, Step(B, m));
    hide HandleFrame;
  }

  lemma HeadTaken(l: Link, l': Link, before: nat)
    requires OnlyRequest(l, UnderWay, before) && l'.a == l.a && l'.ab == l.ab[1..]
    requires l'.b.restarts == l.b.restarts + if IsConn(l.ab[0]) then 1 else 0
    ensures OnlyRequest(l', if |l.ab| == 1 then Handled(|l.ba|) else UnderWay, before)
  {
    hide NoConn, IsConn;
    NoConnRemoved(l.ab, 0);
    RequestRemoved(l.ab, 0);
  }

  lemma RequestNearer(l: Link, before: nat)
    requires OnlyRequest(l, UnderWay, before)
    ensures OnlyRequest(Next(l, Step(B, Deliver)), Track(l, UnderWay, Step(B, Deliver)), before)
  {
    assert l.ab != [];
    hide Apply, OnlyRequest;
    PeerTakes(l, Deliver);
    HeadTaken(l, Next(l, Step(B, Deliver)), before);
  }

  lemma RequestOrOtherLost(l: Link, at: nat, before: nat)
    requires OnlyRequest(l, UnderWay, before) && at < |l.ab|
    ensures OnlyRequest(Next(l, Step(B, Lose(at))), Track(l, UnderWay, Step(B, Lose(at))), before)
  {
    hide Apply, NoConn;
    PeerTakes(l, Lose(at));
    RequestRemoved(l.ab, at);
  }

  lemma OnlyRequestPeer(l: Link, r: Request, m: Move, before: nat)
    requires OnlyRequest(l, r, before) && MayMove(Swap(l), m) && StillWaits(l, Step(B, m))
    ensures OnlyRequest(Next(l, Step(B, m)), Track(l, r, Step(B, m)), before)
  {
    if r == UnderWay && m.Deliver? {
      RequestNearer(l, before);
    } else if r == UnderWay && m.Lose? {
      RequestOrOtherLost(l, m.at, before);
    } else {
      hide Apply, NoConn, HandleFrame;
      PeerTakes(l, m);
      if m.Deliver? || m.Lose? {
        NoConnRemoved(l.ab, if m.Deliver? then 0 else m.at);
      }
    }
  }

  lemma {:induction false} OnlyRequestRun(l: Link, r: Request, steps: seq<Step>, before: nat)
    requires OnlyRequest(l, r, before) && Runs(l, steps) && WaitsThroughout(l, steps)
    ensures OnlyRequest(Final(l, steps), TrackAll(l, r, steps), before)
    decreases |steps|
  {
    hide OnlyRequest, Apply, MayMove, Track, StillWaits;
    if steps != [] {
      if steps[0].side == A {
        OnlyRequestOwn(l, r, steps[0].move, before);
      } else {
        OnlyRequestPeer(l, r, steps[0].move, before);
      }
      OnlyRequestRun(Next(l, steps[0]), Track(l, r, steps[0]), steps[1..], before);
    }
  }

  /** A lost request is never answered: in every run in which no other request of A was under way and the peer completes
      no dcConnect of its own, the peer has started over if and only if it has handled the request; and if it has not,
      whatever request or answer is handed to the caller next makes dcConnect return DC_OK without a new session. */
  lemma LostRequestNeverJoins(l: Link, steps: seq<Step>)
    requires BeforeConnect(l) && NoConn(l.ab)
    requires Runs(Next(l, Step(A, ConnectBegin)), steps) && WaitsThroughout(Next(l, Step(A, ConnectBegin)), steps)
    ensures var c := Next(l, Step(A, ConnectBegin));
            var f, r := Final(c, steps), TrackAll(c, UnderWay, steps);
            && (l.b.restarts < f.b.restarts <==> r.Handled?)
            && (!r.Handled? && f.ba != [] && IsAnswer(f.ba[0]) ==>
                  var m := Next(f, Step(A, Deliver));
                  WillSucceed(m) && WakeConnect(m.a.st, false).1 == DC_OK && !Joined(Succeed(m), l.b.restarts))
  {
    var c := Next(l, Step(A, ConnectBegin));
    assert OnlyRequest(c, UnderWay, l.b.restarts) by {
      assert c.ab[..|c.ab| - 1] == l.ab;
    }
    hide BeforeConnect, NoConn, Track;
    OnlyRequestRun(c, UnderWay, steps, l.b.restarts);
    var f := Final(c, steps);
    if !TrackAll(c, UnderWay, steps).Handled? && f.ba != [] && IsAnswer(f.ba[0]) {
      AnswerEndsWait(f, l.b.restarts);
    }
  }

  lemma AnswerEndsWait(f: Link, before: nat)
    requires AwaitsAnswer(f) && f.ba != [] && IsAnswer(f.ba[0]) && f.b.restarts == before
    ensures var m := Next(f, Step(A, Deliver));
            WillSucceed(m) && WakeConnect(m.a.st, false).1 == DC_OK && !Joined(Succeed(m), before)
  {
  }

  // ---- A sender interrupted by a request ----

  /** A send call whose link was reset by a request, or what is left after it has returned: the link dropped. */
  predicate CutOff(n: Node) {
    && n.confirmed == 0
    && match n.call
       case Sending(_) => Interrupted(n)
       case Idle => n.st.state == DISCONNECTED
       case Connecting => false
  }

  lemma InterruptionCutsOff(l: Link)
    requires l.ba != [] && IsConn(l.ba[0]) && l.a.call.Sending? && l.a.st.state == TRANSMITTING
    ensures CutOff(Apply(l, Deliver).a)
  {
  }

  lemma CutOffMove(l: Link, m: Move)
    requires MayMove(l, m) && CutOff(l.a) && !m.ConnectBegin? && (m.Deliver? ==> !IsConn(l.ba[0]))
    ensures CutOff(Apply(l, m).a)
    ensures Apply(l, m).a.submitted == l.a.submitted
  {
  }

  /** No further request reaches the station, and it does not connect of its own. */
  predicate Unasked(l: Link, s: Step) {
    s.side == A ==> !s.move.ConnectBegin? && (s.move.Deliver? && l.ba != [] ==> !IsConn(l.ba[0]))
  }

  predicate AllUnasked(l: Link, steps: seq<Step>)
    requires Runs(l, steps)
    decreases |steps|
  {
    steps == [] || (Unasked(l, steps[0]) && AllUnasked(Next(l, steps[0]), steps[1..]))
  }

  lemma {:induction false} CutOffForGood(l: Link, steps: seq<Step>)
    requires CutOff(l.a) && Runs(l, steps) && AllUnasked(l, steps)
    ensures CutOff(Final(l, steps).a)
    decreases |steps|
  {
    hide CutOff, Apply;
    if steps != [] {
      if steps[0].side == A {
        CutOffMove(l, steps[0].move);
      } else {
        PeerMoves(l, steps[0].move);
      }
      CutOffForGood(Next(l, steps[0]), steps[1..]);
    }
  }

  lemma PeerMoves(l: Link, m: Move)
    requires MayMove(Swap(l), m)
    ensures Apply(Swap(l), m).b == l.a
  {
  }

  /** A station that was transmitting when it handled a request: in every run without a further request its call never
      returns DC_OK, whether it is woken by the signal or by the clock; and once it has returned the link is down. */
  lemma InterruptedForGood(l: Link, steps: seq<Step>)
    requires l.a.call.Sending? && l.a.st.state == TRANSMITTING && l.ba != [] && IsConn(l.ba[0])
    requires var m := Next(l, Step(A, Deliver)); Runs(m, steps) && AllUnasked(m, steps)
    ensures var f := Final(Next(l, Step(A, Deliver)), steps);
            && f.a.confirmed == 0
            && (f.a.call != Idle || f.a.st.state == DISCONNECTED)
            && (f.a.call == Idle || f.a.call.Sending?)
  {
    InterruptionCutsOff(l);
    hide Apply, MayMove;
    assert Next(l, Step(A, Deliver)) == Apply(l, Deliver);
    CutOffForGood(Next(l, Step(A, Deliver)), steps);
  }
}
