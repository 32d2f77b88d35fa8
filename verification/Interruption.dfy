/** What a peer that was interrupted in a send call can do to the new session: nothing, unless its old message bears
    the number the new session begins with. */
module Interruption {
  import opened Fcs
  import opened Control
  import opened Station
  import opened Link
  import opened Session
  import opened Handshake

  /** The peer's call goes on with its old frame, or has returned; it submits nothing new. */
  predicate OldCall(n: Node, frame: Packet) {
    n.submitted == [] && CutOff(n) && (n.call.Sending? ==> n.call.frame == frame)
  }

  /** Of the DATA frames under way only copies of the old one. */
  predicate OnlyOld(ch: seq<Packet>, frame: Packet) {
    forall i :: 0 <= i < |ch| && IsData(ch[i]) ==> ch[i] == frame
  }

  lemma OldCallMove(n: Node, l: Link, m: Move, frame: Packet)
    requires l.a == n && MayMove(l, m) && OldCall(n, frame) && IsData(frame)
    requires m.ConnectBegin? ==> n.st.state == CONNECTED
    requires m.Deliver? ==> !IsConn(l.ba[0])
    ensures var l' := Apply(l, m);
            && OldCall(l'.a, frame) && l'.b == l.b && l'.a.restarts == n.restarts
            && (m.SendWake? ==> l'.ab == l.ab || l'.ab == l.ab + [frame])
            && (m.SendBegin? || m.Hangup? || m.ConnectBegin? || m.Lose? ==> l'.ab == l.ab)
  {
    assert l.ab + [] == l.ab;
  }

  // ---- While the caller waits ----

  /** The peer has handled the request in a send call; behind its answer there are copies of its old frame. */
  predicate Waiting(l: Link, n: nat, frame: Packet) {
    && AwaitsAnswer(l) && l.ab == [] && OldCall(l.b, frame) && IsData(frame)
    && l.b.picked == [] && l.b.st.recvNumber == 0 && l.b.st.extraction == [] && !l.b.st.complete
    && n <= |l.ba| && (forall i :: n <= i < |l.ba| ==> IsConnAck(l.ba[i]) || l.ba[i] == frame)
    && (l.a.st.signaled ==> n == 0)
  }

  lemma CutWaits(m: Link, n: nat, frame: Packet)
    requires PeerCut(m, n, frame) && !m.a.st.signaled
    ensures Waiting(m, n, frame)
  {
  }

  lemma WaitingOwn(l: Link, n: nat, m: Move, frame: Packet)
    requires Waiting(l, n, frame) && MayMove(l, m) && !m.ConnectWake? && Undisturbed(l, Handled(n), Step(A, m))
    ensures Track(l, Handled(n), Step(A, m)).Handled?
    ensures Waiting(Apply(l, m), Track(l, Handled(n), Step(A, m)).stale, frame)
  {
    if m.Deliver? {
      AwaitingHandler(l.a.st, l.ba[0]);
      assert l.ab + [] == l.ab;
    } else if m.Lose? {
      var r := Removed(l.ba, m.at);
      assert forall i :: 0 <= i < |r| ==> r[i] == if i < m.at then l.ba[i] else l.ba[i + 1];
    } else {
      NothingElse(l, m);
    }
    hide HandleFrame, OldCall;
  }

  lemma WaitingPeer(l: Link, n: nat, m: Move, frame: Packet)
    requires Waiting(l, n, frame) && MayMove(Swap(l), m) && Undisturbed(l, Handled(n), Step(B, m))
    ensures Track(l, Handled(n), Step(B, m)) == Handled(n)
    ensures Waiting(Next(l, Step(B, m)), n, frame)
  {
    OldCallMove(l.b, Swap(l), m, frame);
    assert l.ba + [] == l.ba;
    hide HandleFrame, OldCall;
  }

  lemma {:induction false} WaitingRun(l: Link, n: nat, steps: seq<Step>, frame: Packet)
    requires Waiting(l, n, frame) && Runs(l, steps) && DuringConnect(l, Handled(n), steps)
    ensures TrackAll(l, Handled(n), steps).Handled?
    ensures Waiting(Final(l, steps), TrackAll(l, Handled(n), steps).stale, frame)
    decreases |steps|
  {
    hide Waiting, Apply, MayMove, Undisturbed, Track;
    if steps != [] {
      if steps[0].side == A {
        WaitingOwn(l, n, steps[0].move, frame);
      } else {
        WaitingPeer(l, n, steps[0].move, frame);
      }
      WaitingRun(Next(l, steps[0]), Track(l, Handled(n), steps[0]).stale, steps[1..], frame);
    }
  }

  // ---- After success ----

  /** The caller's direction is a session; from the peer come acknowledgements and copies of the old frame. */
  predicate HalfSession(l: Link, frame: Packet) {
    && InSession(l.ab) && InSession(l.ba) && Forward(l)
    && OldCall(l.b, frame) && IsData(frame) && OnlyOld(l.ba, frame)
    && l.a.call != Connecting && l.a.picked == [] && l.a.st.extraction == [] && !l.a.st.complete
    && (Up(l.a.st) ==> l.a.st.recvNumber == 0)
  }

  lemma SuccessIsHalfSession(l: Link, n: nat, frame: Packet)
    requires Waiting(l, n, frame) && WillSucceed(l)
    ensures HalfSession(Succeed(l), frame)
  {
  }

  lemma OldCallSettled(n: Node, frame: Packet)
    requires OldCall(n, frame) && IsData(frame)
    ensures Settled(n) && n.call != Connecting
  {
  }

  /** The old frame is not taken for a new message. */
  lemma OldFrameIgnored(l: Link, frame: Packet)
    requires HalfSession(l, frame) && frame.control.sendSeq != 0 && l.ba != [] && IsData(l.ba[0])
    ensures var (st, out) := HandleFrame(l.a.st, l.ba[0]);
            && st == l.a.st
            && (frame.control.sendSeq != 7 ==> out == [])
            && (out == [] || out == [Packet(Control(ACK, 0, frame.control.sendSeq), [])])
  {
    hide Forward, InSession, OldCall;
  }

  lemma OnlyOldRemoved(ch: seq<Packet>, at: nat, frame: Packet)
    requires at < |ch| && OnlyOld(ch, frame)
    ensures OnlyOld(Removed(ch, at), frame) && Removed(ch, 0) == ch[1..]
  {
    hide IsData;
    var r := Removed(ch, at);
    assert forall i :: 0 <= i < |r| ==> r[i] == if i < at then ch[i] else ch[i + 1];
  }

  /** What the caller's own steps do to it as a receiver: nothing. */
  lemma ReceivesNothing(l: Link, m: Move, frame: Packet)
    requires HalfSession(l, frame) && frame.control.sendSeq != 0 && MayMove(l, m) && SessionMove(m)
    ensures var a := Apply(l, m).a;
            && a.call != Connecting && a.picked == [] && a.st.extraction == [] && !a.st.complete
            && (Up(a.st) ==> a.st.recvNumber == 0)
    ensures Apply(l, m).b == l.b
  {
    SenderSettled(l.a, |l.b.picked|);
    if m.Deliver? && IsData(l.ba[0]) {
      OldFrameIgnored(l, frame);
      hide HandleFrame;
    }
    hide ChannelsOk, ReceiverOk, OldCall, OnlyOld;
  }

  lemma HalfSessionOwn(l: Link, m: Move, frame: Packet)
    requires HalfSession(l, frame) && frame.control.sendSeq != 0 && MayMove(l, m) && SessionMove(m)
    ensures HalfSession(Apply(l, m), frame)
  {
    SenderSettled(l.a, |l.b.picked|);
    hide Forward, OldCall, Settled, Direction, OnlyOld, InSession, HandleFrame;
    ReceivesNothing(l, m, frame);
    TransmitsInSession(l, m);
    OwnForward(l, m);
    if m.Deliver? {
      OnlyOldRemoved(l.ba, 0, frame);
    } else if m.Lose? {
      OnlyOldRemoved(l.ba, m.at, frame);
    }
  }

  lemma HalfSessionPeer(l: Link, m: Move, frame: Packet)
    requires HalfSession(l, frame) && MayMove(Swap(l), m) && SessionMove(m)
    ensures HalfSession(Next(l, Step(B, m)), frame)
  {
    OldCallSettled(l.b, frame);
    hide Forward, Settled, Direction;
    TransmitsInSession(Swap(l), m);
    PeerForward(l, m);
    OldCallMove(l.b, Swap(l), m, frame);
    assert l.ba + [] == l.ba;
    hide OldCall, InSession;
  }

  lemma {:induction false} HalfSessionRun(l: Link, steps: seq<Step>, frame: Packet)
    requires HalfSession(l, frame) && frame.control.sendSeq != 0 && Runs(l, steps) && SessionSteps(steps)
    ensures HalfSession(Final(l, steps), frame)
    decreases |steps|
  {
    hide HalfSession, Apply, MayMove, SessionMove;
    if steps != [] {
      if steps[0].side == A {
        HalfSessionOwn(l, steps[0].move, frame);
      } else {
        HalfSessionPeer(l, steps[0].move, frame);
      }
      HalfSessionRun(Next(l, steps[0]), steps[1..], frame);
    }
  }

  lemma HalfSessionDelivers(l: Link, frame: Packet)
    requires HalfSession(l, frame)
    ensures InOrder(l) && ConfirmedArePicked(l)
  {
    ArrivedPrefix(l.a, l.b);
  }

  // ---- Exactly when the old message does harm ----

  /** A continuation of the call that succeeds, and a run of the session after it, at whose end something arrived that
      was not submitted, or something was reported that did not arrive. */
  ghost predicate CanBreak(m: Link, r: Request) {
    exists steps, session :: Breaks(m, r, steps, session)
  }

  predicate Breaks(m: Link, r: Request, steps: seq<Step>, session: seq<Step>) {
    && Runs(m, steps) && DuringConnect(m, r, steps) && WillSucceed(Final(m, steps))
    && Runs(Succeed(Final(m, steps)), session) && SessionSteps(session)
    && var f := Final(Succeed(Final(m, steps)), session); !(InOrder(f) && ConfirmedArePicked(f))
  }

  lemma OldMessageStored(f: Link, frame: Packet)
    requires WillSucceed(f) && f.a.st.state == CONNECTING && f.ba == [frame] && f.b.submitted == []
    requires IsData(frame) && frame.control.sendSeq == 0 && frame.payload != []
    ensures Runs(Succeed(f), [Step(A, Deliver)]) && !InOrder(Final(Succeed(f), [Step(A, Deliver)]))
  {
    var s := Step(A, Deliver);
    var e := Next(Succeed(f), s);
    assert Arrived(e.a) == [frame.payload] && e.b.submitted == [];
    hide Next, Enabled, InOrder;
    NoSteps(e);
    assert [s] + [] == [s];
    RunsFirst(Succeed(f), s, []);
  }

  lemma Harmless(m: Link, n: nat, frame: Packet, steps: seq<Step>, session: seq<Step>)
    requires PeerCut(m, n, frame) && !m.a.st.signaled && frame.control.sendSeq != 0
    ensures !Breaks(m, Handled(n), steps, session)
  {
    if Breaks(m, Handled(n), steps, session) {
      CutWaits(m, n, frame);
      hide Runs, Final, DuringConnect, PeerCut, Waiting, WillSucceed, Succeed, HalfSession, InOrder, ConfirmedArePicked,
           SessionSteps;
      WaitingRun(m, n, steps, frame);
      var f := Final(m, steps);
      SuccessIsHalfSession(f, TrackAll(m, Handled(n), steps).stale, frame);
      HalfSessionRun(Succeed(f), session, frame);
      HalfSessionDelivers(Final(Succeed(f), session), frame);
    }
  }

  /** The harm of an interrupted peer, exactly: what is promised of sessions can fail after the call succeeds if and
      only if the interrupted message has number 0, the one the new session begins with. */
  lemma InterruptedMessageHarms(l: Link, before: nat)
    requires Handshaking(l, UnderWay, before) && |l.ab| == 1
    requires l.b.call.Sending? && l.b.call.frame.payload != []
    ensures CanBreak(Next(l, Step(B, Deliver)), Handled(|l.ba|)) <==> l.b.call.frame.control.sendSeq == 0
  {
    var m, n, frame := Next(l, Step(B, Deliver)), |l.ba|, l.b.call.frame;
    RequestCuts(l, before);
    assert !m.a.st.signaled && IsData(frame);
    hide Next, Handshaking, PeerCut, Breaks;
    if frame.control.sendSeq == 0 {
      OldMessageFollows(m, n, frame);
      OldMessageStored(Final(m, BusySteps(n)), frame);
      BreaksIt(m, n, BusySteps(n), [Step(A, Deliver)]);
    } else {
      forall steps, session
        ensures !Breaks(m, Handled(n), steps, session)
      {
        Harmless(m, n, frame, steps, session);
      }
    }
  }

  lemma BreaksIt(m: Link, n: nat, steps: seq<Step>, session: seq<Step>)
    requires Runs(m, steps) && DuringConnect(m, Handled(n), steps) && WillSucceed(Final(m, steps))
    requires Runs(Succeed(Final(m, steps)), session) && session == [Step(A, Deliver)]
    requires !InOrder(Final(Succeed(Final(m, steps)), session))
    ensures Breaks(m, Handled(n), steps, session)
  {
    hide Runs, DuringConnect, Final, WillSucceed, Succeed, InOrder, ConfirmedArePicked;
    assert SessionSteps(session);
  }
}
