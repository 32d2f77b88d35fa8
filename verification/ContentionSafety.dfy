/** Both stations call dcConnect, on a line that loses frames, with clocks that run out and messages sent as soon as
    either call has returned: whatever happens, the session that results keeps its promises. */
module ContentionSafety {
  import opened Fcs
  import opened Control
  import opened Station
  import opened Link
  import opened Session
  import opened Handshake
  import opened Contention

  /** Which station has been reached by the other: it has handled a request, or an answer while it was waiting. */
  datatype Reach = Reach(a: bool, b: bool)

  function SwapReach(h: Reach): Reach { Reach(h.b, h.a) }

  /** The next frame reaches its receiver. */
  predicate Reaches(l: Link, m: Move) {
    m.Deliver? && l.ba != [] && (IsConn(l.ba[0]) || (IsConnAck(l.ba[0]) && l.a.st.state == CONNECTING))
  }

  function Reached(l: Link, h: Reach, s: Step): Reach {
    match s.side
    case A => Reach(h.a || Reaches(l, s.move), h.b)
    case B => Reach(h.a, h.b || Reaches(Swap(l), s.move))
  }

  /** A station begins to connect at most once, and only before it has been reached; to connect a connected link is no
      more than a question. Everything else is allowed. */
  predicate OwnAttempt(n: Node, reached: bool, m: Move) {
    m.ConnectBegin? ==> n.st.state == CONNECTED || (!reached && n.connects == [])
  }

  predicate Attempt(l: Link, h: Reach, s: Step) {
    match s.side
    case A => OwnAttempt(l.a, h.a, s.move)
    case B => OwnAttempt(l.b, h.b, s.move)
  }

  predicate Attempts(l: Link, h: Reach, steps: seq<Step>)
    requires Runs(l, steps)
    decreases |steps|
  {
    steps == [] || (Attempt(l, h, steps[0]) && Attempts(Next(l, steps[0]), Reached(l, h, steps[0]), steps[1..]))
  }

  /** Nothing sent or received yet, and not reached. */
  predicate Unreached(n: Node) {
    && n.submitted == [] && n.confirmed == 0 && n.picked == [] && !Up(n.st) && Settled(n)
    && (n.st.state == CONNECTING ==> !n.st.signaled)
  }

  /** It has begun to connect. */
  predicate HasCalled(n: Node) { n.call == Connecting || n.connects != [] }

  /** Frames of the past, and then the request, if it has been sent. */
  predicate RequestLast(ch: seq<Packet>, called: bool) {
    forall i :: 0 <= i < |ch| ==> IsOld(ch[i]) || (IsConn(ch[i]) && i == |ch| - 1 && called)
  }

  /** Frames of the past, and behind the request or the answer frames of the new session only. */
  predicate Opening(ch: seq<Packet>, sub: seq<seq<byte>>) {
    && (forall i :: 0 <= i < |ch| ==> IsOld(ch[i]) || IsAnswer(ch[i]))
    && (forall i, j :: 0 <= i < j < |ch| && IsAnswer(ch[i]) ==> IsConnAck(ch[j]) || IsNew(ch[j], sub))
  }

  /** B has been reached and A has not. */
  predicate HalfOpen(l: Link) {
    && Unreached(l.a) && HasCalled(l.a) && FreshPeer(l.b) && l.ab == [] && Opening(l.ba, l.b.submitted)
  }

  predicate Joint(l: Link, h: Reach) {
    match h
    case Reach(false, false) =>
      && Unreached(l.a) && Unreached(l.b)
      && RequestLast(l.ab, HasCalled(l.a)) && RequestLast(l.ba, HasCalled(l.b))
    case Reach(false, true) => HalfOpen(l)
    case Reach(true, false) => HalfOpen(Swap(l))
    case Reach(true, true) => Inv(l)
  }

  lemma JointSwaps(l: Link, h: Reach)
    ensures Joint(Swap(l), SwapReach(h)) <==> Joint(l, h)
  {
    hide HalfOpen, Unreached, RequestLast, Forward, InSession;
  }

  // ---- Neither has been reached ----

  lemma IgnoredUnreached(st: Station, f: Packet)
    requires !Up(st) && !IsConn(f) && (IsConnAck(f) ==> st.state != CONNECTING)
    ensures HandleFrame(st, f) == (st, [])
  {
  }

  /** What an unreached station does of its own, and what it ignores. */
  lemma UnreachedMove(l: Link, m: Move)
    requires Unreached(l.a) && MayMove(l, m) && !Reaches(l, m) && OwnAttempt(l.a, false, m)
    ensures var l' := Apply(l, m);
            && Unreached(l'.a) && l'.b == l.b && (HasCalled(l.a) ==> HasCalled(l'.a))
            && (l'.ab == l.ab ||
                (m.ConnectBegin? && !HasCalled(l.a) && HasCalled(l'.a) && l'.ab == l.ab + [CONN_PACKET]))
            && (l'.ba == l.ba || (m.Deliver? && l'.ba == l.ba[1..]) || (m.Lose? && l'.ba == Removed(l.ba, m.at)))
  {
    assert l.ab + [] == l.ab;
    if m.Deliver? {
      IgnoredUnreached(l.a.st, l.ba[0]);
      hide HandleFrame;
    }
  }

  lemma RequestShrinks(ch: seq<Packet>, at: nat, called: bool)
    requires at < |ch| && RequestLast(ch, called)
    ensures RequestLast(Removed(ch, at), called) && Removed(ch, 0) == ch[1..]
  {
    hide IsOld, IsConn;
    var r := Removed(ch, at);
    assert forall i :: 0 <= i < |r| ==> r[i] == if i < at then ch[i] else ch[i + 1];
  }

  lemma RequestSent(ch: seq<Packet>)
    requires RequestLast(ch, false)
    ensures RequestLast(ch + [CONN_PACKET], true)
  {
  }

  lemma NobodyMoves(l: Link, m: Move)
    requires Joint(l, Reach(false, false)) && MayMove(l, m) && !Reaches(l, m) && OwnAttempt(l.a, false, m)
    ensures Joint(Apply(l, m), Reach(false, false))
  {
    hide Unreached, RequestLast, HasCalled, Apply;
    UnreachedMove(l, m);
    RequestCalled(l.ab, HasCalled(l.a), HasCalled(Apply(l, m).a));
    if m.Deliver? {
      RequestShrinks(l.ba, 0, HasCalled(l.b));
    } else if m.Lose? {
      RequestShrinks(l.ba, m.at, HasCalled(l.b));
    } else if m.ConnectBegin? && !HasCalled(l.a) {
      RequestSent(l.ab);
    }
  }

  lemma RequestCalled(ch: seq<Packet>, called: bool, called': bool)
    requires RequestLast(ch, called) && (called ==> called')
    ensures RequestLast(ch, called')
  {
  }

  /** The request arrives: it was the last of its channel, and it is answered. */
  lemma RequestArrives(l: Link)
    requires Joint(l, Reach(false, false)) && MayMove(l, Deliver) && Reaches(l, Deliver)
    ensures Joint(Apply(l, Deliver), Reach(true, false))
  {
    var f := l.ba[0];
    assert IsConn(f) && |l.ba| == 1;
    assert l.ba[1..] == [];
    AnswerSent(l.ab, HasCalled(l.a));
    hide RequestLast, Opening;
  }

  lemma AnswerSent(ch: seq<Packet>, called: bool)
    ensures RequestLast(ch, called) ==> Opening(ch + [CONN_ACK_PACKET], [])
  {
  }

  // ---- One has been reached ----

  lemma OpeningShrinks(ch: seq<Packet>, at: nat, sub: seq<seq<byte>>)
    requires at < |ch| && Opening(ch, sub)
    ensures Opening(Removed(ch, at), sub) && Removed(ch, 0) == ch[1..]
  {
    hide IsOld, IsAnswer, IsNew, IsConnAck;
    var r := Removed(ch, at);
    assert forall i :: 0 <= i < |r| ==> r[i] == if i < at then ch[i] else ch[i + 1];
  }

  lemma UnreachedSide(l: Link, m: Move)
    requires HalfOpen(l) && MayMove(l, m) && !Reaches(l, m) && OwnAttempt(l.a, false, m)
    ensures HalfOpen(Apply(l, m))
  {
    hide Unreached, Opening, FreshPeer, Apply;
    UnreachedMove(l, m);
    if m.Deliver? {
      OpeningShrinks(l.ba, 0, l.b.submitted);
    } else if m.Lose? {
      OpeningShrinks(l.ba, m.at, l.b.submitted);
    }
    CalledOnce(l, m);
  }

  /** A station that has called does not begin again. */
  lemma CalledOnce(l: Link, m: Move)
    requires Unreached(l.a) && HasCalled(l.a) && MayMove(l, m) && OwnAttempt(l.a, false, m)
    ensures !m.ConnectBegin?
  {
  }

  lemma OpeningGrows(ch: seq<Packet>, f: Packet, sub: seq<seq<byte>>, sub': seq<seq<byte>>)
    requires Opening(ch, sub) && IsNew(f, sub') && (sub == [] || sub' == sub)
    ensures Opening(ch + [f], sub')
  {
  }

  lemma ReachedSide(l: Link, m: Move)
    requires HalfOpen(l) && MayMove(Swap(l), m) && OwnAttempt(l.b, true, m)
    ensures HalfOpen(Next(l, Step(B, m)))
  {
    FreshPeerSends(l, m);
    hide Unreached, HasCalled, FreshPeer, Opening, Apply, MayMove, IsNew;
    var l' := Next(l, Step(B, m));
    if l'.ba != l.ba {
      var f :| l'.ba == l.ba + [f] && IsNew(f, l'.b.submitted)
               && (l.b.submitted == [] || l'.b.submitted == l.b.submitted);
      OpeningGrows(l.ba, f, l.b.submitted, l'.b.submitted);
    }
  }

  /** Behind a request or an answer only frames of the new session are left, so a session begins. */
  lemma OpeningIsSession(ch: seq<Packet>, sub: seq<seq<byte>>)
    requires ch != [] && Opening(ch, sub) && IsAnswer(ch[0])
    ensures InSession(ch[1..]) && DataWindow(ch[1..], sub) && DataLast(ch[1..], sub)
    ensures AckWindow(ch[1..], 0, 0) && AckLast(ch[1..], 0)
  {
    var r := ch[1..];
    assert forall i :: 0 <= i < |r| ==> r[i] == ch[i + 1];
  }

  lemma SecondReached(l: Link)
    requires HalfOpen(l) && MayMove(l, Deliver) && Reaches(l, Deliver)
    ensures Inv(Apply(l, Deliver))
  {
    OpeningIsSession(l.ba, l.b.submitted);
    assert l.ab + [] == l.ab;
    assert InSession([]) && InSession([CONN_ACK_PACKET]);
    hide Opening;
  }

  // ---- Both have been reached ----

  lemma QuestionOnly(l: Link, m: Move)
    requires Inv(l) && MayMove(l, m) && m.ConnectBegin? && OwnAttempt(l.a, true, m)
    ensures Inv(Apply(l, m))
  {
    hide InSession, DataWindow, DataLast, AckWindow, AckLast;
  }

  lemma BothReached(l: Link, m: Move)
    requires Inv(l) && MayMove(l, m) && OwnAttempt(l.a, true, m)
    ensures Inv(Apply(l, m))
  {
    hide Inv, Apply;
    if m.ConnectBegin? {
      QuestionOnly(l, m);
    } else {
      MoveKeeps(l, m);
    }
  }

  // ---- Runs ----

  lemma OwnJoint(l: Link, h: Reach, m: Move)
    requires Joint(l, h) && MayMove(l, m) && OwnAttempt(l.a, h.a, m)
    ensures Joint(Apply(l, m), Reached(l, h, Step(A, m)))
  {
    hide HalfOpen, Unreached, RequestLast, Inv, Apply, Reaches, MayMove, OwnAttempt;
    match h
    case Reach(false, false) =>
      if Reaches(l, m) {
        assert m.Deliver? by {
          ReachesDelivers(l, m);
        }
        RequestArrives(l);
      } else {
        NobodyMoves(l, m);
      }
    case Reach(false, true) =>
      if Reaches(l, m) {
        ReachesDelivers(l, m);
        SecondReached(l);
      } else {
        UnreachedSide(l, m);
      }
    case Reach(true, false) =>
      ReachedSide(Swap(l), m);
    case Reach(true, true) =>
      BothReached(l, m);
  }

  lemma ReachesDelivers(l: Link, m: Move)
    requires Reaches(l, m)
    ensures m.Deliver?
  {
  }

  lemma JointStep(l: Link, h: Reach, s: Step)
    requires Joint(l, h) && Enabled(l, s) && Attempt(l, h, s)
    ensures Joint(Next(l, s), Reached(l, h, s))
  {
    hide Joint, Apply, MayMove, OwnAttempt, Reaches;
    match s.side
    case A => OwnJoint(l, h, s.move);
    case B =>
      JointSwaps(l, h);
      OwnJoint(Swap(l), SwapReach(h), s.move);
      JointSwaps(Next(l, s), Reached(l, h, s));
  }

  lemma {:induction false} JointRun(l: Link, h: Reach, steps: seq<Step>) returns (h': Reach)
    requires Joint(l, h) && Runs(l, steps) && Attempts(l, h, steps)
    ensures Joint(Final(l, steps), h')
    decreases |steps|
  {
    hide Joint, Attempt, Reached, Enabled, Next;
    if steps == [] {
      h' := h;
    } else {
      JointStep(l, h, steps[0]);
      h' := JointRun(Next(l, steps[0]), Reached(l, h, steps[0]), steps[1..]);
    }
  }

  /** Two disconnected stations with empty histories; old DATA and ACK frames may be under way. */
  predicate BothNew(l: Link) {
    && BothDisconnected(l)
    && l.a.submitted == [] && l.a.confirmed == 0 && l.a.picked == []
    && l.b.submitted == [] && l.b.confirmed == 0 && l.b.picked == []
  }

  lemma HalfOpenDelivers(l: Link)
    requires HalfOpen(l)
    ensures InOrder(l) && ConfirmedArePicked(l)
  {
  }

  lemma JointDelivers(l: Link, h: Reach)
    requires Joint(l, h)
    ensures InOrder(l) && ConfirmedArePicked(l)
  {
    match h
    case Reach(false, false) =>
    case Reach(false, true) => HalfOpenDelivers(l);
    case Reach(true, false) => HalfOpenDelivers(Swap(l));
    case Reach(true, true) =>
      NoSteps(l);
      SessionDelivers(l, []);
  }

  /** Connecting from both ends is safe: each station may call dcConnect once, at any time before the other has reached
      it; frames may be lost, any clock may run out, and messages may be sent, picked up and acknowledged as soon as
      either end is connected. In every state that is reached, what has arrived is a prefix of what was submitted, and
      what was reported has been picked up. */
  lemma ContentionSafe(l: Link, steps: seq<Step>)
    requires BothNew(l) && Runs(l, steps) && Attempts(l, Reach(false, false), steps)
    ensures InOrder(Final(l, steps)) && ConfirmedArePicked(Final(l, steps))
  {
    assert Joint(l, Reach(false, false));
    hide Joint, BothNew, Attempts, Runs, InOrder, ConfirmedArePicked;
    var h := JointRun(l, Reach(false, false), steps);
    JointDelivers(Final(l, steps), h);
  }
}
