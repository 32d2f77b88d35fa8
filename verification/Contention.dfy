/** Simultaneous attempts to connect: on a line that loses nothing, and with no timeout, both succeed. */
module Contention {
  import opened Fcs
  import opened Control
  import opened Station
  import opened Link
  import opened Session
  import opened Handshake

  predicate IsOld(f: Packet) { IsData(f) || IsAck(f) }

  predicate OldOnly(ch: seq<Packet>) { forall i :: 0 <= i < |ch| ==> IsOld(ch[i]) }

  predicate IsControl(f: Packet) { IsConn(f) || IsConnAck(f) }

  /** What is left of the past comes before every frame of the connection procedure. */
  predicate OldThenControl(ch: seq<Packet>) {
    && (forall i :: 0 <= i < |ch| ==> IsOld(ch[i]) || IsControl(ch[i]))
    && (forall i, j :: 0 <= i < j < |ch| && IsControl(ch[i]) ==> IsControl(ch[j]))
  }

  predicate AllControl(ch: seq<Packet>) { forall i :: 0 <= i < |ch| ==> IsControl(ch[i]) }

  predicate HasConn(ch: seq<Packet>) { exists i :: 0 <= i < |ch| && IsConn(ch[i]) }

  predicate HasAnswer(ch: seq<Packet>) { exists i :: 0 <= i < |ch| && IsConnAck(ch[i]) }

  /** Connected with zero counters and an empty history. */
  predicate Ready(n: Node) { n.st.state == CONNECTED && Restart(n) }

  /** Not begun, waiting, or returned DC_OK. */
  predicate Trying(n: Node) {
    match n.call
    case Idle => if n.connects == [] then n.st.state == DISCONNECTED || Ready(n) else n.connects == [DC_OK] && Ready(n)
    case Connecting => n.connects == [] && n.st.state == CONNECTING
    case Sending(_) => false
  }

  /** The station has seen a frame of the connection procedure. */
  predicate HasSeen(n: Node) { n.st.state == CONNECTED || (n.st.state == CONNECTING && n.st.signaled) }

  /** A waiting station is signalled, or will be: its request or an answer to it is still under way. */
  predicate WillWake(n: Node, out: seq<Packet>, incoming: seq<Packet>) {
    n.call == Connecting && !n.st.signaled ==> HasConn(out) || HasAnswer(incoming) || HasConn(incoming)
  }

  predicate Contending(l: Link) {
    && Trying(l.a) && Trying(l.b)
    && OldThenControl(l.ab) && OldThenControl(l.ba)
    && (HasSeen(l.a) ==> AllControl(l.ba)) && (HasSeen(l.b) ==> AllControl(l.ab))
    && WillWake(l.a, l.ab, l.ba) && WillWake(l.b, l.ba, l.ab)
  }

  /** Both are disconnected; old DATA and ACK frames may be under way. */
  predicate BothDisconnected(l: Link) {
    && l.a.st.state == DISCONNECTED && l.b.st.state == DISCONNECTED
    && l.a.call == Idle && l.b.call == Idle && l.a.connects == [] && l.b.connects == []
    && OldOnly(l.ab) && OldOnly(l.ba)
  }

  /** One call of dcConnect on either side, deliveries, and wake-ups by a signal. */
  predicate ContentionStep(l: Link, s: Step) {
    match s.move
    case ConnectBegin => (if s.side == A then l.a else l.b).connects == []
    case Deliver => true
    case ConnectWake(clock) => !clock
    case _ => false
  }

  lemma BeginContention(l: Link)
    requires BothDisconnected(l)
    ensures Contending(l)
  {
  }

  lemma AppendControl(ch: seq<Packet>, f: Packet)
    requires IsControl(f)
    ensures OldThenControl(ch) ==> OldThenControl(ch + [f])
    ensures AllControl(ch) ==> AllControl(ch + [f])
    ensures HasConn(ch + [f]) <==> HasConn(ch) || IsConn(f)
    ensures HasAnswer(ch + [f]) <==> HasAnswer(ch) || IsConnAck(f)
  {
    var r := ch + [f];
    assert r[|ch|] == f && forall i :: 0 <= i < |ch| ==> r[i] == ch[i];
  }

  lemma PopHead(ch: seq<Packet>)
    requires ch != []
    ensures OldThenControl(ch) ==> OldThenControl(ch[1..])
    ensures OldThenControl(ch) && IsControl(ch[0]) ==> AllControl(ch[1..])
    ensures AllControl(ch) ==> AllControl(ch[1..]) && IsControl(ch[0])
    ensures HasConn(ch) <==> HasConn(ch[1..]) || IsConn(ch[0])
    ensures HasAnswer(ch) <==> HasAnswer(ch[1..]) || IsConnAck(ch[0])
    ensures OldThenControl(ch) ==> IsOld(ch[0]) || IsControl(ch[0])
  {
    var r := ch[1..];
    assert forall i :: 0 <= i < |r| ==> r[i] == ch[i + 1];
    if HasConn(ch) {
      var i :| 0 <= i < |ch| && IsConn(ch[i]);
      assert i > 0 ==> IsConn(r[i - 1]);
    }
    if HasAnswer(ch) {
      var i :| 0 <= i < |ch| && IsConnAck(ch[i]);
      assert i > 0 ==> IsConnAck(r[i - 1]);
    }
  }

  lemma BeginKeeps(l: Link)
    requires Contending(l) && MayMove(l, ConnectBegin) && l.a.connects == []
    ensures Contending(Apply(l, ConnectBegin))
  {
    AppendControl(l.ab, CONN_PACKET);
    hide OldThenControl, AllControl, HasConn, HasAnswer;
  }

  lemma WakeKeeps(l: Link)
    requires Contending(l) && MayMove(l, ConnectWake(false))
    ensures Contending(Apply(l, ConnectWake(false)))
  {
    hide OldThenControl, AllControl, HasConn, HasAnswer;
  }

  lemma DeliverKeeps(l: Link)
    requires Contending(l) && l.ba != []
    ensures Contending(Apply(l, Deliver))
  {
    PopHead(l.ba);
    AppendControl(l.ab, CONN_ACK_PACKET);
    assert l.ab + [] == l.ab;
    hide OldThenControl, AllControl, HasConn, HasAnswer;
  }

  lemma ContentionKeeps(l: Link, s: Step)
    requires Contending(l) && Enabled(l, s) && ContentionStep(l, s)
    ensures Contending(Next(l, s))
  {
    hide Trying, WillWake, OldThenControl, AllControl, Apply;
    var m := if s.side == A then l else Swap(l);
    match s.move
    case ConnectBegin => BeginKeeps(m);
    case Deliver => DeliverKeeps(m);
    case _ => WakeKeeps(m);
  }

  // ---- Progress ----

  function Load(ch: seq<Packet>): nat {
    if ch == [] then 0 else (if IsConn(ch[0]) then 2 else 1) + Load(ch[1..])
  }

  lemma {:induction false} LoadAppend(ch: seq<Packet>, f: Packet)
    ensures Load(ch + [f]) == Load(ch) + if IsConn(f) then 2 else 1
  {
    if ch == [] {
      assert ch + [f] == [f];
      assert [f][1..] == [];
    } else {
      assert (ch + [f])[1..] == ch[1..] + [f];
      LoadAppend(ch[1..], f);
    }
  }

  function Distance(n: Node): nat {
    if n.call == Connecting then 1 else if n.connects == [] then 4 else 0
  }

  function Remaining(l: Link): nat { Distance(l.a) + Distance(l.b) + Load(l.ab) + Load(l.ba) }

  /** Only a request is answered. */
  lemma OnlyRequestsAnswered(l: Link)
    requires Contending(l) && l.ba != []
    ensures HandleFrame(l.a.st, l.ba[0]).1 == if IsConn(l.ba[0]) then [CONN_ACK_PACKET] else []
  {
    PopHead(l.ba);
    hide WillWake, AllControl, HasConn, HasAnswer, OldThenControl;
  }

  lemma DeliverProgress(l: Link)
    requires Contending(l) && l.ba != []
    ensures Remaining(Apply(l, Deliver)) < Remaining(l)
  {
    OnlyRequestsAnswered(l);
    LoadAppend(l.ab, CONN_ACK_PACKET);
    hide Contending, HandleFrame;
    assert l.ab + [] == l.ab;
  }

  lemma MoveProgress(l: Link, m: Move)
    requires Contending(l) && MayMove(l, m) && ContentionStep(l, Step(A, m))
    ensures Remaining(Apply(l, m)) < Remaining(l)
  {
    if m.Deliver? {
      DeliverProgress(l);
    } else {
      hide OldThenControl, AllControl, HasConn, HasAnswer, WillWake;
      LoadAppend(l.ab, CONN_PACKET);
    }
  }

  /** Every step brings the procedure closer to its end. */
  lemma ContentionProgress(l: Link, s: Step)
    requires Contending(l) && Enabled(l, s) && ContentionStep(l, s)
    ensures Remaining(Next(l, s)) < Remaining(l)
  {
    hide Contending, Apply;
    if s.side == A {
      MoveProgress(l, s.move);
    } else {
      SwapContending(l);
      MoveProgress(Swap(l), s.move);
    }
  }

  lemma SwapContending(l: Link)
    requires Contending(l)
    ensures Contending(Swap(l))
  {
  }

  predicate ContentionRun(l: Link, steps: seq<Step>)
    requires Runs(l, steps)
    decreases |steps|
  {
    steps == [] || (ContentionStep(l, steps[0]) && ContentionRun(Next(l, steps[0]), steps[1..]))
  }

  lemma {:induction false} ContentionInvariant(l: Link, steps: seq<Step>)
    requires Contending(l) && Runs(l, steps) && ContentionRun(l, steps)
    ensures Contending(Final(l, steps)) && |steps| + Remaining(Final(l, steps)) <= Remaining(l)
    decreases |steps|
  {
    hide Contending, ContentionStep, Enabled, Next, Remaining;
    if steps != [] {
      ContentionKeeps(l, steps[0]);
      ContentionProgress(l, steps[0]);
      ContentionInvariant(Next(l, steps[0]), steps[1..]);
    }
  }

  /** Nothing is left to happen. */
  ghost predicate Quiescent(l: Link) { forall s: Step :: Enabled(l, s) ==> !ContentionStep(l, s) }

  lemma QuiescentDone(l: Link)
    requires Contending(l) && Quiescent(l)
    ensures l.a.connects == [DC_OK] && l.b.connects == [DC_OK]
    ensures Established(l) && l.ab == [] && l.ba == []
  {
    assert !Enabled(l, Step(A, Deliver)) && !Enabled(l, Step(B, Deliver));
    assert l.a.call.Connecting? && l.a.st.signaled ==> Enabled(l, Step(A, ConnectWake(false)));
    assert l.b.call.Connecting? && l.b.st.signaled ==> Enabled(l, Step(B, ConnectWake(false)));
    assert l.a.call.Idle? ==> Enabled(l, Step(A, ConnectBegin));
    assert l.b.call.Idle? ==> Enabled(l, Step(B, ConnectBegin));
  }

  /** Simultaneous connection: every run in which both stations call dcConnect once, nothing is lost and no clock
      runs out, is bounded in length, and where it cannot go on both calls have returned DC_OK, both ends are
      connected with zero counters, and nothing is under way: a session is established. */
  lemma SimultaneousConnect(l: Link, steps: seq<Step>)
    requires BothDisconnected(l) && Runs(l, steps) && ContentionRun(l, steps)
    ensures |steps| <= Remaining(l)
    ensures var f := Final(l, steps);
            Quiescent(f) ==>
              f.a.connects == [DC_OK] && f.b.connects == [DC_OK] && Established(f) && f.ab == [] && f.ba == []
  {
    BeginContention(l);
    hide Contending, BothDisconnected, Remaining, Established;
    ContentionInvariant(l, steps);
    if Quiescent(Final(l, steps)) {
      QuiescentDone(Final(l, steps));
    }
  }
}
