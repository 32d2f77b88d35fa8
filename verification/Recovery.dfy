/** Recoverability: exactly when an outstanding message can still come home, and by what schedule. */
module Recovery {
  import opened Fcs
  import opened Control
  import opened Station
  import opened Link
  import opened Session

  /** A message is outstanding at A, B is up, and A has not overlooked a signal. */
  predicate Outstanding(l: Link) {
    Inv(l) && l.a.st.state == TRANSMITTING && Up(l.b.st) && (Acked(l.a) ==> l.a.st.signaled)
  }

  /** What deliveries leave alone. */
  predicate SameSend(l: Link, l': Link) {
    && l'.a.submitted == l.a.submitted && l'.a.confirmed == l.a.confirmed && l'.a.call == l.a.call
    && l'.a.st.failureCount == l.a.st.failureCount
  }

  /** DATA frames may be answered, nothing else is. */
  function Weight(ch: seq<Packet>): nat {
    if ch == [] then 0 else (if IsData(ch[0]) then 2 else 1) + Weight(ch[1..])
  }

  lemma {:induction false} WeightAppend(ch: seq<Packet>, f: Packet)
    ensures Weight(ch + [f]) == Weight(ch) + if IsData(f) then 2 else 1
  {
    if ch == [] {
      assert ch + [f] == [f];
      assert [f][1..] == [];
    } else {
      assert (ch + [f])[1..] == ch[1..] + [f];
      WeightAppend(ch[1..], f);
    }
  }

  lemma DeliverLighter(l: Link)
    requires Inv(l) && l.ba != []
    ensures var l' := Apply(l, Deliver);
            Weight(l'.ab) + Weight(l'.ba) < Weight(l.ab) + Weight(l.ba)
  {
    var out := HandleFrame(l.a.st, l.ba[0]).1;
    assert l.ab + [] == l.ab;
    if out != [] {
      assert out == [out[0]];
      WeightAppend(l.ab, out[0]);
    }
    hide Direction;
  }

  lemma DeliverToA(l: Link)
    requires Outstanding(l) && l.ba != []
    ensures Outstanding(Next(l, Step(A, Deliver))) && SameSend(l, Next(l, Step(A, Deliver)))
  {
    StepKeeps(l, Step(A, Deliver));
    hide ChannelsOk;
  }

  lemma DeliverToB(l: Link)
    requires Outstanding(l) && l.ab != []
    ensures Outstanding(Next(l, Step(B, Deliver))) && SameSend(l, Next(l, Step(B, Deliver)))
  {
    StepKeeps(l, Step(B, Deliver));
    hide ChannelsOk;
  }

  /** Deliveries, pick-ups, and wake-ups of the sender: nothing is lost, nobody hangs up, nothing else is sent. */
  predicate Gentle(s: Step) { s.move.Deliver? || s.move.Fetch? || (s.side == A && s.move.SendWake?) }

  predicate AllGentle(steps: seq<Step>) { forall i :: 0 <= i < |steps| ==> Gentle(steps[i]) }

  /** The sender's waits that the clock ends: each is a retransmission, or drops the link. */
  function Timeouts(steps: seq<Step>): nat {
    if steps == [] then 0
    else (if steps[0].move.SendWake? && steps[0].move.clock then 1 else 0) + Timeouts(steps[1..])
  }

  lemma {:induction false} TimeoutsAppend(s: seq<Step>, t: seq<Step>)
    ensures Timeouts(s + t) == Timeouts(s) + Timeouts(t)
    ensures AllGentle(s) && AllGentle(t) ==> AllGentle(s + t)
  {
    hide Gentle;
    if s == [] {
      assert s + t == t;
    } else {
      TimeoutsAppend(s[1..], t);
      assert (s + t)[1..] == s[1..] + t;
    }
  }

  lemma TimeoutsFirst(s: Step, steps: seq<Step>)
    ensures Timeouts([s] + steps) == (if s.move.SendWake? && s.move.clock then 1 else 0) + Timeouts(steps)
    ensures Gentle(s) && AllGentle(steps) ==> AllGentle([s] + steps)
  {
    hide Gentle;
    assert ([s] + steps)[1..] == steps;
  }

  // ---- Traces of the message ----

  /** Where the message can still be seen: its acknowledgement counted or under way, a copy under way, or the message
      pending at the peer. */
  predicate Traces(l: Link) {
    var n := |l.a.submitted|;
    Acked(l.a) || HasAck(l.ba, n - 1) || HasCopy(l.ab, n - 1, l.a.submitted) || Pending(l.b) == 1
  }

  predicate HasAck(ch: seq<Packet>, k: int) { exists i :: 0 <= i < |ch| && IsAck(ch[i]) && AckOf(ch[i], k) }

  predicate HasCopy(ch: seq<Packet>, k: int, sub: seq<seq<byte>>) {
    exists i :: 0 <= i < |ch| && IsData(ch[i]) && Copy(ch[i], k, sub)
  }

  lemma HasTail(ch: seq<Packet>, k: int, sub: seq<seq<byte>>)
    requires ch != []
    ensures HasAck(ch, k) <==> HasAck(ch[1..], k) || (IsAck(ch[0]) && AckOf(ch[0], k))
    ensures HasCopy(ch, k, sub) <==> HasCopy(ch[1..], k, sub) || (IsData(ch[0]) && Copy(ch[0], k, sub))
  {
    hide AckOf, Copy;
    var r := ch[1..];
    assert forall i :: 0 <= i < |r| ==> r[i] == ch[i + 1];
    if HasAck(ch, k) {
      var i :| 0 <= i < |ch| && IsAck(ch[i]) && AckOf(ch[i], k);
      assert i > 0 ==> r[i - 1] == ch[i];
    }
    if HasCopy(ch, k, sub) {
      var i :| 0 <= i < |ch| && IsData(ch[i]) && Copy(ch[i], k, sub);
      assert i > 0 ==> r[i - 1] == ch[i];
    }
  }

  lemma HasSnoc(ch: seq<Packet>, f: Packet, k: int, sub: seq<seq<byte>>)
    ensures HasAck(ch + [f], k) <==> HasAck(ch, k) || (IsAck(f) && AckOf(f, k))
    ensures HasCopy(ch + [f], k, sub) <==> HasCopy(ch, k, sub) || (IsData(f) && Copy(f, k, sub))
  {
    hide AckOf, Copy;
    var r := ch + [f];
    assert r[|ch|] == f && forall i :: 0 <= i < |ch| ==> r[i] == ch[i];
  }

  lemma HasRemoved(ch: seq<Packet>, at: nat, k: int, sub: seq<seq<byte>>)
    requires at < |ch|
    ensures HasAck(Removed(ch, at), k) ==> HasAck(ch, k)
    ensures HasCopy(Removed(ch, at), k, sub) ==> HasCopy(ch, k, sub)
  {
    hide AckOf, Copy;
    var r := Removed(ch, at);
    assert forall i :: 0 <= i < |r| ==> r[i] == if i < at then ch[i] else ch[i + 1];
  }

  lemma AckIsCounted(l: Link)
    requires Outstanding(l) && l.ba != [] && IsAck(l.ba[0])
    ensures var st := HandleFrame(l.a.st, l.ba[0]).0;
            Acked(l.a) || AckOf(l.ba[0], |l.a.submitted| - 1) ==> Acked(l.a.(st := st))
  {
    PredMod(|l.a.submitted|);
    hide ChannelsOk, ReceiverOk;
  }

  lemma TracesToA(l: Link)
    requires Outstanding(l) && l.ba != [] && Traces(l)
    ensures Traces(Next(l, Step(A, Deliver)))
  {
    var n := |l.a.submitted|;
    HasTail(l.ba, n - 1, l.a.submitted);
    var out := HandleFrame(l.a.st, l.ba[0]).1;
    assert l.ab + [] == l.ab;
    if out != [] {
      HasSnoc(l.ab, out[0], n - 1, l.a.submitted);
    }
    if IsAck(l.ba[0]) {
      AckIsCounted(l);
    }
    hide Direction, HasAck, HasCopy, AckOf, Copy;
  }

  lemma TracesToB(l: Link)
    requires Outstanding(l) && l.ab != [] && Traces(l)
    ensures Traces(Next(l, Step(B, Deliver)))
  {
    var n := |l.a.submitted|;
    HasTail(l.ab, n - 1, l.a.submitted);
    var out := HandleFrame(l.b.st, l.ab[0]).1;
    assert l.ba + [] == l.ba;
    if out != [] {
      HasSnoc(l.ba, out[0], n - 1, l.a.submitted);
    }
    CopyLeavesTrace(l);
    hide ChannelsOk, HasAck, HasCopy, ReceiverOk, HandleFrame;
  }

  lemma CopyLeavesTrace(l: Link)
    requires Outstanding(l) && l.ab != []
    ensures var (st, out) := HandleFrame(l.b.st, l.ab[0]);
            var n := |l.a.submitted|;
            && (Pending(l.b) == 1 ==> Pending(l.b.(st := st)) == 1)
            && (IsData(l.ab[0]) && Copy(l.ab[0], n - 1, l.a.submitted) ==>
                  Pending(l.b.(st := st)) == 1 || (out == [Ack(l.b.st.recvNumber)] && AckOf(out[0], n - 1)))
            && (out == [] || out == [Ack(l.b.st.recvNumber)])
  {
    PredMod(|l.a.submitted|);
    hide ChannelsOk;
  }

  /** Delivering whatever is under way empties both channels. */
  lemma {:induction false} Drain(l: Link) returns (steps: seq<Step>)
    requires Outstanding(l)
    ensures Runs(l, steps) && AllGentle(steps) && Timeouts(steps) == 0
    ensures Traces(l) ==> Traces(Final(l, steps))
    ensures Outstanding(Final(l, steps)) && SameSend(l, Final(l, steps))
    ensures Final(l, steps).ab == [] && Final(l, steps).ba == []
    decreases Weight(l.ab) + Weight(l.ba)
  {
    if l.ba != [] {
      DeliverLighter(l);
      DeliverToA(l);
      if Traces(l) {
        TracesToA(l);
      }
      hide Outstanding, Apply, Traces;
      var s := Step(A, Deliver);
      var rest := Drain(Next(l, s));
      RunsFirst(l, s, rest);
      TimeoutsFirst(s, rest);
      steps := [s] + rest;
    } else if l.ab != [] {
      DeliverLighter(Swap(l));
      DeliverToB(l);
      if Traces(l) {
        TracesToB(l);
      }
      hide Outstanding, Apply, Traces;
      var s := Step(B, Deliver);
      var rest := Drain(Next(l, s));
      RunsFirst(l, s, rest);
      TimeoutsFirst(s, rest);
      steps := [s] + rest;
    } else {
      steps := [];
    }
  }

  /** The message has come home: dcSendMessage has returned DC_OK, and the peer has picked up everything. */
  predicate Home(l: Link, l': Link) {
    && l'.a.st.state == CONNECTED && l'.a.call == Idle
    && l'.a.submitted == l.a.submitted && l'.a.confirmed == |l.a.submitted| && l'.b.picked == l.a.submitted
  }

  lemma Finish(l: Link)
    requires Outstanding(l) && Acked(l.a)
    ensures Enabled(l, Step(A, SendWake(false))) && Home(l, Next(l, Step(A, SendWake(false))))
  {
    hide ChannelsOk;
  }

  /** An acknowledgement of the last message alone in its channel ends the wait. */
  lemma AckArrives(l: Link)
    requires Outstanding(l) && !Acked(l.a) && |l.ba| == 1 && IsAck(l.ba[0]) && AckOf(l.ba[0], |l.a.submitted| - 1)
    ensures var l' := Next(l, Step(A, Deliver));
            Outstanding(l') && Acked(l'.a) && l'.a.submitted == l.a.submitted
  {
    DeliverToA(l);
    PredMod(|l.a.submitted|);
    hide ChannelsOk;
  }

  /** A pending message, once picked up, is acknowledged. */
  lemma PickUpAcknowledges(l: Link)
    requires Outstanding(l) && !Acked(l.a) && l.ba == [] && Pending(l.b) == 1
    ensures var l' := Next(l, Step(B, Fetch));
            && Outstanding(l') && !Acked(l'.a) && SameSend(l, l')
            && |l'.ba| == 1 && IsAck(l'.ba[0]) && AckOf(l'.ba[0], |l.a.submitted| - 1)
  {
    StepKeeps(l, Step(B, Fetch));
    if |l.a.submitted| >= 1 {
      PredMod(|l.a.submitted|);
    }
    hide ChannelsOk;
  }

  lemma Retransmission(l: Link)
    requires Outstanding(l) && !Acked(l.a) && l.ab == [] && l.ba == []
    requires l.a.st.failureCount + 1 < MAX_FAILURE_COUNT
    ensures var l' := Next(l, Step(A, SendWake(true)));
            && Enabled(l, Step(A, SendWake(true)))
            && Outstanding(l') && !Acked(l'.a) && l'.a.submitted == l.a.submitted && l'.b == l.b
            && l'.ab == [l.a.call.frame] && l'.ba == []
  {
    StepKeeps(l, Step(A, SendWake(true)));
    hide ChannelsOk;
  }

  /** A retransmitted message is either new to the receiver, or acknowledged again. */
  lemma RetransmissionArrives(l: Link)
    requires Outstanding(l) && !Acked(l.a) && l.ab == [l.a.call.frame] && l.ba == [] && Pending(l.b) == 0
    ensures var l' := Next(l, Step(B, Deliver));
            && Outstanding(l') && !Acked(l'.a) && l'.a.submitted == l.a.submitted
            && ((Pending(l'.b) == 1 && l'.ba == [])
                || (|l'.ba| == 1 && IsAck(l'.ba[0]) && AckOf(l'.ba[0], |l.a.submitted| - 1)))
  {
    DeliverToB(l);
    PredMod(|l.a.submitted|);
    hide ChannelsOk;
  }

  // ---- Putting the schedule together ----

  /** A gentle schedule with at most `retries` timeouts makes dcSendMessage return DC_OK. */
  predicate BringsHome(l: Link, steps: seq<Step>, retries: nat) {
    Runs(l, steps) && AllGentle(steps) && Timeouts(steps) <= retries && Home(l, Final(l, steps))
  }

  lemma StepThenHome(l: Link, s: Step, rest: seq<Step>, retries: nat)
    requires Enabled(l, s) && Gentle(s)
    requires Next(l, s).a.submitted == l.a.submitted && BringsHome(Next(l, s), rest, retries)
    ensures BringsHome(l, [s] + rest, retries + if s.move.SendWake? && s.move.clock then 1 else 0)
  {
    hide Enabled, Next, Gentle;
    RunsFirst(l, s, rest);
    TimeoutsFirst(s, rest);
  }

  lemma HomeFromAcked(l: Link) returns (steps: seq<Step>)
    requires Outstanding(l) && Acked(l.a)
    ensures BringsHome(l, steps, 0)
  {
    Finish(l);
    hide Outstanding, Acked, Enabled, Next;
    var s := Step(A, SendWake(false));
    steps := [s];
    assert steps[1..] == [] && Timeouts([]) == 0;
    NoSteps(Next(l, s));
    assert Runs(Next(l, steps[0]), steps[1..]);
    assert Final(l, steps) == Next(l, steps[0]);
  }

  lemma HomeFromAck(l: Link) returns (steps: seq<Step>)
    requires Outstanding(l) && !Acked(l.a) && |l.ba| == 1 && IsAck(l.ba[0]) && AckOf(l.ba[0], |l.a.submitted| - 1)
    ensures BringsHome(l, steps, 0)
  {
    AckArrives(l);
    hide Outstanding, Acked, Apply, BringsHome;
    var rest := HomeFromAcked(Next(l, Step(A, Deliver)));
    StepThenHome(l, Step(A, Deliver), rest, 0);
    steps := [Step(A, Deliver)] + rest;
  }

  lemma HomeFromPending(l: Link) returns (steps: seq<Step>)
    requires Outstanding(l) && !Acked(l.a) && l.ba == [] && Pending(l.b) == 1
    ensures BringsHome(l, steps, 0)
  {
    PickUpAcknowledges(l);
    hide Outstanding, Acked, Apply, BringsHome;
    var rest := HomeFromAck(Next(l, Step(B, Fetch)));
    StepThenHome(l, Step(B, Fetch), rest, 0);
    steps := [Step(B, Fetch)] + rest;
  }

  lemma HomeFromRetransmission(l: Link) returns (steps: seq<Step>)
    requires Outstanding(l) && !Acked(l.a) && l.ab == [l.a.call.frame] && l.ba == [] && Pending(l.b) == 0
    ensures BringsHome(l, steps, 0)
  {
    RetransmissionArrives(l);
    hide Outstanding, Acked, Apply, BringsHome, AckOf, Pending;
    var l' := Next(l, Step(B, Deliver));
    var rest;
    if Pending(l'.b) == 1 && l'.ba == [] {
      rest := HomeFromPending(l');
    } else {
      rest := HomeFromAck(l');
    }
    StepThenHome(l, Step(B, Deliver), rest, 0);
    steps := [Step(B, Deliver)] + rest;
  }

  lemma MoreRetries(l: Link, steps: seq<Step>)
    requires BringsHome(l, steps, 0)
    ensures BringsHome(l, steps, 1)
  {
  }

  /** With nothing under way: a trace of the message is enough, and so is a retry. */
  lemma HomeFromQuiet(l: Link) returns (steps: seq<Step>)
    requires Outstanding(l) && l.ab == [] && l.ba == []
    requires Traces(l) || l.a.st.failureCount + 1 < MAX_FAILURE_COUNT
    ensures BringsHome(l, steps, 1)
    ensures Traces(l) ==> BringsHome(l, steps, 0)
  {
    if Acked(l.a) {
      steps := HomeFromAcked(l);
      MoreRetries(l, steps);
    } else if Pending(l.b) == 1 {
      steps := HomeFromPending(l);
      MoreRetries(l, steps);
    } else {
      Retransmission(l);
      hide Outstanding, Acked, Apply, BringsHome;
      var s := Step(A, SendWake(true));
      var rest := HomeFromRetransmission(Next(l, s));
      StepThenHome(l, s, rest, 0);
      steps := [s] + rest;
    }
  }

  /** Recoverability: in every session state in which no acknowledgement has been overlooked, the peer is up and a
      retry remains, some run of deliveries, pick-ups and at most one retransmission makes dcSendMessage return
      DC_OK, with the message picked up at the other end. While the message leaves a trace, no retry is needed. */
  lemma Recoverable(l: Link)
    requires Outstanding(l)
    ensures l.a.st.failureCount + 1 < MAX_FAILURE_COUNT ==> exists steps :: BringsHome(l, steps, 1)
    ensures Traces(l) ==> exists steps :: BringsHome(l, steps, 0)
  {
    if Traces(l) || l.a.st.failureCount + 1 < MAX_FAILURE_COUNT {
      var first := Drain(l);
      hide Outstanding, Apply, Acked, Gentle, Traces;
      var rest := HomeFromQuiet(Final(l, first));
      RunsAppend(l, first, rest);
      TimeoutsAppend(first, rest);
      assert BringsHome(l, first + rest, 1);
      assert Traces(l) ==> BringsHome(l, first + rest, 0);
    }
  }

  // ---- The cases without recovery ----

  /** A has counted the acknowledgement but the wait it signalled ended by the clock, or A is down. */
  predicate Overlooked(n: Node) {
    n.st.state == DISCONNECTED || (n.st.state == TRANSMITTING && Acked(n) && !n.st.signaled)
  }

  lemma OverlookedStep(l: Link, s: Step)
    requires Inv(l) && Overlooked(l.a) && Enabled(l, s) && SessionMove(s.move)
    ensures Overlooked(Next(l, s).a) && Next(l, s).a.confirmed == l.a.confirmed
  {
    if s == Step(A, Deliver) && IsAck(l.ba[0]) {
      AckOutcome(l.a, l.b, l.ab, l.ba);
    }
    hide ChannelsOk, ReceiverOk;
  }

  /** The last attempt is waiting and the message leaves no trace. */
  predicate Hopeless(l: Link) {
    l.a.st.state == TRANSMITTING && l.a.st.failureCount + 1 >= MAX_FAILURE_COUNT && !Traces(l)
  }

  predicate StillHopeless(l: Link, l': Link) {
    (Hopeless(l') || l'.a.st.state == DISCONNECTED) && l'.a.confirmed == l.a.confirmed
  }

  lemma HopelessDelivery(l: Link)
    requires Inv(l) && Hopeless(l) && l.ba != []
    ensures StillHopeless(l, Apply(l, Deliver))
  {
    var n := |l.a.submitted|;
    HasTail(l.ba, n - 1, l.a.submitted);
    var out := HandleFrame(l.a.st, l.ba[0]).1;
    assert l.ab + [] == l.ab;
    if IsAck(l.ba[0]) {
      AckOutcome(l.a, l.b, l.ab, l.ba);
    }
    if out != [] {
      HasSnoc(l.ab, out[0], n - 1, l.a.submitted);
    }
    hide Direction, HasAck, HasCopy, AckOf;
  }

  lemma HopelessWake(l: Link, clock: bool)
    requires Inv(l) && Hopeless(l) && MayMove(l, SendWake(clock))
    ensures StillHopeless(l, Apply(l, SendWake(clock)))
  {
    hide ChannelsOk, ReceiverOk, HasAck, HasCopy;
  }

  lemma HopelessFetch(l: Link)
    requires Hopeless(l)
    ensures StillHopeless(l, Apply(l, Fetch))
  {
    HasSnoc(l.ab, Ack(l.a.st.recvNumber), |l.a.submitted| - 1, l.a.submitted);
    assert l.ab + [] == l.ab;
    hide HasAck, HasCopy;
  }

  lemma HopelessOwnStep(l: Link, m: Move)
    requires Inv(l) && Hopeless(l) && MayMove(l, m) && SessionMove(m)
    ensures StillHopeless(l, Apply(l, m))
  {
    match m
    case Deliver => HopelessDelivery(l);
    case SendWake(clock) => HopelessWake(l, clock);
    case Fetch => HopelessFetch(l);
    case Lose(i) =>
      HasRemoved(l.ba, i, |l.a.submitted| - 1, l.a.submitted);
      hide Inv, HasAck, HasCopy;
    case _ =>
      hide ChannelsOk, ReceiverOk;
  }

  /** A copy that is not the last message's is not stored, and is not acknowledged as the last message. */
  lemma OldCopyIgnored(l: Link)
    requires Inv(l) && l.ab != [] && IsData(l.ab[0]) && l.a.st.state == TRANSMITTING && !Traces(l)
    ensures var (st, out) := HandleFrame(l.b.st, l.ab[0]);
            st == l.b.st && (out == [] || (out == [out[0]] && IsAck(out[0]) && !AckOf(out[0], |l.a.submitted| - 1)))
  {
    var n := |l.a.submitted|;
    HasTail(l.ab, n - 1, l.a.submitted);
    DataHead(l.ab, l.a.submitted);
    DataOutcome(l.a, l.b, l.ab, l.ba);
    hide DataWindow, AckWindow, AckLast, HasAck, HasCopy, HandleFrame;
  }

  lemma HopelessPeerDelivery(l: Link)
    requires Inv(l) && Hopeless(l) && l.ab != []
    ensures StillHopeless(l, Next(l, Step(B, Deliver)))
  {
    var n := |l.a.submitted|;
    HasTail(l.ab, n - 1, l.a.submitted);
    var out := HandleFrame(l.b.st, l.ab[0]).1;
    assert l.ba + [] == l.ba;
    if IsData(l.ab[0]) {
      OldCopyIgnored(l);
    }
    if out != [] {
      HasSnoc(l.ba, out[0], n - 1, l.a.submitted);
    }
    hide Direction, HasAck, HasCopy, AckOf, Copy;
  }

  lemma HopelessPeerSends(l: Link, m: Move)
    requires Inv(l) && Hopeless(l) && MayMove(Swap(l), m) && (m.SendBegin? || m.SendWake?)
    ensures StillHopeless(l, Next(l, Step(B, m)))
  {
    var n := |l.a.submitted|;
    if m.SendBegin? {
      HasSnoc(l.ba, Data(l.b.st, m.message), n - 1, l.a.submitted);
    } else {
      HasSnoc(l.ba, l.b.call.frame, n - 1, l.a.submitted);
    }
    hide ChannelsOk, ReceiverOk, HasAck, HasCopy, AckOf, Copy;
  }

  lemma HopelessPeerStep(l: Link, m: Move)
    requires Inv(l) && Hopeless(l) && MayMove(Swap(l), m) && SessionMove(m)
    ensures StillHopeless(l, Next(l, Step(B, m)))
  {
    assert l.ba + [] == l.ba;
    match m
    case Deliver => HopelessPeerDelivery(l);
    case SendBegin(_) => HopelessPeerSends(l, m);
    case SendWake(_) => HopelessPeerSends(l, m);
    case Lose(i) =>
      HasRemoved(l.ab, i, |l.a.submitted| - 1, l.a.submitted);
      hide Inv, HasAck, HasCopy;
    case _ =>
      hide Inv, HasAck, HasCopy;
  }

  /** The message will not be reported. */
  predicate Doomed(l: Link) { Overlooked(l.a) || Hopeless(l) }

  lemma DoomedStep(l: Link, s: Step)
    requires Inv(l) && Doomed(l) && Enabled(l, s) && SessionMove(s.move)
    ensures Doomed(Next(l, s)) && Next(l, s).a.confirmed == l.a.confirmed
  {
    if Overlooked(l.a) {
      OverlookedStep(l, s);
    } else if s.side == A {
      HopelessOwnStep(l, s.move);
    } else {
      HopelessPeerStep(l, s.move);
    }
    hide Inv, Hopeless;
  }

  lemma {:induction false} DoomedForGood(l: Link, steps: seq<Step>)
    requires Inv(l) && Doomed(l) && Runs(l, steps) && SessionSteps(steps)
    ensures Final(l, steps).a.confirmed == l.a.confirmed
    decreases |steps|
  {
    hide Inv, Doomed, Enabled, Next, SessionMove;
    if steps != [] {
      StepKeeps(l, steps[0]);
      DoomedStep(l, steps[0]);
      DoomedForGood(Next(l, steps[0]), steps[1..]);
    }
  }

  ghost predicate NeverReported(l: Link) {
    forall steps :: Runs(l, steps) && SessionSteps(steps) ==> Final(l, steps).a.confirmed == l.a.confirmed
  }

  /** Exactly when a waiting sender whose peer is up can still succeed: unless it overlooked a signal for an
      acknowledgement already counted, and as long as a retry remains or the message leaves a trace. Otherwise no run
      of the session ever reports the message; in the first case the peer has picked it up nevertheless. */
  lemma RecoverableExactly(l: Link)
    requires Inv(l) && l.a.st.state == TRANSMITTING && Up(l.b.st)
    ensures var hope := (Acked(l.a) ==> l.a.st.signaled)
                        && (l.a.st.failureCount + 1 < MAX_FAILURE_COUNT || Traces(l));
            && (hope <==> exists steps :: BringsHome(l, steps, 1))
            && (hope <==> !NeverReported(l))
    ensures Acked(l.a) ==> l.b.picked == l.a.submitted
  {
    if (Acked(l.a) ==> l.a.st.signaled) && (l.a.st.failureCount + 1 < MAX_FAILURE_COUNT || Traces(l)) {
      Recoverable(l);
      hide Traces;
      var steps :| BringsHome(l, steps, 0) || BringsHome(l, steps, 1);
      Reported(l, steps);
    } else {
      forall steps | Runs(l, steps) && SessionSteps(steps)
        ensures Final(l, steps).a.confirmed == l.a.confirmed
      {
        DoomedForGood(l, steps);
      }
      forall steps | BringsHome(l, steps, 1)
        ensures false
      {
        Reported(l, steps);
      }
    }
  }

  lemma Reported(l: Link, steps: seq<Step>)
    requires Inv(l) && l.a.st.state == TRANSMITTING && (BringsHome(l, steps, 0) || BringsHome(l, steps, 1))
    ensures BringsHome(l, steps, 1) && !NeverReported(l)
  {
    assert SessionSteps(steps);
    assert l.a.confirmed != |l.a.submitted|;
    hide Inv, Timeouts, Runs;
  }
}
