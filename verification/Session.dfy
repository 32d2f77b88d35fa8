/** One established session of the stop-and-wait link: what every step keeps, and what follows for every run. */
module Session {
  import opened Fcs
  import opened Control
  import opened Station
  import opened Link

  // ---- Channels ----

  /** No connection request and no rejection is under way; a late CONN_ACK may be. */
  predicate InSession(ch: seq<Packet>) {
    forall i :: 0 <= i < |ch| ==> IsData(ch[i]) || IsAck(ch[i]) || IsConnAck(ch[i])
  }

  /** `f` is a copy of the k-th message. */
  predicate Copy(f: Packet, k: int, sub: seq<seq<byte>>) {
    0 <= k < |sub| && f.control.sendSeq == k % 8 && f.payload == sub[k]
  }

  predicate AckOf(f: Packet, k: int) { 0 <= k && f.control.recvSeq == k % 8 }

  /** The DATA frames under way are copies of the last message but one, then of the last one only. */
  predicate DataWindow(ch: seq<Packet>, sub: seq<seq<byte>>) {
    && (forall i :: 0 <= i < |ch| && IsData(ch[i]) ==> Copy(ch[i], |sub| - 1, sub) || Copy(ch[i], |sub| - 2, sub))
    && (forall i, j :: 0 <= i < j < |ch| && IsData(ch[i]) && IsData(ch[j]) && Copy(ch[i], |sub| - 1, sub)
          ==> Copy(ch[j], |sub| - 1, sub))
  }

  predicate DataLast(ch: seq<Packet>, sub: seq<seq<byte>>) {
    forall i :: 0 <= i < |ch| && IsData(ch[i]) ==> Copy(ch[i], |sub| - 1, sub)
  }

  /** The same for acknowledgements; one for the last message only exists once that was picked up. */
  predicate AckWindow(ch: seq<Packet>, n: nat, picked: nat) {
    && (forall i :: 0 <= i < |ch| && IsAck(ch[i]) ==> (AckOf(ch[i], n - 1) && picked == n) || AckOf(ch[i], n - 2))
    && (forall i, j :: 0 <= i < j < |ch| && IsAck(ch[i]) && IsAck(ch[j]) && AckOf(ch[i], n - 1)
          ==> AckOf(ch[j], n - 1))
  }

  predicate AckLast(ch: seq<Packet>, n: nat) {
    forall i :: 0 <= i < |ch| && IsAck(ch[i]) ==> AckOf(ch[i], n - 1)
  }

  function Removed(ch: seq<Packet>, at: nat): seq<Packet>
    requires at < |ch|
  {
    ch[..at] + ch[at + 1..]
  }

  lemma RemoveKeeps(ch: seq<Packet>, at: nat, sub: seq<seq<byte>>, n: nat, picked: nat)
    requires at < |ch|
    ensures InSession(ch) ==> InSession(Removed(ch, at))
    ensures DataWindow(ch, sub) ==> DataWindow(Removed(ch, at), sub)
    ensures DataLast(ch, sub) ==> DataLast(Removed(ch, at), sub)
    ensures AckWindow(ch, n, picked) ==> AckWindow(Removed(ch, at), n, picked)
    ensures AckLast(ch, n) ==> AckLast(Removed(ch, at), n)
  {
    var r := Removed(ch, at);
    assert forall i :: 0 <= i < |r| ==> r[i] == if i < at then ch[i] else ch[i + 1];
  }

  /** Copies of the last message may be added at the end, whatever else is under way. */
  lemma AddData(ch: seq<Packet>, f: Packet, sub: seq<seq<byte>>, n: nat, picked: nat)
    requires IsData(f) && Copy(f, |sub| - 1, sub)
    ensures InSession(ch) ==> InSession(ch + [f])
    ensures DataWindow(ch, sub) ==> DataWindow(ch + [f], sub)
    ensures DataLast(ch, sub) ==> DataLast(ch + [f], sub)
    ensures AckWindow(ch, n, picked) ==> AckWindow(ch + [f], n, picked)
    ensures AckLast(ch, n) ==> AckLast(ch + [f], n)
  {
  }

  lemma AddAck(ch: seq<Packet>, f: Packet, sub: seq<seq<byte>>, n: nat, picked: nat)
    requires IsAck(f)
    ensures InSession(ch) ==> InSession(ch + [f])
    ensures DataWindow(ch, sub) ==> DataWindow(ch + [f], sub)
    ensures DataLast(ch, sub) ==> DataLast(ch + [f], sub)
    ensures AckWindow(ch, n, picked) && AckOf(f, n - 1) && picked == n ==> AckWindow(ch + [f], n, picked)
    ensures AckWindow(ch, n, picked) && AckOf(f, n - 2) && picked != n ==> AckWindow(ch + [f], n, picked)
    ensures AckLast(ch, n) && AckOf(f, n - 1) ==> AckLast(ch + [f], n)
  {
  }

  // ---- One direction ----

  function Pending(r: Node): nat { if Up(r.st) && r.st.complete then 1 else 0 }

  /** Messages the receiver has taken out of the channel. */
  function Accepted(r: Node): nat { |r.picked| + Pending(r) }

  predicate Acked(s: Node) { s.st.nextExpectedAck == |s.submitted| % 8 }

  /** The sender's fields against its history. A station whose dcConnect is about to succeed has not begun. */
  predicate SenderOk(s: Node, picked: nat) {
    var n := |s.submitted|;
    && s.confirmed <= picked && n <= s.confirmed + 1
    && (forall k :: 0 <= k < n ==> s.submitted[k] != [])
    && match s.st.state
       case DISCONNECTED => s.call == Idle
       case CONNECTING => s.call == Connecting && s.st.signaled && n == 0 && s.picked == []
       case CONNECTED =>
         s.call == Idle && s.st.sendNumber == n % 8 && Acked(s) && s.confirmed == n
       case TRANSMITTING =>
         && n >= 1 && s.confirmed == n - 1
         && s.call.Sending? && IsData(s.call.frame) && Copy(s.call.frame, n - 1, s.submitted)
         && s.st.sendNumber == n % 8
         && (Acked(s) || s.st.nextExpectedAck == (n - 1) % 8)
         && (Acked(s) ==> picked == n)
         && (s.st.signaled ==> Acked(s) && s.st.lastResponse == RESP_OK)
  }

  /** The receiver's fields against the sender's and its own history. */
  predicate ReceiverOk(r: Node, sub: seq<seq<byte>>) {
    var p, q := |r.picked|, Accepted(r);
    && |sub| - 1 <= p <= q <= |sub|
    && r.picked == sub[..p]
    && (Up(r.st) ==> r.st.recvNumber == q % 8 && (r.st.complete <==> r.st.extraction != []))
    && (q > p ==> r.st.extraction == sub[p])
  }

  predicate ChannelsOk(s: Node, r: Node, data: seq<Packet>, acks: seq<Packet>) {
    var n := |s.submitted|;
    && DataWindow(data, s.submitted)
    && (Accepted(r) == n ==> DataLast(data, s.submitted))
    && AckWindow(acks, n, |r.picked|)
    && (Up(s.st) && Acked(s) ==> AckLast(acks, n))
  }

  predicate Direction(s: Node, r: Node, data: seq<Packet>, acks: seq<Packet>) {
    SenderOk(s, |r.picked|) && ReceiverOk(r, s.submitted) && ChannelsOk(s, r, data, acks)
  }

  /** The direction from A to B. */
  predicate Forward(l: Link) { Direction(l.a, l.b, l.ab, l.ba) }

  predicate Inv(l: Link) { InSession(l.ab) && InSession(l.ba) && Forward(l) && Forward(Swap(l)) }

  /** Steps of a session: everything but beginning to connect. */
  predicate SessionMove(m: Move) { !m.ConnectBegin? }

  // ---- Every step of the sender keeps its direction ----

  lemma SubmitShifts(ch: seq<Packet>, acks: seq<Packet>, sub: seq<seq<byte>>, message: seq<byte>)
    requires DataLast(ch, sub) && AckLast(acks, |sub|)
    ensures DataWindow(ch, sub + [message]) && AckWindow(acks, |sub| + 1, |sub|)
  {
  }

  lemma PredMod(n: nat)
    requires n >= 1
    ensures Pred(n % 8) == (n - 1) % 8 && Succ((n - 1) % 8) == n % 8
  {
  }

  lemma SendStarts(l: Link, message: seq<byte>)
    requires Forward(l) && MayMove(l, SendBegin(message)) && BeginSend(l.a.st, message).1.Waiting?
    ensures Forward(Apply(l, SendBegin(message)))
  {
    hide DataWindow, DataLast, AckWindow, AckLast;
    SubmitShifts(l.ab, l.ba, l.a.submitted, message);
    AddData(l.ab, Data(l.a.st, message), l.a.submitted + [message], 0, 0);
  }

  lemma SendBeginForward(l: Link, message: seq<byte>)
    requires Forward(l) && MayMove(l, SendBegin(message))
    ensures Forward(Apply(l, SendBegin(message)))
  {
    if BeginSend(l.a.st, message).1.Waiting? {
      SendStarts(l, message);
    }
    hide Forward;
  }

  lemma SendWakeForward(l: Link, clock: bool)
    requires Forward(l) && MayMove(l, SendWake(clock))
    ensures Forward(Apply(l, SendWake(clock)))
  {
    hide DataWindow, DataLast, AckWindow, AckLast, Copy, ReceiverOk;
    AddData(l.ab, l.a.call.frame, l.a.submitted, 0, 0);
  }

  lemma ConnectWakeForward(l: Link, clock: bool)
    requires Forward(l) && MayMove(l, ConnectWake(clock))
    ensures Forward(Apply(l, ConnectWake(clock)))
  {
    NothingYet(l.ba);
    hide DataWindow, DataLast, AckWindow, AckLast;
  }

  /** Before the first message there is no acknowledgement. */
  lemma NothingYet(acks: seq<Packet>)
    ensures AckWindow(acks, 0, 0) ==> AckLast(acks, 0)
  {
  }

  lemma AcksRemoved(s: Node, r: Node, data: seq<Packet>, acks: seq<Packet>, at: nat)
    requires Direction(s, r, data, acks) && at < |acks|
    ensures Direction(s, r, data, Removed(acks, at)) && Removed(acks, 0) == acks[1..]
  {
    hide DataWindow, DataLast, AckWindow, AckLast, SenderOk, ReceiverOk;
    RemoveKeeps(acks, at, [], |s.submitted|, |r.picked|);
  }

  lemma DataRemoved(s: Node, r: Node, data: seq<Packet>, acks: seq<Packet>, at: nat)
    requires Direction(s, r, data, acks) && at < |data|
    ensures Direction(s, r, Removed(data, at), acks) && Removed(data, 0) == data[1..]
  {
    hide DataWindow, DataLast, AckWindow, AckLast, SenderOk, ReceiverOk;
    RemoveKeeps(data, at, s.submitted, 0, 0);
  }

  lemma AckAdded(s: Node, r: Node, data: seq<Packet>, acks: seq<Packet>, f: Packet)
    requires Direction(s, r, data, acks) && IsAck(f)
    ensures Direction(s, r, data + [f], acks)
  {
    hide DataWindow, DataLast, AckWindow, AckLast, SenderOk, ReceiverOk;
    AddAck(data, f, s.submitted, 0, 0);
  }

  /** The same sender as far as its own messages are concerned. */
  predicate SameSender(s: Node, s': Node) {
    && s'.submitted == s.submitted && s'.confirmed == s.confirmed && s'.call == s.call
    && s'.st.state == s.st.state && s'.st.sendNumber == s.st.sendNumber
    && s'.st.nextExpectedAck == s.st.nextExpectedAck
    && (s.st.state == CONNECTING ==> (s.st.signaled ==> s'.st.signaled) && s'.picked == s.picked)
    && (s.st.state == TRANSMITTING ==>
          s'.st.signaled == s.st.signaled && s'.st.lastResponse == s.st.lastResponse)
  }

  lemma SenderKept(s: Node, s': Node, r: Node, data: seq<Packet>, acks: seq<Packet>)
    requires Direction(s, r, data, acks) && SameSender(s, s')
    ensures Direction(s', r, data, acks)
  {
    hide DataWindow, DataLast, AckWindow, AckLast, ReceiverOk, Copy;
  }

  lemma OwnLoseForward(l: Link, at: nat)
    requires Forward(l) && MayMove(l, Lose(at))
    ensures Forward(Apply(l, Lose(at)))
  {
    hide Direction;
    AcksRemoved(l.a, l.b, l.ab, l.ba, at);
  }

  /** What a station transmits as a receiver is no DATA frame. */
  lemma OwnFetchForward(l: Link)
    requires Forward(l)
    ensures Forward(Apply(l, Fetch))
  {
    hide Direction;
    assert l.ab + [] == l.ab;
    SenderKept(l.a, Apply(l, Fetch).a, l.b, l.ab, l.ba);
    AckAdded(Apply(l, Fetch).a, l.b, l.ab, l.ba, Ack(l.a.st.recvNumber));
  }

  lemma OwnHangupForward(l: Link)
    requires Forward(l) && MayMove(l, Hangup)
    ensures Forward(Apply(l, Hangup))
  {
    hide DataWindow, DataLast, AckWindow, AckLast, ReceiverOk;
  }

  /** Once the acknowledgement of the last message heads the channel, no older one is behind it. */
  lemma AckHead(ch: seq<Packet>, n: nat, picked: nat)
    requires AckWindow(ch, n, picked) && ch != [] && IsAck(ch[0])
    ensures (AckOf(ch[0], n - 1) && picked == n) || AckOf(ch[0], n - 2)
    ensures AckOf(ch[0], n - 1) ==> AckLast(ch, n)
  {
  }

  /** An acknowledgement at the sender: believed once, for the last message; ignored otherwise. */
  lemma AckOutcome(s: Node, r: Node, data: seq<Packet>, acks: seq<Packet>)
    requires Direction(s, r, data, acks) && acks != [] && IsAck(acks[0])
    ensures var (st, out) := HandleFrame(s.st, acks[0]);
            var n := |s.submitted|;
            && out == []
            && (st == s.st ||
                (s.st.state == TRANSMITTING && !Acked(s) && |r.picked| == n && AckOf(acks[0], n - 1) && AckLast(acks, n)
                 && st == s.st.(nextExpectedAck := n % 8, lastResponse := RESP_OK, signaled := true)))
  {
    var n := |s.submitted|;
    AckHead(acks, n, |r.picked|);
    if n >= 1 {
      PredMod(n);
    }
    hide DataWindow, DataLast, AckWindow, AckLast;
  }

  lemma OwnAckForward(l: Link)
    requires Forward(l) && l.ba != [] && IsAck(l.ba[0])
    ensures Forward(Apply(l, Deliver))
  {
    hide DataWindow, DataLast, AckWindow, AckLast, HandleFrame, AckOf;
    AckOutcome(l.a, l.b, l.ab, l.ba);
    RemoveKeeps(l.ba, 0, [], |l.a.submitted|, |l.b.picked|);
    assert Removed(l.ba, 0) == l.ba[1..] && l.ab + [] == l.ab;
  }

  /** What a sender does about DATA frames, and late answers, does not concern its own messages. */
  lemma OwnOtherForward(l: Link)
    requires Forward(l) && l.ba != [] && (IsData(l.ba[0]) || IsConnAck(l.ba[0]))
    ensures Forward(Apply(l, Deliver))
  {
    hide Direction;
    var l' := Apply(l, Deliver);
    assert l.ab + [] == l.ab;
    AcksRemoved(l.a, l.b, l.ab, l.ba, 0);
    SenderKept(l.a, l'.a, l.b, l.ab, l'.ba);
    AckAdded(l'.a, l.b, l.ab, l'.ba, Ack(l.a.st.recvNumber));
  }

  lemma OwnForward(l: Link, m: Move)
    requires Forward(l) && InSession(l.ba) && MayMove(l, m) && SessionMove(m)
    ensures Forward(Apply(l, m))
  {
    match m
    case SendBegin(message) => SendBeginForward(l, message);
    case SendWake(clock) => SendWakeForward(l, clock);
    case ConnectWake(clock) => ConnectWakeForward(l, clock);
    case Lose(i) => OwnLoseForward(l, i);
    case Fetch => OwnFetchForward(l);
    case Hangup => OwnHangupForward(l);
    case Deliver =>
      hide Forward, Apply;
      if IsAck(l.ba[0]) {
        OwnAckForward(l);
      } else {
        OwnOtherForward(l);
      }
  }

  // ---- Every step of the receiver keeps the direction ----

  lemma PeerLoseForward(l: Link, at: nat)
    requires Forward(l) && MayMove(Swap(l), Lose(at))
    ensures Forward(Next(l, Step(B, Lose(at))))
  {
    hide Direction;
    DataRemoved(l.a, l.b, l.ab, l.ba, at);
  }

  lemma AckRises(ch: seq<Packet>, n: nat, picked: nat)
    requires picked < n
    ensures AckWindow(ch, n, picked) ==> AckWindow(ch, n, picked + 1)
  {
  }

  lemma PeerFetchForward(l: Link)
    requires Forward(l)
    ensures Forward(Next(l, Step(B, Fetch)))
  {
    hide DataWindow, DataLast, AckWindow, AckLast;
    var out := PickUp(l.b.st).2;
    assert l.ba + [] == l.ba;
    if out != [] {
      var p, sub := |l.b.picked|, l.a.submitted;
      assert sub[..p + 1] == sub[..p] + [sub[p]];
      PredMod(p + 1);
      assert out == [out[0]] && |sub| == p + 1;
      assert AckOf(out[0], |sub| - 1);
      AckRises(l.ba, |sub|, p);
      AddAck(l.ba, out[0], [], |sub|, p + 1);
    }
  }

  lemma PeerHangupForward(l: Link)
    requires Forward(l) && MayMove(Swap(l), Hangup)
    ensures Forward(Next(l, Step(B, Hangup)))
  {
    hide DataWindow, DataLast, AckWindow, AckLast, SenderOk;
  }

  /** What a receiver transmits of its own does not concern the messages to it. */
  lemma PeerSendForward(l: Link, m: Move)
    requires Forward(l) && Settled(l.b) && MayMove(Swap(l), m) && (m.SendBegin? || m.SendWake?)
    ensures Forward(Next(l, Step(B, m)))
  {
    hide DataWindow, DataLast, AckWindow, AckLast, SenderOk;
    var f := if m.SendBegin? then Data(l.b.st, m.message) else l.b.call.frame;
    AddOwnData(l.ba, f, |l.a.submitted|, |l.b.picked|);
  }

  lemma AddOwnData(ch: seq<Packet>, f: Packet, n: nat, picked: nat)
    requires IsData(f)
    ensures AckWindow(ch, n, picked) ==> AckWindow(ch + [f], n, picked)
    ensures AckLast(ch, n) ==> AckLast(ch + [f], n)
  {
  }

  /** A receiver whose dcConnect returns has received nothing yet. */
  lemma PeerConnectWakeForward(l: Link, clock: bool)
    requires Forward(l) && Settled(l.b) && MayMove(Swap(l), ConnectWake(clock)) && l.b.picked == []
    ensures Forward(Next(l, Step(B, ConnectWake(clock))))
  {
    hide DataWindow, DataLast, AckWindow, AckLast, SenderOk;
  }

  lemma DataHead(ch: seq<Packet>, sub: seq<seq<byte>>)
    requires DataWindow(ch, sub) && ch != [] && IsData(ch[0])
    ensures Copy(ch[0], |sub| - 1, sub) || Copy(ch[0], |sub| - 2, sub)
    ensures Copy(ch[0], |sub| - 1, sub) ==> DataLast(ch, sub)
  {
  }

  /** A DATA frame at its receiver: a new message is stored, a repeated one acknowledged again, any other ignored. */
  lemma DataOutcome(s: Node, r: Node, data: seq<Packet>, acks: seq<Packet>)
    requires Direction(s, r, data, acks) && data != [] && IsData(data[0])
    ensures var (st, out) := HandleFrame(r.st, data[0]);
            var n := |s.submitted|;
            || (st == r.st && out == [])
            || (st == r.st && out == [Ack(r.st.recvNumber)] && AckOf(out[0], |r.picked| - 1))
            || (st == r.st.(extraction := s.submitted[n - 1], complete := true, recvNumber := n % 8)
                && out == [] && Up(r.st) && !r.st.complete && |r.picked| == n - 1 && DataLast(data, s.submitted))
  {
    DataHead(data, s.submitted);
    var n := |s.submitted|;
    if n >= 1 {
      PredMod(n);
    }
    if n >= 2 {
      PredMod(n - 1);
    }
    assert Accepted(r) == n ==> Copy(data[0], n - 1, s.submitted);
    hide DataWindow, DataLast, AckWindow, AckLast;
  }

  lemma PeerDataForward(l: Link)
    requires Forward(l) && l.ab != [] && IsData(l.ab[0])
    ensures Forward(Next(l, Step(B, Deliver)))
  {
    hide DataWindow, DataLast, AckWindow, AckLast, HandleFrame, Copy;
    var sub := l.a.submitted;
    var (st, out) := HandleFrame(l.b.st, l.ab[0]);
    DataOutcome(l.a, l.b, l.ab, l.ba);
    RemoveKeeps(l.ab, 0, sub, 0, 0);
    assert Removed(l.ab, 0) == l.ab[1..] && l.ba + [] == l.ba;
    if out != [] {
      AddAck(l.ba, out[0], [], |sub|, |l.b.picked|);
    }
  }

  /** The same receiver as far as the messages to it are concerned. */
  predicate SameReceiver(r: Node, r': Node) {
    && r'.picked == r.picked && Up(r'.st) == Up(r.st) && r'.st.complete == r.st.complete
    && r'.st.extraction == r.st.extraction && r'.st.recvNumber == r.st.recvNumber
  }

  lemma ReceiverKept(s: Node, r: Node, r': Node, data: seq<Packet>, acks: seq<Packet>)
    requires Direction(s, r, data, acks) && SameReceiver(r, r')
    ensures Direction(s, r', data, acks)
  {
    hide DataWindow, DataLast, AckWindow, AckLast, SenderOk;
  }

  /** What a receiver does about acknowledgements and late answers does not concern the messages to it. */
  lemma PeerOtherForward(l: Link)
    requires Forward(l) && l.ab != [] && (IsAck(l.ab[0]) || IsConnAck(l.ab[0]))
    ensures Forward(Next(l, Step(B, Deliver)))
  {
    hide Direction;
    var l' := Next(l, Step(B, Deliver));
    assert l.ba + [] == l.ba;
    DataRemoved(l.a, l.b, l.ab, l.ba, 0);
    ReceiverKept(l.a, l.b, l'.b, l'.ab, l.ba);
  }

  /** Whatever the receiver is doing as a sender. */
  lemma PeerForward(l: Link, m: Move)
    requires Forward(l) && Settled(l.b) && InSession(l.ab) && MayMove(Swap(l), m) && SessionMove(m)
    requires m.ConnectWake? ==> l.b.picked == []
    ensures Forward(Next(l, Step(B, m)))
  {
    match m
    case SendBegin(_) => PeerSendForward(l, m);
    case SendWake(_) => PeerSendForward(l, m);
    case ConnectWake(clock) => PeerConnectWakeForward(l, clock);
    case Lose(i) => PeerLoseForward(l, i);
    case Fetch => PeerFetchForward(l);
    case Hangup => PeerHangupForward(l);
    case Deliver =>
      hide Forward, Next;
      if IsData(l.ab[0]) {
        PeerDataForward(l);
      } else {
        PeerOtherForward(l);
      }
  }

  // ---- Every step keeps the invariant ----

  lemma TransmitsInSession(l: Link, m: Move)
    requires InSession(l.ab) && InSession(l.ba) && Settled(l.a) && MayMove(l, m) && SessionMove(m)
    ensures InSession(Apply(l, m).ab) && InSession(Apply(l, m).ba)
  {
    hide Interrupted;
    assert l.ab + [] == l.ab;
    if m.Lose? {
      RemoveKeeps(l.ba, m.at, [], 0, 0);
    }
  }

  lemma SenderSettled(s: Node, picked: nat)
    requires SenderOk(s, picked)
    ensures Settled(s) && (s.call.Connecting? ==> s.picked == [])
  {
  }

  lemma MoveKeeps(l: Link, m: Move)
    requires Inv(l) && MayMove(l, m) && SessionMove(m)
    ensures Inv(Apply(l, m))
  {
    SenderSettled(l.a, |l.b.picked|);
    hide Direction, Apply, Settled, MayMove;
    TransmitsInSession(l, m);
    OwnForward(l, m);
    PeerForward(Swap(l), m);
  }

  /** Every step of either station, and every loss, keeps the session invariant. */
  lemma StepKeeps(l: Link, s: Step)
    requires Inv(l) && Enabled(l, s) && SessionMove(s.move)
    ensures Inv(Next(l, s))
  {
    hide Apply, Direction, MayMove;
    match s.side
    case A => MoveKeeps(l, s.move);
    case B => MoveKeeps(Swap(l), s.move);
  }

  predicate SessionSteps(steps: seq<Step>) { forall i :: 0 <= i < |steps| ==> SessionMove(steps[i].move) }

  lemma {:induction false} RunKeeps(l: Link, steps: seq<Step>)
    requires Inv(l) && Runs(l, steps) && SessionSteps(steps)
    ensures Inv(Final(l, steps))
    decreases |steps|
  {
    hide Inv, Enabled, Next, SessionMove;
    if steps != [] {
      StepKeeps(l, steps[0]);
      RunKeeps(Next(l, steps[0]), steps[1..]);
    }
  }

  // ---- What holds of every run of a session ----

  /** Both ends freshly restarted and connected, nothing of the new session under way yet. */
  predicate Established(l: Link) {
    && Restart(l.a) && Restart(l.b) && l.a.st.state == CONNECTED && l.b.st.state == CONNECTED
    && (forall i :: 0 <= i < |l.ab| ==> IsConnAck(l.ab[i]))
    && (forall i :: 0 <= i < |l.ba| ==> IsConnAck(l.ba[i]))
  }

  predicate Restart(n: Node) {
    && n.st == ResetLink(n.st).(state := n.st.state)
    && n.call == Idle && n.submitted == [] && n.confirmed == 0 && n.picked == []
  }

  lemma EstablishedInv(l: Link)
    requires Established(l)
    ensures Inv(l)
  {
  }

  /** Everything a station has received: picked up, and then the message still pending. */
  function Arrived(r: Node): seq<seq<byte>> {
    r.picked + if Pending(r) == 1 then [r.st.extraction] else []
  }

  lemma ArrivedPrefix(s: Node, r: Node)
    requires ReceiverOk(r, s.submitted)
    ensures Arrived(r) <= s.submitted
  {
  }

  /** Each station has received a prefix of what the other has submitted. */
  predicate InOrder(l: Link) {
    Arrived(l.b) <= l.a.submitted && Arrived(l.a) <= l.b.submitted
  }

  /** The messages reported DC_OK are among those the peer has picked up; at most one submitted is not reported. */
  predicate ConfirmedArePicked(l: Link) {
    && l.a.confirmed <= |l.a.submitted| <= l.a.confirmed + 1 && l.a.submitted[..l.a.confirmed] <= l.b.picked
    && l.b.confirmed <= |l.b.submitted| <= l.b.confirmed + 1 && l.b.submitted[..l.b.confirmed] <= l.a.picked
  }

  /** Both hold after every run from any state of a session, not only from its first. */
  lemma SessionDelivers(l: Link, steps: seq<Step>)
    requires Inv(l) && Runs(l, steps) && SessionSteps(steps)
    ensures InOrder(Final(l, steps)) && ConfirmedArePicked(Final(l, steps))
  {
    RunKeeps(l, steps);
    var f := Final(l, steps);
    ArrivedPrefix(f.a, f.b);
    ArrivedPrefix(f.b, f.a);
  }

  /** In-order delivery: whatever the interleaving of sends, timeouts, retransmissions, losses, deliveries and
      pick-ups in both directions, each station has received a prefix of what the other has submitted. */
  lemma InOrderDelivery(l: Link, steps: seq<Step>)
    requires Established(l) && Runs(l, steps) && SessionSteps(steps)
    ensures InOrder(Final(l, steps))
  {
    EstablishedInv(l);
    SessionDelivers(l, steps);
  }

  /** In every reachable state the messages reported DC_OK are among those the peer application has picked up,
      and at most one submitted message is not reported yet. */
  lemma ConfirmedWerePickedUp(l: Link, steps: seq<Step>)
    requires Established(l) && Runs(l, steps) && SessionSteps(steps)
    ensures ConfirmedArePicked(Final(l, steps))
  {
    EstablishedInv(l);
    SessionDelivers(l, steps);
  }

  /** dcSendMessage returns DC_OK only for a message that the peer application has picked up, and all before it. */
  lemma OkMeansPickedUp(l: Link, clock: bool)
    requires Inv(l) && MayMove(l, SendWake(clock))
    requires WakeSend(l.a.st, clock).1 == Returned(DC_OK)
    ensures l.b.picked == l.a.submitted
    ensures l.a.call.frame.payload == l.b.picked[|l.b.picked| - 1]
  {
    hide ChannelsOk;
  }

  /** An acknowledgement that is believed belongs to the message being sent, and that message was picked up. */
  lemma OnlyTheRightAckCounts(l: Link)
    requires Inv(l) && l.ba != [] && IsAck(l.ba[0])
    requires HandleFrame(l.a.st, l.ba[0]).0 != l.a.st
    ensures AckOf(l.ba[0], |l.a.submitted| - 1) && !AckOf(l.ba[0], |l.a.submitted| - 2)
    ensures l.b.picked == l.a.submitted && !Acked(l.a)
  {
    AckHead(l.ba, |l.a.submitted|, |l.b.picked|);
    hide DataWindow, AckWindow;
  }

  /** A DATA frame is stored exactly when it is a copy of the one message not received yet. */
  lemma OnlyNewDataIsStored(l: Link)
    requires Inv(l) && l.ba != [] && IsData(l.ba[0]) && Up(l.a.st)
    ensures HandleFrame(l.a.st, l.ba[0]).0 != l.a.st <==>
            Accepted(l.a) == |l.b.submitted| - 1 && Copy(l.ba[0], Accepted(l.a), l.b.submitted)
  {
    DataHead(l.ba, l.b.submitted);
    hide DataWindow, AckWindow, AckLast;
  }

  // ---- A pending message ----

  /** The stored size is positive exactly when the stored message is complete. */
  predicate StoredIsComplete(st: Station) { st.complete <==> st.extraction != [] }

  lemma StoredHandler(st: Station, f: Packet)
    requires StoredIsComplete(st)
    ensures StoredIsComplete(HandleFrame(st, f).0)
  {
  }

  lemma StoredMove(l: Link, m: Move)
    requires MayMove(l, m) && StoredIsComplete(l.a.st)
    ensures StoredIsComplete(Apply(l, m).a.st) && Apply(l, m).b == l.b
  {
    if m.Deliver? {
      StoredHandler(l.a.st, l.ba[0]);
      hide HandleFrame;
    }
  }

  lemma StoredStep(l: Link, s: Step)
    requires Enabled(l, s) && StoredIsComplete(l.a.st) && StoredIsComplete(l.b.st)
    ensures StoredIsComplete(Next(l, s).a.st) && StoredIsComplete(Next(l, s).b.st)
  {
    hide Apply, MayMove, StoredIsComplete;
    match s.side
    case A => StoredMove(l, s.move);
    case B => StoredMove(Swap(l), s.move);
  }

  /** That holds in every run of the two stations, connecting, resetting and disconnecting included. */
  lemma {:induction false} StoredExactlyWhenComplete(l: Link, steps: seq<Step>)
    requires Runs(l, steps) && StoredIsComplete(l.a.st) && StoredIsComplete(l.b.st)
    ensures StoredIsComplete(Final(l, steps).a.st) && StoredIsComplete(Final(l, steps).b.st)
    decreases |steps|
  {
    hide Enabled, Next;
    if steps != [] {
      StoredStep(l, steps[0]);
      StoredExactlyWhenComplete(Next(l, steps[0]), steps[1..]);
    }
  }

  predicate Holding(n: Node, message: seq<byte>) { Up(n.st) && n.st.complete && n.st.extraction == message }

  /** The station neither picks up nor handles a request. */
  predicate LeavesPending(l: Link, s: Step) {
    s.side == A ==> !s.move.Fetch? && (s.move.Deliver? && l.ba != [] ==> !IsConn(l.ba[0]))
  }

  /** In every state of the run the link of the station is up, and no step concerns what is pending. */
  predicate UpThroughout(l: Link, steps: seq<Step>)
    requires Runs(l, steps)
    decreases |steps|
  {
    Up(l.a.st) && (steps == [] || (LeavesPending(l, steps[0]) && UpThroughout(Next(l, steps[0]), steps[1..])))
  }

  lemma HoldingMove(l: Link, m: Move, message: seq<byte>)
    requires MayMove(l, m) && LeavesPending(l, Step(A, m)) && Settled(l.a) && Up(Apply(l, m).a.st)
    requires Holding(l.a, message) && message != []
    ensures Holding(Apply(l, m).a, message)
  {
  }

  lemma HoldingStep(l: Link, s: Step, message: seq<byte>)
    requires Enabled(l, s) && LeavesPending(l, s) && Settled(l.a) && Up(Next(l, s).a.st)
    requires Holding(l.a, message) && message != []
    ensures Holding(Next(l, s).a, message) && Settled(Next(l, s).a)
  {
    if s.side == A {
      SettledKept(l, s.move);
      HoldingMove(l, s.move, message);
    } else {
      PeerLeaves(l, s.move);
    }
    hide Apply, MayMove, Holding, Settled;
  }

  lemma PeerLeaves(l: Link, m: Move)
    requires MayMove(Swap(l), m)
    ensures Next(l, Step(B, m)).a == l.a
  {
  }

  /** Pending-message stability, for any station in any state of the system: until it is picked up, and as long as the
      link stays up and no connection request arrives, the pending message stays as it is, so a later pick-up hands over
      exactly these bytes. */
  lemma {:induction false} PendingIsStable(l: Link, steps: seq<Step>, message: seq<byte>)
    requires Settled(l.a) && Runs(l, steps) && UpThroughout(l, steps)
    requires Holding(l.a, message) && message != []
    ensures Holding(Final(l, steps).a, message)
    ensures Peek(Final(l, steps).a.st) == (DC_OK, |message|)
    ensures PickUp(Final(l, steps).a.st).1 == Fetched(DC_OK, message)
    decreases |steps|
  {
    hide Enabled, Next, LeavesPending, Settled;
    if steps != [] {
      HoldingStep(l, steps[0], message);
      PendingIsStable(Next(l, steps[0]), steps[1..], message);
    }
  }

  // In a session no request arrives, and a link that was dropped stays down.

  lemma DroppedStays(l: Link, s: Step)
    requires Inv(l) && Enabled(l, s) && SessionMove(s.move)
    ensures l.a.st.state == DISCONNECTED ==> Next(l, s).a.st.state == DISCONNECTED
    ensures Up(l.a.st) ==> Up(Next(l, s).a.st) || Next(l, s).a.st.state == DISCONNECTED
    ensures s.side == A && s.move.Deliver? ==> !IsConn(l.ba[0])
  {
    hide ChannelsOk, ReceiverOk;
  }

  lemma {:induction false} DroppedForGood(l: Link, steps: seq<Step>)
    requires Inv(l) && Runs(l, steps) && SessionSteps(steps) && l.a.st.state == DISCONNECTED
    ensures Final(l, steps).a.st.state == DISCONNECTED
    decreases |steps|
  {
    hide Inv, Enabled, Next, SessionMove, Up;
    if steps != [] {
      StepKeeps(l, steps[0]);
      DroppedStays(l, steps[0]);
      DroppedForGood(Next(l, steps[0]), steps[1..]);
    }
  }

  lemma {:induction false} UpAtTheEnd(l: Link, steps: seq<Step>)
    requires Inv(l) && Runs(l, steps) && SessionSteps(steps) && Up(l.a.st) && Up(Final(l, steps).a.st)
    requires forall i :: 0 <= i < |steps| ==> steps[i] != Step(A, Fetch)
    ensures UpThroughout(l, steps)
    decreases |steps|
  {
    hide Inv, Enabled, Next, SessionMove;
    if steps != [] {
      StepKeeps(l, steps[0]);
      DroppedStays(l, steps[0]);
      if !Up(Next(l, steps[0]).a.st) {
        DroppedForGood(Next(l, steps[0]), steps[1..]);
      }
      UpAtTheEnd(Next(l, steps[0]), steps[1..]);
    }
  }

  /** In a session it is enough that the link is up at the end. */
  lemma SessionKeepsPending(l: Link, steps: seq<Step>, message: seq<byte>)
    requires Inv(l) && Runs(l, steps) && SessionSteps(steps)
    requires forall i :: 0 <= i < |steps| ==> steps[i] != Step(A, Fetch)
    requires Holding(l.a, message) && Up(Final(l, steps).a.st)
    ensures Holding(Final(l, steps).a, message) && message != []
    ensures Peek(Final(l, steps).a.st) == (DC_OK, |message|)
    ensures PickUp(Final(l, steps).a.st).1 == Fetched(DC_OK, message)
  {
    SenderSettled(l.a, |l.b.picked|);
    assert message != [] by {
      hide ChannelsOk, SenderOk;
    }
    UpAtTheEnd(l, steps);
    hide Inv, Settled, Runs, Final, UpThroughout, SessionSteps;
    PendingIsStable(l, steps, message);
  }
}
