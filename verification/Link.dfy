/** Two stations joined by two lossy FIFO channels of frames, as a labelled transition system. */
module Link {
  import opened Fcs
  import opened Control
  import opened Station

  predicate IsData(f: Packet) { f.control.frame.DATA? }

  predicate IsAck(f: Packet) { f.control.frame.ACK? }

  predicate IsConn(f: Packet) { f.control.frame.CONN? }

  predicate IsConnAck(f: Packet) { f.control.frame.CONN_ACK? }

  /** The blocking call a station's application is in. */
  datatype Call = Idle | Sending(frame: Packet) | Connecting

  /** A station with its call and its history since it last restarted: messages submitted, how many of them were
      reported DC_OK, messages picked up. `connects` collects what dcConnect returned; `restarts` counts resets
      by a connection request or a successful dcConnect. */
  datatype Node = Node(st: Station, call: Call, submitted: seq<seq<byte>>, confirmed: nat, picked: seq<seq<byte>>,
                       connects: seq<Result>, restarts: nat)

  datatype Link = Link(a: Node, b: Node, ab: seq<Packet>, ba: seq<Packet>)

  datatype Side = A | B

  /** Atomic steps of a station, and the loss of a frame on its way to it. */
  datatype Move =
    | SendBegin(message: seq<byte>)
    | SendWake(clock: bool)
    | Deliver
    | Lose(at: nat)
    | Fetch
    | Hangup
    | ConnectBegin
    | ConnectWake(clock: bool)

  datatype Step = Step(side: Side, move: Move)

  function Swap(l: Link): Link { Link(l.b, l.a, l.ba, l.ab) }

  function Restarted(n: Node): Node {
    n.(submitted := [], confirmed := 0, picked := [], restarts := n.restarts + 1)
  }

  /** A wait ends by the clock at any time, otherwise only after a signal. */
  predicate MayMove(l: Link, m: Move) {
    match m
    case SendBegin(_) => l.a.call.Idle?
    case SendWake(clock) => l.a.call.Sending? && (clock || l.a.st.signaled)
    case Deliver => l.ba != []
    case Lose(i) => i < |l.ba|
    case Fetch => true
    case Hangup => l.a.call.Idle?
    case ConnectBegin => l.a.call.Idle?
    case ConnectWake(clock) => l.a.call.Connecting? && (clock || l.a.st.signaled)
  }

  /** A step of the first station. */
  function Apply(l: Link, m: Move): Link
    requires MayMove(l, m)
  {
    var a := l.a;
    match m
    case SendBegin(message) =>
      var (st, begun) := BeginSend(a.st, message);
      (match begun
       case Refused(_) => l
       case Waiting(frame) =>
         l.(a := a.(st := st, call := Sending(frame), submitted := a.submitted + [message]), ab := l.ab + [frame]))
    case SendWake(clock) =>
      var (st, woken) := WakeSend(a.st, clock);
      (match woken
       case Returned(r) =>
         l.(a := a.(st := st, call := Idle, confirmed := a.confirmed + if r == DC_OK then 1 else 0))
       case Retransmit => l.(a := a.(st := st), ab := l.ab + [a.call.frame]))
    case Deliver =>
      var f := l.ba[0];
      var (st, out) := HandleFrame(a.st, f);
      var a' := a.(st := st);
      l.(a := if f.control.frame.CONN? then Restarted(a') else a', ba := l.ba[1..], ab := l.ab + out)
    case Lose(i) => l.(ba := l.ba[..i] + l.ba[i + 1..])
    case Fetch =>
      var (st, fetched, out) := PickUp(a.st);
      l.(a := a.(st := st, picked := a.picked + if out == [] then [] else [fetched.message]), ab := l.ab + out)
    case Hangup => l.(a := a.(st := Disconnect(a.st).0))
    case ConnectBegin =>
      var (st, begun) := BeginConnect(a.st);
      (match begun
       case Refused(r) => l.(a := a.(connects := a.connects + [r]))
       case Waiting(frame) => l.(a := a.(st := st, call := Connecting), ab := l.ab + [frame]))
    case ConnectWake(clock) =>
      var (st, r) := WakeConnect(a.st, clock);
      var a' := a.(st := st, call := Idle, connects := a.connects + [r]);
      l.(a := if r == DC_OK then Restarted(a') else a')
  }

  predicate Enabled(l: Link, s: Step) {
    match s.side
    case A => MayMove(l, s.move)
    case B => MayMove(Swap(l), s.move)
  }

  function Next(l: Link, s: Step): Link
    requires Enabled(l, s)
  {
    match s.side
    case A => Apply(l, s.move)
    case B => Swap(Apply(Swap(l), s.move))
  }

  predicate Runs(l: Link, steps: seq<Step>)
    decreases |steps|
  {
    steps == [] || (Enabled(l, steps[0]) && Runs(Next(l, steps[0]), steps[1..]))
  }

  function Final(l: Link, steps: seq<Step>): Link
    requires Runs(l, steps)
    decreases |steps|
  {
    if steps == [] then l else Final(Next(l, steps[0]), steps[1..])
  }

  // ---- State and call ----

  /** A send call whose link was reset by a request and which has not noticed yet. */
  predicate Interrupted(n: Node) { n.call.Sending? && n.st.state == CONNECTED && n.st.lastResponse == RESP_NOLINK }

  /** What every station keeps: its state tells the call it is in, but for an interrupted sender. */
  predicate Settled(n: Node) {
    match n.call
    case Idle => n.st.state == DISCONNECTED || n.st.state == CONNECTED
    case Sending(f) => IsData(f) && (n.st.state == TRANSMITTING || Interrupted(n))
    case Connecting => n.st.state == CONNECTING
  }

  lemma SettledKept(l: Link, m: Move)
    requires MayMove(l, m) && Settled(l.a)
    ensures Settled(Apply(l, m).a) && l.a.restarts <= Apply(l, m).a.restarts && Apply(l, m).b == l.b
  {
  }

  /** How often a step makes the second station start over: it handles a request, or completes a dcConnect. */
  function Restarts(l: Link, s: Step): nat
    requires Enabled(l, s)
  {
    if s == Step(B, Deliver) && IsConn(l.ab[0]) then 1
    else if s.side == B && s.move.ConnectWake? && !s.move.clock then 1
    else 0
  }

  lemma RestartsCounted(l: Link, s: Step)
    requires Enabled(l, s)
    ensures Next(l, s).b.restarts == l.b.restarts + Restarts(l, s)
  {
  }

  lemma NoSteps(l: Link)
    ensures Runs(l, []) && Final(l, []) == l
  {
  }

  lemma {:induction false} RunsAppend(l: Link, s: seq<Step>, t: seq<Step>)
    requires Runs(l, s) && Runs(Final(l, s), t)
    ensures Runs(l, s + t) && Final(l, s + t) == Final(Final(l, s), t)
    decreases |s|
  {
    hide Enabled, Next;
    if s == [] {
      assert s + t == t;
    } else {
      RunsAppend(Next(l, s[0]), s[1..], t);
      assert (s + t)[1..] == s[1..] + t;
    }
  }

  lemma RunsFirst(l: Link, s: Step, steps: seq<Step>)
    requires Enabled(l, s) && Runs(Next(l, s), steps)
    ensures Runs(l, [s] + steps) && Final(l, [s] + steps) == Final(Next(l, s), steps)
  {
    hide Enabled, Next;
    assert ([s] + steps)[1..] == steps;
  }

  // ---- Symmetry ----

  function Mirror(s: Step): Step { Step(if s.side.A? then B else A, s.move) }

  function MirrorAll(steps: seq<Step>): seq<Step> {
    if steps == [] then [] else [Mirror(steps[0])] + MirrorAll(steps[1..])
  }

  /** Exchanging the two stations turns runs into runs, so what is proved of one station holds of the other. */
  lemma {:induction false} Symmetry(l: Link, steps: seq<Step>)
    requires Runs(l, steps)
    ensures Runs(Swap(l), MirrorAll(steps)) && Final(Swap(l), MirrorAll(steps)) == Swap(Final(l, steps))
    decreases |steps|
  {
    hide MayMove, Apply;
    if steps != [] {
      assert MirrorAll(steps)[1..] == MirrorAll(steps[1..]);
      Symmetry(Next(l, steps[0]), steps[1..]);
    }
  }
}
