/** The blocking calls on bytes are runs of the transition system on frames, however the bytes are cut into buffers and
    whatever covered damage was done to them: what is proved of runs holds of the calls. */
module Calls {
  import opened Fcs
  import opened Control
  import opened Framing
  import opened Parser
  import opened Streams
  import opened Damage
  import opened Station
  import opened Deadcom
  import opened Lifting
  import opened Link
  import opened Session
  import opened Handshake

  /** How far the object has read: its parser behind the last whole frame, and the bytes read since. */
  datatype Reading = Reading(boundary: Parser, rest: seq<byte>)

  /** What was read since the last whole frame has not been reported, as the beginning of a frame is not. */
  predicate Proper(at: Reading) {
    BetweenFrames(at.boundary) && at.boundary.maxLen == MAX_FRAME_LEN && Events(at.boundary, at.rest) == []
  }

  /** The object and the station of the transition system agree, and the object has read this far. */
  predicate Agree(l: Link, box: Box, at: Reading) {
    box.st == l.a.st && Proper(at) && box.parser == After(at.boundary, at.rest)
  }

  /** Any beginning of a frame's bytes, up to its end flag, is such a rest. */
  lemma BeginningIsProper(p: Parser, f: Packet, k: nat)
    requires BetweenFrames(p) && p.maxLen == MAX_FRAME_LEN && Emitted(f) && k < |Encode(f.control, f.payload)|
    ensures Proper(Reading(p, Encode(f.control, f.payload)[..k]))
  {
    EmittedFits(f);
    hide BetweenFrames, Events, Encode, Emitted;
    BeginningUnreported(p, f, k);
  }

  predicate CallEmits(c: Call) { c.Sending? ==> Emitted(c.frame) }

  predicate AllEmitted(ch: seq<Packet>) { forall i :: 0 <= i < |ch| ==> Emitted(ch[i]) }

  /** Every frame under way or held for retransmission is one a station transmits. */
  predicate Genuine(l: Link) {
    AllEmitted(l.ab) && AllEmitted(l.ba) && CallEmits(l.a.call) && CallEmits(l.b.call)
  }

  lemma MoveGenuine(l: Link, m: Move)
    requires Genuine(l) && MayMove(l, m)
    ensures Genuine(Apply(l, m))
  {
    match m
    case Deliver => HandlerEmits(l.a.st, l.ba[0]);
    case SendBegin(message) => SenderEmits(l.a.st, message);
    case _ =>
  }

  lemma StepGenuine(l: Link, s: Step)
    requires Genuine(l) && Enabled(l, s)
    ensures Genuine(Next(l, s))
  {
    hide Apply, MayMove, AllEmitted, CallEmits;
    if s.side == A {
      MoveGenuine(l, s.move);
    } else {
      MoveGenuine(Swap(l), s.move);
    }
  }

  // ---- What arrives while a call waits ----

  /** A stretch of a wait: steps of the system without a pick-up at A, with what became on the wire of each frame that
      A loses, the buffers in which the bytes reach A's object, and how far it has then read; or a pick-up by A's
      application. */
  datatype Part = Traffic(steps: seq<Step>, fates: seq<Fate>, chunks: seq<seq<byte>>, until: Reading) | TakesMessage

  /** Anything at B, and deliveries and losses at A. */
  predicate OnTheLine(s: Step) { s.side == B || s.move.Deliver? || s.move.Lose? }

  /** A frame lost may have vanished, or have arrived with damage that the FCS is certain to catch; one that vanishes
      may be any frame under way. */
  predicate Fitting(l: Link, s: Step, fate: Fate) {
    s.side == A && s.move.Lose? && s.move.at < |l.ba| ==>
      Covered(Shot(l.ba[s.move.at], fate)) && !fate.Intact? && (s.move.at == 0 || fate.Lost?)
  }

  /** The frames that leave A's incoming channel, with their fates. */
  function ShotsOf(l: Link, s: Step, fate: Fate): seq<Shot>
    requires Enabled(l, s)
  {
    if s == Step(A, Deliver) then [Shot(l.ba[0], Intact)]
    else if s.side == A && s.move.Lose? then [Shot(l.ba[s.move.at], fate)]
    else []
  }

  function Shots(l: Link, steps: seq<Step>, fates: seq<Fate>): seq<Shot>
    requires Runs(l, steps) && |fates| == |steps|
    decreases |steps|
  {
    if steps == [] then []
    else ShotsOf(l, steps[0], fates[0]) + Shots(Next(l, steps[0]), steps[1..], fates[1..])
  }

  predicate AllFitting(l: Link, steps: seq<Step>, fates: seq<Fate>)
    requires Runs(l, steps) && |fates| == |steps|
    decreases |steps|
  {
    steps == [] ||
    (OnTheLine(steps[0]) && Fitting(l, steps[0], fates[0]) && AllFitting(Next(l, steps[0]), steps[1..], fates[1..]))
  }

  predicate AllCovered(shots: seq<Shot>) { forall i :: 0 <= i < |shots| ==> Covered(shots[i]) }

  /** The buffers hold the bytes of these frames, cut in any way: the first of them may have begun to arrive before, and
      a further one may have begun to arrive at the end. */
  predicate Conveys(at: Reading, shots: seq<Shot>, chunks: seq<seq<byte>>, until: Reading) {
    && AllCovered(shots) && at.rest + Flatten(chunks) == Arriving(shots) + until.rest
    && until.boundary == After(at.boundary, Arriving(shots)) && Events(until.boundary, until.rest) == []
  }

  lemma {:induction false} SurvivorsAppend(s: seq<Shot>, t: seq<Shot>)
    ensures Survivors(s + t) == Survivors(s) + Survivors(t)
  {
    if t == [] {
      assert s + t == s;
    } else {
      assert (s + t)[..|s + t| - 1] == s + t[..|t| - 1];
      SurvivorsAppend(s, t[..|t| - 1]);
    }
  }

  lemma {:induction false} RunFramesAppend(box: Box, fs: seq<Packet>, gs: seq<Packet>)
    ensures RunFrames(box, fs + gs) == RunFrames(RunFrames(box, fs), gs)
  {
    hide HandleFrame, Seen;
    if gs == [] {
      assert fs + gs == fs;
    } else {
      assert (fs + gs)[..|fs + gs| - 1] == fs + gs[..|gs| - 1];
      RunFramesAppend(box, fs, gs[..|gs| - 1]);
    }
  }

  lemma RunNoFrames(box: Box)
    ensures RunFrames(box, []) == box && Survivors([]) == []
  {
  }

  lemma RunOneFrame(box: Box, f: Packet)
    requires Emitted(f)
    ensures RunFrames(box, [f]) ==
            var (st, out) := HandleFrame(box.st, f); box.(st := st, sent := box.sent + out)
  {
    EmittedFits(f);
    assert [f][..0] == [];
    hide HandleFrame, Seen, Emitted;
  }

  lemma OneSurvivor(s: Shot)
    ensures Survivors([s]) == if s.fate.Intact? then [s.f] else []
  {
    assert [s][..0] == [];
  }

  /** One step: the frames it brings, all of them transmitted by a station, take A's station to its next state. */
  lemma ShotsHandled(l: Link, s: Step, fate: Fate, box: Box)
    requires Genuine(l) && Enabled(l, s) && OnTheLine(s) && Fitting(l, s, fate) && box.st == l.a.st
    ensures RunFrames(box, Survivors(ShotsOf(l, s, fate))).st == Next(l, s).a.st
    ensures forall i :: 0 <= i < |ShotsOf(l, s, fate)| ==> Emitted(ShotsOf(l, s, fate)[i].f)
    ensures Next(l, s).a.call == l.a.call
  {
    hide RunFrames, Survivors, HandleFrame, Emitted, Covered;
    RunNoFrames(box);
    if s == Step(A, Deliver) {
      OneSurvivor(Shot(l.ba[0], Intact));
      RunOneFrame(box, l.ba[0]);
    } else if s.side == A && s.move.Lose? {
      OneSurvivor(Shot(l.ba[s.move.at], fate));
    }
  }

  lemma {:induction false} TrafficHandled(l: Link, steps: seq<Step>, fates: seq<Fate>, box: Box)
    requires Genuine(l) && Runs(l, steps) && |fates| == |steps| && AllFitting(l, steps, fates) && box.st == l.a.st
    ensures RunFrames(box, Survivors(Shots(l, steps, fates))).st == Final(l, steps).a.st
    ensures forall i :: 0 <= i < |Shots(l, steps, fates)| ==> Emitted(Shots(l, steps, fates)[i].f)
    ensures Final(l, steps).a.call == l.a.call && Genuine(Final(l, steps))
    decreases |steps|
  {
    RunNoFrames(box);
    hide Genuine, Enabled, Next, OnTheLine, Fitting, ShotsOf, RunFrames, Survivors, Emitted;
    if steps != [] {
      var first := ShotsOf(l, steps[0], fates[0]);
      var rest := Shots(Next(l, steps[0]), steps[1..], fates[1..]);
      ShotsHandled(l, steps[0], fates[0], box);
      StepGenuine(l, steps[0]);
      TrafficHandled(Next(l, steps[0]), steps[1..], fates[1..], RunFrames(box, Survivors(first)));
      SurvivorsAppend(first, rest);
      RunFramesAppend(box, Survivors(first), Survivors(rest));
    }
  }

  // Buffers, one after the other.

  function Arrivals(chunks: seq<seq<byte>>): seq<Activity> {
    if chunks == [] then [] else Arrivals(chunks[..|chunks| - 1]) + [Arrives(chunks[|chunks| - 1])]
  }

  lemma {:induction false} ActAllAppend(box: Box, s: seq<Activity>, t: seq<Activity>)
    ensures ActAll(box, s + t) == ActAll(ActAll(box, s), t)
    ensures ParserAfterAll(box.parser, s + t) == ParserAfterAll(ParserAfterAll(box.parser, s), t)
    ensures LimitedActs(box.parser, s) && LimitedActs(ParserAfterAll(box.parser, s), t)
            ==> LimitedActs(box.parser, s + t)
    decreases |s|
  {
    hide Act, LimitedAct;
    if s == [] {
      assert s + t == t;
    } else {
      assert (s + t)[1..] == s[1..] + t;
      ActParser(box, s[0]);
      ActAllAppend(Act(box, s[0]), s[1..], t);
    }
  }

  lemma ActOne(box: Box, a: Activity)
    ensures ActAll(box, [a]) == Act(box, a) && ParserAfterAll(box.parser, [a]) == ParserAfter(box.parser, a)
    ensures LimitedActs(box.parser, [a]) <==> LimitedAct(box.parser, a)
  {
    hide Act, LimitedAct, ParserAfter;
    assert [a][1..] == [];
  }

  lemma ActFeeds(box: Box, data: seq<byte>)
    ensures Act(box, Arrives(data)) == Feed(box, data)
  {
    FeedNothing(box);
  }

  lemma EventsPart(p: Parser, s: seq<byte>, t: seq<byte>)
    requires Limited(p, s + t)
    ensures Limited(p, s) && Limited(After(p, s), t)
  {
    ParseAppend(p, s, t);
    hide WithinLimits, Events, After;
    var es, fs := Events(p, s), Events(After(p, s), t);
    forall i | 0 <= i < |es|
      ensures WithinLimits(es[i])
    {
      assert Events(p, s + t)[i] == es[i];
    }
    forall i | 0 <= i < |fs|
      ensures WithinLimits(fs[i])
    {
      assert Events(p, s + t)[|es| + i] == fs[i];
    }
  }

  lemma NoArrivals(box: Box)
    ensures ActAll(box, Arrivals([])) == FeedAll(box, []) == box
    ensures LimitedActs(box.parser, Arrivals([])) && ParserAfterAll(box.parser, Arrivals([])) == After(box.parser, [])
  {
  }

  lemma {:induction false} ArrivalsFeed(box: Box, chunks: seq<seq<byte>>)
    requires Limited(box.parser, Flatten(chunks))
    ensures ActAll(box, Arrivals(chunks)) == FeedAll(box, chunks)
    ensures LimitedActs(box.parser, Arrivals(chunks))
    ensures ParserAfterAll(box.parser, Arrivals(chunks)) == After(box.parser, Flatten(chunks))
  {
    NoArrivals(box);
    hide Act, ActAll, LimitedActs, ParserAfterAll, Feed, After, Events, Limited;
    if chunks != [] {
      var n := |chunks| - 1;
      var before, last := Flatten(chunks[..n]), chunks[n];
      EventsPart(box.parser, before, last);
      ArrivalsFeed(box, chunks[..n]);
      ParseAppend(box.parser, before, last);
      ActAllParser(box, Arrivals(chunks[..n]));
      var b := ActAll(box, Arrivals(chunks[..n]));
      ActOne(b, Arrives(last));
      ActFeeds(b, last);
      ActAllAppend(box, Arrivals(chunks[..n]), [Arrives(last)]);
    }
  }

  /** All that is accepted was transmitted by a station, so it is within the limits. */
  lemma {:induction false} FramesLimited(es: seq<Event>, fs: seq<Packet>)
    requires Frames(es) == DeliveredAll(fs) && forall i :: 0 <= i < |fs| ==> Emitted(fs[i])
    ensures forall i :: 0 <= i < |es| ==> WithinLimits(es[i])
  {
    hide Delivered, WithinLimits, Emitted;
    if es != [] {
      var n := |es| - 1;
      if es[n].Accepted? {
        var m := |fs| - 1;
        LastFrame(es, fs);
        EmittedFits(fs[m]);
        FramesLimited(es[..n], fs[..m]);
      } else {
        RejectedLimited();
        FramesLimited(es[..n], fs);
      }
    }
  }

  lemma RejectedLimited()
    ensures WithinLimits(Rejected)
  {
  }

  lemma LastFrame(es: seq<Event>, fs: seq<Packet>)
    requires Frames(es) == DeliveredAll(fs) && es != [] && es[|es| - 1].Accepted?
    ensures fs != [] && es[|es| - 1] == Delivered(fs[|fs| - 1])
    ensures Frames(es[..|es| - 1]) == DeliveredAll(fs[..|fs| - 1])
  {
    hide Delivered;
    var a, b := Frames(es), DeliveredAll(fs);
    assert a[..|a| - 1] == Frames(es[..|es| - 1]);
    assert b[..|b| - 1] == DeliveredAll(fs[..|fs| - 1]);
  }

  lemma {:induction false} SurvivorsEmitted(shots: seq<Shot>)
    requires forall i :: 0 <= i < |shots| ==> Emitted(shots[i].f)
    ensures forall i :: 0 <= i < |Survivors(shots)| ==> Emitted(Survivors(shots)[i])
  {
    hide Emitted;
    if shots != [] {
      SurvivorsEmitted(shots[..|shots| - 1]);
    }
  }

  lemma AllEmittedFit(shots: seq<Shot>)
    requires forall i :: 0 <= i < |shots| ==> Emitted(shots[i].f)
    ensures forall i :: 0 <= i < |shots| ==> Fits(shots[i].f, MAX_FRAME_LEN)
  {
    hide Emitted, Fits;
    forall i | 0 <= i < |shots|
      ensures Fits(shots[i].f, MAX_FRAME_LEN)
    {
      EmittedFits(shots[i].f);
    }
  }

  /** Reading what was not reported changes nothing but the parser. */
  lemma QuietFeed(box: Box, data: seq<byte>)
    requires Events(box.parser, data) == []
    ensures Feed(box, data) == box.(parser := After(box.parser, data))
  {
    FeedQuiet(box, data);
  }

  lemma OneChunk(box: Box, data: seq<byte>)
    ensures FeedAll(box, [data]) == Feed(box, data) && Flatten([data]) == data
  {
    assert [data][..0] == [] && [] + data == data;
    hide Feed;
  }

  /** The bytes of whole frames, some of them damaged, and the beginning of another. */
  lemma WholeFrames(box: Box, shots: seq<Shot>, rest: seq<byte>)
    requires BetweenFrames(box.parser) && box.parser.maxLen == MAX_FRAME_LEN && AllCovered(shots)
    requires forall i :: 0 <= i < |shots| ==> Emitted(shots[i].f)
    requires Events(After(box.parser, Arriving(shots)), rest) == []
    ensures Limited(box.parser, Arriving(shots) + rest)
    ensures Feed(box, Arriving(shots) + rest).st == RunFrames(box, Survivors(shots)).st
    ensures Feed(box, Arriving(shots) + rest).parser == After(After(box.parser, Arriving(shots)), rest)
    ensures BetweenFrames(After(box.parser, Arriving(shots)))
    ensures After(box.parser, Arriving(shots)).maxLen == MAX_FRAME_LEN
  {
    AllEmittedFit(shots);
    SurvivorsEmitted(shots);
    hide *;
    var data := Arriving(shots);
    DamageIsLoss(box.parser, shots);
    FramesLimited(Events(box.parser, data), Survivors(shots));
    ParseAppend(box.parser, data, rest);
    assert Events(box.parser, data) + [] == Events(box.parser, data);
    EventsAreLimited(box.parser, data + rest);
    OneChunk(box, data);
    DamageLifts(box, shots, [data]);
    FeedAppend(box, data, rest);
    QuietFeed(Feed(box, data), rest);
  }

  /** Bytes of frames some of which were damaged, cut in any way, act on the object as the frames that survived. */
  lemma ShotsArrive(box: Box, at: Reading, shots: seq<Shot>, chunks: seq<seq<byte>>, until: Reading)
    requires Proper(at) && box.parser == After(at.boundary, at.rest)
    requires (forall i :: 0 <= i < |shots| ==> Emitted(shots[i].f)) && Conveys(at, shots, chunks, until)
    ensures LimitedActs(box.parser, Arrivals(chunks)) && Proper(until)
    ensures var b := ActAll(box, Arrivals(chunks));
            && b.st == RunFrames(box.(parser := at.boundary), Survivors(shots)).st
            && b.parser == After(until.boundary, until.rest)
            && b.parser == ParserAfterAll(box.parser, Arrivals(chunks))
  {
    var start := box.(parser := at.boundary);
    hide BetweenFrames, Events, After, Flatten, Arriving, AllCovered, Emitted, RunFrames, Survivors, Feed, Limited,
         LimitedActs, ActAll, ParserAfterAll, Arrivals;
    WholeFrames(start, shots, until.rest);
    QuietFeed(start, at.rest);
    FeedAppend(start, at.rest, Flatten(chunks));
    EventsPart(at.boundary, at.rest, Flatten(chunks));
    ArrivalsFeed(box, chunks);
    ActAllParser(box, Arrivals(chunks));
    FeedAllFlat(box, chunks);
  }

  lemma EventsAreLimited(p: Parser, data: seq<byte>)
    requires forall i :: 0 <= i < |Events(p, data)| ==> WithinLimits(Events(p, data)[i])
    ensures Limited(p, data)
  {
  }

  // ---- A wait ----

  function PartSteps(p: Part): seq<Step> { if p.Traffic? then p.steps else [Step(A, Fetch)] }

  function PartActs(p: Part): seq<Activity> { if p.Traffic? then Arrivals(p.chunks) else [Fetches] }

  function StepsIn(parts: seq<Part>): seq<Step> {
    if parts == [] then [] else PartSteps(parts[0]) + StepsIn(parts[1..])
  }

  function ActsIn(parts: seq<Part>): seq<Activity> {
    if parts == [] then [] else PartActs(parts[0]) + ActsIn(parts[1..])
  }

  predicate PartOk(l: Link, p: Part) {
    Runs(l, PartSteps(p)) && (p.Traffic? ==> |p.fates| == |p.steps| && AllFitting(l, p.steps, p.fates))
  }

  function PartEnd(p: Part, at: Reading): Reading { if p.Traffic? then p.until else at }

  predicate PartConveyed(l: Link, p: Part, at: Reading)
    requires PartOk(l, p)
  {
    p.Traffic? ==> Conveys(at, Shots(l, p.steps, p.fates), p.chunks, p.until)
  }

  predicate Plausible(l: Link, parts: seq<Part>)
    decreases |parts|
  {
    parts == [] || (PartOk(l, parts[0]) && Plausible(Final(l, PartSteps(parts[0])), parts[1..]))
  }

  /** The bytes that arrive are those of the frames that arrive. */
  predicate Conveyed(l: Link, parts: seq<Part>, at: Reading)
    requires Plausible(l, parts)
    decreases |parts|
  {
    parts == [] ||
    (PartConveyed(l, parts[0], at) && Conveyed(Final(l, PartSteps(parts[0])), parts[1..], PartEnd(parts[0], at)))
  }

  function EndOf(parts: seq<Part>, at: Reading): Reading {
    if parts == [] then at else EndOf(parts[1..], PartEnd(parts[0], at))
  }

  lemma OneStepRun(l: Link, s: Step)
    requires Runs(l, [s])
    ensures Enabled(l, s) && Final(l, [s]) == Next(l, s)
  {
    assert [s][1..] == [];
    hide Enabled, Next;
  }

  lemma FetchAgrees(l: Link, box: Box, at: Reading)
    requires Agree(l, box, at) && Genuine(l)
    ensures var l' := Next(l, Step(A, Fetch));
            Agree(l', Act(box, Fetches), at) && Genuine(l') && l'.a.call == l.a.call
  {
    StepGenuine(l, Step(A, Fetch));
    hide Proper, Genuine;
  }

  lemma PartAgrees(l: Link, p: Part, box: Box, at: Reading)
    requires Agree(l, box, at) && Genuine(l) && PartOk(l, p) && PartConveyed(l, p, at)
    ensures Agree(Final(l, PartSteps(p)), ActAll(box, PartActs(p)), PartEnd(p, at)) && Genuine(Final(l, PartSteps(p)))
    ensures LimitedActs(box.parser, PartActs(p))
    ensures ActAll(box, PartActs(p)).parser == ParserAfterAll(box.parser, PartActs(p))
    ensures Final(l, PartSteps(p)).a.call == l.a.call
  {
    ActAllParser(box, PartActs(p));
    hide Genuine, Next, Enabled, Proper, Act, ActAll, LimitedActs, ParserAfterAll, Runs, Final, Conveys, After;
    match p
    case Traffic(steps, fates, chunks, until) =>
      hide AllFitting, Shots;
      TrafficHandled(l, steps, fates, box.(parser := at.boundary));
      ShotsArrive(box, at, Shots(l, steps, fates), chunks, until);
    case TakesMessage =>
      OneStepRun(l, Step(A, Fetch));
      FetchAgrees(l, box, at);
      ActOne(box, Fetches);
  }

  /** A wait, with whatever buffers its bytes come in and whatever damage was done on the wire, is a stretch of a
      run. */
  lemma {:induction false} WaitAgrees(l: Link, parts: seq<Part>, box: Box, at: Reading)
    requires Agree(l, box, at) && Genuine(l) && Plausible(l, parts) && Conveyed(l, parts, at)
    ensures Runs(l, StepsIn(parts))
    ensures Agree(Final(l, StepsIn(parts)), ActAll(box, ActsIn(parts)), EndOf(parts, at))
    ensures Genuine(Final(l, StepsIn(parts)))
    ensures LimitedActs(box.parser, ActsIn(parts))
    ensures Final(l, StepsIn(parts)).a.call == l.a.call
    decreases |parts|
  {
    NoSteps(l);
    hide Agree, Genuine, PartOk, PartSteps, PartActs, PartEnd, PartConveyed, Runs, Final, Act, LimitedAct;
    if parts != [] {
      PartRuns(l, parts[0]);
      var m, b := Final(l, PartSteps(parts[0])), ActAll(box, PartActs(parts[0]));
      PartAgrees(l, parts[0], box, at);
      WaitAgrees(m, parts[1..], b, PartEnd(parts[0], at));
      RunsAppend(l, PartSteps(parts[0]), StepsIn(parts[1..]));
      ActAllAppend(box, PartActs(parts[0]), ActsIn(parts[1..]));
    }
  }

  lemma PartRuns(l: Link, p: Part)
    requires PartOk(l, p)
    ensures Runs(l, PartSteps(p))
  {
  }

  // ---- A call with all its waits ----

  /** One wait of the call: what happens meanwhile, and whether the clock runs out although a signal came. */
  datatype Pause = Pause(during: seq<Part>, clock: bool)

  function WakeStep(m: Link, clock: bool): Step { Step(A, SendWake(clock || !m.a.st.signaled)) }

  /** The pauses fit the run of the system from `l`, where A waits: the call goes on exactly while pauses follow. */
  predicate Feasible(l: Link, script: seq<Pause>)
    decreases |script|
  {
    l.a.call.Sending? &&
    (script == [] ||
     (Runs(l, StepsIn(script[0].during)) && Plausible(l, script[0].during) &&
      var m := Final(l, StepsIn(script[0].during));
      m.a.call == l.a.call &&
      var n := Next(m, WakeStep(m, script[0].clock));
      if n.a.call == Idle then |script| == 1 else Feasible(n, script[1..])))
  }

  function StepsOf(l: Link, script: seq<Pause>): seq<Step>
    requires Feasible(l, script)
    decreases |script|
  {
    if script == [] then []
    else
      var m := Final(l, StepsIn(script[0].during));
      var w := WakeStep(m, script[0].clock);
      var n := Next(m, w);
      StepsIn(script[0].during) + ([w] + if n.a.call == Idle then [] else StepsOf(n, script[1..]))
  }

  function WaitsOf(l: Link, script: seq<Pause>): seq<Wait>
    requires Feasible(l, script)
    decreases |script|
  {
    if script == [] then []
    else
      var m := Final(l, StepsIn(script[0].during));
      var n := Next(m, WakeStep(m, script[0].clock));
      [Wait(ActsIn(script[0].during), script[0].clock)] + if n.a.call == Idle then [] else WaitsOf(n, script[1..])
  }

  predicate ScriptConveyed(l: Link, script: seq<Pause>, at: Reading)
    requires Feasible(l, script)
    decreases |script|
  {
    script == [] ||
    (Conveyed(l, script[0].during, at) &&
     var m := Final(l, StepsIn(script[0].during));
     var n := Next(m, WakeStep(m, script[0].clock));
     (n.a.call != Idle ==> ScriptConveyed(n, script[1..], EndOf(script[0].during, at))))
  }

  function EndOfScript(script: seq<Pause>, at: Reading): Reading {
    if script == [] then at else EndOfScript(script[1..], EndOf(script[0].during, at))
  }

  lemma WakeAgrees(l: Link, box: Box, at: Reading, clock: bool)
    requires Agree(l, box, at) && Genuine(l) && l.a.call.Sending?
    ensures var n := Next(l, WakeStep(l, clock));
            var (st, woken) := WakeSend(box.st, clock || !box.st.signaled);
            && Enabled(l, WakeStep(l, clock)) && Genuine(n)
            && Agree(n, box.(st := st), at)
            && (n.a.call == Idle <==> woken.Returned?) && (n.a.call != Idle ==> n.a.call == l.a.call)
  {
    StepGenuine(l, WakeStep(l, clock));
    hide Genuine, Proper;
  }

  /** What the call returns, told from the transition system. */
  function OutcomeOf(l: Link, script: seq<Pause>): Outcome
    requires Feasible(l, script)
    decreases |script|
  {
    if script == [] then StillWaiting
    else
      var m := Final(l, StepsIn(script[0].during));
      var w := WakeStep(m, script[0].clock);
      var n := Next(m, w);
      if n.a.call == Idle then
        match WakeSend(m.a.st, w.move.clock).1
        case Returned(r) => Done(r)
        case Retransmit => StillWaiting
      else OutcomeOf(n, script[1..])
  }

  /** The retry loop of dcSendMessage, fed with the bytes of the frames delivered, is the run. */
  lemma {:induction false} LoopIsRun(l: Link, box: Box, at: Reading, script: seq<Pause>)
    requires Agree(l, box, at) && Genuine(l) && Feasible(l, script) && ScriptConveyed(l, script, at)
    ensures Runs(l, StepsOf(l, script))
    ensures var (b, outcome) := SendLoop(box, l.a.call.frame, WaitsOf(l, script));
            Agree(Final(l, StepsOf(l, script)), b, EndOfScript(script, at)) && outcome == OutcomeOf(l, script)
    ensures LimitedWaits(box.parser, WaitsOf(l, script))
    decreases |script|
  {
    hide Agree, Genuine, Enabled, Next, Plausible, Conveyed, LimitedActs, WakeSend, Act;
    if script == [] {
      TransmittedAgrees(l, box, at);
    } else {
      LoopRound(l, box, at, script);
      var m := Final(l, StepsIn(script[0].during));
      var n := Next(m, WakeStep(m, script[0].clock));
      if n.a.call != Idle {
        var b := ActAll(Transmitted(box, l.a.call.frame), ActsIn(script[0].during));
        LoopIsRun(
          n, b.(st := WakeSend(b.st, script[0].clock || !b.st.signaled).0), EndOf(script[0].during, at), script[1..]);
      }
      LoopSteps(l, script);
    }
  }

  lemma TransmittedAgrees(l: Link, box: Box, at: Reading)
    requires Agree(l, box, at)
    ensures l.a.call.Sending? ==> Agree(l, Transmitted(box, l.a.call.frame), at)
  {
  }

  /** One round: the wait, and the wake-up. */
  lemma LoopRound(l: Link, box: Box, at: Reading, script: seq<Pause>)
    requires Agree(l, box, at) && Genuine(l) && Feasible(l, script) && ScriptConveyed(l, script, at) && script != []
    ensures Enabled(Final(l, StepsIn(script[0].during)), WakeStep(Final(l, StepsIn(script[0].during)), script[0].clock))
    ensures var m := Final(l, StepsIn(script[0].during));
            var n := Next(m, WakeStep(m, script[0].clock));
            var b := ActAll(Transmitted(box, l.a.call.frame), ActsIn(script[0].during));
            var (st, woken) := WakeSend(b.st, script[0].clock || !b.st.signaled);
            && Genuine(n) && Agree(n, b.(st := st), EndOf(script[0].during, at)) && b.st == m.a.st
            && b.parser == ParserAfterAll(box.parser, ActsIn(script[0].during))
            && LimitedActs(box.parser, ActsIn(script[0].during))
            && (n.a.call == Idle <==> woken.Returned?) && (n.a.call != Idle ==> n.a.call == l.a.call)
  {
    var t := Transmitted(box, l.a.call.frame);
    TransmittedAgrees(l, box, at);
    var acts := ActsIn(script[0].during);
    WaitAgrees(l, script[0].during, t, at);
    ActAllParser(t, acts);
    var m, end := Final(l, StepsIn(script[0].during)), EndOf(script[0].during, at);
    WakeAgrees(m, ActAll(t, acts), end, script[0].clock);
    AgreeSame(m, ActAll(t, acts), end);
    hide Agree, Genuine, Enabled, Next, Plausible, Conveyed, LimitedActs, WakeSend, ActAll, ActsIn, ParserAfterAll;
  }

  lemma AgreeSame(l: Link, box: Box, at: Reading)
    requires Agree(l, box, at)
    ensures box.st == l.a.st
  {
  }

  lemma LoopSteps(l: Link, script: seq<Pause>)
    requires Feasible(l, script) && script != []
    requires var m := Final(l, StepsIn(script[0].during));
             var n := Next(m, WakeStep(m, script[0].clock));
             n.a.call != Idle ==> Runs(n, StepsOf(n, script[1..]))
    ensures Runs(l, StepsOf(l, script))
    ensures var m := Final(l, StepsIn(script[0].during));
            var n := Next(m, WakeStep(m, script[0].clock));
            Final(l, StepsOf(l, script)) == if n.a.call == Idle then n else Final(n, StepsOf(n, script[1..]))
  {
    var m := Final(l, StepsIn(script[0].during));
    var w := WakeStep(m, script[0].clock);
    var n := Next(m, w);
    assert Enabled(m, w);
    NoSteps(n);
    hide Enabled, Next, Plausible;
    var rest := if n.a.call == Idle then [] else StepsOf(n, script[1..]);
    RunsFirst(m, w, rest);
    RunsAppend(l, StepsIn(script[0].during), [w] + rest);
  }

  /** If the call has begun, its waits are those of the script. */
  predicate Follows(l1: Link, at: Reading, script: seq<Pause>, waits: seq<Wait>) {
    l1.a.call.Sending? ==>
      Feasible(l1, script) && ScriptConveyed(l1, script, at) && waits == WaitsOf(l1, script)
  }

  lemma BegunSendIsRun(l: Link, box: Box, at: Reading, message: seq<byte>, script: seq<Pause>)
    requires Agree(l, box, at) && Genuine(l) && l.a.call == Idle && BeginSend(l.a.st, message).1.Waiting?
    requires Feasible(Next(l, Step(A, SendBegin(message))), script)
    requires ScriptConveyed(Next(l, Step(A, SendBegin(message))), script, at)
    ensures var l1 := Next(l, Step(A, SendBegin(message)));
            var (b, outcome) := Send(box, message, WaitsOf(l1, script));
            && Runs(l1, StepsOf(l1, script))
            && Agree(Final(l1, StepsOf(l1, script)), b, EndOfScript(script, at)) && outcome == OutcomeOf(l1, script)
            && LimitedWaits(box.parser, WaitsOf(l1, script))
  {
    var l1 := Next(l, Step(A, SendBegin(message)));
    StepGenuine(l, Step(A, SendBegin(message)));
    hide Proper;
    LoopIsRun(l1, box.(st := BeginSend(box.st, message).0), at, script);
    hide Genuine, Feasible, ScriptConveyed, StepsOf, WaitsOf, SendLoop, LimitedWaits, OutcomeOf, Runs;
  }

  lemma RefusedSendIsStep(l: Link, box: Box, at: Reading, message: seq<byte>, waits: seq<Wait>)
    requires Agree(l, box, at) && l.a.call == Idle && BeginSend(l.a.st, message).1.Refused?
    ensures var l1 := Next(l, Step(A, SendBegin(message)));
            l1 == l && Send(box, message, waits) == (box, Done(BeginSend(l.a.st, message).1.result))
  {
    hide Proper, After;
  }

  /** dcSendMessage as a whole. It is refused exactly if its begin step submits nothing, and then that step and the
      call change nothing. Otherwise, for every way its waits may go and however the bytes reach it, the object's call
      and the run of the transition system end in the same station state with the same result. */
  lemma SendIsRun(l: Link, box: Box, at: Reading, message: seq<byte>, script: seq<Pause>, waits: seq<Wait>)
    requires Agree(l, box, at) && Genuine(l) && l.a.call == Idle
    requires Follows(Next(l, Step(A, SendBegin(message))), at, script, waits)
    ensures var l1 := Next(l, Step(A, SendBegin(message)));
            var (b, outcome) := Send(box, message, waits);
            if l1.a.call == Idle then
              l1 == l && b == box && outcome != Done(DC_OK)
            else
              && l1.a.call.Sending? && l1.a.submitted == l.a.submitted + [message]
              && Runs(l1, StepsOf(l1, script))
              && Agree(Final(l1, StepsOf(l1, script)), b, EndOfScript(script, at)) && outcome == OutcomeOf(l1, script)
              && LimitedWaits(box.parser, waits)
  {
    match BeginSend(l.a.st, message).1
    case Refused(r) =>
      RefusedSendIsStep(l, box, at, message, waits);
      hide Agree, Genuine, Send;
    case Waiting(frame) =>
      hide Agree, Genuine, Feasible, ScriptConveyed, StepsOf, WaitsOf, Send, LimitedWaits, OutcomeOf, Runs, Final;
      BegunSendIsRun(l, box, at, message, script);
  }

  /** Steps of a call, after it has begun, submit nothing at A. */
  predicate NothingBegun(steps: seq<Step>) {
    forall i :: 0 <= i < |steps| ==> steps[i].side == B || !steps[i].move.SendBegin?
  }

  lemma {:induction false} FittingBeginsNothing(l: Link, steps: seq<Step>, fates: seq<Fate>)
    requires Runs(l, steps) && |fates| == |steps| && AllFitting(l, steps, fates)
    ensures NothingBegun(steps)
    decreases |steps|
  {
    hide Enabled, Next, Fitting;
    if steps != [] {
      FittingBeginsNothing(Next(l, steps[0]), steps[1..], fates[1..]);
      assert forall i :: 1 <= i < |steps| ==> steps[i] == steps[1..][i - 1];
    }
  }

  lemma {:induction false} PartsBeginNothing(l: Link, parts: seq<Part>)
    requires Plausible(l, parts)
    ensures NothingBegun(StepsIn(parts))
    decreases |parts|
  {
    hide Runs, Final, AllFitting, Shots;
    if parts != [] {
      PartRuns(l, parts[0]);
      if parts[0].Traffic? {
        FittingBeginsNothing(l, parts[0].steps, parts[0].fates);
      }
      PartsBeginNothing(Final(l, PartSteps(parts[0])), parts[1..]);
    }
  }

  lemma {:induction false} StepsBeginNothing(l: Link, script: seq<Pause>)
    requires Feasible(l, script)
    ensures NothingBegun(StepsOf(l, script))
    decreases |script|
  {
    hide Plausible, StepsIn;
    if script != [] {
      PartsBeginNothing(l, script[0].during);
      var m := Final(l, StepsIn(script[0].during));
      var n := Next(m, WakeStep(m, script[0].clock));
      if n.a.call != Idle {
        StepsBeginNothing(n, script[1..]);
      }
    }
  }

  lemma SubmittedStep(l: Link, s: Step)
    requires Inv(l) && Enabled(l, s) && SessionMove(s.move) && (s.side == B || !s.move.SendBegin?)
    ensures Next(l, s).a.submitted == l.a.submitted
  {
    hide ChannelsOk, ReceiverOk;
  }

  lemma {:induction false} SubmittedKept(l: Link, steps: seq<Step>)
    requires Inv(l) && Runs(l, steps) && SessionSteps(steps) && NothingBegun(steps)
    ensures Final(l, steps).a.submitted == l.a.submitted
    decreases |steps|
  {
    hide Inv, Enabled, Next, SessionMove;
    if steps != [] {
      StepKeeps(l, steps[0]);
      SubmittedStep(l, steps[0]);
      SubmittedKept(Next(l, steps[0]), steps[1..]);
    }
  }

  /** When the outcome is DC_OK the run ends with the sender connected again. */
  lemma {:induction false} OkEndsConnected(l: Link, script: seq<Pause>)
    requires Feasible(l, script) && OutcomeOf(l, script) == Done(DC_OK)
    requires Runs(l, StepsOf(l, script))
    ensures Final(l, StepsOf(l, script)).a.st.state == CONNECTED
    decreases |script|
  {
    var m := Final(l, StepsIn(script[0].during));
    var w := WakeStep(m, script[0].clock);
    var n := Next(m, w);
    if n.a.call != Idle {
      RunsStepsOf(n, script[1..]);
      OkEndsConnected(n, script[1..]);
    }
    LoopSteps(l, script);
  }

  lemma {:induction false} RunsStepsOf(l: Link, script: seq<Pause>)
    requires Feasible(l, script)
    ensures Runs(l, StepsOf(l, script))
    decreases |script|
  {
    if script != [] {
      var m := Final(l, StepsIn(script[0].during));
      var n := Next(m, WakeStep(m, script[0].clock));
      if n.a.call != Idle {
        RunsStepsOf(n, script[1..]);
      }
      LoopSteps(l, script);
    }
  }

  /** End to end: in a session, when dcSendMessage, exchanging bytes with a peer reached through lossy channels,
      returns DC_OK, the message was submitted, and the peer application has picked up this message, and every message
      before it, in order. */
  lemma OkReachesThePeer(
    l: Link, box: Box, at: Reading, message: seq<byte>, script: seq<Pause>, waits: seq<Wait>)
    requires Inv(l) && Agree(l, box, at) && Genuine(l) && l.a.call == Idle
    requires Follows(Next(l, Step(A, SendBegin(message))), at, script, waits)
    requires var l1 := Next(l, Step(A, SendBegin(message)));
             l1.a.call.Sending? ==> SessionSteps(StepsOf(l1, script))
    requires Send(box, message, waits).1 == Done(DC_OK)
    ensures var l1 := Next(l, Step(A, SendBegin(message)));
            && l1.a.call.Sending? && l1.a.submitted == l.a.submitted + [message]
            && Runs(l1, StepsOf(l1, script))
            && Final(l1, StepsOf(l1, script)).b.picked == l.a.submitted + [message]
  {
    var l1 := Next(l, Step(A, SendBegin(message)));
    SendIsRun(l, box, at, message, script, waits);
    var steps := StepsOf(l1, script);
    hide Feasible, ScriptConveyed, StepsOf, WaitsOf, Send, Agree, Genuine, OutcomeOf, Apply, BeginSend, Inv;
    StepKeeps(l, Step(A, SendBegin(message)));
    OkEndsConnected(l1, script);
    StepsBeginNothing(l1, script);
    RunKeeps(l1, steps);
    SubmittedKept(l1, steps);
    ConnectedHasAll(Final(l1, steps));
  }

  lemma ConnectedHasAll(l: Link)
    requires Inv(l) && l.a.st.state == CONNECTED
    ensures l.b.picked == l.a.submitted
  {
    hide ChannelsOk;
  }

  // ---- dcConnect ----

  function ConnectWakeStep(m: Link, clock: bool): Step { Step(A, ConnectWake(clock || !m.a.st.signaled)) }

  lemma ConnectWakeAgrees(m: Link, box: Box, at: Reading, clock: bool)
    requires Agree(m, box, at) && m.a.call == Connecting
    ensures var w := ConnectWakeStep(m, clock);
            && Enabled(m, w) && Agree(Next(m, w), box.(st := WakeConnect(box.st, w.move.clock).0), at)
            && (WakeConnect(box.st, w.move.clock).1 == DC_OK ==> WillSucceed(m) && Next(m, w) == Succeed(m))
  {
    hide Proper;
  }

  lemma ConnectBeginAgrees(l: Link, box: Box, at: Reading)
    requires Agree(l, box, at) && Genuine(l) && l.a.call == Idle && BeginConnect(l.a.st).1.Waiting?
    ensures var l1 := Next(l, Step(A, ConnectBegin));
            && Enabled(l, Step(A, ConnectBegin)) && l1.a.call == Connecting && Genuine(l1)
            && BeginConnect(box.st).1 == Waiting(CONN_PACKET)
            && Agree(l1, Transmitted(box.(st := BeginConnect(box.st).0), CONN_PACKET), at)
  {
    StepGenuine(l, Step(A, ConnectBegin));
    hide Proper, Genuine;
  }

  /** dcConnect as a whole: the object's call and the run of the transition system end in the same station state with
      the same result, whatever happens during the wait. */
  lemma ConnectIsRun(l: Link, box: Box, at: Reading, wait: Pause)
    requires Agree(l, box, at) && Genuine(l) && l.a.call == Idle && BeginConnect(l.a.st).1.Waiting?
    requires Plausible(Next(l, Step(A, ConnectBegin)), wait.during)
    requires Conveyed(Next(l, Step(A, ConnectBegin)), wait.during, at)
    ensures var l1 := Next(l, Step(A, ConnectBegin));
            && Runs(l1, StepsIn(wait.during)) && LimitedWaits(box.parser, [Wait(ActsIn(wait.during), wait.clock)])
            && var m := Final(l1, StepsIn(wait.during));
               var w := ConnectWakeStep(m, wait.clock);
               var (b, outcome) := Connect(box, [Wait(ActsIn(wait.during), wait.clock)]);
               && Enabled(m, w) && Agree(Next(m, w), b, EndOf(wait.during, at))
               && outcome == Done(WakeConnect(m.a.st, w.move.clock).1)
               && (outcome == Done(DC_OK) ==> WillSucceed(m) && Next(m, w) == Succeed(m))
  {
    ConnectBeginAgrees(l, box, at);
    var l1 := Next(l, Step(A, ConnectBegin));
    var b := Transmitted(box.(st := BeginConnect(box.st).0), CONN_PACKET);
    WaitAgrees(l1, wait.during, b, at);
    var m := Final(l1, StepsIn(wait.during));
    var b' := ActAll(b, ActsIn(wait.during));
    AgreeSame(m, b', EndOf(wait.during, at));
    ConnectWakeAgrees(m, b', EndOf(wait.during, at), wait.clock);
    OneWait(box.parser, Wait(ActsIn(wait.during), wait.clock));
    hide Agree, Genuine, Enabled, Next, Plausible, Conveyed, LimitedActs, ActAll, ActsIn, StepsIn, WakeConnect, Runs,
         Final, Succeed, WillSucceed, LimitedWaits;
  }

  lemma OneWait(p: Parser, wait: Wait)
    ensures LimitedWaits(p, [wait]) <==> LimitedActs(p, wait.during)
  {
    assert [wait][1..] == [];
    hide LimitedActs;
  }

  /** Session establishment on bytes: when dcConnect, exchanging bytes with a peer that is in no call when it handles
      the request, returns DC_OK and was handed no older request or answer, a new session is established. */
  lemma ConnectReachesThePeer(l: Link, box: Box, at: Reading, wait: Pause)
    requires BeforeConnect(l) && Agree(l, box, at) && Genuine(l)
    requires Plausible(Next(l, Step(A, ConnectBegin)), wait.during)
    requires Conveyed(Next(l, Step(A, ConnectBegin)), wait.during, at)
    requires Runs(Next(l, Step(A, ConnectBegin)), StepsIn(wait.during))
    requires DuringConnect(Next(l, Step(A, ConnectBegin)), UnderWay, StepsIn(wait.during))
    requires Connect(box, [Wait(ActsIn(wait.during), wait.clock)]).1 == Done(DC_OK)
    ensures var m := Final(Next(l, Step(A, ConnectBegin)), StepsIn(wait.during));
            && WillSucceed(m) && Joined(Succeed(m), l.b.restarts) && Inv(Succeed(m))
            && Agree(Succeed(m), Connect(box, [Wait(ActsIn(wait.during), wait.clock)]).0, EndOf(wait.during, at))
  {
    ConnectIsRun(l, box, at, wait);
    ConnectEstablishes(l, StepsIn(wait.during));
    hide Agree, Genuine, Next, Plausible, Conveyed, Joined, Inv, Connect, DuringConnect, Runs, Final, Succeed,
         WillSucceed, StepsIn, ActsIn;
  }
}
