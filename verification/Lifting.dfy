/** From bytes to frames: what the link object does with a byte stream is the fold of the frame handler over the
    frames that were sent, however the stream is cut and wherever it was damaged. */
module Lifting {
  import opened Fcs
  import opened Control
  import opened Framing
  import opened Parser
  import opened Streams
  import opened Damage
  import opened Station
  import opened Deadcom

  /** A frame as its receiver sees it: only what its control byte carries, and a payload only for DATA. */
  function Seen(f: Packet): Packet { Packet(Carried(f.control), Info(f)) }

  /** The frame handler, folded over frames. */
  function RunFrames(box: Box, fs: seq<Packet>): Box {
    if fs == [] then box
    else
      var b := RunFrames(box, fs[..|fs| - 1]);
      var (st, out) := HandleFrame(b.st, Seen(fs[|fs| - 1]));
      b.(st := st, sent := b.sent + out)
  }

  /** Buffers handed to dcProcessData one after the other. */
  function FeedAll(box: Box, chunks: seq<seq<byte>>): Box {
    if chunks == [] then box else Feed(FeedAll(box, chunks[..|chunks| - 1]), chunks[|chunks| - 1])
  }

  lemma FeedNothing(box: Box)
    ensures Feed(box, []) == box
  {
  }

  /** Only the concatenation of the buffers matters. */
  lemma {:induction false} FeedAllFlat(box: Box, chunks: seq<seq<byte>>)
    ensures FeedAll(box, chunks) == Feed(box, Flatten(chunks))
  {
    FeedNothing(box);
    hide Feed;
    if chunks != [] {
      FeedAllFlat(box, chunks[..|chunks| - 1]);
      FeedAppend(box, Flatten(chunks[..|chunks| - 1]), chunks[|chunks| - 1]);
    }
  }

  lemma DeliveredIsSeen(st: Station, f: Packet)
    ensures HandleEvent(st, Delivered(f)) == HandleFrame(st, Seen(f))
  {
    var t := Trailer(FcsOf(FCS_INIT, Body(f.control, f.payload)));
    assert |t| == 2 && (Info(f) + t)[..|Info(f)|] == Info(f);
  }

  lemma {:induction false} HandleDelivered(box: Box, fs: seq<Packet>)
    ensures Handle(box, DeliveredAll(fs)) == RunFrames(box, fs)
  {
    hide HandleEvent, HandleFrame, Delivered;
    if fs != [] {
      var n := |fs| - 1;
      HandleDelivered(box, fs[..n]);
      DeliveredIsSeen(RunFrames(box, fs[..n]).st, fs[n]);
      assert DeliveredAll(fs)[..|DeliveredAll(fs)| - 1] == DeliveredAll(fs[..n]);
    }
  }

  /** Rejections have no effect on the station. */
  lemma {:induction false} RejectionsIgnored(box: Box, es: seq<Event>)
    ensures Handle(box, es) == Handle(box, Frames(es))
  {
    if es != [] {
      var init, ev := es[..|es| - 1], es[|es| - 1];
      RejectionsIgnored(box, init);
      if ev.Accepted? {
        HandleAppend(box, Frames(init), [ev]);
        HandleOne(Handle(box, Frames(init)), ev);
      } else {
        assert Frames(init) + [] == Frames(init);
      }
    }
  }

  /** Two stations back to back: everything one has transmitted, cut into buffers in any way, acts on the other
      exactly as its frames, in order. */
  lemma TransmissionLifts(box: Box, fs: seq<Packet>, chunks: seq<seq<byte>>)
    requires BetweenFrames(box.parser) && AllFit(fs, box.parser.maxLen)
    requires Flatten(chunks) == EncodeAll(fs)
    ensures FeedAll(box, chunks) == RunFrames(box, fs).(parser := After(box.parser, EncodeAll(fs)))
    ensures BetweenFrames(FeedAll(box, chunks).parser)
  {
    hide BetweenFrames, AllFit;
    FeedAllFlat(box, chunks);
    TransmittedEvents(box.parser, fs);
    HandleDelivered(box, fs);
  }

  /** The same when neighbouring frames share flags or flags are repeated, from any reachable parser state. */
  lemma LineLifts(box: Box, opening: nat, fs: seq<Packet>, gaps: seq<nat>, chunks: seq<seq<byte>>)
    requires |fs| == |gaps| && Sound(box.parser) && AllFit(fs, box.parser.maxLen)
    requires Flatten(chunks) == [FLAG] + Flags(opening) + Line(fs, gaps)
    ensures FeedAll(box, chunks) ==
            RunFrames(Handle(box, Events(box.parser, [FLAG])), fs).(parser := After(box.parser, Flatten(chunks)))
  {
    hide Sound, AllFit, Events, After, RunFrames, DeliveredAll, Line, Flags, Flatten, FeedAll;
    FeedAllFlat(box, chunks);
    StreamRoundTrip(box.parser, opening, fs, gaps);
    HandleAppend(box, Events(box.parser, [FLAG]), DeliveredAll(fs));
    HandleDelivered(Handle(box, Events(box.parser, [FLAG])), fs);
  }

  /** A line that loses frames or damages them within what the FCS is certain to catch acts as a line of frames
      from which those frames are missing. */
  lemma DamageLifts(box: Box, shots: seq<Shot>, chunks: seq<seq<byte>>)
    requires BetweenFrames(box.parser)
    requires forall i :: 0 <= i < |shots| ==> Covered(shots[i]) && Fits(shots[i].f, box.parser.maxLen)
    requires Flatten(chunks) == Arriving(shots)
    ensures FeedAll(box, chunks) == RunFrames(box, Survivors(shots)).(parser := After(box.parser, Arriving(shots)))
  {
    hide BetweenFrames, Covered, Fits;
    FeedAllFlat(box, chunks);
    DamageIsLoss(box.parser, shots);
    RejectionsIgnored(box, Events(box.parser, Arriving(shots)));
    HandleDelivered(box, Survivors(shots));
  }

  /** A frame some station transmits. */
  predicate Emitted(f: Packet) {
    match f.control.frame
    case DATA => 1 <= |f.payload| <= PAYLOAD_MAX_LEN
    case _ => f.payload == [] && Carried(f.control) == f.control
  }

  /** Frames of a station are within every limit of their receiver, which sees them as they were sent. */
  lemma EmittedFits(f: Packet)
    requires Emitted(f)
    ensures Fits(f, MAX_FRAME_LEN) && Seen(f) == f && WithinLimits(Delivered(f))
  {
    PlainParts(f);
  }

  lemma HandlerEmits(st: Station, f: Packet)
    ensures forall i :: 0 <= i < |HandleFrame(st, f).1| ==> Emitted(HandleFrame(st, f).1[i])
  {
  }

  lemma SenderEmits(st: Station, message: seq<byte>)
    ensures var (_, begun) := BeginSend(st, message); begun.Waiting? ==> Emitted(begun.frame)
  {
  }
}
