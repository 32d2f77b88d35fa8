/** Whole streams: chunk independence, self-synchronisation, round trips of frame lists, and what the FCS catches. */
module Streams {
  import opened Fcs
  import opened Control
  import opened Framing
  import opened Parser

  /** What holds of the parser state in every reachable state. */
  predicate Sound(p: Parser) {
    if p.start < 0 then p.src >= 0 && p == Reset(p.maxLen).(src := p.src)
    else p.start < p.src && (p.start + 1 == p.src ==> p == FrameState(p.start, [], p.maxLen))
  }

  lemma SoundStep(p: Parser, b: byte)
    requires Sound(p)
    ensures Sound(Step(p, b).0) && Step(p, b).0.maxLen == p.maxLen
    ensures b == FLAG ==> Holds(Step(p, b).0, [])
  {
    assert FcsOf(FCS_INIT, []) == FCS_INIT && Unescape([]) == [];
  }

  lemma {:induction false} ReachableSound(p: Parser, s: seq<byte>)
    requires Sound(p)
    ensures Sound(After(p, s)) && After(p, s).maxLen == p.maxLen
  {
    if s != [] {
      ReachableSound(p, s[..|s| - 1]);
      SoundStep(After(p, s[..|s| - 1]), s[|s| - 1]);
    }
  }

  // ---- Chunks ----

  function Flatten(chunks: seq<seq<byte>>): seq<byte> {
    if chunks == [] then [] else Flatten(chunks[..|chunks| - 1]) + chunks[|chunks| - 1]
  }

  function AfterChunks(p: Parser, chunks: seq<seq<byte>>): Parser {
    if chunks == [] then p else After(AfterChunks(p, chunks[..|chunks| - 1]), chunks[|chunks| - 1])
  }

  function ChunkEvents(p: Parser, chunks: seq<seq<byte>>): seq<Event> {
    if chunks == [] then []
    else
      var init := chunks[..|chunks| - 1];
      ChunkEvents(p, init) + Events(AfterChunks(p, init), chunks[|chunks| - 1])
  }

  /** However a stream is cut into buffers, the frames, the rejections and the final parser state are the same. */
  lemma {:induction false} ChunkIndependence(p: Parser, chunks: seq<seq<byte>>)
    ensures AfterChunks(p, chunks) == After(p, Flatten(chunks))
    ensures ChunkEvents(p, chunks) == Events(p, Flatten(chunks))
  {
    if chunks != [] {
      ChunkIndependence(p, chunks[..|chunks| - 1]);
      ParseAppend(p, Flatten(chunks[..|chunks| - 1]), chunks[|chunks| - 1]);
    }
  }

  // ---- One frame ----

  function Info(f: Packet): seq<byte> { if f.control.frame.DATA? then f.payload else [] }

  /** The frame's content between the flags, before and after escaping. */
  function Plain(f: Packet): seq<byte> { Content(f.control, f.payload) }

  function Wire(f: Packet): seq<byte> { Escape(Plain(f)) }

  /** The frame fits the receiver's limit. */
  predicate Fits(f: Packet, maxLen: nat) { |Info(f)| + 3 <= maxLen }

  /** What the receiver is given: the carried control field, the payload, and the two FCS bytes after it. */
  function Delivered(f: Packet): Event {
    Accepted(Carried(f.control), Info(f) + Trailer(FcsOf(FCS_INIT, Body(f.control, f.payload))))
  }

  lemma PlainParts(f: Packet)
    ensures |Plain(f)| == 4 + |Info(f)| && ControlOf(Plain(f)) == ControlByte(f.control)
    ensures Accepted(Carried(f.control), Stored(Plain(f))) == Delivered(f)
  {
    var t := Trailer(FcsOf(FCS_INIT, Body(f.control, f.payload)));
    assert |t| == 2;
    assert Plain(f) == [ALL_STATION_ADDR, ControlByte(f.control)] + (Info(f) + t);
  }

  lemma FrameVerdict(f: Packet, maxLen: nat)
    requires Fits(f, maxLen)
    ensures FLAG !in Wire(f) && Wire(f) != []
    ensures Verdict(Wire(f), maxLen) == [Delivered(f)]
  {
    EscapeRoundTrip(Plain(f));
    PlainParts(f);
    ContentIsGood(f.control, f.payload);
    ControlRoundTrip(f.control);
    hide Escape, Unescape, Content, FcsOf, ControlByte, DecodeControl, Delivered, Stored, ControlOf, Special;
  }

  lemma {:induction false} HoldsFeed(p: Parser, seg: seq<byte>, t: seq<byte>)
    requires Holds(p, seg) && FLAG !in t
    ensures Holds(After(p, t), seg + t) && After(p, t).maxLen == p.maxLen
    ensures Pending(seg, p.maxLen) + Events(p, t) == Pending(seg + t, p.maxLen)
  {
    hide Holds, Step, Pending;
    if t == [] {
      assert seg + t == seg;
    } else {
      hide After, Events;
      var init, b := t[..|t| - 1], t[|t| - 1];
      HoldsFeed(p, seg, init);
      ParseSnoc(p, init, b);
      assert init + [b] == t;
      HoldsByte(After(p, init), seg + init, b);
      StepKeepsMax(After(p, init), b);
      assert seg + init + [b] == seg + t;
    }
  }

  lemma NothingPending(maxLen: nat)
    ensures Pending([], maxLen) == []
  {
  }

  /** A flag-free piece and its end flag, read from just behind a flag. */
  lemma PieceEvents(p: Parser, seg: seq<byte>)
    requires Holds(p, []) && FLAG !in seg
    ensures Events(p, seg + [FLAG]) == Verdict(seg, p.maxLen)
    ensures Holds(After(p, seg + [FLAG]), []) && After(p, seg + [FLAG]).maxLen == p.maxLen
  {
    NothingPending(p.maxLen);
    hide *;
    HoldsFeed(p, [], seg);
    assert [] + seg == seg;
    var q := After(p, seg);
    HoldsFlag(q, seg);
    StepKeepsMax(q, FLAG);
    ParseSnoc(p, seg, FLAG);
  }

  lemma EncodeParts(f: Packet)
    ensures Encode(f.control, f.payload) == [FLAG] + Wire(f) + [FLAG]
  {
  }

  /** Self-synchronisation: whatever state the parser is in and whatever garbage came before, a frame that fits
      is delivered intact, and it is the last thing delivered. */
  lemma SelfSynchronisation(p: Parser, garbage: seq<byte>, f: Packet)
    requires Sound(p) && Fits(f, p.maxLen)
    ensures Events(p, garbage + Encode(f.control, f.payload)) == Events(p, garbage + [FLAG]) + [Delivered(f)]
    ensures Holds(After(p, garbage + Encode(f.control, f.payload)), [])
  {
    hide *;
    var g := garbage + [FLAG];
    EncodeParts(f);
    assert garbage + Encode(f.control, f.payload) == g + (Wire(f) + [FLAG]);
    ReachableSound(p, garbage);
    SoundStep(After(p, garbage), FLAG);
    ParseSnoc(p, garbage, FLAG);
    FrameVerdict(f, p.maxLen);
    PieceEvents(After(p, g), Wire(f));
    ParseAppend(p, g, Wire(f) + [FLAG]);
  }

  // ---- Lists of frames ----

  function Flags(n: nat): seq<byte> { seq(n, _ => FLAG) }

  lemma FlagIgnored(p: Parser)
    requires Holds(p, [])
    ensures Step(p, FLAG) == (p, [])
  {
  }

  lemma {:induction false} FlagsQuiet(p: Parser, n: nat)
    requires Holds(p, [])
    ensures After(p, Flags(n)) == p && Events(p, Flags(n)) == []
  {
    if n > 0 {
      FlagIgnored(p);
      hide Holds, Step, After, Events;
      FlagsQuiet(p, n - 1);
      assert Flags(n) == Flags(n - 1) + [FLAG];
      ParseSnoc(p, Flags(n - 1), FLAG);
    }
  }

  /** Frames one after the other, `gaps[i] + 1` flags behind the i-th: shared flags where the gap is 0,
      the usual end flag and start flag where it is 1. */
  function Line(fs: seq<Packet>, gaps: seq<nat>): seq<byte>
    requires |fs| == |gaps|
  {
    if fs == [] then []
    else
      var n := |fs| - 1;
      Line(fs[..n], gaps[..n]) + (Wire(fs[n]) + [FLAG]) + Flags(gaps[n])
  }

  function DeliveredAll(fs: seq<Packet>): seq<Event> {
    if fs == [] then [] else DeliveredAll(fs[..|fs| - 1]) + [Delivered(fs[|fs| - 1])]
  }

  predicate AllFit(fs: seq<Packet>, maxLen: nat) { forall i :: 0 <= i < |fs| ==> Fits(fs[i], maxLen) }

  lemma {:induction false} LineEvents(p: Parser, fs: seq<Packet>, gaps: seq<nat>)
    requires |fs| == |gaps| && Holds(p, []) && AllFit(fs, p.maxLen)
    ensures Events(p, Line(fs, gaps)) == DeliveredAll(fs)
    ensures Holds(After(p, Line(fs, gaps)), []) && After(p, Line(fs, gaps)).maxLen == p.maxLen
  {
    if fs != [] {
      var n := |fs| - 1;
      var before := Line(fs[..n], gaps[..n]);
      var piece := Wire(fs[n]) + [FLAG];
      LineEvents(p, fs[..n], gaps[..n]);
      FrameVerdict(fs[n], p.maxLen);
      PieceEvents(After(p, before), Wire(fs[n]));
      ParseAppend(p, before, piece);
      FlagsQuiet(After(p, before + piece), gaps[n]);
      ParseAppend(p, before + piece, Flags(gaps[n]));
    }
  }

  /** Stream round trip: from any reachable state, a line of frames behind any number of opening flags delivers
      exactly those frames in order, whether neighbouring frames share a flag or not. */
  lemma StreamRoundTrip(p: Parser, opening: nat, fs: seq<Packet>, gaps: seq<nat>)
    requires |fs| == |gaps| && Sound(p) && AllFit(fs, p.maxLen)
    ensures Events(p, [FLAG] + Flags(opening) + Line(fs, gaps)) == Events(p, [FLAG]) + DeliveredAll(fs)
  {
    hide Holds, Step, Sound, AllFit, DeliveredAll, Line, Flags, After, Events;
    SoundStep(p, FLAG);
    ParseOne(p, FLAG);
    var q := After(p, [FLAG]);
    FlagsQuiet(q, opening);
    ParseAppend(p, [FLAG], Flags(opening));
    LineEvents(q, fs, gaps);
    ParseAppend(p, [FLAG] + Flags(opening), Line(fs, gaps));
  }

  /** What a sequence of calls to the transmit callback puts on the wire. */
  function EncodeAll(fs: seq<Packet>): seq<byte> {
    if fs == [] then []
    else EncodeAll(fs[..|fs| - 1]) + Encode(fs[|fs| - 1].control, fs[|fs| - 1].payload)
  }

  /** Hunting with nothing read, or just behind a flag: the state between whole frames. */
  predicate BetweenFrames(p: Parser) { (p.start < 0 && Sound(p)) || Holds(p, []) }

  lemma BetweenIsSound(p: Parser)
    requires BetweenFrames(p)
    ensures Sound(p) && Step(p, FLAG).1 == []
  {
    assert Unescape([]) == [];
  }

  lemma OneMore(p: Parser, f: Packet)
    requires BetweenFrames(p) && Fits(f, p.maxLen)
    ensures Events(p, Encode(f.control, f.payload)) == [Delivered(f)]
    ensures var q := After(p, Encode(f.control, f.payload)); BetweenFrames(q) && q.maxLen == p.maxLen
  {
    BetweenIsSound(p);
    hide Holds, Step, Sound, Delivered, Encode, After, Events, Fits;
    SelfSynchronisation(p, [], f);
    assert [] + Encode(f.control, f.payload) == Encode(f.control, f.payload) && [] + [FLAG] == [FLAG];
    ParseOne(p, FLAG);
    ReachableSound(p, Encode(f.control, f.payload));
  }

  lemma {:induction false} UnescapeGrows(seg: seq<byte>, k: nat)
    requires k <= |seg|
    ensures |Unescape(seg[..k])| <= |Unescape(seg)|
    decreases |seg|
  {
    if k == |seg| {
      assert seg[..k] == seg;
    } else {
      var init := seg[..|seg| - 1];
      assert init[..k] == seg[..k];
      UnescapeGrows(init, k);
    }
  }

  lemma NothingRead(p: Parser)
    ensures Events(p, []) == []
  {
  }

  lemma WireFits(f: Packet, maxLen: nat, k: nat)
    requires Fits(f, maxLen) && k <= |Wire(f)|
    ensures FLAG !in Wire(f)[..k] && Pending(Wire(f)[..k], maxLen) == [] && Pending([], maxLen) == []
  {
    NothingPending(maxLen);
    FrameVerdict(f, maxLen);
    EscapeRoundTrip(Plain(f));
    PlainParts(f);
    UnescapeGrows(Wire(f), k);
    hide Escape, Plain, Special, Unescape, Verdict, Delivered;
  }

  lemma PrefixOfWire(wire: seq<byte>, k: nat)
    requires 0 < k < |wire| + 2
    ensures ([FLAG] + wire + [FLAG])[..k] == [FLAG] + wire[..k - 1]
  {
  }

  /** A frame is not reported before its end flag. */
  lemma BeginningUnreported(p: Parser, f: Packet, k: nat)
    requires BetweenFrames(p) && Fits(f, p.maxLen) && k < |Encode(f.control, f.payload)|
    ensures Events(p, Encode(f.control, f.payload)[..k]) == []
  {
    EncodeParts(f);
    hide Encode, Wire, Events, After, Step, Holds, Sound, BetweenFrames, Pending, Fits;
    BetweenIsSound(p);
    NothingRead(p);
    if k > 0 {
      var seg := Wire(f)[..k - 1];
      PrefixOfWire(Wire(f), k);
      ParseOne(p, FLAG);
      SoundStep(p, FLAG);
      WireFits(f, p.maxLen, k - 1);
      HoldsFeed(After(p, [FLAG]), [], seg);
      assert [] + seg == seg;
      ParseAppend(p, [FLAG], seg);
    } else {
      assert Encode(f.control, f.payload)[..0] == [];
    }
  }

  /** A transmitter's output, read from between frames, delivers exactly its frames. */
  lemma {:induction false} TransmittedEvents(p: Parser, fs: seq<Packet>)
    requires BetweenFrames(p) && AllFit(fs, p.maxLen)
    ensures Events(p, EncodeAll(fs)) == DeliveredAll(fs)
    ensures BetweenFrames(After(p, EncodeAll(fs))) && After(p, EncodeAll(fs)).maxLen == p.maxLen
  {
    if fs != [] {
      hide Holds, Step, Sound, Delivered, Encode, After, Events, Fits, BetweenFrames;
      var n := |fs| - 1;
      var before, f := EncodeAll(fs[..n]), fs[n];
      TransmittedEvents(p, fs[..n]);
      OneMore(After(p, before), f);
      ParseAppend(p, before, Encode(f.control, f.payload));
    }
  }
}
