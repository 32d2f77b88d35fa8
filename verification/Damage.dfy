/** What damage on the wire does: the errors the FCS is certain to catch turn into the loss of one frame. */
module Damage {
  import opened Fcs
  import opened Control
  import opened Framing
  import opened Parser
  import opened Streams

  lemma NothingUnescaped()
    ensures Unescape([]) == [] && !EndsEscaped([])
  {
  }

  lemma {:induction false} UnescapeConcat(s: seq<byte>, t: seq<byte>)
    requires !EndsEscaped(s)
    ensures Unescape(s + t) == Unescape(s) + Unescape(t)
    ensures EndsEscaped(s + t) == EndsEscaped(t)
  {
    NothingUnescaped();
    hide Unescape, EndsEscaped;
    if t == [] {
      assert s + t == s;
    } else {
      var init, b := t[..|t| - 1], t[|t| - 1];
      assert t == init + [b];
      UnescapeSnoc(init, b);
      UnescapeConcat(s, init);
      assert s + t == (s + init) + [b];
      UnescapeSnoc(s + init, b);
    }
  }

  /** Replacing one ordinary byte of a piece by another changes exactly one byte of the unescaped content. */
  lemma UnescapeReplace(seg: seq<byte>, i: nat, b: byte) returns (p: seq<byte>, x: byte, y: byte, q: seq<byte>)
    requires i < |seg| && !Special(seg[i]) && !Special(b) && seg[i] != b
    ensures Unescape(seg) == p + [x] + q && Unescape(seg[i := b]) == p + [y] + q && x != y
  {
    hide Unescape, EndsEscaped;
    var before, after := seg[..i], seg[i + 1..];
    var turn := EndsEscaped(before);
    p, q := Unescape(before), Unescape(after);
    x, y := if turn then seg[i] ^ 0x20 else seg[i], if turn then b ^ 0x20 else b;
    XorDiffers(seg[i], b);
    UnescapeSnoc(before, seg[i]);
    UnescapeSnoc(before, b);
    UnescapeConcat(before + [seg[i]], after);
    UnescapeConcat(before + [b], after);
    assert seg == before + [seg[i]] + after && seg[i := b] == before + [b] + after;
  }

  lemma XorDiffers(a: byte, b: byte)
    requires a != b
    ensures a ^ 0x20 != b ^ 0x20
  {
  }

  /** A change of one wire byte inside a good frame, neither value being a flag or an escape, is always rejected. */
  lemma WireByteRejected(seg: seq<byte>, i: nat, b: byte, maxLen: nat)
    requires i < |seg| && !Special(seg[i]) && !Special(b) && seg[i] != b
    requires FcsOf(FCS_INIT, Unescape(seg)) == FCS_GOOD
    ensures Verdict(seg[i := b], maxLen) == [Rejected]
  {
    hide FcsOf;
    var p, x, y, q := UnescapeReplace(seg, i, b);
    BurstDetected(FCS_INIT, p, [x], [y], q);
  }

  /** So is a change confined to one byte, or to two adjacent bytes, of the content before escaping. */
  lemma BurstRejected(p: seq<byte>, x: seq<byte>, y: seq<byte>, q: seq<byte>, maxLen: nat)
    requires 1 <= |x| == |y| <= 2 && x != y
    requires FcsOf(FCS_INIT, p + x + q) == FCS_GOOD
    ensures Verdict(Escape(p + y + q), maxLen) == [Rejected]
  {
    hide FcsOf;
    BurstDetected(FCS_INIT, p, x, y, q);
    EscapeRoundTrip(p + y + q);
  }

  // ---- A line that damages or loses frames ----

  datatype Fate = Intact | Lost | WireByte(at: nat, value: byte) | Burst(from: nat, bytes: seq<byte>)

  datatype Shot = Shot(f: Packet, fate: Fate)

  /** The damage is one of those the FCS is certain to catch. */
  predicate Covered(s: Shot) {
    match s.fate
    case Intact => true
    case Lost => true
    case WireByte(i, b) => i < |Wire(s.f)| && !Special(Wire(s.f)[i]) && !Special(b) && Wire(s.f)[i] != b
    case Burst(k, y) =>
      1 <= |y| <= 2 && k + |y| <= |Plain(s.f)| && Plain(s.f)[k..k + |y|] != y
  }

  function Damaged(s: Shot): seq<byte>
    requires Covered(s)
  {
    match s.fate
    case WireByte(i, b) => Wire(s.f)[i := b]
    case Burst(k, y) => Escape(Plain(s.f)[..k] + y + Plain(s.f)[k + |y|..])
    case _ => Wire(s.f)
  }

  /** The bytes that reach the receiver. */
  function Arriving(shots: seq<Shot>): seq<byte>
    requires forall i :: 0 <= i < |shots| ==> Covered(shots[i])
  {
    if shots == [] then []
    else
      var n := |shots| - 1;
      Arriving(shots[..n]) + if shots[n].fate.Lost? then [] else [FLAG] + (Damaged(shots[n]) + [FLAG])
  }

  function Survivors(shots: seq<Shot>): seq<Packet> {
    if shots == [] then []
    else
      var n := |shots| - 1;
      Survivors(shots[..n]) + if shots[n].fate.Intact? then [shots[n].f] else []
  }

  /** The frames among the events. */
  function Frames(es: seq<Event>): seq<Event> {
    if es == [] then []
    else Frames(es[..|es| - 1]) + if es[|es| - 1].Accepted? then [es[|es| - 1]] else []
  }

  lemma {:induction false} FramesAppend(es: seq<Event>, es': seq<Event>)
    ensures Frames(es + es') == Frames(es) + Frames(es')
  {
    if es' == [] {
      assert es + es' == es;
    } else {
      assert (es + es')[..|es + es'| - 1] == es + es'[..|es'| - 1];
      FramesAppend(es, es'[..|es'| - 1]);
    }
  }

  lemma DamagedVerdict(s: Shot, maxLen: nat)
    requires Covered(s) && Fits(s.f, maxLen)
    ensures FLAG !in Damaged(s)
    ensures Verdict(Damaged(s), maxLen) == if s.fate.Intact? || s.fate.Lost? then [Delivered(s.f)] else [Rejected]
  {
    hide FcsOf, Delivered, Verdict, Escape, Unescape, Body, ControlByte, Content, Trailer, Fits, Special;
    var plain := Plain(s.f);
    FrameVerdict(s.f, maxLen);
    EscapeRoundTrip(plain);
    ContentIsGood(s.f.control, s.f.payload);
    match s.fate
    case WireByte(i, b) =>
      WireByteVerdict(Wire(s.f), i, b, maxLen);
    case Burst(k, y) =>
      BurstVerdict(plain, k, y, maxLen);
    case _ =>
  }

  lemma WireByteVerdict(seg: seq<byte>, i: nat, b: byte, maxLen: nat)
    requires i < |seg| && !Special(seg[i]) && !Special(b) && seg[i] != b
    requires FLAG !in seg && FcsOf(FCS_INIT, Unescape(seg)) == FCS_GOOD
    ensures FLAG !in seg[i := b] && Verdict(seg[i := b], maxLen) == [Rejected]
  {
    hide FcsOf, Verdict, Unescape;
    WireByteRejected(seg, i, b, maxLen);
  }

  lemma BurstVerdict(plain: seq<byte>, k: nat, y: seq<byte>, maxLen: nat)
    requires FcsOf(FCS_INIT, plain) == FCS_GOOD
    requires 1 <= |y| <= 2 && k + |y| <= |plain| && plain[k..k + |y|] != y
    ensures var seg := Escape(plain[..k] + y + plain[k + |y|..]);
            FLAG !in seg && Verdict(seg, maxLen) == [Rejected]
  {
    hide FcsOf, Verdict, Escape, Unescape;
    assert plain == plain[..k] + plain[k..k + |y|] + plain[k + |y|..];
    BurstRejected(plain[..k], plain[k..k + |y|], y, plain[k + |y|..], maxLen);
    EscapeRoundTrip(plain[..k] + y + plain[k + |y|..]);
  }

  /** Covered damage is loss: the receiver is given exactly the frames that arrived untouched, in order. */
  lemma {:induction false} DamageIsLoss(p: Parser, shots: seq<Shot>)
    requires BetweenFrames(p)
    requires forall i :: 0 <= i < |shots| ==> Covered(shots[i]) && Fits(shots[i].f, p.maxLen)
    ensures Frames(Events(p, Arriving(shots))) == DeliveredAll(Survivors(shots))
    ensures BetweenFrames(After(p, Arriving(shots))) && After(p, Arriving(shots)).maxLen == p.maxLen
  {
    NoShots(p);
    hide BetweenFrames, Fits, After, Events, Damaged, Delivered, Frames, DeliveredAll, Covered;
    if shots != [] {
      var n := |shots| - 1;
      DamageIsLoss(p, shots[..n]);
      NextShot(p, Arriving(shots[..n]), Survivors(shots[..n]), shots[n]);
    }
  }

  lemma NoShots(p: Parser)
    ensures Frames(Events(p, [])) == DeliveredAll([]) && After(p, []) == p
  {
  }

  lemma NextShot(p: Parser, before: seq<byte>, fs: seq<Packet>, s: Shot)
    requires BetweenFrames(After(p, before)) && After(p, before).maxLen == p.maxLen
    requires Frames(Events(p, before)) == DeliveredAll(fs)
    requires Covered(s) && Fits(s.f, p.maxLen)
    ensures var t := before + if s.fate.Lost? then [] else [FLAG] + (Damaged(s) + [FLAG]);
            && Frames(Events(p, t)) == DeliveredAll(fs + if s.fate.Intact? then [s.f] else [])
            && BetweenFrames(After(p, t)) && After(p, t).maxLen == p.maxLen
  {
    hide BetweenFrames, Covered, Fits, After, Events, Damaged, Delivered, Frames, DeliveredAll;
    if s.fate.Lost? {
      assert before + [] == before && fs + [] == fs;
    } else {
      var piece := [FLAG] + (Damaged(s) + [FLAG]);
      OneShot(After(p, before), s);
      ParseAppend(p, before, piece);
      FramesAppend(Events(p, before), Events(After(p, before), piece));
      DeliveredSnoc(fs, s.f);
      assert fs + [] == fs;
    }
  }

  lemma DeliveredSnoc(fs: seq<Packet>, f: Packet)
    ensures DeliveredAll(fs + [f]) == DeliveredAll(fs) + [Delivered(f)]
  {
    assert (fs + [f])[..|fs|] == fs;
  }

  lemma OneShot(p: Parser, s: Shot)
    requires BetweenFrames(p) && Covered(s) && Fits(s.f, p.maxLen) && !s.fate.Lost?
    ensures var piece := [FLAG] + (Damaged(s) + [FLAG]);
            && Frames(Events(p, piece)) == (if s.fate.Intact? then [Delivered(s.f)] else [])
            && BetweenFrames(After(p, piece)) && After(p, piece).maxLen == p.maxLen
  {
    BetweenIsSound(p);
    hide Sound, Step, Covered, Fits, After, Events, Damaged, Verdict, Holds;
    SoundStep(p, FLAG);
    ParseOne(p, FLAG);
    DamagedVerdict(s, p.maxLen);
    PieceEvents(After(p, [FLAG]), Damaged(s));
    ParseAppend(p, [FLAG], Damaged(s) + [FLAG]);
    var e := if s.fate.Intact? then Delivered(s.f) else Rejected;
    assert [e][..0] == [] && Frames([e]) == Frames([]) + if e.Accepted? then [e] else [];
  }
}
