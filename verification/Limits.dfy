/** Where lengths meet their limits: the exact conditions under which the buffers and the length arithmetic of the
    receive path mean what their users take them to mean. */
module Limits {
  import opened Fcs
  import opened Control
  import opened Framing
  import opened Parser
  import opened Deframing
  import opened Streams
  import opened Damage
  import opened Station

  /** Receiving a frame stores its payload and its two FCS bytes: a destination of PAYLOAD_MAX_LEN bytes, as the
      link object declares it, is enough exactly for payloads at least two bytes below the limit. */
  lemma ScratchpadNeeded(p: Parser, f: Packet)
    requires Sound(p) && Fits(f, p.maxLen)
    ensures var stored := |After(p, [FLAG] + Wire(f)).dest|;
            && stored == |Info(f)| + 2
            && (stored <= PAYLOAD_MAX_LEN <==> |Info(f)| <= PAYLOAD_MAX_LEN - 2)
  {
    EscapeRoundTrip(Plain(f));
    PlainParts(f);
    SoundStep(p, FLAG);
    ParseOne(p, FLAG);
    ParseAppend(p, [FLAG], Wire(f));
    hide Step, Sound, Events, After, Plain;
    HoldsFeed(After(p, [FLAG]), [], Wire(f));
    assert [] + Wire(f) == Wire(f);
  }

  /** What the link layer's limit admits: a station's deframer delivers a frame if and only if its information field has
      at most 505 bytes. */
  lemma LongestDelivered(p: Parser, f: Packet)
    requires Holds(p, []) && p.maxLen == MAX_FRAME_LEN
    ensures Events(p, Wire(f) + [FLAG]) == [Delivered(f)] <==> |Info(f)| <= 505
  {
    WireLength(f);
    if |Info(f)| <= 505 {
      FrameVerdict(f, p.maxLen);
    }
    hide Holds, Unescape, Escape, FcsOf, Plain, Delivered, Events, After, Special;
    PieceEvents(p, Wire(f));
    var a := Delivered(f);
    assert a.Accepted? by {
      DeliveredAccepted(f);
    }
  }

  lemma DeliveredAccepted(f: Packet)
    ensures Delivered(f).Accepted?
  {
  }

  // ---- The scratchpad, for every stream ----

  /** Reading the stream from a reset state never stores more than `n` bytes. */
  predicate StoresAtMost(s: seq<byte>, n: nat) {
    forall k :: 0 <= k <= |s| ==> |After(Reset(MAX_FRAME_LEN), s[..k]).dest| <= n
  }

  /** Behind the first flag no piece between flags, terminated or not, has more than `n` bytes after unescaping. */
  predicate PiecesAtMost(s: seq<byte>, n: nat) {
    forall i :: 1 <= i < |Split(s)| ==> |Unescape(Split(s)[i])| <= n
  }

  lemma StoresSnoc(s: seq<byte>, b: byte, n: nat)
    ensures StoresAtMost(s + [b], n) <==>
            StoresAtMost(s, n) && |After(Reset(MAX_FRAME_LEN), s + [b]).dest| <= n
  {
    var t := s + [b];
    hide After;
    assert t[..|t|] == t;
    assert forall k :: 0 <= k <= |s| ==> t[..k] == s[..k];
    if StoresAtMost(t, n) {
      forall k | 0 <= k <= |s|
        ensures |After(Reset(MAX_FRAME_LEN), s[..k]).dest| <= n
      {
        assert t[..k] == s[..k];
      }
      assert |After(Reset(MAX_FRAME_LEN), t[..|t|]).dest| <= n;
    }
  }

  /** What the parser has stored is told by the piece it is in. */
  lemma StoredNow(s: seq<byte>)
    requires PiecesAtMost(s, MAX_FRAME_LEN + 1)
    ensures var r := Split(s);
            |After(Reset(MAX_FRAME_LEN), s).dest| ==
            if |r| == 1 then 0
            else if |Unescape(r[|r| - 1])| >= 2 then |Unescape(r[|r| - 1])| - 2 else 0
  {
    StreamRefinement(MAX_FRAME_LEN, s);
    hide After, Events, StreamEvents, Split, Unescape, FcsOf;
  }

  /** All but the last piece, behind the first flag. */
  predicate EarlierAtMost(r: seq<seq<byte>>, n: nat) { forall i :: 1 <= i < |r| - 1 ==> |Unescape(r[i])| <= n }

  lemma PiecesLast(s: seq<byte>, n: nat)
    ensures var r := Split(s);
            PiecesAtMost(s, n) <==> EarlierAtMost(r, n) && (|r| > 1 ==> |Unescape(r[|r| - 1])| <= n)
  {
    hide Split, Unescape;
  }

  lemma EarlierSame(r: seq<seq<byte>>, t: seq<seq<byte>>, n: nat)
    requires |t| == |r| && forall i :: 0 <= i < |r| - 1 ==> t[i] == r[i]
    ensures EarlierAtMost(t, n) <==> EarlierAtMost(r, n)
  {
    hide Unescape;
    if EarlierAtMost(t, n) {
      forall i | 1 <= i < |r| - 1
        ensures |Unescape(r[i])| <= n
      {
        assert |Unescape(t[i])| <= n;
      }
    }
  }

  lemma EarlierFlag(r: seq<seq<byte>>, n: nat)
    requires |r| >= 1
    ensures EarlierAtMost(r + [[]], n) <==> EarlierAtMost(r, n) && (|r| > 1 ==> |Unescape(r[|r| - 1])| <= n)
  {
    hide Unescape;
    var t := r + [[]];
    assert forall i :: 0 <= i < |r| ==> t[i] == r[i];
    if EarlierAtMost(t, n) {
      forall i | 1 <= i < |r|
        ensures |Unescape(r[i])| <= n
      {
        assert |Unescape(t[i])| <= n;
      }
    }
  }

  /** The last piece of a stream one byte longer. */
  lemma LastPiece(s: seq<byte>, b: byte)
    ensures var r, t := Split(s), Split(s + [b]);
            if b == FLAG then |t| == |r| + 1 && t[|t| - 1] == []
            else |t| == |r| && t[|t| - 1] == r[|r| - 1] + [b]
    ensures var last := Split(s)[|Split(s)| - 1];
            |Unescape(last)| <= |Unescape(last + [b])| <= |Unescape(last)| + 1
    ensures |Unescape([])| == 0
  {
    SplitSnoc(s, b);
    UnescapeSnoc(Split(s)[|Split(s)| - 1], b);
    hide Split;
  }

  lemma PiecesSnoc(s: seq<byte>, b: byte, n: nat)
    ensures var r := Split(s);
            PiecesAtMost(s + [b], n) <==>
            PiecesAtMost(s, n) && (b == FLAG || |r| == 1 || |Unescape(r[|r| - 1] + [b])| <= n)
  {
    hide Split, Unescape, EarlierAtMost, PiecesAtMost;
    var r := Split(s);
    LastPiece(s, b);
    SplitSnoc(s, b);
    PiecesLast(s, n);
    PiecesLast(s + [b], n);
    if b == FLAG {
      EarlierFlag(r, n);
    } else {
      EarlierSame(r, Split(s + [b]), n);
    }
  }

  lemma NothingStored(n: nat)
    ensures StoresAtMost([], n) && PiecesAtMost([], n)
  {
  }

  lemma PiecesWeaker(s: seq<byte>, n: nat, m: nat)
    requires PiecesAtMost(s, n) && n <= m
    ensures PiecesAtMost(s, m)
  {
  }

  lemma LastAtMost(s: seq<byte>, n: nat)
    requires PiecesAtMost(s, n) && |Split(s)| > 1
    ensures |Unescape(Split(s)[|Split(s)| - 1])| <= n
  {
    hide Split, Unescape;
  }

  lemma ByteStored(s: seq<byte>, b: byte, n: nat)
    requires n + 2 <= MAX_FRAME_LEN && PiecesAtMost(s, n + 2)
    ensures |After(Reset(MAX_FRAME_LEN), s + [b]).dest| <= n <==> PiecesAtMost(s + [b], n + 2)
  {
    hide After, Split, Unescape, PiecesAtMost;
    LastPiece(s, b);
    if |Split(s)| > 1 {
      LastAtMost(s, n + 2);
    }
    PiecesSnoc(s, b, n + 2);
    PiecesSnoc(s, b, MAX_FRAME_LEN + 1);
    PiecesWeaker(s, n + 2, MAX_FRAME_LEN + 1);
    StoredNow(s + [b]);
  }

  /** The scratchpad, exactly and for every stream: reading never stores more than `n` bytes if and only if no piece
      behind the first flag has more than two bytes more after unescaping, for every `n` below the receiver's limit. */
  lemma {:induction false} ScratchpadEnough(s: seq<byte>, n: nat)
    requires n + 2 <= MAX_FRAME_LEN
    ensures StoresAtMost(s, n) <==> PiecesAtMost(s, n + 2)
  {
    NothingStored(n);
    NothingStored(n + 2);
    hide StoresAtMost, PiecesAtMost, After, Split;
    if s != [] {
      var init, b := s[..|s| - 1], s[|s| - 1];
      assert s == init + [b];
      ScratchpadEnough(init, n);
      StoresSnoc(init, b, n);
      PiecesSnoc(init, b, n + 2);
      if PiecesAtMost(init, n + 2) {
        ByteStored(init, b, n);
      }
    }
  }

  lemma PiecesFlag(s: seq<byte>, n: nat)
    ensures PiecesAtMost(s + [FLAG], n) <==> PiecesAtMost(s, n)
    ensures |Split(s + [FLAG])| > 1 && Split(s + [FLAG])[|Split(s + [FLAG])| - 1] == []
  {
    PiecesSnoc(s, FLAG, n);
    SplitSnoc(s, FLAG);
  }

  lemma PiecesExtend(s: seq<byte>, seg: seq<byte>, n: nat)
    requires |Split(s)| > 1 && Split(s)[|Split(s)| - 1] == [] && FLAG !in seg
    ensures PiecesAtMost(s + seg, n) <==> PiecesAtMost(s, n) && |Unescape(seg)| <= n
  {
    hide Split;
    SplitExtend(s, seg);
    assert [] + seg == seg;
    LastReplaced(Split(s), seg, n);
  }

  lemma LastReplaced(r: seq<seq<byte>>, seg: seq<byte>, n: nat)
    requires |r| > 1 && r[|r| - 1] == []
    ensures var t := r[..|r| - 1] + [seg];
            (forall i :: 1 <= i < |t| ==> |Unescape(t[i])| <= n) <==>
            (forall i :: 1 <= i < |r| ==> |Unescape(r[i])| <= n) && |Unescape(seg)| <= n
  {
    assert Unescape([]) == [];
    hide Unescape;
    var t := r[..|r| - 1] + [seg];
    assert t[|r| - 1] == seg;
    assert forall i :: 1 <= i < |r| - 1 ==> t[i] == r[i];
    if forall i :: 1 <= i < |t| ==> |Unescape(t[i])| <= n {
      forall i | 1 <= i < |r|
        ensures |Unescape(r[i])| <= n
      {
        assert |Unescape(t[i])| <= n;
      }
    }
  }

  /** One more piece between two flags. */
  lemma PiecesNext(s: seq<byte>, seg: seq<byte>, n: nat)
    requires FLAG !in seg
    ensures PiecesAtMost(s + ([FLAG] + (seg + [FLAG])), n) <==> PiecesAtMost(s, n) && |Unescape(seg)| <= n
  {
    hide Split, Unescape, PiecesAtMost;
    PiecesFlag(s, n);
    PiecesExtend(s + [FLAG], seg, n);
    PiecesFlag(s + [FLAG] + seg, n);
    assert s + ([FLAG] + (seg + [FLAG])) == s + [FLAG] + seg + [FLAG];
  }

  /** Covered damage does not change how many bytes a frame has after unescaping. */
  lemma DamagedLength(s: Shot)
    requires Covered(s)
    ensures FLAG !in Damaged(s) && |Unescape(Damaged(s))| == 4 + |Info(s.f)|
  {
    EscapeRoundTrip(Plain(s.f));
    PlainParts(s.f);
    hide Unescape, Escape, Special, Plain;
    match s.fate
    case WireByte(i, b) =>
      var p, x, y, q := UnescapeReplace(Wire(s.f), i, b);
      OrdinaryIsNoFlag(b);
    case Burst(k, y) =>
      EscapeRoundTrip(Plain(s.f)[..k] + y + Plain(s.f)[k + |y|..]);
    case _ =>
  }

  lemma OrdinaryIsNoFlag(b: byte)
    requires !Special(b)
    ensures b != FLAG
  {
  }

  predicate PayloadsAtMost(shots: seq<Shot>, n: nat) {
    forall i :: 0 <= i < |shots| && !shots[i].fate.Lost? ==> |Info(shots[i].f)| <= n
  }

  lemma PayloadsLast(shots: seq<Shot>, n: nat)
    ensures shots == [] ==> PayloadsAtMost(shots, n)
    ensures shots != [] ==>
              var last := |shots| - 1;
              PayloadsAtMost(shots, n) <==>
              PayloadsAtMost(shots[..last], n) && (shots[last].fate.Lost? || |Info(shots[last].f)| <= n)
  {
    hide Info;
  }

  lemma {:induction false} PiecesOfShots(shots: seq<Shot>, n: nat)
    requires forall i :: 0 <= i < |shots| ==> Covered(shots[i])
    ensures PiecesAtMost(Arriving(shots), n + 4) <==> PayloadsAtMost(shots, n)
  {
    NothingStored(n + 4);
    hide PiecesAtMost, Covered, Damaged, Info, PayloadsAtMost, Unescape;
    PayloadsLast(shots, n);
    if shots != [] {
      var last := |shots| - 1;
      PiecesOfShots(shots[..last], n);
      if !shots[last].fate.Lost? {
        DamagedLength(shots[last]);
        PiecesNext(Arriving(shots[..last]), Damaged(shots[last]), n + 4);
      } else {
        assert Arriving(shots[..last]) + [] == Arriving(shots[..last]);
      }
    }
  }

  /** On a line that loses whole frames or damages them so that the FCS is certain to catch it, a scratchpad of
      PAYLOAD_MAX_LEN bytes is enough if and only if the payloads that arrive have at least two bytes less. */
  lemma CoveredLineFits(shots: seq<Shot>)
    requires forall i :: 0 <= i < |shots| ==> Covered(shots[i])
    ensures StoresAtMost(Arriving(shots), PAYLOAD_MAX_LEN) <==> PayloadsAtMost(shots, PAYLOAD_MAX_LEN - 2)
  {
    hide Covered, StoresAtMost, PiecesAtMost, PayloadsAtMost;
    ScratchpadEnough(Arriving(shots), PAYLOAD_MAX_LEN);
    PiecesOfShots(shots, PAYLOAD_MAX_LEN - 2);
  }

  lemma WireLength(f: Packet)
    ensures FLAG !in Wire(f) && !EndsEscaped(Wire(f)) && |Unescape(Wire(f))| == 4 + |Info(f)|
  {
    EscapeRoundTrip(Plain(f));
    PlainParts(f);
  }

  /** A line that loses flags is another matter: of two frames that run together it stores both. */
  lemma MergedFramesFit(f: Packet, g: Packet)
    ensures StoresAtMost([FLAG] + (Wire(f) + Wire(g)), PAYLOAD_MAX_LEN)
            <==> |Info(f)| + |Info(g)| <= PAYLOAD_MAX_LEN - 6
  {
    hide StoresAtMost, PiecesAtMost, Unescape, Escape, Plain, Wire, Info, EndsEscaped, Split, After;
    var n := PAYLOAD_MAX_LEN + 2;
    WireLength(f);
    WireLength(g);
    UnescapeConcat(Wire(f), Wire(g));
    ScratchpadEnough([FLAG] + (Wire(f) + Wire(g)), PAYLOAD_MAX_LEN);
    NothingStored(n);
    PiecesFlag([], n);
    assert [] + [FLAG] == [FLAG];
    PiecesExtend([FLAG], Wire(f) + Wire(g), n);
  }

  // ---- The reported length ----

  /** The reported length of an accepted frame is the length of what lies between control byte and FCS exactly
      when the frame has four bytes or more after unescaping. */
  lemma ReportedLengthExact(seg: seq<byte>, maxLen: nat)
    requires |Verdict(seg, maxLen)| == 1 && Verdict(seg, maxLen)[0].Accepted?
    requires maxLen < SIZE_RANGE
    ensures LengthWithoutFcs(|Verdict(seg, maxLen)[0].data|) == |Unescape(seg)| - 4 <==> |Unescape(seg)| >= 4
  {
  }

  /** Accepted frames need not be that long, because the minimum is checked on wire bytes: every three-byte content
      with a correct FCS is accepted. */
  lemma ThreeByteFrameAccepted(address: byte, maxLen: nat)
    requires maxLen >= 2
    ensures var t := Trailer(FcsOf(FCS_INIT, [address]));
            var v := Verdict(Escape([address] + t), maxLen);
            && v == [Accepted(DecodeControl(t[0]), [t[1]])]
            && LengthWithoutFcs(|v[0].data|) == SIZE_RANGE - 1
  {
    var t := Trailer(FcsOf(FCS_INIT, [address]));
    var u := [address] + t;
    EscapeRoundTrip(u);
    AcceptanceExact(FCS_INIT, [address], t[0], t[1]);
    assert t == [t[0], t[1]];
    hide FcsOf, Escape, Unescape;
  }
}
