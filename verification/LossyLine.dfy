/** The fault injector between two stations: corrupted bytes cost exactly the frames they hit. */
module LossyLine {
  import opened Fcs
  import opened Control
  import opened Framing
  import opened Parser
  import opened Streams
  import opened Damage
  import opened Station
  import opened Deadcom
  import opened Lifting
  import L = LeakyPipe

  /** What the corruption list does to one frame: nothing, or one byte between its flags is XORed with a value. */
  datatype Hit = Miss | Hit(at: nat, value: byte)

  /** Neither the byte nor what becomes of it is a flag or an escape. */
  predicate Ordinary(f: Packet, h: Hit) {
    h.Hit? ==> h.at < |Wire(f)| && h.value != 0 && !Special(Wire(f)[h.at]) && !Special(Wire(f)[h.at] ^ h.value)
  }

  predicate AllOrdinary(fs: seq<Packet>, hits: seq<Hit>)
    requires |fs| == |hits|
  {
    forall i :: 0 <= i < |fs| ==> Ordinary(fs[i], hits[i])
  }

  /** The corruption list that makes these hits in the bytes of these frames. */
  function Corruptions(fs: seq<Packet>, hits: seq<Hit>): seq<L.Def>
    requires |fs| == |hits|
  {
    if fs == [] then []
    else
      var n := |fs| - 1;
      Corruptions(fs[..n], hits[..n])
      + if hits[n].Hit? then [L.Def(|EncodeAll(fs[..n])| + 1 + hits[n].at, hits[n].value)] else []
  }

  /** The frames that are not hit. */
  function Missed(fs: seq<Packet>, hits: seq<Hit>): seq<Packet>
    requires |fs| == |hits|
  {
    if fs == [] then []
    else
      var n := |fs| - 1;
      Missed(fs[..n], hits[..n]) + if hits[n].Miss? then [fs[n]] else []
  }

  function ShotOf(f: Packet, h: Hit): Shot
    requires Ordinary(f, h)
  {
    Shot(f, if h.Miss? then Intact else WireByte(h.at, Wire(f)[h.at] ^ h.value))
  }

  function Shots(fs: seq<Packet>, hits: seq<Hit>): seq<Shot>
    requires |fs| == |hits| && AllOrdinary(fs, hits)
  {
    if fs == [] then []
    else
      var n := |fs| - 1;
      Shots(fs[..n], hits[..n]) + [ShotOf(fs[n], hits[n])]
  }

  lemma XorChanges(b: byte, v: byte)
    requires v != 0
    ensures b ^ v != b
  {
  }

  lemma ShotCovered(f: Packet, h: Hit)
    requires Ordinary(f, h)
    ensures Covered(ShotOf(f, h)) && ShotOf(f, h).f == f
  {
    hide Wire, Special;
    if h.Hit? {
      XorChanges(Wire(f)[h.at], h.value);
    }
  }

  lemma {:induction false} ShotsCovered(fs: seq<Packet>, hits: seq<Hit>)
    requires |fs| == |hits| && AllOrdinary(fs, hits)
    ensures |Shots(fs, hits)| == |fs|
    ensures forall i :: 0 <= i < |fs| ==> Covered(Shots(fs, hits)[i]) && Shots(fs, hits)[i].f == fs[i]
    ensures Survivors(Shots(fs, hits)) == Missed(fs, hits)
  {
    hide Wire, Covered, Ordinary;
    if fs != [] {
      var n := |fs| - 1;
      ShotsCovered(fs[..n], hits[..n]);
      ShotCovered(fs[n], hits[n]);
      assert Shots(fs, hits)[..n] == Shots(fs[..n], hits[..n]);
    }
  }

  // ---- The injector's output ----

  /** Every byte with the corruptions of its position. */
  function Masked(list: seq<L.Def>, input: seq<byte>): seq<byte> {
    seq(|input|, i requires 0 <= i < |input| => input[i] ^ L.Mask(list, i))
  }

  lemma MaskedIsOutput(list: seq<L.Def>, input: seq<byte>, draws: seq<L.Draw>)
    requires |draws| == |input| && L.AllQuiet(draws)
    ensures L.Output(L.Holes([], list, []), input, draws) == Masked(list, input)
  {
    var h := L.Holes([], list, []);
    if input != [] {
      L.CorruptionIsPointwise(h, input, draws, 0);
    }
    forall i | 0 <= i < |input|
      ensures L.Output(h, input, draws)[i] == Masked(list, input)[i]
    {
      L.CorruptionIsPointwise(h, input, draws, i);
    }
  }

  lemma MaskLast(list: seq<L.Def>, d: L.Def, at: nat)
    ensures d.position != at ==> L.Mask(list + [d], at) == L.Mask(list, at)
    ensures d.position == at && (forall i :: 0 <= i < |list| ==> list[i].position < at)
            ==> L.Mask(list + [d], at) == d.value
  {
    assert (list + [d])[..|list|] == list;
    L.FlipAssociates(L.Mask(list, at), 0, 0);
    if forall i :: 0 <= i < |list| ==> list[i].position < at {
      L.NothingElsewhere(list, at);
      FlipZero(d.value);
    }
  }

  lemma FlipZero(v: byte)
    ensures L.Flip(0, v) == v && v ^ 0 == v
  {
  }

  /** Positions all lie before the bytes added. */
  predicate Before(list: seq<L.Def>, bound: nat) { forall i :: 0 <= i < |list| ==> list[i].position < bound }

  lemma MaskedMiss(list: seq<L.Def>, input: seq<byte>, piece: seq<byte>)
    requires Before(list, |input|)
    ensures Masked(list, input + piece) == Masked(list, input) + piece
  {
    forall i | 0 <= i < |piece|
      ensures Masked(list, input + piece)[|input| + i] == piece[i]
    {
      L.NothingElsewhere(list, |input| + i);
      FlipZero(piece[i]);
    }
    hide L.Mask;
  }

  lemma MaskedHit(list: seq<L.Def>, input: seq<byte>, piece: seq<byte>, at: nat, v: byte)
    requires Before(list, |input|) && at < |piece|
    ensures Masked(list + [L.Def(|input| + at, v)], input + piece)
            == Masked(list, input) + piece[at := piece[at] ^ v]
  {
    var d := L.Def(|input| + at, v);
    forall i | 0 <= i < |input| + |piece|
      ensures Masked(list + [d], input + piece)[i] == (Masked(list, input) + piece[at := piece[at] ^ v])[i]
    {
      MaskLast(list, d, i);
      if i >= |input| && i != |input| + at {
        L.NothingElsewhere(list, i);
        FlipZero(piece[i - |input|]);
      }
      hide L.Mask;
    }
  }

  lemma DamagedHit(f: Packet, h: Hit)
    requires Ordinary(f, h)
    ensures Covered(ShotOf(f, h)) && ShotOf(f, h).fate != Lost && (ShotOf(f, h).fate == Intact <==> h.Miss?)
    ensures Damaged(ShotOf(f, h)) == if h.Hit? then Wire(f)[h.at := Wire(f)[h.at] ^ h.value] else Wire(f)
  {
    ShotCovered(f, h);
    hide Wire, Special, Covered;
  }

  lemma HitInside(wire: seq<byte>, at: nat, v: byte)
    requires at < |wire|
    ensures ([FLAG] + wire + [FLAG])[1 + at] == wire[at]
    ensures ([FLAG] + wire + [FLAG])[1 + at := wire[at] ^ v] == [FLAG] + (wire[at := wire[at] ^ v] + [FLAG])
  {
  }

  lemma PieceHit(f: Packet, h: Hit)
    requires h.Hit? && h.at < |Wire(f)|
    ensures var piece := Encode(f.control, f.payload);
            && 1 + h.at < |piece|
            && piece[1 + h.at := piece[1 + h.at] ^ h.value]
               == [FLAG] + (Wire(f)[h.at := Wire(f)[h.at] ^ h.value] + [FLAG])
  {
    hide *;
    EncodeParts(f);
    HitInside(Wire(f), h.at, h.value);
  }

  lemma NextFrame(fs: seq<Packet>, f: Packet)
    ensures EncodeAll(fs + [f]) == EncodeAll(fs) + Encode(f.control, f.payload)
  {
    assert (fs + [f])[..|fs|] == fs;
  }

  lemma {:induction false} CorruptionsSorted(fs: seq<Packet>, hits: seq<Hit>)
    requires |fs| == |hits| && AllOrdinary(fs, hits)
    ensures Before(Corruptions(fs, hits), |EncodeAll(fs)|) && L.SortedDefs(Corruptions(fs, hits))
  {
    hide Wire, Encode;
    if fs != [] {
      var n := |fs| - 1;
      EncodeParts(fs[n]);
      CorruptionsSorted(fs[..n], hits[..n]);
    }
  }

  predicate AllCovered(shots: seq<Shot>) { forall i :: 0 <= i < |shots| ==> Covered(shots[i]) }

  /** With these corruptions the injector puts out what the damaged frames look like. */
  lemma {:induction false} CorruptedLine(fs: seq<Packet>, hits: seq<Hit>)
    requires |fs| == |hits| && AllOrdinary(fs, hits)
    ensures AllCovered(Shots(fs, hits))
    ensures Masked(Corruptions(fs, hits), EncodeAll(fs)) == Arriving(Shots(fs, hits))
  {
    NothingCorrupted();
    hide Wire, Covered, Ordinary, Masked, Damaged, Encode, EncodeAll, Arriving, ShotOf, AllCovered, Before;
    if fs != [] {
      var n := |fs| - 1;
      assert fs == fs[..n] + [fs[n]];
      NextFrame(fs[..n], fs[n]);
      CorruptionsSorted(fs[..n], hits[..n]);
      CorruptedLine(fs[..n], hits[..n]);
      CorruptedFrame(fs[..n], hits[..n], fs[n], hits[n]);
      NextArrives(Shots(fs[..n], hits[..n]), ShotOf(fs[n], hits[n]));
    }
  }

  lemma NextArrives(shots: seq<Shot>, s: Shot)
    requires AllCovered(shots) && Covered(s) && !s.fate.Lost?
    ensures AllCovered(shots + [s])
    ensures Arriving(shots + [s]) == Arriving(shots) + ([FLAG] + (Damaged(s) + [FLAG]))
  {
    hide Covered, Damaged;
    assert (shots + [s])[..|shots|] == shots;
  }

  lemma NothingCorrupted()
    ensures Masked([], EncodeAll([])) == [] && AllCovered([]) && Arriving([]) == []
  {
  }

  lemma CorruptedFrame(fs: seq<Packet>, hits: seq<Hit>, f: Packet, h: Hit)
    requires |fs| == |hits| && AllOrdinary(fs, hits) && Ordinary(f, h)
    requires Before(Corruptions(fs, hits), |EncodeAll(fs)|)
    ensures var input, piece := EncodeAll(fs), Encode(f.control, f.payload);
            var list := Corruptions(fs, hits) + if h.Hit? then [L.Def(|input| + 1 + h.at, h.value)] else [];
            && Before(list, |input + piece|)
            && Covered(ShotOf(f, h)) && !ShotOf(f, h).fate.Lost?
            && Masked(list, input + piece)
               == Masked(Corruptions(fs, hits), input) + ([FLAG] + (Damaged(ShotOf(f, h)) + [FLAG]))
  {
    hide Wire, Covered, Masked, Encode, EncodeAll, Corruptions, Damaged, ShotOf, Special;
    DamagedHit(f, h);
    EncodeParts(f);
    var input, piece := EncodeAll(fs), Encode(f.control, f.payload);
    var list := Corruptions(fs, hits);
    if h.Hit? {
      PieceHit(f, h);
      MaskedHit(list, input, piece, 1 + h.at, h.value);
    } else {
      assert list + [] == list && [FLAG] + Wire(f) + [FLAG] == [FLAG] + (Wire(f) + [FLAG]);
      MaskedMiss(list, input, piece);
    }
  }

  /** From injector to station: whatever frames are sent, and however many of them the corruption list hits in one
      ordinary byte each, the receiver acts as if exactly the frames hit had been lost. The list is sorted, as the
      injector demands. */
  lemma HitFramesAreLost(
    box: Box, fs: seq<Packet>, hits: seq<Hit>, draws: seq<L.Draw>, chunks: seq<seq<byte>>)
    requires |fs| == |hits| && AllOrdinary(fs, hits)
    requires BetweenFrames(box.parser) && AllFit(fs, box.parser.maxLen)
    requires |draws| == |EncodeAll(fs)| && L.AllQuiet(draws)
    requires Flatten(chunks) == L.Output(L.Holes([], Corruptions(fs, hits), []), EncodeAll(fs), draws)
    ensures L.Sorted(L.Holes([], Corruptions(fs, hits), []))
    ensures FeedAll(box, chunks).st == RunFrames(box, Missed(fs, hits)).st
    ensures FeedAll(box, chunks).sent == RunFrames(box, Missed(fs, hits)).sent
  {
    hide BetweenFrames, Fits, EncodeAll, Flatten, Arriving, Survivors, FeedAll, RunFrames, Covered, Ordinary, Shots,
         Corruptions, Masked;
    MaskedIsOutput(Corruptions(fs, hits), EncodeAll(fs), draws);
    ShotsCovered(fs, hits);
    CorruptedLine(fs, hits);
    CorruptionsSorted(fs, hits);
    DamageLifts(box, Shots(fs, hits), chunks);
  }
}
