/** What the deframer means, byte by byte: a step function on the parser state, and the stream specification
    it refines. */
module Parser {
  import opened Fcs
  import opened Control
  import opened Framing

  /** yahdlc_state_t between calls, where the end index is always -1; `dest` is what was stored so far. */
  datatype Parser = Parser(
    escaped: bool, fcs: bv16, start: int, src: int, count: nat, dest: seq<byte>, control: byte, maxLen: nat)

  /** An accepted frame carries its decoded control field and everything stored: payload, then two FCS bytes. */
  datatype Event = Rejected | Accepted(control: Control, data: seq<byte>)

  function Reset(maxLen: nat): Parser {
    Parser(false, FCS_INIT, -1, 0, 0, [], 0, maxLen)
  }

  /** The test made at an end flag; the length it looks at counts bytes as they came over the wire. */
  function Judge(p: Parser): Event {
    if p.src < p.start + 4 || p.fcs != FCS_GOOD then Rejected else Accepted(DecodeControl(p.control), p.dest)
  }

  /** One byte, with an end flag at once taken as the start flag of the next frame. */
  function Step(p: Parser, b: byte): (Parser, seq<Event>) {
    if p.start < 0 then
      (if b == FLAG then p.(start := p.src, src := p.src + 1) else p.(src := p.src + 1), [])
    else if b == FLAG then
      if p.start + 1 == p.src then (p, [])
      else (Reset(p.maxLen).(start := 0, src := 1), [Judge(p)])
    else if b == ESCAPE then
      (p.(escaped := true, src := p.src + 1), [])
    else
      var value := if p.escaped then b ^ 0x20 else b;
      if p.count > 1 && |p.dest| + 1 >= p.maxLen then
        (Reset(p.maxLen).(src := 1), [Rejected])
      else
        (Parser(false, Fcs16(p.fcs, value), p.start, p.src + 1, p.count + 1,
                if p.count > 1 then p.dest + [value] else p.dest,
                if p.count == 1 then value else p.control, p.maxLen), [])
  }

  function After(p: Parser, s: seq<byte>): Parser {
    if s == [] then p else Step(After(p, s[..|s| - 1]), s[|s| - 1]).0
  }

  function Events(p: Parser, s: seq<byte>): seq<Event> {
    if s == [] then [] else Events(p, s[..|s| - 1]) + Step(After(p, s[..|s| - 1]), s[|s| - 1]).1
  }

  /** Feeding two pieces one after the other is feeding their concatenation. */
  lemma {:induction false} ParseAppend(p: Parser, s: seq<byte>, t: seq<byte>)
    ensures After(p, s + t) == After(After(p, s), t)
    ensures Events(p, s + t) == Events(p, s) + Events(After(p, s), t)
  {
    if t == [] {
      assert s + t == s;
    } else {
      assert (s + t)[..|s + t| - 1] == s + t[..|t| - 1];
      ParseAppend(p, s, t[..|t| - 1]);
    }
  }

  lemma ParseOne(p: Parser, b: byte)
    ensures After(p, [b]) == Step(p, b).0 && Events(p, [b]) == Step(p, b).1
  {
    assert [b][..0] == [];
  }

  // ---- The stream specification ----

  /** Cut the stream at every flag; the last piece is not yet terminated. */
  function Split(s: seq<byte>): (r: seq<seq<byte>>)
    ensures |r| >= 1
  {
    if s == [] then [[]]
    else
      var r, b := Split(s[..|s| - 1]), s[|s| - 1];
      if b == FLAG then r + [[]] else r[..|r| - 1] + [r[|r| - 1] + [b]]
  }

  function Join(pieces: seq<seq<byte>>): seq<byte>
    requires |pieces| >= 1
  {
    if |pieces| == 1 then pieces[0]
    else Join(pieces[..|pieces| - 1]) + [FLAG] + pieces[|pieces| - 1]
  }

  /** What is stored of the unescaped content, and how much may be. */
  function Stored(u: seq<byte>): seq<byte> { if |u| > 2 then u[2..] else [] }

  function ControlOf(u: seq<byte>): byte { if |u| > 1 then u[1] else 0 }

  function Capacity(maxLen: nat): nat { if maxLen == 0 then 0 else maxLen - 1 }

  predicate Oversize(seg: seq<byte>, maxLen: nat) { |Unescape(seg)| > 2 + Capacity(maxLen) }

  /** What a piece between two flags gives: nothing if empty, a rejection, or one frame. */
  function Verdict(seg: seq<byte>, maxLen: nat): seq<Event> {
    var u := Unescape(seg);
    if seg == [] then []
    else if Oversize(seg, maxLen) || |seg| < 3 || FcsOf(FCS_INIT, u) != FCS_GOOD then [Rejected]
    else [Accepted(DecodeControl(ControlOf(u)), Stored(u))]
  }

  /** An unterminated piece is reported only once it is too long. */
  function Pending(seg: seq<byte>, maxLen: nat): seq<Event> {
    if Oversize(seg, maxLen) then [Rejected] else []
  }

  function Verdicts(pieces: seq<seq<byte>>, maxLen: nat): seq<Event> {
    if pieces == [] then []
    else Verdicts(pieces[..|pieces| - 1], maxLen) + Verdict(pieces[|pieces| - 1], maxLen)
  }

  function StreamEvents(s: seq<byte>, maxLen: nat): seq<Event> {
    var r := Split(s);
    if |r| == 1 then [] else Verdicts(r[1..|r| - 1], maxLen) + Pending(r[|r| - 1], maxLen)
  }

  /** The pieces are the flag-free pieces of the stream, and there is no other way to cut it. */
  lemma {:induction false} SplitJoin(s: seq<byte>)
    ensures Join(Split(s)) == s
    ensures FlagFree(Split(s))
  {
    NothingSplit();
    hide Split, Join;
    if s != [] {
      var init, b := s[..|s| - 1], s[|s| - 1];
      assert s == init + [b];
      SplitJoin(init);
      SplitSnoc(init, b);
      var r := Split(init);
      if b == FLAG {
        JoinSnoc(r, []);
      } else {
        JoinGrow(r, b);
      }
    }
  }

  predicate FlagFree(pieces: seq<seq<byte>>) { forall i :: 0 <= i < |pieces| ==> FLAG !in pieces[i] }

  lemma NothingSplit()
    ensures Split([]) == [[]] && Join([[]]) == []
  {
  }

  lemma JoinSnoc(r: seq<seq<byte>>, seg: seq<byte>)
    requires |r| >= 1
    ensures Join(r + [seg]) == Join(r) + [FLAG] + seg
  {
    assert (r + [seg])[..|r|] == r;
  }

  lemma JoinGrow(r: seq<seq<byte>>, b: byte)
    requires |r| >= 1
    ensures Join(r[..|r| - 1] + [r[|r| - 1] + [b]]) == Join(r) + [b]
  {
    var front, last := r[..|r| - 1], r[|r| - 1];
    if |r| > 1 {
      JoinSnoc(front, last + [b]);
      assert Join(front) + [FLAG] + (last + [b]) == Join(front) + [FLAG] + last + [b];
    }
  }

  lemma {:induction false} JoinSplit(pieces: seq<seq<byte>>)
    requires |pieces| >= 1 && FlagFree(pieces)
    ensures Split(Join(pieces)) == pieces
  {
    var front, last := pieces[..|pieces| - 1], pieces[|pieces| - 1];
    if front == [] {
      OnePiece(last);
      assert pieces == [last];
    } else {
      JoinSplit(front);
      MorePieces(Join(front), last);
      assert pieces == front + [last];
    }
  }

  lemma OnePiece(seg: seq<byte>)
    requires FLAG !in seg
    ensures Split(seg) == [seg]
  {
    SplitExtend([], seg);
    assert [] + seg == seg;
  }

  lemma MorePieces(s: seq<byte>, seg: seq<byte>)
    requires FLAG !in seg
    ensures Split(s + [FLAG] + seg) == Split(s) + [seg]
  {
    SplitSnoc(s, FLAG);
    SplitExtend(s + [FLAG], seg);
    hide Split;
    assert (Split(s) + [[]])[..|Split(s)|] == Split(s);
    assert [] + seg == seg;
  }

  lemma {:induction false} SplitExtend(s: seq<byte>, seg: seq<byte>)
    requires FLAG !in seg
    ensures Split(s + seg) == Split(s)[..|Split(s)| - 1] + [Split(s)[|Split(s)| - 1] + seg]
  {
    hide Split;
    var front, last := Split(s)[..|Split(s)| - 1], Split(s)[|Split(s)| - 1];
    if seg == [] {
      assert s + seg == s && last + seg == last;
    } else {
      var init, b := seg[..|seg| - 1], seg[|seg| - 1];
      SplitExtend(s, init);
      SplitSnoc(s + init, b);
      assert s + init + [b] == s + seg && last + init + [b] == last + seg;
      assert (front + [last + init])[..|front|] == front;
    }
  }

  // ---- Refinement ----

  /** The state inside a frame whose wire bytes so far are `seg`. */
  function FrameState(start: int, seg: seq<byte>, maxLen: nat): Parser {
    var u := Unescape(seg);
    Parser(EndsEscaped(seg), FcsOf(FCS_INIT, u), start, start + 1 + |seg|, |u|, Stored(u), ControlOf(u), maxLen)
  }

  /** `p` has seen a flag and then `seg`; after an oversize piece it is hunting again. */
  predicate Holds(p: Parser, seg: seq<byte>) {
    if Oversize(seg, p.maxLen) then p.src >= 0 && p == Reset(p.maxLen).(src := p.src)
    else p.start >= 0 && p == FrameState(p.start, seg, p.maxLen)
  }

  lemma UnescapeSnoc(seg: seq<byte>, b: byte)
    ensures Unescape(seg + [b]) ==
            if b == ESCAPE then Unescape(seg) else Unescape(seg) + [if EndsEscaped(seg) then b ^ 0x20 else b]
    ensures EndsEscaped(seg + [b]) <==> b == ESCAPE
  {
    assert (seg + [b])[..|seg|] == seg;
  }

  /** The fields of the state that depend only on the unescaped content. */
  predicate Carries(p: Parser, u: seq<byte>) {
    p.count == |u| && p.dest == Stored(u) && p.control == ControlOf(u) && p.fcs == FcsOf(FCS_INIT, u)
  }

  lemma FcsSnoc(u: seq<byte>, v: byte)
    ensures FcsOf(FCS_INIT, u + [v]) == Fcs16(FcsOf(FCS_INIT, u), v)
  {
    assert (u + [v])[..|u|] == u;
  }

  lemma CarriesSnoc(p: Parser, u: seq<byte>, b: byte)
    requires p.start >= 0 && Carries(p, u) && !Special(b)
    ensures var (q, es) := Step(p, b);
            var v := if p.escaped then b ^ 0x20 else b;
            if |u| + 1 > 2 + Capacity(p.maxLen) then q == Reset(p.maxLen).(src := 1) && es == [Rejected]
            else
              && Carries(q, u + [v]) && !q.escaped && q.start == p.start && q.src == p.src + 1
              && q.maxLen == p.maxLen && es == []
  {
    var v := if p.escaped then b ^ 0x20 else b;
    FcsSnoc(u, v);
    if |u| >= 2 {
      assert (u + [v])[2..] == u[2..] + [v];
    }
  }

  lemma FrameStateSnoc(start: int, seg: seq<byte>, b: byte, maxLen: nat)
    requires !Special(b) && start >= 0
    requires !Oversize(seg, maxLen)
    ensures var (q, es) := Step(FrameState(start, seg, maxLen), b);
            if Oversize(seg + [b], maxLen) then q == Reset(maxLen).(src := 1) && es == [Rejected]
            else q == FrameState(start, seg + [b], maxLen) && es == []
  {
    UnescapeSnoc(seg, b);
    CarriesSnoc(FrameState(start, seg, maxLen), Unescape(seg), b);
  }

  lemma HoldsByte(p: Parser, seg: seq<byte>, b: byte)
    requires Holds(p, seg) && b != FLAG
    ensures Holds(Step(p, b).0, seg + [b])
    ensures Pending(seg, p.maxLen) + Step(p, b).1 == Pending(seg + [b], p.maxLen)
  {
    UnescapeSnoc(seg, b);
    if !Oversize(seg, p.maxLen) && b != ESCAPE {
      FrameStateSnoc(p.start, seg, b, p.maxLen);
    }
  }

  lemma HoldsFlag(p: Parser, seg: seq<byte>)
    requires Holds(p, seg)
    ensures Holds(Step(p, FLAG).0, [])
    ensures Pending(seg, p.maxLen) + Step(p, FLAG).1 == Verdict(seg, p.maxLen)
  {
    assert Unescape([]) == [] && FcsOf(FCS_INIT, []) == FCS_INIT;
    if !Oversize(seg, p.maxLen) && seg == [] {
      assert Step(p, FLAG).0 == p;
    }
  }

  lemma StepKeepsMax(p: Parser, b: byte)
    ensures Step(p, b).0.maxLen == p.maxLen
  {
  }

  lemma SplitSnoc(s: seq<byte>, b: byte)
    ensures var r := Split(s);
            Split(s + [b]) == if b == FLAG then r + [[]] else r[..|r| - 1] + [r[|r| - 1] + [b]]
  {
    assert (s + [b])[..|s|] == s;
  }

  lemma VerdictsSnoc(pieces: seq<seq<byte>>, seg: seq<byte>, maxLen: nat)
    ensures Verdicts(pieces + [seg], maxLen) == Verdicts(pieces, maxLen) + Verdict(seg, maxLen)
  {
    assert (pieces + [seg])[..|pieces|] == pieces;
  }

  /** How the specification grows with the stream. */
  lemma StreamEventsSnoc(s: seq<byte>, b: byte, maxLen: nat)
    requires |Split(s)| > 1
    ensures var seg := Split(s)[|Split(s)| - 1];
            var before := Verdicts(Split(s)[1..|Split(s)| - 1], maxLen);
            StreamEvents(s + [b], maxLen) ==
            before + if b == FLAG then Verdict(seg, maxLen) else Pending(seg + [b], maxLen)
  {
    SplitSnoc(s, b);
    var r, r' := Split(s), Split(s + [b]);
    if b == FLAG {
      assert r'[1..|r'| - 1] == r[1..|r| - 1] + [r[|r| - 1]];
      VerdictsSnoc(r[1..|r| - 1], r[|r| - 1], maxLen);
      assert Pending([], maxLen) == [];
    } else {
      assert r'[1..|r'| - 1] == r[1..|r| - 1];
    }
  }

  lemma ParseSnoc(p: Parser, s: seq<byte>, b: byte)
    ensures After(p, s + [b]) == Step(After(p, s), b).0
    ensures Events(p, s + [b]) == Events(p, s) + Step(After(p, s), b).1
  {
    assert (s + [b])[..|s|] == s;
  }

  /** What the parser has reached after a stream, told from the pieces of the stream. */
  predicate Reached(p: Parser, s: seq<byte>, maxLen: nat) {
    var r := Split(s);
    p.maxLen == maxLen && if |r| == 1 then p == Reset(maxLen).(src := |s|) else Holds(p, r[|r| - 1])
  }

  /** For every byte stream, the fold of the byte step gives exactly the frames and rejections of the specification. */
  lemma {:induction false} StreamRefinement(maxLen: nat, s: seq<byte>)
    ensures Events(Reset(maxLen), s) == StreamEvents(s, maxLen)
    ensures Reached(After(Reset(maxLen), s), s, maxLen)
  {
    if s != [] {
      var init, b := s[..|s| - 1], s[|s| - 1];
      assert s == init + [b];
      StreamRefinement(maxLen, init);
      RefinementStep(maxLen, init, b);
    }
  }

  lemma RefinementStep(maxLen: nat, s: seq<byte>, b: byte)
    requires Events(Reset(maxLen), s) == StreamEvents(s, maxLen)
    requires Reached(After(Reset(maxLen), s), s, maxLen)
    ensures Events(Reset(maxLen), s + [b]) == StreamEvents(s + [b], maxLen)
    ensures Reached(After(Reset(maxLen), s + [b]), s + [b], maxLen)
  {
    var p := After(Reset(maxLen), s);
    ParseSnoc(Reset(maxLen), s, b);
    StepKeepsMax(p, b);
    if |Split(s)| == 1 {
      HuntingStep(maxLen, p, s, b);
    } else {
      FrameStep(maxLen, p, s, b);
    }
  }

  lemma HuntingStep(maxLen: nat, p: Parser, s: seq<byte>, b: byte)
    requires |Split(s)| == 1 && p == Reset(maxLen).(src := |s|)
    ensures Step(p, b).1 == [] && StreamEvents(s + [b], maxLen) == []
    ensures Reached(Step(p, b).0, s + [b], maxLen)
  {
    SplitSnoc(s, b);
    if b == FLAG {
      assert Split(s + [b])[1..1] == [];
      assert Verdicts([], maxLen) == [] && Pending([], maxLen) == [];
    }
  }

  lemma FrameStep(maxLen: nat, p: Parser, s: seq<byte>, b: byte)
    requires |Split(s)| > 1 && p.maxLen == maxLen && Holds(p, Split(s)[|Split(s)| - 1])
    ensures StreamEvents(s, maxLen) + Step(p, b).1 == StreamEvents(s + [b], maxLen)
    ensures Step(p, b).0.maxLen == maxLen ==> Reached(Step(p, b).0, s + [b], maxLen)
  {
    hide Holds, Step, Pending, Verdict;
    var seg := Split(s)[|Split(s)| - 1];
    SplitSnoc(s, b);
    StreamEventsSnoc(s, b, maxLen);
    if b == FLAG {
      HoldsFlag(p, seg);
    } else {
      HoldsByte(p, seg, b);
    }
    Regroup(Verdicts(Split(s)[1..|Split(s)| - 1], maxLen), Pending(seg, maxLen), Step(p, b).1);
  }

  lemma Regroup<T>(a: seq<T>, b: seq<T>, c: seq<T>)
    ensures a + b + c == a + (b + c)
  {
  }
}
