/** The deframer of yahdlc.c, with its state in fields and its look-ahead over repeated flags, proved against
    the byte step. */
module Deframing {
  import opened Fcs
  import opened Control
  import opened Framing
  import opened Parser

  const ENOMSG := 42
  const EIO := 5

  /** Range of the unsigned length type. */
  const SIZE_RANGE := 0x1_0000_0000_0000_0000

  /** `dest_index - sizeof(fcs)` in unsigned arithmetic. */
  function LengthWithoutFcs(stored: nat): nat {
    if stored >= 2 then stored - 2 else SIZE_RANGE + stored - 2
  }

  /** Where the scan of `src` stands: `p` is the concrete state before byte `i`. While a flag is skipped because
      the next byte is a flag too, the byte step is one flag ahead of the concrete state. */
  ghost predicate At(p0: Parser, src: seq<byte>, i: nat, p: Parser, lag: bool)
    requires i <= |src|
  {
    if lag then
      && i < |src| && src[i] == FLAG
      && After(p0, src[..i]) == Step(p, FLAG).0 && Events(p0, src[..i]) == Step(p, FLAG).1
    else
      After(p0, src[..i]) == p && Events(p0, src[..i]) == []
  }

  /** `src` produced event `ev`; everything from position `i` on is still to be read, from a reset state. */
  ghost predicate Reports(p0: Parser, src: seq<byte>, i: nat, ev: Event) {
    && i < |src|
    && Events(p0, src) == [ev] + Events(Reset(p0.maxLen), src[i..])
    && After(p0, src) == After(Reset(p0.maxLen), src[i..])
  }

  lemma StepAt(p0: Parser, src: seq<byte>, i: nat)
    requires i < |src|
    ensures After(p0, src[..i + 1]) == Step(After(p0, src[..i]), src[i]).0
    ensures Events(p0, src[..i + 1]) == Events(p0, src[..i]) + Step(After(p0, src[..i]), src[i]).1
  {
    assert src[..i + 1] == src[..i] + [src[i]];
    ParseSnoc(p0, src[..i], src[i]);
  }

  lemma ResumeAt(p0: Parser, src: seq<byte>, i: nat, ev: Event)
    requires i < |src|
    requires Events(p0, src[..i + 1]) == [ev]
    requires Step(Reset(p0.maxLen), src[i]) == (After(p0, src[..i + 1]), [])
    ensures Reports(p0, src, i, ev)
  {
    hide After, Events, Step;
    var b, rest, r := src[i], src[i + 1..], Reset(p0.maxLen);
    assert src[..i + 1] + rest == src && [b] + rest == src[i..];
    ParseAppend(p0, src[..i + 1], rest);
    ParseAppend(r, [b], rest);
    ParseOne(r, b);
  }

  lemma EndFlag(p0: Parser, src: seq<byte>, i: nat, p: Parser, lag: bool)
    requires i < |src| && src[i] == FLAG && p0.maxLen == p.maxLen
    requires At(p0, src, i, p, lag) && p.start >= 0 && p.start + 1 != p.src
    ensures Reports(p0, src, i, Judge(p))
  {
    StepAt(p0, src, i);
    ResumeAt(p0, src, i, Judge(p));
  }

  lemma SkipFlag(p0: Parser, src: seq<byte>, i: nat, p: Parser, lag: bool)
    requires i + 1 < |src| && src[i] == FLAG && src[i + 1] == FLAG
    requires At(p0, src, i, p, lag) && p.src >= 0
    ensures At(p0, src, i + 1, p, true)
  {
    StepAt(p0, src, i);
  }

  /** A step without an event keeps the concrete state and the byte step together. */
  lemma QuietStep(p0: Parser, src: seq<byte>, i: nat, p: Parser, q: Parser, lag: bool)
    requires i < |src| && p.src >= 0 && Step(p, src[i]) == (q, [])
    requires At(p0, src, i, p, lag)
    ensures At(p0, src, i + 1, q, false)
  {
    StepAt(p0, src, i);
  }

  lemma OverflowStep(p0: Parser, src: seq<byte>, i: nat, p: Parser, lag: bool)
    requires i < |src| && src[i] != FLAG && p.maxLen == p0.maxLen
    requires Step(p, src[i]) == (Reset(p.maxLen).(src := 1), [Rejected])
    requires At(p0, src, i, p, lag)
    ensures Reports(p0, src, i, Rejected)
  {
    StepAt(p0, src, i);
    ResumeAt(p0, src, i, Rejected);
  }

  datatype Outcome = More | Ended | Overflow

  class Deframer {
    var controlEscape: bool
    var fcs: bv16
    var startIndex: int
    var endIndex: int
    var srcIndex: int
    var frameByteIndex: nat
    var destIndex: nat
    var frameControl: byte
    var maxFrameLen: nat

    /** Between calls no end flag is recorded, and what was stored fits the destination. */
    ghost predicate Valid(dest: array<byte>)
      reads this
    {
      endIndex == -1 && srcIndex >= 0 && destIndex <= Capacity(maxFrameLen) <= dest.Length
    }

    ghost function State(dest: array<byte>): Parser
      requires destIndex <= dest.Length
      reads this, dest
    {
      Parser(controlEscape, fcs, startIndex, srcIndex, frameByteIndex, dest[..destIndex], frameControl, maxFrameLen)
    }

    ghost predicate Fresh(maxLen: nat)
      reads this
    {
      && endIndex == -1 && destIndex == 0
      && Parser(controlEscape, fcs, startIndex, srcIndex, frameByteIndex, [], frameControl, maxFrameLen)
         == Reset(maxLen)
    }

    constructor (maxLen: nat)
      ensures Fresh(maxLen)
    {
      fcs := FCS_INIT;
      startIndex, endIndex, srcIndex, destIndex := -1, -1, 0, 0;
      controlEscape, frameByteIndex, frameControl := false, 0, 0;
      maxFrameLen := maxLen;
    }

    /** yahdlc_reset_state */
    method ResetState(maxLen: nat)
      modifies this
      ensures Fresh(maxLen)
    {
      fcs := FCS_INIT;
      startIndex, endIndex := -1, -1;
      srcIndex, destIndex := 0, 0;
      controlEscape := false;
      frameByteIndex := 0;
      frameControl := 0;
      maxFrameLen := maxLen;
    }

    /** One byte inside a frame that is not a flag. */
    method TakeByte(b: byte, dest: array<byte>) returns (overflow: bool)
      requires Valid(dest) && startIndex >= 0 && b != FLAG
      modifies this, dest
      ensures Valid(dest) && maxFrameLen == old(maxFrameLen)
      ensures !overflow ==> Step(old(State(dest)), b) == (State(dest), [])
      ensures overflow ==> State(dest) == Reset(maxFrameLen)
      ensures overflow ==> Step(old(State(dest)), b) == (Reset(maxFrameLen).(src := 1), [Rejected])
    {
      overflow := false;
      if b == ESCAPE {
        controlEscape := true;
      } else {
        var value := b;
        if controlEscape {
          controlEscape := false;
          value := b ^ 0x20;
        }
        fcs := Fcs16(fcs, value);
        if frameByteIndex == 1 {
          frameControl := value;
        } else if frameByteIndex > 1 {
          if destIndex + 1 >= maxFrameLen {
            ResetState(maxFrameLen);
            assert dest[..destIndex] == [];
            overflow := true;
            return;
          }
          dest[destIndex] := value;
          destIndex := destIndex + 1;
          assert dest[..destIndex] == old(dest[..destIndex]) + [value];
        }
        frameByteIndex := frameByteIndex + 1;
      }
      srcIndex := srcIndex + 1;
    }

    /** The body of the scanning loop for byte `i`. */
    method ScanByte(src: seq<byte>, i: nat, dest: array<byte>, ghost p0: Parser, ghost lag: bool)
      returns (outcome: Outcome, ghost lag': bool)
      requires i < |src| && Valid(dest) && p0.maxLen == maxFrameLen
      requires At(p0, src, i, State(dest), lag)
      modifies this, dest
      ensures maxFrameLen == old(maxFrameLen)
      ensures outcome.More? ==> Valid(dest) && At(p0, src, i + 1, State(dest), lag')
      ensures outcome.Ended? ==>
                && 0 <= startIndex && endIndex == srcIndex >= 0 && destIndex <= Capacity(maxFrameLen)
                && Reports(p0, src, i, Judge(State(dest)))
      ensures outcome.Overflow? ==> Fresh(maxFrameLen) && Reports(p0, src, i, Rejected)
      ensures !outcome.More? ==> old(startIndex) >= 0
    {
      ghost var p := State(dest);
      outcome, lag' := More, false;
      var flagNext := i < |src| - 1 && src[i + 1] == FLAG;
      if startIndex < 0 {
        if src[i] == FLAG {
          if flagNext {
            SkipFlag(p0, src, i, p, lag);
            lag' := true;
            return;
          }
          startIndex := srcIndex;
        }
        srcIndex := srcIndex + 1;
        QuietStep(p0, src, i, p, State(dest), lag);
      } else if src[i] == FLAG {
        if flagNext {
          SkipFlag(p0, src, i, p, lag);
          lag' := true;
        } else if startIndex + 1 == srcIndex {
          QuietStep(p0, src, i, p, p, lag);
        } else {
          EndFlag(p0, src, i, p, lag);
          endIndex := srcIndex;
          outcome := Ended;
        }
      } else {
        var overflow := TakeByte(src[i], dest);
        if overflow {
          OverflowStep(p0, src, i, p, lag);
          outcome := Overflow;
        } else {
          QuietStep(p0, src, i, p, State(dest), lag);
        }
      }
    }

    /** The scanning loop of yahdlc_get_data: stop at the end flag of a frame, at an overflow, or at the end. */
    method Scan(src: seq<byte>, dest: array<byte>) returns (i: nat, outcome: Outcome)
      requires Valid(dest)
      modifies this, dest
      ensures maxFrameLen == old(maxFrameLen)
      ensures outcome.More? ==>
                && Valid(dest)
                && State(dest) == After(old(State(dest)), src) && Events(old(State(dest)), src) == []
      ensures outcome.Ended? ==>
                && 0 <= startIndex && endIndex == srcIndex >= 0 && destIndex <= Capacity(maxFrameLen)
                && Reports(old(State(dest)), src, i, Judge(State(dest)))
      ensures outcome.Overflow? ==> Fresh(maxFrameLen) && Reports(old(State(dest)), src, i, Rejected)
      ensures !outcome.More? ==> i > 0 || old(startIndex) >= 0
    {
      ghost var p0, lag := State(dest), false;
      outcome := More;
      i := 0;
      assert src[..0] == [];
      while i < |src|
        invariant 0 <= i <= |src| && outcome.More?
        invariant Valid(dest) && maxFrameLen == p0.maxLen
        invariant At(p0, src, i, State(dest), lag)
        invariant i == 0 ==> startIndex == p0.start
      {
        outcome, lag := ScanByte(src, i, dest, p0, lag);
        if !outcome.More? {
          return;
        }
        i := i + 1;
      }
      assert src[..|src|] == src;
    }

    /** yahdlc_get_data */
    method GetData(src: seq<byte>, dest: array<byte>)
      returns (ret: int, control: Control, destLen: nat, ghost data: seq<byte>)
      requires Valid(dest)
      modifies this, dest
      ensures Valid(dest) && maxFrameLen == old(maxFrameLen)
      ensures ret == -ENOMSG || ret == -EIO || ret >= 0
      // no message: the whole buffer was read without completing or rejecting a frame
      ensures ret == -ENOMSG ==> destLen == 0
      ensures ret == -ENOMSG ==> Events(old(State(dest)), src) == [] && State(dest) == After(old(State(dest)), src)
      // rejection: `destLen` bytes are used up and the state is reset
      ensures ret == -EIO ==> Reports(old(State(dest)), src, destLen, Rejected) && Fresh(maxFrameLen)
      ensures ret == -EIO && destLen == 0 ==> old(startIndex) >= 0
      // a frame: `ret` bytes are used up, `dest` holds what was stored, `destLen` leaves out the FCS
      ensures ret >= 0 ==> Reports(old(State(dest)), src, ret, Accepted(control, data)) && Fresh(maxFrameLen)
      ensures ret >= 0 ==> |data| <= Capacity(maxFrameLen) && dest[..|data|] == data
      ensures ret >= 0 ==> destLen == LengthWithoutFcs(|data|)
      ensures ret == 0 ==> old(startIndex) >= 0
    {
      var i, outcome := Scan(src, dest);
      data := [];
      control := Control(DATA, 0, 0);
      if outcome.Overflow? {
        destLen := i;
        ret := -EIO;
      } else if startIndex < 0 || endIndex < 0 {
        destLen := 0;
        ret := -ENOMSG;
      } else {
        if endIndex < startIndex + 4 || fcs != FCS_GOOD {
          destLen := i;
          ret := -EIO;
        } else {
          control := DecodeControl(frameControl);
          data := dest[..destIndex];
          destLen := LengthWithoutFcs(destIndex);
          ret := i;
        }
        ResetState(maxFrameLen);
      }
    }
  }
}
