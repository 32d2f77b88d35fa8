/** The fault injector of leaky-pipe.c: cursors over sorted fault lists, against a specification by position. */
module LeakyPipe {
  import opened Fcs

  /** lp_corrupt_def_t */
  datatype Def = Def(position: nat, value: byte)

  /** The deterministic part of lp_args_t. */
  datatype Holes = Holes(dropList: seq<nat>, corruptList: seq<Def>, addList: seq<Def>)

  /** What the random draws decide for one byte: a bit to flip, a drop, and bytes of noise. */
  datatype Draw = Draw(flip: byte, drop: bool, noise: seq<byte>)

  const QUIET := Draw(0, false, [])

  predicate SortedDefs(list: seq<Def>) { forall i, j :: 0 <= i < j < |list| ==> list[i].position <= list[j].position }

  predicate SortedPositions(list: seq<nat>) { forall i, j :: 0 <= i < j < |list| ==> list[i] <= list[j] }

  predicate Sorted(h: Holes) { SortedPositions(h.dropList) && SortedDefs(h.corruptList) && SortedDefs(h.addList) }

  // ---- By position ----

  /** XOR, named so that proofs about lists need not look inside it. */
  function Flip(b: byte, mask: byte): byte { b ^ mask }

  /** Every value the list has for the position, XORed together. */
  function Mask(list: seq<Def>, at: nat): byte {
    if list == [] then 0
    else
      var last := list[|list| - 1];
      Flip(Mask(list[..|list| - 1], at), if last.position == at then last.value else 0)
  }

  /** Every value the list has for the position, in order. */
  function Additions(list: seq<Def>, at: nat): seq<byte> {
    if list == [] then []
    else
      var last := list[|list| - 1];
      Additions(list[..|list| - 1], at) + if last.position == at then [last.value] else []
  }

  /** What byte number `at` becomes. */
  function Through(h: Holes, at: nat, b: byte, d: Draw): seq<byte> {
    (if at in h.dropList || d.drop then [] else [Flip(Flip(b, Mask(h.corruptList, at)), d.flip)])
    + Additions(h.addList, at + 1) + d.noise
  }

  /** The pipe's output: additions at 0, then for every byte what becomes of it. */
  function Output(h: Holes, input: seq<byte>, draws: seq<Draw>): seq<byte>
    requires |input| == |draws|
  {
    if input == [] then Additions(h.addList, 0)
    else
      var n := |input| - 1;
      Output(h, input[..n], draws[..n]) + Through(h, n, input[n], draws[n])
  }

  // ---- Stretches of a sorted list ----

  lemma FlipAssociates(a: byte, b: byte, c: byte)
    ensures Flip(Flip(a, b), c) == Flip(a, Flip(b, c))
    ensures Flip(a, 0) == a
  {
  }

  lemma MaskSnoc(list: seq<Def>, d: Def)
    ensures Mask(list + [d], d.position) == Flip(Mask(list, d.position), d.value)
    ensures Additions(list + [d], d.position) == Additions(list, d.position) + [d.value]
  {
    assert (list + [d])[..|list|] == list;
  }

  lemma {:induction false} MaskSplit(s: seq<Def>, t: seq<Def>, at: nat)
    ensures Mask(s + t, at) == Flip(Mask(s, at), Mask(t, at))
  {
    if t == [] {
      assert s + t == s;
    } else {
      var init, last := t[..|t| - 1], t[|t| - 1];
      assert (s + t)[..|s + t| - 1] == s + init;
      MaskSplit(s, init, at);
      FlipAssociates(Mask(s, at), Mask(init, at), if last.position == at then last.value else 0);
    }
  }

  lemma {:induction false} AdditionsSplit(s: seq<Def>, t: seq<Def>, at: nat)
    ensures Additions(s + t, at) == Additions(s, at) + Additions(t, at)
  {
    if t == [] {
      assert s + t == s;
    } else {
      assert (s + t)[..|s + t| - 1] == s + t[..|t| - 1];
      AdditionsSplit(s, t[..|t| - 1], at);
    }
  }

  lemma {:induction false} NothingElsewhere(list: seq<Def>, at: nat)
    requires forall i :: 0 <= i < |list| ==> list[i].position != at
    ensures Mask(list, at) == 0 && Additions(list, at) == []
  {
    if list != [] {
      NothingElsewhere(list[..|list| - 1], at);
    }
  }

  /** Only the stretch of the list at that position matters. */
  lemma Stretch(list: seq<Def>, from: nat, to: nat, at: nat)
    requires from <= to <= |list|
    requires forall i :: 0 <= i < from || to <= i < |list| ==> list[i].position != at
    ensures Mask(list, at) == Mask(list[from..to], at) && Additions(list, at) == Additions(list[from..to], at)
  {
    assert list == list[..from] + list[from..to] + list[to..];
    MaskSplit(list[..from] + list[from..to], list[to..], at);
    MaskSplit(list[..from], list[from..to], at);
    AdditionsSplit(list[..from] + list[from..to], list[to..], at);
    AdditionsSplit(list[..from], list[from..to], at);
    NothingElsewhere(list[..from], at);
    NothingElsewhere(list[to..], at);
  }

  lemma EmptyStretch(at: nat)
    ensures Mask([], at) == 0 && Additions([], at) == []
  {
  }

  lemma OutputSnoc(h: Holes, input: seq<byte>, draws: seq<Draw>, b: byte, d: Draw)
    requires |input| == |draws|
    ensures Output(h, input + [b], draws + [d]) == Output(h, input, draws) + Through(h, |input|, b, d)
  {
    assert (input + [b])[..|input|] == input && (draws + [d])[..|input|] == draws;
  }

  class LeakyPipe {
    const holes: Holes
    var byteCounter: nat
    var dropCursor: nat
    var corruptCursor: nat
    var addCursor: nat
    var open: bool
    /** Everything pushed into the pipe. */
    var pushed: seq<byte>
    ghost var input: seq<byte>
    ghost var draws: seq<Draw>

    ghost predicate Cursors()
      reads this
    {
      && dropCursor <= |holes.dropList| && corruptCursor <= |holes.corruptList| && addCursor <= |holes.addList|
      && (forall i :: 0 <= i < |holes.dropList| ==> (i < dropCursor <==> holes.dropList[i] < byteCounter))
      && (forall i :: 0 <= i < |holes.corruptList| ==>
            (i < corruptCursor <==> holes.corruptList[i].position < byteCounter))
      && (forall i :: 0 <= i < |holes.addList| ==> (i < addCursor <==> holes.addList[i].position <= byteCounter))
    }

    /** The cursors stand where the byte counter says, and the output so far is the specified one. */
    ghost predicate Valid()
      reads this
    {
      && Sorted(holes) && Cursors()
      && |input| == |draws| == byteCounter
      && pushed == Output(holes, input, draws)
    }

    /** The loop that pushes additions; `from` is where the cursor stood. */
    method PushAdditions()
      requires Sorted(holes) && addCursor <= |holes.addList|
      requires forall i :: 0 <= i < |holes.addList| ==> (i < addCursor ==> holes.addList[i].position < byteCounter)
      requires forall i :: addCursor <= i < |holes.addList| ==> holes.addList[i].position >= byteCounter
      modifies this`addCursor, this`pushed
      ensures addCursor <= |holes.addList|
      ensures forall i :: 0 <= i < |holes.addList| ==> (i < addCursor <==> holes.addList[i].position <= byteCounter)
      ensures pushed == old(pushed) + Additions(holes.addList, byteCounter)
    {
      EmptyStretch(byteCounter);
      hide Mask, Additions;
      var list := holes.addList;
      ghost var from := addCursor;
      assert list[from..from] == [];
      while addCursor < |list| && list[addCursor].position == byteCounter
        invariant from <= addCursor <= |list|
        invariant forall i :: from <= i < addCursor ==> list[i].position == byteCounter
        invariant pushed == old(pushed) + Additions(list[from..addCursor], byteCounter)
      {
        assert list[from..addCursor + 1] == list[from..addCursor] + [list[addCursor]];
        MaskSnoc(list[from..addCursor], list[addCursor]);
        pushed := pushed + [list[addCursor].value];
        addCursor := addCursor + 1;
      }
      Stretch(list, from, addCursor, byteCounter);
    }

    /** The loop that XORs every corruption listed for byte number `at`. */
    method Corrupt(b: byte, at: nat) returns (r: byte)
      requires SortedDefs(holes.corruptList) && corruptCursor <= |holes.corruptList|
      requires forall i :: 0 <= i < |holes.corruptList| ==> (i < corruptCursor <==> holes.corruptList[i].position < at)
      modifies this`corruptCursor
      ensures corruptCursor <= |holes.corruptList|
      ensures forall i :: 0 <= i < |holes.corruptList| ==>
                (i < corruptCursor <==> holes.corruptList[i].position < at + 1)
      ensures r == Flip(b, Mask(holes.corruptList, at))
    {
      EmptyStretch(at);
      FlipAssociates(b, 0, 0);
      hide Mask, Additions, Flip;
      var list := holes.corruptList;
      ghost var from := corruptCursor;
      assert list[from..from] == [];
      r := b;
      while corruptCursor < |list| && list[corruptCursor].position == at
        invariant from <= corruptCursor <= |list|
        invariant forall i :: from <= i < corruptCursor ==> list[i].position == at
        invariant r == Flip(b, Mask(list[from..corruptCursor], at))
      {
        assert list[from..corruptCursor + 1] == list[from..corruptCursor] + [list[corruptCursor]];
        MaskSnoc(list[from..corruptCursor], list[corruptCursor]);
        FlipAssociates(b, Mask(list[from..corruptCursor], at), list[corruptCursor].value);
        r := Flip(r, list[corruptCursor].value);
        corruptCursor := corruptCursor + 1;
      }
      Stretch(list, from, corruptCursor, at);
    }

    /** The loop over the drop list: is byte number `at` on it? */
    method Drop(at: nat) returns (drop: bool)
      requires SortedPositions(holes.dropList) && dropCursor <= |holes.dropList|
      requires forall i :: 0 <= i < |holes.dropList| ==> (i < dropCursor <==> holes.dropList[i] < at)
      modifies this`dropCursor
      ensures dropCursor <= |holes.dropList|
      ensures forall i :: 0 <= i < |holes.dropList| ==> (i < dropCursor <==> holes.dropList[i] < at + 1)
      ensures drop <==> at in holes.dropList
    {
      drop := false;
      ghost var from := dropCursor;
      while dropCursor < |holes.dropList| && holes.dropList[dropCursor] == at
        invariant from <= dropCursor <= |holes.dropList|
        invariant forall i :: from <= i < dropCursor ==> holes.dropList[i] == at
        invariant drop <==> from < dropCursor
      {
        drop := true;
        dropCursor := dropCursor + 1;
      }
      assert drop ==> holes.dropList[from] == at;
    }

    /** lp_init */
    constructor (args: Holes)
      requires Sorted(args)
      ensures Valid() && holes == args && open && input == [] && draws == []
    {
      holes := args;
      byteCounter, dropCursor, corruptCursor, addCursor := 0, 0, 0, 0;
      open := true;
      pushed, input, draws := [], [], [];
      new;
      PushAdditions();
    }

    /** The body of lp_transmit on an open pipe. */
    method Pass(b: byte, d: Draw)
      requires Sorted(holes) && Cursors()
      modifies this`byteCounter, this`corruptCursor, this`dropCursor, this`addCursor, this`pushed
      ensures Cursors() && byteCounter == old(byteCounter) + 1
      ensures pushed == old(pushed) + Through(holes, old(byteCounter), b, d)
    {
      hide Mask, Additions, Flip;
      byteCounter := byteCounter + 1;
      var r := Corrupt(b, byteCounter - 1);
      var drop := Drop(byteCounter - 1);
      r := Flip(r, d.flip);
      drop := drop || d.drop;
      if !drop {
        pushed := pushed + [r];
      }
      PushAdditions();
      pushed := pushed + d.noise;
    }

    /** lp_transmit; a pipe that was cut off ignores the byte. */
    method Transmit(b: byte, d: Draw)
      requires Valid()
      modifies this
      ensures Valid() && open == old(open)
      ensures open ==> input == old(input) + [b] && draws == old(draws) + [d]
      ensures !open ==> pushed == old(pushed) && input == old(input) && draws == old(draws)
    {
      hide Output, Through;
      if open {
        OutputSnoc(holes, input, draws, b, d);
        Pass(b, d);
        input, draws := input + [b], draws + [d];
      }
    }

    /** lp_cutoff */
    method Cutoff()
      requires Valid()
      modifies this`open
      ensures Valid() && !open
    {
      open := false;
    }
  }

  // ---- What the specification means ----

  predicate AllQuiet(draws: seq<Draw>) { forall i :: 0 <= i < |draws| ==> draws[i] == QUIET }

  /** Without drops, additions and random draws the output has the input's length, and each byte is the input byte
      with the corruptions of its own position and no other. */
  lemma {:induction false} CorruptionIsPointwise(h: Holes, input: seq<byte>, draws: seq<Draw>, i: nat)
    requires |input| == |draws| && AllQuiet(draws) && h.dropList == [] && h.addList == []
    requires i < |input|
    ensures |Output(h, input, draws)| == |input|
    ensures Output(h, input, draws)[i] == input[i] ^ Mask(h.corruptList, i)
  {
    var n := |input| - 1;
    if n > 0 {
      CorruptionIsPointwise(h, input[..n], draws[..n], if i < n then i else 0);
    }
  }

  lemma NoFault(at: nat, b: byte)
    ensures Through(Holes([], [], []), at, b, QUIET) == [b] && Additions([], 0) == []
  {
    FlipAssociates(b, 0, 0);
    EmptyStretch(at);
    hide Flip;
  }

  /** A pipe without faults is the identity. */
  lemma {:induction false} FlawlessPipe(input: seq<byte>, draws: seq<Draw>)
    requires |input| == |draws| && AllQuiet(draws)
    ensures Output(Holes([], [], []), input, draws) == input
  {
    NoFault(0, 0);
    hide Through, Additions;
    if input != [] {
      var n := |input| - 1;
      assert draws[n] == QUIET && AllQuiet(draws[..n]);
      assert input == input[..n] + [input[n]];
      hide AllQuiet;
      NoFault(n, input[n]);
      FlawlessPipe(input[..n], draws[..n]);
    }
  }

  lemma OneMoreDef(list: seq<Def>, d: Def, at: nat)
    ensures Mask(list + [d], at) == Flip(Mask(list, at), if d.position == at then d.value else 0)
    ensures Additions(list + [d], at) == Additions(list, at) + if d.position == at then [d.value] else []
  {
    assert (list + [d])[..|list|] == list;
  }

  const EXAMPLE_CORRUPTIONS: seq<Def> := [Def(0, 20)] + [Def(3, 20)]
  const EXAMPLE_ADDITIONS: seq<Def> := [Def(0, 0xF0)] + [Def(0, 0x0D)] + [Def(4, 0xFF)]
  const EXAMPLE := Holes([2, 3], EXAMPLE_CORRUPTIONS, EXAMPLE_ADDITIONS)

  lemma ExampleCorruptions(at: nat)
    ensures Mask(EXAMPLE_CORRUPTIONS, at) == if at == 0 || at == 3 then 20 else 0
  {
    EmptyStretch(at);
    assert [] + [Def(0, 20)] == [Def(0, 20)];
    OneMoreDef([], Def(0, 20), at);
    OneMoreDef([Def(0, 20)], Def(3, 20), at);
    hide Mask;
    FlipAssociates(20, 0, 0);
    assert Flip(0, 0) == 0 && Flip(0, 20) == 20;
  }

  lemma ExampleAdditions(at: nat)
    ensures Additions(EXAMPLE_ADDITIONS, at) == if at == 0 then [0xF0, 0x0D] else if at == 4 then [0xFF] else []
  {
    EmptyStretch(at);
    assert [] + [Def(0, 0xF0)] == [Def(0, 0xF0)];
    OneMoreDef([], Def(0, 0xF0), at);
    OneMoreDef([Def(0, 0xF0)], Def(0, 0x0D), at);
    OneMoreDef([Def(0, 0xF0)] + [Def(0, 0x0D)], Def(4, 0xFF), at);
    hide Additions, Mask, Flip;
  }

  lemma ExampleKept(at: nat, b: byte)
    ensures Flip(Flip(b, Mask(EXAMPLE_CORRUPTIONS, at)), 0) == if at == 0 || at == 3 then Flip(b, 20) else b
  {
    hide Mask;
    ExampleCorruptions(at);
    FlipAssociates(b, 0, 0);
    FlipAssociates(Flip(b, 20), 0, 0);
    hide Flip;
  }

  lemma ExampleByte(input: seq<byte>, draws: seq<Draw>, b: byte)
    requires |input| == |draws|
    ensures Output(EXAMPLE, input + [b], draws + [QUIET]) == Output(EXAMPLE, input, draws)
            + (if |input| == 2 || |input| == 3 then [] else [if |input| == 0 then Flip(b, 20) else b])
            + (if |input| == 3 then [0xFF] else [])
  {
    hide Output, Mask, Additions, Flip;
    OutputSnoc(EXAMPLE, input, draws, b, QUIET);
    ExampleKept(|input|, b);
    ExampleAdditions(|input| + 1);
  }

  lemma ExampleStart()
    ensures Output(EXAMPLE, [], []) == [0xF0, 0x0D]
  {
    ExampleAdditions(0);
    hide Additions, Mask;
  }

  lemma ExampleFront()
    ensures Output(EXAMPLE, [0x10] + [0x15] + [0x20], [QUIET] + [QUIET] + [QUIET]) == [0xF0, 0x0D, 0x04, 0x15]
  {
    hide Output;
    ExampleStart();
    var first: seq<byte> := [0x10];
    assert [] + first == first && [] + [QUIET] == [QUIET];
    ExampleByte([], [], 0x10);
    assert Flip(0x10, 20) == 0x04;
    assert Output(EXAMPLE, [0x10], [QUIET]) == [0xF0, 0x0D, 0x04];
    ExampleByte([0x10], [QUIET], 0x15);
    assert Output(EXAMPLE, [0x10] + [0x15], [QUIET] + [QUIET]) == [0xF0, 0x0D, 0x04, 0x15];
    ExampleByte([0x10] + [0x15], [QUIET] + [QUIET], 0x20);
  }

  /** The example of the injector's documentation. */
  lemma DocumentedExample()
    ensures Output(EXAMPLE, [0x10] + [0x15] + [0x20] + [0x25] + [0x30], [QUIET] + [QUIET] + [QUIET] + [QUIET] + [QUIET])
            == [0xF0, 0x0D, 0x04, 0x15, 0xFF, 0x30]
  {
    hide Output;
    ExampleFront();
    ExampleByte([0x10] + [0x15] + [0x20], [QUIET] + [QUIET] + [QUIET], 0x25);
    ExampleByte([0x10] + [0x15] + [0x20] + [0x25], [QUIET] + [QUIET] + [QUIET] + [QUIET], 0x30);
  }

  // ---- Whose byte is it ----

  /** A byte of the output: what became of the transmitted byte at a position, or one that was added. */
  datatype Out = Own(position: nat, value: byte) | Extra(value: byte)

  function Marked(bytes: seq<byte>): seq<Out> {
    if bytes == [] then [] else Marked(bytes[..|bytes| - 1]) + [Extra(bytes[|bytes| - 1])]
  }

  /** The output with every byte's origin. */
  function Traced(h: Holes, input: seq<byte>, draws: seq<Draw>): seq<Out>
    requires |input| == |draws|
  {
    if input == [] then Marked(Additions(h.addList, 0))
    else
      var n := |input| - 1;
      Traced(h, input[..n], draws[..n]) + (Kept(h.dropList, h.corruptList, n, input[n], draws[n])
      + Marked(Additions(h.addList, n + 1) + draws[n].noise))
  }

  /** What is left of byte number `at`; the additions have no say in it. */
  function Kept(drops: seq<nat>, corruptions: seq<Def>, at: nat, b: byte, d: Draw): seq<Out> {
    if at in drops || d.drop then [] else [Own(at, Flip(Flip(b, Mask(corruptions, at)), d.flip))]
  }

  function AllKept(drops: seq<nat>, corruptions: seq<Def>, input: seq<byte>, draws: seq<Draw>): seq<Out>
    requires |input| == |draws|
  {
    if input == [] then []
    else
      var n := |input| - 1;
      AllKept(drops, corruptions, input[..n], draws[..n]) + Kept(drops, corruptions, n, input[n], draws[n])
  }

  /** What is added; drops and corruptions have no say in it. */
  function AllAdded(adds: seq<Def>, draws: seq<Draw>): seq<byte> {
    if draws == [] then Additions(adds, 0)
    else
      var n := |draws| - 1;
      AllAdded(adds, draws[..n]) + (Additions(adds, n + 1) + draws[n].noise)
  }

  function Values(outs: seq<Out>): seq<byte> {
    if outs == [] then [] else Values(outs[..|outs| - 1]) + [outs[|outs| - 1].value]
  }

  function Owns(outs: seq<Out>): seq<Out> {
    if outs == [] then []
    else Owns(outs[..|outs| - 1]) + if outs[|outs| - 1].Own? then [outs[|outs| - 1]] else []
  }

  function Extras(outs: seq<Out>): seq<byte> {
    if outs == [] then []
    else Extras(outs[..|outs| - 1]) + if outs[|outs| - 1].Extra? then [outs[|outs| - 1].value] else []
  }

  lemma {:induction false} PartsAppend(s: seq<Out>, t: seq<Out>)
    ensures Values(s + t) == Values(s) + Values(t)
    ensures Owns(s + t) == Owns(s) + Owns(t) && Extras(s + t) == Extras(s) + Extras(t)
  {
    if t == [] {
      assert s + t == s;
    } else {
      assert (s + t)[..|s + t| - 1] == s + t[..|t| - 1];
      PartsAppend(s, t[..|t| - 1]);
    }
  }

  lemma NoParts()
    ensures Values([]) == [] && Owns([]) == [] && Extras([]) == []
  {
  }

  lemma OnePart(o: Out)
    ensures Values([o]) == [o.value]
    ensures Owns([o]) == (if o.Own? then [o] else []) && Extras([o]) == if o.Extra? then [o.value] else []
  {
    assert [o][..0] == [];
  }

  lemma {:induction false} MarkedParts(bytes: seq<byte>)
    ensures Values(Marked(bytes)) == bytes && Owns(Marked(bytes)) == [] && Extras(Marked(bytes)) == bytes
  {
    NoParts();
    hide Values, Owns, Extras;
    if bytes != [] {
      var n := |bytes| - 1;
      MarkedParts(bytes[..n]);
      OnePart(Extra(bytes[n]));
      PartsAppend(Marked(bytes[..n]), [Extra(bytes[n])]);
    }
  }

  lemma KeptParts(drops: seq<nat>, corruptions: seq<Def>, at: nat, b: byte, d: Draw)
    ensures var k := Kept(drops, corruptions, at, b, d);
            && Values(k) == (if at in drops || d.drop then [] else [Flip(Flip(b, Mask(corruptions, at)), d.flip)])
            && Owns(k) == k && Extras(k) == []
  {
    hide Flip, Mask;
    var k := Kept(drops, corruptions, at, b, d);
    assert k != [] ==> k[..0] == [];
  }

  /** Faults follow the input: the output consists of what is left of the transmitted bytes, which the additions do not
      change, and of the additions, which drops and corruptions do not change. In particular the additions move no
      position of the drop list and the corruption list, and drops move none of the other two. */
  lemma {:induction false} FaultsFollowTheInput(h: Holes, input: seq<byte>, draws: seq<Draw>)
    requires |input| == |draws|
    ensures Values(Traced(h, input, draws)) == Output(h, input, draws)
    ensures Owns(Traced(h, input, draws)) == AllKept(h.dropList, h.corruptList, input, draws)
    ensures Extras(Traced(h, input, draws)) == AllAdded(h.addList, draws)
  {
    hide Kept, Flip, Mask, Additions, Marked, Values, Owns, Extras;
    if input == [] {
      MarkedParts(Additions(h.addList, 0));
      NoParts();
    } else {
      var n := |input| - 1;
      var kept := Kept(h.dropList, h.corruptList, n, input[n], draws[n]);
      var added := Additions(h.addList, n + 1) + draws[n].noise;
      FaultsFollowTheInput(h, input[..n], draws[..n]);
      KeptParts(h.dropList, h.corruptList, n, input[n], draws[n]);
      MarkedParts(added);
      PartsAppend(kept, Marked(added));
      PartsAppend(Traced(h, input[..n], draws[..n]), kept + Marked(added));
    }
  }
}
