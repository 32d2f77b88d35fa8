/** Frame construction: control-octet transparency, the byte layout of a frame, and the framer that writes it. */
module Framing {
  import opened Fcs
  import opened Control

  const FLAG: byte := 0x7E
  const ESCAPE: byte := 0x7D
  const ALL_STATION_ADDR: byte := 0xFF

  predicate Special(b: byte) { b == FLAG || b == ESCAPE }

  function EscapeByte(b: byte): seq<byte> {
    if Special(b) then [ESCAPE, b ^ 0x20] else [b]
  }

  function Escape(data: seq<byte>): seq<byte> {
    if data == [] then [] else Escape(data[..|data| - 1]) + EscapeByte(data[|data| - 1])
  }

  /** Reading back: an escape byte is discarded and complements the sixth bit of the byte after it. */
  function Unescape(wire: seq<byte>): seq<byte> {
    if wire == [] then []
    else
      var init, b := wire[..|wire| - 1], wire[|wire| - 1];
      if b == ESCAPE then Unescape(init) else Unescape(init) + [if EndsEscaped(init) then b ^ 0x20 else b]
  }

  predicate EndsEscaped(wire: seq<byte>) { wire != [] && wire[|wire| - 1] == ESCAPE }

  /** Address, control byte and, for DATA only, the information field. */
  function Body(c: Control, payload: seq<byte>): seq<byte> {
    [ALL_STATION_ADDR, ControlByte(c)] + if c.frame.DATA? then payload else []
  }

  function Content(c: Control, payload: seq<byte>): seq<byte> {
    Body(c, payload) + Trailer(FcsOf(FCS_INIT, Body(c, payload)))
  }

  function Encode(c: Control, payload: seq<byte>): seq<byte> {
    [FLAG] + Escape(Content(c, payload)) + [FLAG]
  }

  // ---- The framer ----

  /** yahdlc_escape_value: with a null destination only the index advances. */
  method EscapeValue(value: byte, dest: array?<byte>, destIndex: nat) returns (next: nat)
    requires dest != null ==> destIndex + |EscapeByte(value)| <= dest.Length
    modifies dest
    ensures next == destIndex + |EscapeByte(value)|
    ensures dest != null ==> dest[..next] == old(dest[..destIndex]) + EscapeByte(value)
    ensures dest != null ==> forall k :: next <= k < dest.Length ==> dest[k] == old(dest[k])
  {
    next := destIndex;
    var v := value;
    if value == FLAG || value == ESCAPE {
      if dest != null {
        dest[next] := ESCAPE;
        v := v ^ 0x20;
      }
      next := next + 1;
    }
    if dest != null {
      dest[next] := v;
    }
    next := next + 1;
    if dest != null {
      assert dest[destIndex..next] == EscapeByte(value);
      assert dest[..destIndex] == old(dest[..destIndex]);
    }
  }

  /** What the framer has written once it has dealt with the first `k` bytes of the content. */
  ghost predicate Written(dest: array?<byte>, index: nat, content: seq<byte>, k: nat)
    requires k <= |content|
    reads dest
  {
    && index == 1 + |Escape(content[..k])|
    && (dest != null ==> |Escape(content)| + 2 <= dest.Length && index + 1 <= dest.Length
                         && dest[..index] == [FLAG] + Escape(content[..k]))
  }

  /** Escape and write the next byte of the content. */
  method WriteNext(value: byte, dest: array?<byte>, index: nat, ghost content: seq<byte>, ghost k: nat)
    returns (next: nat)
    requires k < |content| && content[k] == value
    requires Written(dest, index, content, k)
    modifies dest
    ensures Written(dest, next, content, k + 1)
    ensures dest != null ==> forall j :: next <= j < dest.Length ==> dest[j] == old(dest[j])
  {
    EscapeGrows(content, k);
    next := EscapeValue(value, dest, index);
    assert [FLAG] + Escape(content[..k]) + EscapeByte(value) == [FLAG] + (Escape(content[..k]) + EscapeByte(value));
  }

  /** The running FCS over the part of the frame before the trailer. */
  method CheckAndWrite(fcs: bv16, value: byte, dest: array?<byte>, index: nat, ghost content: seq<byte>, ghost k: nat)
    returns (fcs': bv16, next: nat)
    requires k < |content| && content[k] == value
    requires Written(dest, index, content, k) && fcs == FcsOf(FCS_INIT, content[..k])
    modifies dest
    ensures Written(dest, next, content, k + 1) && fcs' == FcsOf(FCS_INIT, content[..k + 1])
    ensures dest != null ==> forall j :: next <= j < dest.Length ==> dest[j] == old(dest[j])
  {
    fcs' := Fcs16(fcs, value);
    assert content[..k + 1][..k] == content[..k];
    next := WriteNext(value, dest, index, content, k);
  }

  /** The information field: check and escape every byte of `src`. */
  method WritePayload(src: seq<byte>, dest: array?<byte>, fcs0: bv16, index0: nat, ghost content: seq<byte>)
    returns (fcs: bv16, index: nat)
    requires |content| >= 2 + |src| && content[2..2 + |src|] == src
    requires Written(dest, index0, content, 2) && fcs0 == FcsOf(FCS_INIT, content[..2])
    modifies dest
    ensures Written(dest, index, content, 2 + |src|) && fcs == FcsOf(FCS_INIT, content[..2 + |src|])
    ensures dest != null ==> forall k :: |Escape(content)| + 2 <= k < dest.Length ==> dest[k] == old(dest[k])
  {
    hide FcsOf, Escape;
    fcs, index := fcs0, index0;
    EscapeGrows(content, 1);
    var i := 0;
    while i < |src|
      invariant 0 <= i <= |src|
      invariant Written(dest, index, content, 2 + i) && fcs == FcsOf(FCS_INIT, content[..2 + i])
      invariant dest != null ==> forall k :: |Escape(content)| + 2 <= k < dest.Length ==> dest[k] == old(dest[k])
    {
      assert content[2 + i] == src[i];
      EscapeGrows(content, 2 + i);
      fcs, index := CheckAndWrite(fcs, src[i], dest, index, content, 2 + i);
      i := i + 1;
    }
  }

  lemma NothingYet(content: seq<byte>)
    ensures Escape(content[..0]) == [] && FcsOf(FCS_INIT, content[..0]) == FCS_INIT
  {
  }

  /** The first half of yahdlc_frame_data: start flag, address, control byte and information field. */
  method WriteBody(control: Control, src: seq<byte>, dest: array?<byte>, ghost content: seq<byte>)
    returns (fcs: bv16, index: nat)
    requires Body(control, src) <= content
    requires dest != null ==> |Escape(content)| + 2 <= dest.Length
    modifies dest
    ensures Written(dest, index, content, |Body(control, src)|)
    ensures fcs == FcsOf(FCS_INIT, Body(control, src))
    ensures dest != null ==> forall k :: |Escape(content)| + 2 <= k < dest.Length ==> dest[k] == old(dest[k])
  {
    hide FcsOf, Escape, ControlByte;
    NothingYet(content);
    fcs := FCS_INIT;
    if dest != null {
      dest[0] := FLAG;
    }
    index := 1;
    var value := ControlByte(control);
    EscapeGrows(content, 0);
    EscapeGrows(content, 1);
    fcs, index := CheckAndWrite(fcs, ALL_STATION_ADDR, dest, index, content, 0);
    fcs, index := CheckAndWrite(fcs, value, dest, index, content, 1);
    if control.frame == DATA {
      fcs, index := WritePayload(src, dest, fcs, index, content);
    }
    assert content[..|Body(control, src)|] == Body(control, src);
  }

  /** The FCS bytes, low byte first. */
  method WriteTrailer(fcs: bv16, dest: array?<byte>, index0: nat, ghost content: seq<byte>, ghost k: nat)
    returns (index: nat)
    requires k + 2 == |content| && content[k..] == [Lo(fcs), Hi(fcs)]
    requires Written(dest, index0, content, k)
    modifies dest
    ensures Written(dest, index, content, |content|)
    ensures dest != null ==> forall j :: |Escape(content)| + 2 <= j < dest.Length ==> dest[j] == old(dest[j])
  {
    hide Escape, Lo, Hi;
    index := index0;
    assert content[..k + 2] == content;
    EscapeGrows(content, k);
    var i := 0;
    while i < 2
      invariant 0 <= i <= 2 && Written(dest, index, content, k + i)
      invariant dest != null ==> forall j :: |Escape(content)| + 2 <= j < dest.Length ==> dest[j] == old(dest[j])
    {
      var value := if i == 0 then Lo(fcs) else Hi(fcs);
      assert content[k + i] == content[k..][i];
      EscapeGrows(content, k + i);
      index := WriteNext(value, dest, index, content, k + i);
      i := i + 1;
    }
  }

  /** yahdlc_frame_data. The dry run (null destination) reports exactly the length the real run writes. */
  method FrameData(control: Control, src: seq<byte>, dest: array?<byte>) returns (destLen: nat)
    requires dest != null ==> |Encode(control, src)| <= dest.Length
    modifies dest
    ensures destLen == |Encode(control, src)|
    ensures dest != null ==> dest[..destLen] == Encode(control, src)
    ensures dest != null ==> forall k :: destLen <= k < dest.Length ==> dest[k] == old(dest[k])
  {
    ghost var body, content := Body(control, src), Content(control, src);
    var fcs, index := WriteBody(control, src, dest, content);
    fcs := fcs ^ 0xFFFF;
    index := WriteTrailer(fcs, dest, index, content, |body|);
    assert content[..|content|] == content;
    if dest != null {
      dest[index] := FLAG;
      assert dest[..index] == [FLAG] + Escape(content);
    }
    destLen := index + 1;
  }

  lemma EscapeGrows(data: seq<byte>, k: nat)
    requires k < |data|
    ensures Escape(data[..k + 1]) == Escape(data[..k]) + EscapeByte(data[k])
    ensures |Escape(data[..k + 1])| <= |Escape(data)|
    decreases |data| - k
  {
    assert data[..k + 1][..k] == data[..k];
    if k + 1 == |data| {
      assert data[..k + 1] == data;
    } else {
      EscapeGrows(data, k + 1);
    }
  }

  // ---- What a frame looks like on the wire ----

  function SpecialCount(data: seq<byte>): nat {
    if data == [] then 0 else SpecialCount(data[..|data| - 1]) + if Special(data[|data| - 1]) then 1 else 0
  }

  lemma EscapeByteRoundTrip(wire: seq<byte>, b: byte)
    requires !EndsEscaped(wire)
    ensures Unescape(wire + EscapeByte(b)) == Unescape(wire) + [b]
    ensures !EndsEscaped(wire + EscapeByte(b))
    ensures FLAG !in EscapeByte(b)
  {
    if Special(b) {
      assert (wire + [ESCAPE, b ^ 0x20])[..|wire| + 1] == wire + [ESCAPE];
      assert (wire + [ESCAPE])[..|wire|] == wire;
      assert b ^ 0x20 ^ 0x20 == b && !Special(b ^ 0x20);
    } else {
      assert (wire + [b])[..|wire|] == wire;
    }
  }

  /** Transparency: escaping removes every flag, is undone by Unescape, and adds one byte per special byte. */
  lemma {:induction false} EscapeRoundTrip(data: seq<byte>)
    ensures Unescape(Escape(data)) == data
    ensures FLAG !in Escape(data) && !EndsEscaped(Escape(data))
    ensures |Escape(data)| == |data| + SpecialCount(data) && SpecialCount(data) <= |data|
  {
    if data != [] {
      EscapeRoundTrip(data[..|data| - 1]);
      EscapeByteRoundTrip(Escape(data[..|data| - 1]), data[|data| - 1]);
    }
  }

  /** Frame length: two flags, address, control, FCS, the payload of a DATA frame, and one byte per byte escaped. */
  lemma FrameLength(c: Control, payload: seq<byte>)
    ensures var carried := if c.frame.DATA? then |payload| else 0;
            && |Encode(c, payload)| == 6 + carried + SpecialCount(Content(c, payload))
            && |Encode(c, payload)| <= 2 * carried + 10
  {
    EscapeRoundTrip(Content(c, payload));
  }

  /** Flags occur only at the two ends of an encoded frame. */
  lemma FlagsOnlyAtEnds(c: Control, payload: seq<byte>, i: nat)
    requires i < |Encode(c, payload)|
    ensures Encode(c, payload)[i] == FLAG <==> i == 0 || i == |Encode(c, payload)| - 1
  {
    EscapeRoundTrip(Content(c, payload));
    if 0 < i < |Encode(c, payload)| - 1 {
      assert Encode(c, payload)[i] in Escape(Content(c, payload));
    }
  }

  lemma ContentIsGood(c: Control, payload: seq<byte>)
    ensures FcsOf(FCS_INIT, Content(c, payload)) == FCS_GOOD
  {
    var f := FcsOf(FCS_INIT, Body(c, payload));
    assert Trailer(f) == [Trailer(f)[0], Trailer(f)[1]];
    AcceptanceExact(FCS_INIT, Body(c, payload), Trailer(f)[0], Trailer(f)[1]);
  }

  // ---- The bytes of the standard ----

  /** Control-octet transparency, byte by byte: 0x7E becomes 0x7D 0x5E, 0x7D becomes 0x7D 0x5D, anything else stays. */
  lemma EscapesOctets(data: seq<byte>, b: byte)
    ensures Escape(data + [b]) ==
            Escape(data) + if b == 0x7E then [0x7D, 0x5E] else if b == 0x7D then [0x7D, 0x5D] else [b]
  {
    assert (data + [b])[..|data|] == data;
  }

  /** The connection request on the wire. */
  lemma RequestOnWire()
    ensures Encode(Control(CONN, 0, 0), []) == [0x7E, 0xFF, 0x3F, 0xF3, 0x39, 0x7E]
  {
    RequestFcs();
    hide FcsOf;
    var content := Content(Control(CONN, 0, 0), []);
    assert content == [0xFF, 0x3F, 0xF3, 0x39];
    assert content[..3] == [0xFF, 0x3F, 0xF3] && content[..3][..2] == [0xFF, 0x3F] && content[..3][..2][..1] == [0xFF];
    PlainEscape(content);
  }

  lemma RequestFcs()
    ensures FcsOf(FCS_INIT, [0xFF, 0x3F]) == 0xC60C
    ensures Body(Control(CONN, 0, 0), []) == [0xFF, 0x3F]
  {
    assert [0xFF, 0x3F] == [] + [0xFF, 0x3F];
    FcsAppendTwo(FCS_INIT, [], 0xFF, 0x3F);
    assert FcsOf(FCS_INIT, []) == FCS_INIT;
  }

  lemma {:induction false} PlainEscape(data: seq<byte>)
    requires forall i :: 0 <= i < |data| ==> !Special(data[i])
    ensures Escape(data) == data
  {
    if data != [] {
      PlainEscape(data[..|data| - 1]);
    }
  }
}
