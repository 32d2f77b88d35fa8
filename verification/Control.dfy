/** The control field of a frame: frame kinds, 3-bit sequence numbers, and the control byte. */
module Control {
  import opened Fcs

  datatype FrameType = DATA | ACK | NACK | CONN | CONN_ACK

  type SeqNo = x: int | 0 <= x < 8

  datatype Control = Control(frame: FrameType, sendSeq: SeqNo, recvSeq: SeqNo)

  /** A frame as the two ends of a link see it. */
  datatype Packet = Packet(control: Control, payload: seq<byte>)

  function SeqBits(x: SeqNo): byte {
    match x
    case 0 => 0 case 1 => 1 case 2 => 2 case 3 => 3
    case 4 => 4 case 5 => 5 case 6 => 6 case _ => 7
  }

  function BitsSeq(b: byte): SeqNo {
    match b & 0x7
    case 0 => 0 case 1 => 1 case 2 => 2 case 3 => 3
    case 4 => 4 case 5 => 5 case 6 => 6 case _ => 7
  }

  /** yahdlc_frame_control_type */
  function ControlByte(c: Control): byte {
    match c.frame
    case DATA => (SeqBits(c.sendSeq) << 1) | (SeqBits(c.recvSeq) << 5) | (1 << 4)
    case ACK => (SeqBits(c.recvSeq) << 5) | 1
    case NACK => (SeqBits(c.recvSeq) << 5) | (2 << 2) | 1
    case CONN => 1 | (1 << 1) | (1 << 4) | (3 << 2) | (1 << 5)
    case CONN_ACK => 1 | (1 << 1) | (3 << 5)
  }

  /** yahdlc_get_control_type; the fields it does not set are zero, so an unknown U-frame reads as DATA. */
  function DecodeControl(b: byte): Control {
    if b & 1 != 0 then
      if b & 2 != 0 then
        if b >> 5 == 1 then Control(CONN, 0, 0)
        else if b >> 5 == 3 then Control(CONN_ACK, 0, 0)
        else Control(DATA, 0, 0)
      else
        Control(if (b >> 2) & 3 == 0 then ACK else NACK, 0, BitsSeq(b >> 5))
    else
      Control(DATA, BitsSeq(b >> 1), BitsSeq(b >> 5))
  }

  /** The part of a control structure its control byte carries. */
  function Carried(c: Control): Control {
    match c.frame
    case DATA => c
    case ACK => c.(sendSeq := 0)
    case NACK => c.(sendSeq := 0)
    case _ => Control(c.frame, 0, 0)
  }

  lemma SeqRoundTrip(x: SeqNo)
    ensures BitsSeq(SeqBits(x)) == x && SeqBits(x) < 8
  {
  }

  lemma DataBits(s: byte, r: byte)
    requires s < 8 && r < 8
    ensures var b := (s << 1) | (r << 5) | (1 << 4);
            b & 1 == 0 && (b >> 1) & 0x7 == s && (b >> 5) & 0x7 == r
  {
  }

  lemma SupervisoryBits(r: byte, kind: byte)
    requires r < 8 && kind < 4
    ensures var b := (r << 5) | (kind << 2) | 1;
            b & 1 != 0 && b & 2 == 0 && (b >> 2) & 3 == kind && (b >> 5) & 0x7 == r
  {
  }

  /** Decoding an encoded control field gives back exactly what that frame type carries. */
  lemma ControlRoundTrip(c: Control)
    ensures DecodeControl(ControlByte(c)) == Carried(c)
  {
    SeqRoundTrip(c.sendSeq);
    SeqRoundTrip(c.recvSeq);
    DataBits(SeqBits(c.sendSeq), SeqBits(c.recvSeq));
    SupervisoryBits(SeqBits(c.recvSeq), if c.frame == NACK then 2 else 0);
  }

  // ---- The bits of the control byte ----

  /** The value of the three bits from `from` on. */
  function Three(b: byte, from: bv4): int
    requires from < 6
  {
    ((b >> from) & 0x7) as int
  }

  lemma SeqBitsValue(x: SeqNo)
    ensures SeqBits(x) as int == x
  {
  }

  /** The layout of the control field: bit 0 is clear for DATA frames and set for the others, bit 1 is clear for ACK and
      NACK and set for the rest; N(S) is in bits 1 to 3, N(R) in bits 5 to 7, the supervisory bits are 2 and 3; and the
      poll bit 4 is set in DATA and CONN only. */
  lemma ControlLayout(c: Control)
    ensures var b := ControlByte(c);
            && (b & 0x10 != 0 <==> c.frame.DATA? || c.frame.CONN?)
            && match c.frame
               case DATA => b & 0x01 == 0 && Three(b, 1) == c.sendSeq && Three(b, 5) == c.recvSeq
               case ACK => b & 0x0f == 0x01 && Three(b, 5) == c.recvSeq
               case NACK => b & 0x0f == 0x09 && Three(b, 5) == c.recvSeq
               case CONN => b & 0x0f == 0x0f && Three(b, 5) == 1
               case CONN_ACK => b & 0x0f == 0x03 && Three(b, 5) == 3
  {
    SeqBitsValue(c.sendSeq);
    SeqBitsValue(c.recvSeq);
    LayoutBits(SeqBits(c.sendSeq), SeqBits(c.recvSeq));
  }

  /** How the receiver reads any control byte, also one that no station sends: modifier bits other than those of CONN
      and CONN_ACK make a DATA frame numbered 0, and every supervisory frame but ACK is a NACK. */
  lemma EveryByteRead(b: byte)
    ensures var c := DecodeControl(b);
            && (c.frame == CONN <==> b & 0xe3 == 0x23)
            && (c.frame == CONN_ACK <==> b & 0xe3 == 0x63)
            && (c.frame == ACK <==> b & 0x0f == 0x01)
            && (c.frame == NACK <==> b & 0x03 == 0x01 && b & 0x0c != 0)
            && c.sendSeq == (if b & 0x01 == 0 then Three(b, 1) else 0)
            && c.recvSeq == (if b & 0x03 == 0x03 then 0 else Three(b, 5))
    ensures DecodeControl(ControlByte(DecodeControl(b))) == DecodeControl(b)
  {
    BitsSeqValue(b >> 1);
    BitsSeqValue(b >> 5);
    ReadBits(b);
    ControlRoundTrip(DecodeControl(b));
  }

  lemma BitsSeqValue(b: byte)
    ensures BitsSeq(b) == (b & 0x7) as int
  {
  }

  lemma ReadBits(b: byte)
    ensures (b & 1 != 0 && b & 2 != 0) == (b & 0x03 == 0x03)
    ensures (b >> 5 == 1 && b & 0x03 == 0x03) == (b & 0xe3 == 0x23)
    ensures (b >> 5 == 3 && b & 0x03 == 0x03) == (b & 0xe3 == 0x63)
    ensures ((b >> 2) & 3 == 0) == (b & 0x0c == 0)
    ensures (b & 0x0c == 0 && b & 0x03 == 0x01) == (b & 0x0f == 0x01)
    ensures (b & 1 != 0 && b & 2 == 0) == (b & 0x03 == 0x01)
  {
  }

  lemma LayoutBits(s: byte, r: byte)
    requires s < 8 && r < 8
    ensures var b := (s << 1) | (r << 5) | (1 << 4);
            b & 0x10 != 0 && b & 0x01 == 0 && (b >> 1) & 0x7 == s && (b >> 5) & 0x7 == r
    ensures var b := (r << 5) | 1; b & 0x10 == 0 && b & 0x0f == 0x01 && (b >> 5) & 0x7 == r
    ensures var b := (r << 5) | (2 << 2) | 1; b & 0x10 == 0 && b & 0x0f == 0x09 && (b >> 5) & 0x7 == r
  {
  }
}
