/**
 * The Net GUI v8 packet (instrument data, simulator to client): the only
 * little-endian interface, version tag 8, 108 bytes. The table follows the
 * construct Struct in flightgear_python/gui_v8.py field by field.
 */
module GuiV8 {
  import opened Wrappers
  import opened Bytes
  import opened Codec
  import opened CodecLaws

  const MaxTanks: nat := 4

  function PositionNames(): seq<string>
  {
    ["lon_rad", "lat_rad"]
  }

  function MotionNames(): seq<string>
  {
    ["alt_m", "agl_m", "phi_rad", "theta_rad", "psi_rad", "vcas", "climb_rate_ft_per_s"]
  }

  function RadioNames(): seq<string>
  {
    ["ground_elev_m", "tuned_freq_MHz", "nav_radial"]
  }

  function DeviationNames(): seq<string>
  {
    ["dist_nm", "course_deviation_deg", "gs_deviation_deg"]
  }

  /** The version tag, four padding bytes and the position as doubles. */
  function Header(): seq<Field>
  {
    [Field("version", Tag(8)), Field("_padding0", Pad(4))] + Run(PositionNames(), F64)
  }

  function Motion(): seq<Field>
  {
    Run(MotionNames(), F32)
  }

  /** Fuel and time; warp_s is unsigned here, unlike in the FDM packet. */
  function Status(): seq<Field>
  {
    [ Field("num_tanks", U32),
      Field("fuel_quantity", ArrayOf(MaxTanks, F32)),
      Field("cur_time_s", U32),
      Field("warp_s", U32) ]
  }

  function Radio(): seq<Field>
  {
    Run(RadioNames(), F32)
  }

  function Deviation(): seq<Field>
  {
    [Field("in_range", U32)] + Run(DeviationNames(), F32)
  }

  function Body(): seq<Field>
  {
    Motion() + Status() + Radio() + Deviation()
  }

  function GuiLayout(): Layout
  {
    Layout(Little, Header() + Body())
  }

  lemma HeaderSize()
    ensures FieldsSize(Header()) == 24
  {
    var lead := [Field("version", Tag(8)), Field("_padding0", Pad(4))];
    RunSize(PositionNames(), F64, 2, 8);
    FieldsAppend(lead, Run(PositionNames(), F64));
  }

  lemma HeaderValid()
    ensures ValidFields(Header()) && TagFree(Header()[1..])
  {
    var lead := [Field("version", Tag(8)), Field("_padding0", Pad(4))];
    RunFacts(PositionNames(), F64);
    FieldsAppend(lead, Run(PositionNames(), F64));
    assert Header()[1..] == lead[1..] + Run(PositionNames(), F64);
    FieldsAppend(lead[1..], Run(PositionNames(), F64));
  }

  lemma MotionFacts()
    ensures FieldsSize(Motion()) == 28 && ValidFields(Motion()) && TagFree(Motion())
  {
    RunSize(MotionNames(), F32, 7, 4);
    RunFacts(MotionNames(), F32);
  }

  lemma StatusFacts()
    ensures FieldsSize(Status()) == 28 && ValidFields(Status()) && TagFree(Status())
  {
    ItemsSizeIs(MaxTanks, F32);
  }

  lemma RadioFacts()
    ensures FieldsSize(Radio()) == 12 && ValidFields(Radio()) && TagFree(Radio())
  {
    RunSize(RadioNames(), F32, 3, 4);
    RunFacts(RadioNames(), F32);
  }

  lemma DeviationFacts()
    ensures FieldsSize(Deviation()) == 16 && ValidFields(Deviation()) && TagFree(Deviation())
  {
    RunSize(DeviationNames(), F32, 3, 4);
    RunFacts(DeviationNames(), F32);
    FieldsAppend([Field("in_range", U32)], Run(DeviationNames(), F32));
  }

  lemma BodyFacts()
    ensures FieldsSize(Body()) == 84 && ValidFields(Body()) && TagFree(Body())
  {
    MotionFacts();
    StatusFacts();
    RadioFacts();
    DeviationFacts();
    var m, s, r := Motion(), Status(), Radio();
    FieldsAppend(m, s);
    FieldsAppend(m + s, r);
    FieldsAppend(m + s + r, Deviation());
  }

  /** The table describes a 108-byte packet that starts with the tag 8 and holds no other tag. */
  lemma GuiTagged()
    ensures Size(GuiLayout()) == 108 && Tagged(GuiLayout(), 8)
  {
    HeaderSize();
    HeaderValid();
    BodyFacts();
    var h, b := Header(), Body();
    FieldsAppend(h, b);
    TailAppend(h, b);
    FieldsAppend(h[1..], b);
  }

  /** The GUI tag is little-endian: the packet starts 08 00 00 00. */
  lemma GuiTagBytes(b: seq<byte>)
    requires |b| >= 4
    ensures Uint(Little, b[..4]) == 8 <==> b[..4] == [8, 0, 0, 0]
  {
    TagBytes(Little, 8, b[..4]);
  }

  /** Parsing succeeds exactly on inputs of at least 108 bytes that start 08 00 00 00;
      in particular a packet starting with the big-endian 00 00 00 08 is refused. */
  lemma GuiDecodeOutcome(b: seq<byte>)
    ensures Decode(GuiLayout(), b).Ok? <==> |b| >= 108 && b[..4] == [8, 0, 0, 0]
    ensures |b| >= 4 && b[..4] != [8, 0, 0, 0] ==> Decode(GuiLayout(), b) == Err(ConstError)
    ensures |b| >= 4 && b[..4] == [0, 0, 0, 8] ==> Decode(GuiLayout(), b) == Err(ConstError)
    ensures |b| < 108 && (|b| < 4 || b[..4] == [8, 0, 0, 0]) ==> Decode(GuiLayout(), b) == Err(StreamError)
  {
    GuiTagged();
    DecodeTagged(GuiLayout(), 8, b);
    if |b| >= 4 {
      GuiTagBytes(b);
    }
  }

  /** Building a parsed packet reproduces its 108 bytes, the padding included. */
  lemma GuiEncodeDecode(b: seq<byte>)
    requires |b| >= 108 && b[..4] == [8, 0, 0, 0]
    ensures Decode(GuiLayout(), b).Ok?
    ensures Encode(GuiLayout(), Decode(GuiLayout(), b).value) == Ok(b[..108])
  {
    GuiTagged();
    GuiDecodeOutcome(b);
    EncodeDecode(GuiLayout(), b);
  }

  /** A well-formed record builds to 108 bytes that parse back to it. */
  lemma GuiDecodeEncode(rec: Record, t: seq<byte>)
    requires WellFormed(GuiLayout(), rec)
    ensures Encode(GuiLayout(), rec).Ok? && |Encode(GuiLayout(), rec).value| == 108
    ensures Decode(GuiLayout(), Encode(GuiLayout(), rec).value + t) == Ok(rec)
  {
    GuiTagged();
    DecodeEncode(GuiLayout(), rec, t);
  }

  /** Every built GUI packet starts with the little-endian version 08 00 00 00. */
  lemma GuiEncodeTag(rec: Record)
    requires WellFormed(GuiLayout(), rec)
    ensures Encode(GuiLayout(), rec).Ok?
    ensures |Encode(GuiLayout(), rec).value| >= 4 && Encode(GuiLayout(), rec).value[..4] == [8, 0, 0, 0]
  {
    GuiDecodeEncode(rec, []);
    var b := Encode(GuiLayout(), rec).value;
    assert b + [] == b;
    GuiDecodeOutcome(b);
  }

  /** Where the fuel array and the unsigned words sit in the table. */
  lemma GuiFieldPositions()
    ensures |GuiLayout().fields| == 22
    ensures GuiLayout().fields[12] == Field("fuel_quantity", ArrayOf(MaxTanks, F32))
    ensures GuiLayout().fields[14] == Field("warp_s", U32)
    ensures GuiLayout().fields[18] == Field("in_range", U32)
  {
    var h, m, s, r, d := Header(), Motion(), Status(), Radio(), Deviation();
    assert |h| == 4 && |m| == 7 && |s| == 4 && |r| == 3 && |d| == 4;
    assert GuiLayout().fields == h + (m + s + r + d);
    assert (m + s + r + d)[8] == s[1];
    assert (m + s + r + d)[10] == s[3];
    assert (m + s + r + d)[14] == d[0];
  }

  /** In every well-formed record fuel_quantity holds exactly 4 entries and warp_s and
      in_range are unsigned 32-bit integers. */
  lemma GuiFieldShapes(rec: Record)
    requires WellFormed(GuiLayout(), rec)
    ensures rec[12].Items? && |rec[12].items| == 4
    ensures rec[14].Int? && 0 <= rec[14].i < TwoTo32
    ensures rec[18].Int? && 0 <= rec[18].i < TwoTo32
  {
    GuiFieldPositions();
    ArrayCountFixed(GuiLayout(), rec, 12);
    assert Canonical(U32, rec[14]) && Canonical(U32, rec[18]);
  }
}
