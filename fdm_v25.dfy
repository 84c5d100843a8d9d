/**
 * The Net FDM v25 packet (flight dynamics, simulator to client): big-endian,
 * version tag 25, 552 bytes. The table is written as the runs of the
 * construct Struct in flightgear_python/fdm_v25.py, in their order.
 */
module FdmV25 {
  import opened Wrappers
  import opened Bytes
  import opened Codec
  import opened CodecLaws

  const MaxEngines: nat := 4
  const MaxWheels: nat := 3
  const MaxTanks: nat := 4

  const EngState: Kind := Enum([("off", 0), ("cranking", 1), ("running", 2)])

  function PositionNames(): seq<string>
  {
    ["lon_rad", "lat_rad", "alt_m"]
  }

  function MotionNames(): seq<string>
  {
    ["agl_m", "phi_rad", "theta_rad", "psi_rad", "alpha_rad", "beta_rad",
     "phidot_rad_per_s", "thetadot_rad_per_s", "psidot_rad_per_s",
     "vcas", "climb_rate_ft_per_s",
     "v_north_ft_per_s", "v_east_ft_per_s", "v_down_ft_per_s",
     "v_body_u", "v_body_v", "v_body_w",
     "A_X_pilot_ft_per_s_per_s", "A_Y_pilot_ft_per_s_per_s", "A_Z_pilot_ft_per_s_per_s",
     "stall_warning", "slip_deg"]
  }

  function EngineArrayNames(): seq<string>
  {
    ["rpm", "fuel_flow_gal_per_hr", "fuel_px_psi", "egt_deg_F", "cht_deg_F",
     "mp_osi", "tit", "oil_temp_deg_F", "oil_px_psi"]
  }

  function TankArrayNames(): seq<string>
  {
    ["capacity_m3", "unusable_m3", "density_kgpm3", "level_m3"]
  }

  function WheelArrayNames(): seq<string>
  {
    ["gear_pos", "gear_steer", "gear_compression"]
  }

  function SurfaceNames(): seq<string>
  {
    ["visibility_m", "elevator", "elevator_trim_tab", "left_flap", "right_flap",
     "left_aileron", "right_aileron", "rudder", "nose_wheel", "speedbrake", "spoilers"]
  }

  function Header(): seq<Field>
  {
    [Field("version", Tag(25)), Field("_padding", Pad(4))] + Run(PositionNames(), F64)
  }

  function Motion(): seq<Field>
  {
    Run(MotionNames(), F32)
  }

  function Engines(): seq<Field>
  {
    [Field("num_engines", U32), Field("eng_state", ArrayOf(MaxEngines, EngState))]
    + Run(EngineArrayNames(), ArrayOf(MaxEngines, F32))
  }

  function Tanks(): seq<Field>
  {
    [ Field("num_tanks", U32),
      Field("fuel_quantity", ArrayOf(MaxTanks, F32)),
      Field("tank_selected", ArrayOf(MaxTanks, U32)) ]
    + Run(TankArrayNames(), ArrayOf(MaxTanks, F64))
  }

  function Wheels(): seq<Field>
  {
    [Field("num_wheels", U32), Field("wow", ArrayOf(MaxWheels, U32))]
    + Run(WheelArrayNames(), ArrayOf(MaxWheels, F32))
  }

  function Trailer(): seq<Field>
  {
    [Field("cur_time_s", U32), Field("warp_s", S32)] + Run(SurfaceNames(), F32)
  }

  function Body(): seq<Field>
  {
    Motion() + Engines() + Tanks() + Wheels() + Trailer()
  }

  function FdmLayout(): Layout
  {
    Layout(Big, Header() + Body())
  }

  // Each fact about each part is proved on its own: the solver handles the
  // long literal name lists far better one property at a time.

  lemma HeaderSize()
    ensures FieldsSize(Header()) == 32
  {
    var lead := [Field("version", Tag(25)), Field("_padding", Pad(4))];
    RunSize(PositionNames(), F64, 3, 8);
    FieldsAppend(lead, Run(PositionNames(), F64));
  }

  lemma HeaderValid()
    ensures ValidFields(Header()) && TagFree(Header()[1..])
  {
    var lead := [Field("version", Tag(25)), Field("_padding", Pad(4))];
    RunFacts(PositionNames(), F64);
    FieldsAppend(lead, Run(PositionNames(), F64));
    assert Header()[1..] == lead[1..] + Run(PositionNames(), F64);
    FieldsAppend(lead[1..], Run(PositionNames(), F64));
  }

  lemma MotionSize()
    ensures FieldsSize(Motion()) == 88
  {
    RunSize(MotionNames(), F32, 22, 4);
  }

  lemma MotionValid()
    ensures ValidFields(Motion())
  {
    RunFacts(MotionNames(), F32);
  }

  lemma MotionTagFree()
    ensures TagFree(Motion())
  {
    RunFacts(MotionNames(), F32);
  }

  lemma EngStateValid()
    ensures ValidKind(EngState) && NoTag(EngState)
  {
  }

  lemma EnginesSize()
    ensures FieldsSize(Engines()) == 164
  {
    RunSize(EngineArrayNames(), ArrayOf(MaxEngines, F32), 9, 16);
    FieldsAppend([Field("num_engines", U32), Field("eng_state", ArrayOf(MaxEngines, EngState))],
                 Run(EngineArrayNames(), ArrayOf(MaxEngines, F32)));
  }

  lemma EnginesValid()
    ensures ValidFields(Engines())
  {
    EngStateValid();
    RunFacts(EngineArrayNames(), ArrayOf(MaxEngines, F32));
    FieldsAppend([Field("num_engines", U32), Field("eng_state", ArrayOf(MaxEngines, EngState))],
                 Run(EngineArrayNames(), ArrayOf(MaxEngines, F32)));
  }

  lemma EnginesTagFree()
    ensures TagFree(Engines())
  {
    RunFacts(EngineArrayNames(), ArrayOf(MaxEngines, F32));
    FieldsAppend([Field("num_engines", U32), Field("eng_state", ArrayOf(MaxEngines, EngState))],
                 Run(EngineArrayNames(), ArrayOf(MaxEngines, F32)));
  }

  lemma TanksSize()
    ensures FieldsSize(Tanks()) == 164
  {
    RunSize(TankArrayNames(), ArrayOf(MaxTanks, F64), 4, 32);
    FieldsAppend([ Field("num_tanks", U32),
                   Field("fuel_quantity", ArrayOf(MaxTanks, F32)),
                   Field("tank_selected", ArrayOf(MaxTanks, U32)) ],
                 Run(TankArrayNames(), ArrayOf(MaxTanks, F64)));
  }

  lemma TanksValid()
    ensures ValidFields(Tanks())
  {
    RunFacts(TankArrayNames(), ArrayOf(MaxTanks, F64));
    FieldsAppend([ Field("num_tanks", U32),
                   Field("fuel_quantity", ArrayOf(MaxTanks, F32)),
                   Field("tank_selected", ArrayOf(MaxTanks, U32)) ],
                 Run(TankArrayNames(), ArrayOf(MaxTanks, F64)));
  }

  lemma TanksTagFree()
    ensures TagFree(Tanks())
  {
    RunFacts(TankArrayNames(), ArrayOf(MaxTanks, F64));
    FieldsAppend([ Field("num_tanks", U32),
                   Field("fuel_quantity", ArrayOf(MaxTanks, F32)),
                   Field("tank_selected", ArrayOf(MaxTanks, U32)) ],
                 Run(TankArrayNames(), ArrayOf(MaxTanks, F64)));
  }

  lemma WheelsSize()
    ensures FieldsSize(Wheels()) == 52
  {
    RunSize(WheelArrayNames(), ArrayOf(MaxWheels, F32), 3, 12);
    FieldsAppend([Field("num_wheels", U32), Field("wow", ArrayOf(MaxWheels, U32))],
                 Run(WheelArrayNames(), ArrayOf(MaxWheels, F32)));
  }

  lemma WheelsValid()
    ensures ValidFields(Wheels())
  {
    RunFacts(WheelArrayNames(), ArrayOf(MaxWheels, F32));
    FieldsAppend([Field("num_wheels", U32), Field("wow", ArrayOf(MaxWheels, U32))],
                 Run(WheelArrayNames(), ArrayOf(MaxWheels, F32)));
  }

  lemma WheelsTagFree()
    ensures TagFree(Wheels())
  {
    RunFacts(WheelArrayNames(), ArrayOf(MaxWheels, F32));
    FieldsAppend([Field("num_wheels", U32), Field("wow", ArrayOf(MaxWheels, U32))],
                 Run(WheelArrayNames(), ArrayOf(MaxWheels, F32)));
  }

  lemma TrailerSize()
    ensures FieldsSize(Trailer()) == 52
  {
    RunSize(SurfaceNames(), F32, 11, 4);
    FieldsAppend([Field("cur_time_s", U32), Field("warp_s", S32)],
                 Run(SurfaceNames(), F32));
  }

  lemma TrailerValid()
    ensures ValidFields(Trailer())
  {
    RunFacts(SurfaceNames(), F32);
    FieldsAppend([Field("cur_time_s", U32), Field("warp_s", S32)],
                 Run(SurfaceNames(), F32));
  }

  lemma TrailerTagFree()
    ensures TagFree(Trailer())
  {
    RunFacts(SurfaceNames(), F32);
    FieldsAppend([Field("cur_time_s", U32), Field("warp_s", S32)],
                 Run(SurfaceNames(), F32));
  }

  lemma BodyFacts()
    ensures FieldsSize(Body()) == 520 && ValidFields(Body()) && TagFree(Body())
  {
    MotionSize(); MotionValid(); MotionTagFree();
    EnginesSize(); EnginesValid(); EnginesTagFree();
    TanksSize(); TanksValid(); TanksTagFree();
    WheelsSize(); WheelsValid(); WheelsTagFree();
    TrailerSize(); TrailerValid(); TrailerTagFree();
    var m, en, t, w := Motion(), Engines(), Tanks(), Wheels();
    FieldsAppend(m, en);
    FieldsAppend(m + en, t);
    FieldsAppend(m + en + t, w);
    FieldsAppend(m + en + t + w, Trailer());
  }

  /** The table describes a 552-byte packet that starts with the tag 25 and holds no other tag. */
  lemma FdmTagged()
    ensures Size(FdmLayout()) == 552 && Tagged(FdmLayout(), 25)
  {
    HeaderSize();
    HeaderValid();
    BodyFacts();
    var h, b := Header(), Body();
    FieldsAppend(h, b);
    TailAppend(h, b);
    FieldsAppend(h[1..], b);
  }

  /** Every FDM v25 packet starts with 00 00 00 19. */
  lemma FdmTagBytes(b: seq<byte>)
    requires |b| >= 4
    ensures Uint(Big, b[..4]) == 25 <==> b[..4] == [0, 0, 0, 25]
  {
    TagBytes(Big, 25, b[..4]);
  }

  /** Parsing succeeds exactly on inputs of at least 552 bytes that start with the tag 25;
      a different tag fails the tag check and a short packet fails for lack of input. */
  lemma FdmDecodeOutcome(b: seq<byte>)
    ensures Decode(FdmLayout(), b).Ok? <==> |b| >= 552 && b[..4] == [0, 0, 0, 25]
    ensures |b| >= 4 && b[..4] != [0, 0, 0, 25] ==> Decode(FdmLayout(), b) == Err(ConstError)
    ensures |b| < 552 && (|b| < 4 || b[..4] == [0, 0, 0, 25]) ==> Decode(FdmLayout(), b) == Err(StreamError)
  {
    FdmTagged();
    DecodeTagged(FdmLayout(), 25, b);
    if |b| >= 4 {
      FdmTagBytes(b);
    }
  }

  /** Building the record parsed from a packet reproduces its first 552 bytes, padding included. */
  lemma FdmEncodeDecode(b: seq<byte>)
    requires |b| >= 552 && b[..4] == [0, 0, 0, 25]
    ensures Decode(FdmLayout(), b).Ok?
    ensures Encode(FdmLayout(), Decode(FdmLayout(), b).value) == Ok(b[..552])
  {
    FdmTagged();
    FdmDecodeOutcome(b);
    EncodeDecode(FdmLayout(), b);
  }

  /** A well-formed record builds to 552 bytes that parse back to it. */
  lemma FdmDecodeEncode(rec: Record, t: seq<byte>)
    requires WellFormed(FdmLayout(), rec)
    ensures Encode(FdmLayout(), rec).Ok? && |Encode(FdmLayout(), rec).value| == 552
    ensures Decode(FdmLayout(), Encode(FdmLayout(), rec).value + t) == Ok(rec)
  {
    FdmTagged();
    DecodeEncode(FdmLayout(), rec, t);
  }

  /** eng_state builds off, cranking and running as 0, 1 and 2. */
  lemma EngStateBuildCodes()
    ensures CodeOf(EngState.codes, "off") == Some(0)
    ensures CodeOf(EngState.codes, "cranking") == Some(1)
    ensures CodeOf(EngState.codes, "running") == Some(2)
  {
  }

  /** eng_state parses 0, 1 and 2 as off, cranking and running, and leaves any other code a number. */
  lemma EngStateParseCodes(x: nat)
    ensures NameOf(EngState.codes, x) == if x == 0 then Some("off") else if x == 1 then Some("cranking")
                                         else if x == 2 then Some("running") else None
  {
  }

  /** Where the counted arrays and the time fields sit in the table. */
  lemma FdmFieldPositions()
    ensures |FdmLayout().fields| == 63
    ensures FdmLayout().fields[28] == Field("eng_state", ArrayOf(MaxEngines, EngState))
    ensures FdmLayout().fields[39] == Field("fuel_quantity", ArrayOf(MaxTanks, F32))
    ensures FdmLayout().fields[46] == Field("wow", ArrayOf(MaxWheels, U32))
    ensures FdmLayout().fields[50] == Field("cur_time_s", U32)
    ensures FdmLayout().fields[51] == Field("warp_s", S32)
  {
    var h, m, en, t, w, tr := Header(), Motion(), Engines(), Tanks(), Wheels(), Trailer();
    assert |h| == 5 && |m| == 22 && |en| == 11 && |t| == 7 && |w| == 5 && |tr| == 13;
    assert FdmLayout().fields == h + (m + en + t + w + tr);
    assert (m + en + t + w + tr)[23] == en[1];
    assert (m + en + t + w + tr)[34] == t[1];
    assert (m + en + t + w + tr)[41] == w[1];
    assert (m + en + t + w + tr)[45] == tr[0];
    assert (m + en + t + w + tr)[46] == tr[1];
  }

  /** In every well-formed record the arrays hold exactly 4 engine states, 4 tank quantities
      and 3 weight-on-wheels words, whatever num_engines, num_tanks and num_wheels say,
      and warp_s is a signed 32-bit integer while cur_time_s is unsigned. */
  lemma FdmFieldShapes(rec: Record)
    requires WellFormed(FdmLayout(), rec)
    ensures rec[28].Items? && |rec[28].items| == 4
    ensures rec[39].Items? && |rec[39].items| == 4
    ensures rec[46].Items? && |rec[46].items| == 3
    ensures rec[50].Int? && 0 <= rec[50].i < TwoTo32
    ensures rec[51].Int? && -TwoTo31 <= rec[51].i < TwoTo31
  {
    FdmFieldPositions();
    ArrayCountFixed(FdmLayout(), rec, 28);
    ArrayCountFixed(FdmLayout(), rec, 39);
    ArrayCountFixed(FdmLayout(), rec, 46);
    assert Canonical(U32, rec[50]) && Canonical(S32, rec[51]);
  }
}
