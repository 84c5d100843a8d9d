/**
 * The Net Ctrls v27 packet (controls, both directions): big-endian, version
 * tag 27, 744 bytes, ending in a 100-byte reserved block. The table follows
 * the construct Struct in flightgear_python/ctrls_v27.py field by field,
 * grouped into parts of at most four literal fields or one run of fields of
 * the same kind.
 */
module CtrlsV27 {
  import opened Wrappers
  import opened Bytes
  import opened Codec
  import opened CodecLaws

  const MaxEngines: nat := 4
  const MaxTanks: nat := 8
  /** The reserved block is 25 32-bit words. */
  const ReservedSpace: nat := 25
  const TwoTo29: int := 0x2000_0000

  function OnOff(): Kind { Enum([("off", 0), ("on", 1)]) }
  function FlapsPower(): Kind { Enum([("unavailable", 0), ("available", 1)]) }
  function SparkPlugs(): Kind { Enum([("fouled", 0), ("ok", 1)]) }
  function OilPress(): Kind { Enum([("normal", 0), ("low", 1), ("full_fail", 2)]) }
  function GearHandle(): Kind { Enum([("up", 0), ("down", 1)]) }

  lemma OnOffFacts()
    ensures ValidKind(OnOff()) && NoTag(OnOff()) && KindSize(OnOff()) == 4
  {
  }

  lemma FlapsPowerFacts()
    ensures ValidKind(FlapsPower()) && NoTag(FlapsPower()) && KindSize(FlapsPower()) == 4
  {
  }

  lemma SparkPlugsFacts()
    ensures ValidKind(SparkPlugs()) && NoTag(SparkPlugs()) && KindSize(SparkPlugs()) == 4
  {
  }

  lemma OilPressFacts()
    ensures ValidKind(OilPress()) && NoTag(OilPress()) && KindSize(OilPress()) == 4
  {
  }

  lemma GearHandleFacts()
    ensures ValidKind(GearHandle()) && NoTag(GearHandle()) && KindSize(GearHandle()) == 4
  {
  }

  /** The freeze word: 29 bits of `other`, then the fuel, position and master flags. */
  function FreezeWidths(): seq<nat>
  {
    [29, 1, 1, 1]
  }

  function SurfaceNames(): seq<string>
  {
    ["aileron", "elevator", "rudder", "aileron_trim", "elevator_trim", "rudder_trim",
     "flaps", "spoilers", "speedbrake"]
  }

  function LeverNames(): seq<string>
  {
    ["throttle", "mixture", "condition"]
  }

  function EngineFlagNames(): seq<string>
  {
    ["engine_ok", "mag_left_ok", "mag_right_ok"]
  }

  function BrakeNames(): seq<string>
  {
    ["brake_left", "brake_right", "copilot_brake_left", "copilot_brake_right", "brake_parking"]
  }

  function EnvironmentNames(): seq<string>
  {
    ["comm_1_MHz", "comm_2_MHz", "nav_1_MHz", "nav_2_MHz", "wind_speed_kt", "wind_dir_deg",
     "turbulence_norm", "temp_c", "press_inhg", "hground_m", "magvar_deg"]
  }

  /** The version tag, four undocumented bytes, then the flight control surfaces. */
  function Surfaces(): seq<Field>
  {
    [Field("version", Tag(27)), Field("_padding0", Pad(4))] + Run(SurfaceNames(), F64)
  }

  lemma SurfacesSize()
    ensures FieldsSize(Surfaces()) == 80
  {
    var lead := [Field("version", Tag(27)), Field("_padding0", Pad(4))];
    RunSize(SurfaceNames(), F64, 9, 8);
    FieldsAppend(lead, Run(SurfaceNames(), F64));
  }

  lemma SurfacesValid()
    ensures ValidFields(Surfaces()) && TagFree(Surfaces()[1..])
  {
    var lead := [Field("version", Tag(27)), Field("_padding0", Pad(4))];
    RunFacts(SurfaceNames(), F64);
    FieldsAppend(lead, Run(SurfaceNames(), F64));
    assert Surfaces()[1..] == lead[1..] + Run(SurfaceNames(), F64);
    FieldsAppend(lead[1..], Run(SurfaceNames(), F64));
  }

  /** Flap power, the engine count and the master battery switches. */
  function Electrics(): seq<Field>
  {
    [ Field("flaps_power", FlapsPower()),
      Field("flap_motor_ok", U32),
      Field("num_engines", U32),
      Field("master_bat", ArrayOf(MaxEngines, OnOff())) ]
  }

  lemma ElectricsSize()
    ensures FieldsSize(Electrics()) == 28
  {
    FlapsPowerFacts();
    OnOffFacts();
    ItemsSizeIs(MaxEngines, OnOff());
  }

  lemma ElectricsValid()
    ensures ValidFields(Electrics()) && TagFree(Electrics())
  {
    FlapsPowerFacts();
    OnOffFacts();
  }

  /** Alternators, magnetos, starters, then four undocumented bytes that align the throttles. */
  function Ignition(): seq<Field>
  {
    [ Field("master_alt", ArrayOf(MaxEngines, OnOff())),
      Field("magnetos", ArrayOf(MaxEngines, U32)),
      Field("starter_power", ArrayOf(MaxEngines, OnOff())),
      Field("_padding3", Pad(4)) ]
  }

  lemma IgnitionSize()
    ensures FieldsSize(Ignition()) == 52
  {
    OnOffFacts();
    ItemsSizeIs(MaxEngines, OnOff());
    ItemsSizeIs(MaxEngines, U32);
  }

  lemma IgnitionValid()
    ensures ValidFields(Ignition()) && TagFree(Ignition())
  {
    OnOffFacts();
  }

  /** Throttle, mixture and condition, one double per engine. */
  function Levers(): seq<Field>
  {
    Run(LeverNames(), ArrayOf(MaxEngines, F64))
  }

  lemma LeversSize()
    ensures FieldsSize(Levers()) == 96
  {
    RunSize(LeverNames(), ArrayOf(MaxEngines, F64), 3, 32);
  }

  lemma LeversValid()
    ensures ValidFields(Levers()) && TagFree(Levers())
  {
    RunFacts(LeverNames(), ArrayOf(MaxEngines, F64));
  }

  /** Fuel pumps, propeller advance, feed tanks and reversers. */
  function EngineControls(): seq<Field>
  {
    [ Field("fuel_pump_power", ArrayOf(MaxEngines, OnOff())),
      Field("prop_advance", ArrayOf(MaxEngines, F64)),
      Field("feed_tank_to", ArrayOf(4, U32)),
      Field("reverse", ArrayOf(4, U32)) ]
  }

  lemma EngineControlsSize()
    ensures FieldsSize(EngineControls()) == 80
  {
    OnOffFacts();
    ItemsSizeIs(MaxEngines, OnOff());
    ItemsSizeIs(MaxEngines, F64);
    ItemsSizeIs(4, U32);
  }

  lemma EngineControlsValid()
    ensures ValidFields(EngineControls()) && TagFree(EngineControls())
  {
    OnOffFacts();
  }

  /** Engine, left magneto and right magneto health, one word per engine. */
  function EngineFlags(): seq<Field>
  {
    Run(EngineFlagNames(), ArrayOf(MaxEngines, U32))
  }

  lemma EngineFlagsSize()
    ensures FieldsSize(EngineFlags()) == 48
  {
    RunSize(EngineFlagNames(), ArrayOf(MaxEngines, U32), 3, 16);
  }

  lemma EngineFlagsValid()
    ensures ValidFields(EngineFlags()) && TagFree(EngineFlags())
  {
    RunFacts(EngineFlagNames(), ArrayOf(MaxEngines, U32));
  }

  /** Spark plug, oil pressure and fuel pump status per engine. */
  function EngineStatus(): seq<Field>
  {
    [ Field("spark_plugs_ok", ArrayOf(MaxEngines, SparkPlugs())),
      Field("oil_press_status", ArrayOf(MaxEngines, OilPress())),
      Field("fuel_pump_ok", ArrayOf(MaxEngines, U32)) ]
  }

  lemma EngineStatusSize()
    ensures FieldsSize(EngineStatus()) == 48
  {
    SparkPlugsFacts();
    OilPressFacts();
    ItemsSizeIs(MaxEngines, SparkPlugs());
    ItemsSizeIs(MaxEngines, OilPress());
    ItemsSizeIs(MaxEngines, U32);
  }

  lemma EngineStatusValid()
    ensures ValidFields(EngineStatus()) && TagFree(EngineStatus())
  {
    SparkPlugsFacts();
    OilPressFacts();
  }

  /** The tank count, eight fuel selectors, five transfer pumps and the cross-feed valve. */
  function Fuel(): seq<Field>
  {
    [ Field("num_tanks", U32),
      Field("fuel_selector", ArrayOf(MaxTanks, OnOff())),
      Field("xfer_pump", ArrayOf(5, U32)),
      Field("cross_feed", OnOff()) ]
  }

  lemma FuelSize()
    ensures FieldsSize(Fuel()) == 60
  {
    OnOffFacts();
    ItemsSizeIs(MaxTanks, OnOff());
    ItemsSizeIs(5, U32);
  }

  lemma FuelValid()
    ensures ValidFields(Fuel()) && TagFree(Fuel())
  {
    OnOffFacts();
  }

  /** Four undocumented bytes, then the brakes. */
  function Brakes(): seq<Field>
  {
    [ Field("_padding4", Pad(4)) ]
    + Run(BrakeNames(), F64)
  }

  lemma BrakesSize()
    ensures FieldsSize(Brakes()) == 44
  {
    var tail := [ Field("_padding4", Pad(4)) ];
    RunSize(BrakeNames(), F64, 5, 8);
    FieldsAppend(tail, Run(BrakeNames(), F64));
  }

  lemma BrakesValid()
    ensures ValidFields(Brakes()) && TagFree(Brakes())
  {
    var tail := [ Field("_padding4", Pad(4)) ];
    RunFacts(BrakeNames(), F64);
    FieldsAppend(tail, Run(BrakeNames(), F64));
  }

  /** The gear handle and the avionics master switch. */
  function Gear(): seq<Field>
  {
    [ Field("gear_handle", GearHandle()),
      Field("master_avionics", OnOff()) ]
  }

  lemma GearSize()
    ensures FieldsSize(Gear()) == 8
  {
    GearHandleFacts();
    OnOffFacts();
  }

  lemma GearValid()
    ensures ValidFields(Gear()) && TagFree(Gear())
  {
    GearHandleFacts();
    OnOffFacts();
  }

  /** Radio frequencies and the weather the client imposes. */
  function Environment(): seq<Field>
  {
    Run(EnvironmentNames(), F64)
  }

  lemma EnvironmentSize()
    ensures FieldsSize(Environment()) == 88
  {
    RunSize(EnvironmentNames(), F64, 11, 8);
  }

  lemma EnvironmentValid()
    ensures ValidFields(Environment()) && TagFree(Environment())
  {
    RunFacts(EnvironmentNames(), F64);
  }

  /** Icing, the speed-up factor, the freeze word and the reserved block. */
  function Settings(): seq<Field>
  {
    [ Field("icing", U32),
      Field("speedup", U32),
      Field("freeze", BitFields(FreezeWidths())),
      Field("_reserved", Pad(4 * ReservedSpace)) ]
  }

  lemma SettingsSize()
    ensures FieldsSize(Settings()) == 112
  {
  }

  lemma SettingsValid()
    ensures ValidFields(Settings()) && TagFree(Settings())
  {
  }
  /** The engine controls: from flaps_power to fuel_pump_ok. */
  function Engines(): seq<Field>
  {
    Electrics() + Ignition() + Levers() + EngineControls() + EngineFlags() + EngineStatus()
  }

  lemma EnginesFacts()
    ensures FieldsSize(Engines()) == 352 && ValidFields(Engines()) && TagFree(Engines())
  {
    ElectricsSize(); ElectricsValid();
    IgnitionSize(); IgnitionValid();
    LeversSize(); LeversValid();
    EngineControlsSize(); EngineControlsValid();
    EngineFlagsSize(); EngineFlagsValid();
    EngineStatusSize(); EngineStatusValid();
    var a, b, c, d, e := Electrics(), Ignition(), Levers(), EngineControls(), EngineFlags();
    FieldsAppend(a, b);
    FieldsAppend(a + b, c);
    FieldsAppend(a + b + c, d);
    FieldsAppend(a + b + c + d, e);
    FieldsAppend(a + b + c + d + e, EngineStatus());
  }

  /** Fuel, brakes, gear, radios, weather and simulation settings. */
  function Systems(): seq<Field>
  {
    Fuel() + Brakes() + Gear() + Environment() + Settings()
  }

  lemma SystemsFacts()
    ensures FieldsSize(Systems()) == 312 && ValidFields(Systems()) && TagFree(Systems())
  {
    FuelSize(); FuelValid();
    BrakesSize(); BrakesValid();
    GearSize(); GearValid();
    EnvironmentSize(); EnvironmentValid();
    SettingsSize(); SettingsValid();
    var a, b, c, d := Fuel(), Brakes(), Gear(), Environment();
    FieldsAppend(a, b);
    FieldsAppend(a + b, c);
    FieldsAppend(a + b + c, d);
    FieldsAppend(a + b + c + d, Settings());
  }

  function Body(): seq<Field>
  {
    Engines() + Systems()
  }

  lemma BodyFacts()
    ensures FieldsSize(Body()) == 664 && ValidFields(Body()) && TagFree(Body())
  {
    EnginesFacts();
    SystemsFacts();
    FieldsAppend(Engines(), Systems());
  }

  function CtrlsLayout(): Layout
  {
    Layout(Big, Surfaces() + Body())
  }

  /** The table describes a 744-byte packet that starts with the tag 27 and holds no other tag. */
  lemma CtrlsTagged()
    ensures Size(CtrlsLayout()) == 744 && Tagged(CtrlsLayout(), 27)
  {
    SurfacesSize();
    SurfacesValid();
    BodyFacts();
    var s, b := Surfaces(), Body();
    FieldsAppend(s, b);
    TailAppend(s, b);
    FieldsAppend(s[1..], b);
  }

  /** Every Ctrls v27 packet starts with 00 00 00 1B. */
  lemma CtrlsTagBytes(b: seq<byte>)
    requires |b| >= 4
    ensures Uint(Big, b[..4]) == 27 <==> b[..4] == [0, 0, 0, 27]
  {
    TagBytes(Big, 27, b[..4]);
  }

  /** Parsing succeeds exactly on inputs of at least 744 bytes that start with 00 00 00 1B;
      a different tag fails the tag check and a short packet fails for lack of input. */
  lemma CtrlsDecodeOutcome(b: seq<byte>)
    ensures Decode(CtrlsLayout(), b).Ok? <==> |b| >= 744 && b[..4] == [0, 0, 0, 27]
    ensures |b| >= 4 && b[..4] != [0, 0, 0, 27] ==> Decode(CtrlsLayout(), b) == Err(ConstError)
    ensures |b| < 744 && (|b| < 4 || b[..4] == [0, 0, 0, 27]) ==> Decode(CtrlsLayout(), b) == Err(StreamError)
  {
    CtrlsTagged();
    DecodeTagged(CtrlsLayout(), 27, b);
    if |b| >= 4 {
      CtrlsTagBytes(b);
    }
  }

  /** Building a parsed packet reproduces its 744 bytes, the paddings and the reserved block included. */
  lemma CtrlsEncodeDecode(b: seq<byte>)
    requires |b| >= 744 && b[..4] == [0, 0, 0, 27]
    ensures Decode(CtrlsLayout(), b).Ok?
    ensures Encode(CtrlsLayout(), Decode(CtrlsLayout(), b).value) == Ok(b[..744])
  {
    CtrlsTagged();
    CtrlsDecodeOutcome(b);
    EncodeDecode(CtrlsLayout(), b);
  }

  /** A well-formed record builds to 744 bytes that parse back to it. */
  lemma CtrlsDecodeEncode(rec: Record, t: seq<byte>)
    requires WellFormed(CtrlsLayout(), rec)
    ensures Encode(CtrlsLayout(), rec).Ok? && |Encode(CtrlsLayout(), rec).value| == 744
    ensures Decode(CtrlsLayout(), Encode(CtrlsLayout(), rec).value + t) == Ok(rec)
  {
    CtrlsTagged();
    DecodeEncode(CtrlsLayout(), rec, t);
  }

  /** Where the fixed-count arrays and the gear handle sit in the table. */
  lemma CtrlsFieldPositions()
    ensures |CtrlsLayout().fields| == 59
    ensures CtrlsLayout().fields[14] == Field("master_bat", ArrayOf(MaxEngines, OnOff()))
    ensures CtrlsLayout().fields[15] == Field("master_alt", ArrayOf(MaxEngines, OnOff()))
    ensures CtrlsLayout().fields[16] == Field("magnetos", ArrayOf(MaxEngines, U32))
    ensures CtrlsLayout().fields[17] == Field("starter_power", ArrayOf(MaxEngines, OnOff()))
    ensures CtrlsLayout().fields[22] == Field("fuel_pump_power", ArrayOf(MaxEngines, OnOff()))
    ensures CtrlsLayout().fields[24] == Field("feed_tank_to", ArrayOf(4, U32))
    ensures CtrlsLayout().fields[25] == Field("reverse", ArrayOf(4, U32))
    ensures CtrlsLayout().fields[30] == Field("oil_press_status", ArrayOf(MaxEngines, OilPress()))
    ensures CtrlsLayout().fields[33] == Field("fuel_selector", ArrayOf(MaxTanks, OnOff()))
    ensures CtrlsLayout().fields[34] == Field("xfer_pump", ArrayOf(5, U32))
    ensures CtrlsLayout().fields[42] == Field("gear_handle", GearHandle())
  {
    var en, sy := Engines(), Systems();
    var a, b, c, d, e, f := Electrics(), Ignition(), Levers(), EngineControls(), EngineFlags(), EngineStatus();
    var g, h, i, j, k := Fuel(), Brakes(), Gear(), Environment(), Settings();
    assert |Surfaces()| == 11;
    assert |a| == 4 && |b| == 4 && |c| == 3 && |d| == 4 && |e| == 3 && |f| == 3;
    assert |g| == 4 && |h| == 6 && |i| == 2 && |j| == 11 && |k| == 4;
    assert en[3] == a[3] && en[4] == b[0] && en[5] == b[1] && en[6] == b[2] && en[11] == d[0];
    assert en[13] == d[2] && en[14] == d[3] && en[19] == f[1];
    assert sy[1] == g[1] && sy[2] == g[2] && sy[10] == i[0];
    assert CtrlsLayout().fields == Surfaces() + (en + sy);
  }

  /** In every well-formed record the switch arrays and magnetos hold 4 entries, fuel_selector 8,
      xfer_pump 5, and feed_tank_to and reverse 4 each, whatever num_engines and
      num_tanks say. */
  lemma CtrlsArrayCounts(rec: Record)
    requires WellFormed(CtrlsLayout(), rec)
    ensures rec[14].Items? && |rec[14].items| == 4
    ensures rec[15].Items? && |rec[15].items| == 4
    ensures rec[16].Items? && |rec[16].items| == 4
    ensures rec[17].Items? && |rec[17].items| == 4
    ensures rec[22].Items? && |rec[22].items| == 4
    ensures rec[24].Items? && |rec[24].items| == 4
    ensures rec[25].Items? && |rec[25].items| == 4
    ensures rec[30].Items? && |rec[30].items| == 4
    ensures rec[33].Items? && |rec[33].items| == 8
    ensures rec[34].Items? && |rec[34].items| == 5
  {
    CtrlsFieldPositions();
    ArrayCountFixed(CtrlsLayout(), rec, 14);
    ArrayCountFixed(CtrlsLayout(), rec, 15);
    ArrayCountFixed(CtrlsLayout(), rec, 16);
    ArrayCountFixed(CtrlsLayout(), rec, 17);
    ArrayCountFixed(CtrlsLayout(), rec, 22);
    ArrayCountFixed(CtrlsLayout(), rec, 24);
    ArrayCountFixed(CtrlsLayout(), rec, 25);
    ArrayCountFixed(CtrlsLayout(), rec, 30);
    ArrayCountFixed(CtrlsLayout(), rec, 33);
    ArrayCountFixed(CtrlsLayout(), rec, 34);
  }

  /** The switches build off and on as 0 and 1 and parse 0 and 1 back to them. */
  lemma OnOffCodes(x: nat)
    ensures CodeOf(OnOff().codes, "off") == Some(0) && CodeOf(OnOff().codes, "on") == Some(1)
    ensures NameOf(OnOff().codes, x) == if x == 0 then Some("off") else if x == 1 then Some("on") else None
  {
  }

  /** gear_handle builds up and down as 0 and 1 and parses 0 and 1 back to them. */
  lemma GearHandleCodes(x: nat)
    ensures CodeOf(GearHandle().codes, "up") == Some(0) && CodeOf(GearHandle().codes, "down") == Some(1)
    ensures NameOf(GearHandle().codes, x) == if x == 0 then Some("up") else if x == 1 then Some("down") else None
  {
  }

  /** oil_press_status builds normal, low and full_fail as 0, 1 and 2. */
  lemma OilPressBuildCodes()
    ensures CodeOf(OilPress().codes, "normal") == Some(0)
    ensures CodeOf(OilPress().codes, "low") == Some(1)
    ensures CodeOf(OilPress().codes, "full_fail") == Some(2)
  {
  }

  /** oil_press_status parses 0, 1 and 2 as normal, low and full_fail and leaves other codes numbers. */
  lemma OilPressParseCodes(x: nat)
    ensures NameOf(OilPress().codes, x) == if x == 0 then Some("normal") else if x == 1 then Some("low")
                                           else if x == 2 then Some("full_fail") else None
  {
  }

  // ---------------------------------------------------------------------
  // The freeze word
  // ---------------------------------------------------------------------

  lemma Pow2Of29()
    ensures Pow2(29) == TwoTo29
  {
    PowValues();
    Pow2Add(29, 3);
    assert Pow2(3) == 8;
  }

  lemma FreezeFit(o: nat, f: bit, p: bit, m: bit)
    requires o < TwoTo29
    ensures PartsFit(FreezeWidths(), [o, f, p, m])
  {
    Pow2Of29();
  }

  lemma FreezePack(o: nat, f: bit, p: bit, m: bit)
    requires o < TwoTo29
    ensures PartsFit(FreezeWidths(), [o, f, p, m]) && Pow2(29) == TwoTo29
    ensures Pack(FreezeWidths(), [o, f, p, m]) == ToBits(29, o) + [f] + [p] + [m]
  {
    Pow2Of29();
    FreezeFit(o, f, p, m);
    PackFour(FreezeWidths(), [o, f, p, m]);
    assert ToBits(1, m) == [m] && ToBits(1, p) == [p] && ToBits(1, f) == [f];
  }

  /** The bits of the freeze word weigh other by 8, fuel by 4, position by 2 and master by 1. */
  lemma FreezeBits(o: nat, f: bit, p: bit, m: bit)
    requires o < TwoTo29
    ensures PartsFit(FreezeWidths(), [o, f, p, m])
    ensures FromBits(Pack(FreezeWidths(), [o, f, p, m])) == o * 8 + f * 4 + p * 2 + m
  {
    FreezePack(o, f, p, m);
    var x := ToBits(29, o);
    Pow2Of29();
    BitsRoundTrip(29, o);
    FromBitsSnoc(x, f);
    FromBitsSnoc(x + [f], p);
    FromBitsSnoc(x + [f] + [p], m);
  }

  lemma FreezeWord(o: nat, f: bit, p: bit, m: bit)
    requires o < TwoTo29
    ensures PartsFit(FreezeWidths(), [o, f, p, m])
    ensures o * 8 + f * 4 + p * 2 + m < Pow256(4)
    ensures PackWord(FreezeWidths(), [o, f, p, m]) == ToBE(4, o * 8 + f * 4 + p * 2 + m)
  {
    FreezeBits(o, f, p, m);
    PowValues();
  }

  /** Building the freeze word puts `other` in the top 29 bits, then fuel, position and master:
      its value is other * 8 + fuel * 4 + position * 2 + master. */
  lemma FreezeBuild(o: nat, f: bit, p: bit, m: bit)
    requires o < TwoTo29
    ensures o * 8 + f * 4 + p * 2 + m < Pow256(4)
    ensures EncodeWord(Big, BitFields(FreezeWidths()), Flags([o, f, p, m]))
              == Ok(ToBE(4, o * 8 + f * 4 + p * 2 + m))
  {
    FreezeWord(o, f, p, m);
    EncodeBitFieldsWord(Big, FreezeWidths(), [o, f, p, m]);
  }

  lemma FreezeParts(w: seq<byte>)
    requires |w| == 4
    ensures var ps := UnpackWord(FreezeWidths(), w);
            |ps| == 4 && 0 <= ps[0] < TwoTo29 && 0 <= ps[1] < 2 && 0 <= ps[2] < 2 && 0 <= ps[3] < 2
            && FromBE(w) == ps[0] * 8 + ps[1] * 4 + ps[2] * 2 + ps[3]
  {
    var ws := FreezeWidths();
    PowValues();
    var x := FromBE(w);
    var bits := ToBits(32, x);
    var ps := Unpack(ws, bits);
    assert UnpackWord(ws, w) == ps;
    Pow2Of29();
    PackUnpack(ws, bits);
    assert bits[..32] == bits;
    BitsRoundTrip(32, x);
    assert ps == [ps[0], ps[1], ps[2], ps[3]];
    FreezeBits(ps[0], ps[1], ps[2], ps[3]);
  }

  /** Every freeze word parses, to a 29-bit `other` and three one-bit flags whose weighted
      sum is the word's value, so master is its least significant bit. */
  lemma FreezeParse(w: seq<byte>)
    requires |w| == 4
    ensures DecodeWord(Big, BitFields(FreezeWidths()), w).Ok?
    ensures var v := DecodeWord(Big, BitFields(FreezeWidths()), w).value;
            v.Flags? && |v.parts| == 4
            && 0 <= v.parts[0] < TwoTo29 && 0 <= v.parts[1] < 2 && 0 <= v.parts[2] < 2 && 0 <= v.parts[3] < 2
            && FromBE(w) == v.parts[0] * 8 + v.parts[1] * 4 + v.parts[2] * 2 + v.parts[3]
  {
    DecodeBitFieldsWord(Big, FreezeWidths(), w);
    FreezeParts(w);
  }
}
