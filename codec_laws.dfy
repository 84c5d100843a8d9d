/**
 * What the codec guarantees: which records build, that parsing a built
 * record gives it back (whatever follows it), that building a parsed record
 * gives back the bytes it was parsed from, and how parsing a tagged packet
 * fails.
 */
module CodecLaws {
  import opened Wrappers
  import opened Bytes
  import opened Codec

  // ---------------------------------------------------------------------
  // Sequence glue
  // ---------------------------------------------------------------------

  lemma AppendSplit<T>(h: seq<T>, t: seq<T>)
    ensures (h + t)[..|h|] == h && (h + t)[|h|..] == t
  {
  }

  lemma AppendAssoc<T>(whole: seq<T>, h: seq<T>, r: seq<T>, t: seq<T>)
    requires whole == h + r
    ensures whole + t == h + (r + t)
  {
  }

  lemma SliceJoin<T>(b: seq<T>, m: nat, n: nat)
    requires m + n <= |b|
    ensures b[..m] + b[m..][..n] == b[..m + n]
  {
  }

  // ---------------------------------------------------------------------
  // Which values build
  // ---------------------------------------------------------------------

  /** The values that building accepts for a field of kind `k`. */
  predicate Encodable(k: Kind, v: Value)
    decreases k
  {
    match k
    case Tag(t) => v == Int(t)
    case Pad(n) => v.Raw? && |v.bytes| == n
    case U32 => v.Int? && 0 <= v.i < TwoTo32
    case S32 => v.Int? && -TwoTo31 <= v.i < TwoTo31
    case F32 => v.Word? && v.bits < TwoTo32
    case F64 => v.Word? && v.bits < TwoTo64
    case Enum(codes) => (v.Int? && 0 <= v.i < TwoTo32) || (v.Sym? && CodeOf(codes, v.name).Some?)
    case ArrayOf(c, elem) =>
      v.Items? && |v.items| == c && forall i :: 0 <= i < c ==> Encodable(elem, v.items[i])
    case BitFields(ws) => v.Flags? && PartsFit(ws, v.parts)
  }

  /** A record that has one buildable value per field. */
  predicate Buildable(l: Layout, rec: Record)
  {
    |rec| == |l.fields| && forall i :: 0 <= i < |rec| ==> Encodable(l.fields[i].kind, rec[i])
  }

  lemma EncodeWordOk(e: Endian, k: Kind, v: Value)
    requires ValidKind(k) && !k.ArrayOf?
    ensures EncodeWord(e, k, v).Ok? <==> Encodable(k, v)
  {
    if k.Enum? && v.Sym? && CodeOf(k.codes, v.name).Some? {
      var i :| 0 <= i < |k.codes| && k.codes[i] == (v.name, CodeOf(k.codes, v.name).value);
    }
  }

  lemma {:induction false} EncodeKindOk(e: Endian, k: Kind, v: Value)
    requires ValidKind(k)
    ensures EncodeKind(e, k, v).Ok? <==> Encodable(k, v)
    decreases k, 0
  {
    if k.ArrayOf? {
      if v.Items? && |v.items| == k.count {
        EncodeItemsOk(e, k.elem, v.items);
      }
    } else {
      EncodeWordOk(e, k, v);
    }
  }

  lemma {:induction false} EncodeItemsOk(e: Endian, k: Kind, vs: seq<Value>)
    requires ValidKind(k)
    ensures EncodeItems(e, k, vs).Ok? <==> forall i :: 0 <= i < |vs| ==> Encodable(k, vs[i])
    decreases k, 1, |vs|
  {
    if vs != [] {
      EncodeKindOk(e, k, vs[0]);
      EncodeItemsOk(e, k, vs[1..]);
      assert forall i :: 1 <= i < |vs| ==> vs[i] == vs[1..][i - 1];
    }
  }

  lemma {:induction false} EncodeFieldsOk(e: Endian, fs: seq<Field>, rec: Record)
    requires ValidFields(fs)
    ensures EncodeFields(e, fs, rec).Ok? <==> Buildable(Layout(e, fs), rec)
  {
    if |rec| == |fs| && fs != [] {
      EncodeKindOk(e, fs[0].kind, rec[0]);
      EncodeFieldsOk(e, fs[1..], rec[1..]);
      assert forall i :: 1 <= i < |rec| ==> rec[i] == rec[1..][i - 1] && fs[i] == fs[1..][i - 1];
    }
  }

  /** Struct.build succeeds exactly on the records that have a buildable value for every
      field, and then yields Size(l) bytes. */
  lemma EncodeOk(l: Layout, rec: Record)
    requires ValidLayout(l)
    ensures Encode(l, rec).Ok? <==> Buildable(l, rec)
    ensures Encode(l, rec).Ok? ==> |Encode(l, rec).value| == Size(l)
  {
    EncodeFieldsOk(l.endian, l.fields, rec);
  }

  // ---------------------------------------------------------------------
  // Canonical values: the ones parsing produces
  // ---------------------------------------------------------------------

  /** Like Encodable, except that an enum code with a name must be given by its name,
      since parsing always turns such a code into its name. */
  predicate Canonical(k: Kind, v: Value)
    decreases k
  {
    match k
    case Enum(codes) =>
      (v.Int? && 0 <= v.i < TwoTo32 && NameOf(codes, v.i).None?)
      || (v.Sym? && CodeOf(codes, v.name).Some?)
    case ArrayOf(c, elem) =>
      v.Items? && |v.items| == c && forall i :: 0 <= i < c ==> Canonical(elem, v.items[i])
    case _ => Encodable(k, v)
  }

  /** One canonical value per field. */
  predicate WellFormed(l: Layout, rec: Record)
  {
    |rec| == |l.fields| && forall i :: 0 <= i < |rec| ==> Canonical(l.fields[i].kind, rec[i])
  }

  lemma WellFormedTail(e: Endian, fs: seq<Field>, rec: Record)
    requires fs != [] && WellFormed(Layout(e, fs), rec)
    ensures Canonical(fs[0].kind, rec[0]) && WellFormed(Layout(e, fs[1..]), rec[1..])
  {
    assert forall i :: 0 <= i < |rec| - 1 ==> rec[1..][i] == rec[i + 1] && fs[1..][i] == fs[i + 1];
  }

  lemma WellFormedCons(e: Endian, fs: seq<Field>, v: Value, rec: Record)
    requires fs != [] && |rec| == |fs| - 1
    requires Canonical(fs[0].kind, v) && WellFormed(Layout(e, fs[1..]), rec)
    ensures WellFormed(Layout(e, fs), [v] + rec)
  {
    var all := [v] + rec;
    assert forall i :: 1 <= i < |all| ==> all[i] == rec[i - 1] && fs[i] == fs[1..][i - 1];
  }

  // ---------------------------------------------------------------------
  // One step of each recursion, stated apart so that the inductive proofs
  // below need not unfold the codec
  // ---------------------------------------------------------------------

  lemma DecodeKindWord(e: Endian, k: Kind, w: seq<byte>, t: seq<byte>, v: Value)
    requires !k.ArrayOf? && |w| == KindSize(k) && DecodeWord(e, k, w) == Ok(v)
    ensures DecodeKind(e, k, w + t) == Ok((v, t))
  {
    AppendSplit(w, t);
  }

  lemma EncodeItemsCons(e: Endian, k: Kind, vs: seq<Value>)
    requires vs != [] && EncodeKind(e, k, vs[0]).Ok? && EncodeItems(e, k, vs[1..]).Ok?
    ensures EncodeItems(e, k, vs) == Ok(EncodeKind(e, k, vs[0]).value + EncodeItems(e, k, vs[1..]).value)
  {
  }

  lemma DecodeItemsCons(e: Endian, k: Kind, b: seq<byte>, rest: seq<byte>, vs: seq<Value>, t: seq<byte>)
    requires vs != [] && DecodeKind(e, k, b) == Ok((vs[0], rest))
    requires DecodeItems(e, k, |vs| - 1, rest) == Ok((vs[1..], t))
    ensures DecodeItems(e, k, |vs|, b) == Ok((vs, t))
  {
    assert [vs[0]] + vs[1..] == vs;
  }

  lemma DecodeItemsUncons(e: Endian, k: Kind, c: nat, b: seq<byte>)
    requires c > 0 && DecodeItems(e, k, c, b).Ok?
    ensures DecodeKind(e, k, b).Ok?
    ensures DecodeItems(e, k, c - 1, DecodeKind(e, k, b).value.1).Ok?
    ensures DecodeItems(e, k, c, b).value.0
         == [DecodeKind(e, k, b).value.0] + DecodeItems(e, k, c - 1, DecodeKind(e, k, b).value.1).value.0
    ensures ItemsSize(c, k) == KindSize(k) + ItemsSize(c - 1, k) <= |b|
  {
  }

  lemma ItemsJoin(e: Endian, k: Kind, c: nat, b: seq<byte>, v: Value, vs: seq<Value>, rest: seq<byte>)
    requires c > 0 && |vs| == c - 1 && ItemsSize(c, k) == KindSize(k) + ItemsSize(c - 1, k) <= |b|
    requires rest == b[KindSize(k)..]
    requires Canonical(k, v) && EncodeKind(e, k, v) == Ok(b[..KindSize(k)])
    requires forall i :: 0 <= i < c - 1 ==> Canonical(k, vs[i])
    requires EncodeItems(e, k, vs) == Ok(rest[..ItemsSize(c - 1, k)])
    ensures forall i :: 0 <= i < c ==> Canonical(k, ([v] + vs)[i])
    ensures EncodeItems(e, k, [v] + vs) == Ok(b[..ItemsSize(c, k)])
  {
    var all := [v] + vs;
    assert all[0] == v && all[1..] == vs;
    EncodeItemsCons(e, k, all);
    SliceJoin(b, KindSize(k), ItemsSize(c - 1, k));
  }

  lemma EncodeFieldsCons(e: Endian, fs: seq<Field>, rec: Record)
    requires fs != [] && |rec| == |fs|
    requires EncodeKind(e, fs[0].kind, rec[0]).Ok? && EncodeFields(e, fs[1..], rec[1..]).Ok?
    ensures EncodeFields(e, fs, rec)
         == Ok(EncodeKind(e, fs[0].kind, rec[0]).value + EncodeFields(e, fs[1..], rec[1..]).value)
  {
  }

  lemma DecodeFieldsCons(e: Endian, fs: seq<Field>, b: seq<byte>, rest: seq<byte>, rec: Record, t: seq<byte>)
    requires fs != [] && |rec| == |fs| && DecodeKind(e, fs[0].kind, b) == Ok((rec[0], rest))
    requires DecodeFields(e, fs[1..], rest) == Ok((rec[1..], t))
    ensures DecodeFields(e, fs, b) == Ok((rec, t))
  {
    assert [rec[0]] + rec[1..] == rec;
  }

  lemma DecodeFieldsUncons(e: Endian, fs: seq<Field>, b: seq<byte>)
    requires fs != [] && DecodeFields(e, fs, b).Ok?
    ensures DecodeKind(e, fs[0].kind, b).Ok?
    ensures DecodeFields(e, fs[1..], DecodeKind(e, fs[0].kind, b).value.1).Ok?
    ensures DecodeFields(e, fs, b).value.0
         == [DecodeKind(e, fs[0].kind, b).value.0]
            + DecodeFields(e, fs[1..], DecodeKind(e, fs[0].kind, b).value.1).value.0
    ensures FieldsSize(fs) == KindSize(fs[0].kind) + FieldsSize(fs[1..]) <= |b|
  {
  }

  lemma FieldsJoin(e: Endian, fs: seq<Field>, b: seq<byte>, v: Value, rec: Record, rest: seq<byte>)
    requires fs != [] && |rec| == |fs| - 1 && FieldsSize(fs) == KindSize(fs[0].kind) + FieldsSize(fs[1..]) <= |b|
    requires rest == b[KindSize(fs[0].kind)..]
    requires EncodeKind(e, fs[0].kind, v) == Ok(b[..KindSize(fs[0].kind)])
    requires EncodeFields(e, fs[1..], rec) == Ok(rest[..FieldsSize(fs[1..])])
    ensures EncodeFields(e, fs, [v] + rec) == Ok(b[..FieldsSize(fs)])
  {
    var all := [v] + rec;
    assert all[0] == v && all[1..] == rec;
    EncodeFieldsCons(e, fs, all);
    SliceJoin(b, KindSize(fs[0].kind), FieldsSize(fs[1..]));
  }

  // ---------------------------------------------------------------------
  // Parsing a built record
  // ---------------------------------------------------------------------

  lemma DecodeEncodeEnum(e: Endian, codes: seq<(string, nat)>, v: Value)
    requires ValidCodes(codes) && Canonical(Enum(codes), v)
    ensures EncodeWord(e, Enum(codes), v).Ok?
    ensures DecodeWord(e, Enum(codes), EncodeWord(e, Enum(codes), v).value) == Ok(v)
  {
    PowValues();
    if v.Int? {
      UintRoundTrip(e, 4, v.i);
    } else {
      var c := CodeOf(codes, v.name).value;
      var i :| 0 <= i < |codes| && codes[i] == (v.name, c);
      UintRoundTrip(e, 4, c);
      EnumTableInverse(codes, v.name, c);
    }
  }

  lemma DecodeEncodeBitFields(e: Endian, ws: seq<nat>, v: Value)
    requires Sum(ws) == 32 && Canonical(BitFields(ws), v)
    ensures EncodeWord(e, BitFields(ws), v).Ok?
    ensures DecodeWord(e, BitFields(ws), EncodeWord(e, BitFields(ws), v).value) == Ok(v)
  {
    PowValues();
    var s := Pack(ws, v.parts);
    BERoundTrip(4, FromBits(s));
    BitStringRoundTrip(s);
    UnpackPack(ws, v.parts);
    assert UnpackWord(ws, PackWord(ws, v.parts)) == v.parts;
  }

  /** Parsing the bytes of a non-array field gives back its value. */
  lemma DecodeEncodeWord(e: Endian, k: Kind, v: Value)
    requires ValidKind(k) && !k.ArrayOf? && Canonical(k, v)
    ensures EncodeWord(e, k, v).Ok?
    ensures DecodeWord(e, k, EncodeWord(e, k, v).value) == Ok(v)
  {
    PowValues();
    match k
    case Tag(tag) => UintRoundTrip(e, 4, tag);
    case Pad(_) =>
    case U32 => UintRoundTrip(e, 4, v.i);
    case S32 => UintRoundTrip(e, 4, FromSigned32(v.i));
    case F32 => UintRoundTrip(e, 4, v.bits);
    case F64 => UintRoundTrip(e, 8, v.bits);
    case Enum(codes) => DecodeEncodeEnum(e, codes, v);
    case BitFields(ws) => DecodeEncodeBitFields(e, ws, v);
  }

  lemma {:induction false} DecodeEncodeKind(e: Endian, k: Kind, v: Value, t: seq<byte>)
    requires ValidKind(k) && Canonical(k, v)
    ensures EncodeKind(e, k, v).Ok?
    ensures DecodeKind(e, k, EncodeKind(e, k, v).value + t) == Ok((v, t))
    decreases k, 0
  {
    if k.ArrayOf? {
      DecodeEncodeItems(e, k.elem, v.items, t);
    } else {
      DecodeEncodeWord(e, k, v);
      DecodeKindWord(e, k, EncodeWord(e, k, v).value, t, v);
    }
  }

  lemma {:induction false} DecodeEncodeItems(e: Endian, k: Kind, vs: seq<Value>, t: seq<byte>)
    requires ValidKind(k) && forall i :: 0 <= i < |vs| ==> Canonical(k, vs[i])
    ensures EncodeItems(e, k, vs).Ok?
    ensures DecodeItems(e, k, |vs|, EncodeItems(e, k, vs).value + t) == Ok((vs, t))
    decreases k, 1, |vs|
  {
    if vs != [] {
      DecodeEncodeItems(e, k, vs[1..], t);
      var r := EncodeItems(e, k, vs[1..]).value;
      DecodeEncodeKind(e, k, vs[0], r + t);
      EncodeItemsCons(e, k, vs);
      var enc := EncodeItems(e, k, vs).value;
      AppendAssoc(enc, EncodeKind(e, k, vs[0]).value, r, t);
      DecodeItemsCons(e, k, enc + t, r + t, vs, t);
    }
  }

  lemma {:induction false} DecodeEncodeFields(e: Endian, fs: seq<Field>, rec: Record, t: seq<byte>)
    requires ValidFields(fs) && WellFormed(Layout(e, fs), rec)
    ensures EncodeFields(e, fs, rec).Ok?
    ensures DecodeFields(e, fs, EncodeFields(e, fs, rec).value + t) == Ok((rec, t))
  {
    if fs != [] {
      WellFormedTail(e, fs, rec);
      DecodeEncodeFields(e, fs[1..], rec[1..], t);
      var r := EncodeFields(e, fs[1..], rec[1..]).value;
      DecodeEncodeKind(e, fs[0].kind, rec[0], r + t);
      EncodeFieldsCons(e, fs, rec);
      var enc := EncodeFields(e, fs, rec).value;
      AppendAssoc(enc, EncodeKind(e, fs[0].kind, rec[0]).value, r, t);
      DecodeFieldsCons(e, fs, enc + t, r + t, rec, t);
    }
  }

  /** Parsing a built record gives it back, whatever bytes follow it. */
  lemma DecodeEncode(l: Layout, rec: Record, t: seq<byte>)
    requires ValidLayout(l) && WellFormed(l, rec)
    ensures Encode(l, rec).Ok?
    ensures Decode(l, Encode(l, rec).value + t) == Ok(rec)
  {
    DecodeEncodeFields(l.endian, l.fields, rec, t);
  }

  // ---------------------------------------------------------------------
  // Building a parsed record
  // ---------------------------------------------------------------------

  lemma EncodeDecodeEnum(e: Endian, codes: seq<(string, nat)>, w: seq<byte>)
    requires ValidCodes(codes) && |w| == 4 && DecodeWord(e, Enum(codes), w).Ok?
    ensures Canonical(Enum(codes), DecodeWord(e, Enum(codes), w).value)
    ensures EncodeWord(e, Enum(codes), DecodeWord(e, Enum(codes), w).value) == Ok(w)
  {
    PowValues();
    var x := Uint(e, w);
    UintBytesRoundTrip(e, w);
    if NameOf(codes, x).Some? {
      EnumTableInverse(codes, NameOf(codes, x).value, x);
    }
  }

  lemma EncodeDecodeBitFields(e: Endian, ws: seq<nat>, w: seq<byte>)
    requires Sum(ws) == 32 && |w| == 4 && DecodeWord(e, BitFields(ws), w).Ok?
    ensures Canonical(BitFields(ws), DecodeWord(e, BitFields(ws), w).value)
    ensures EncodeWord(e, BitFields(ws), DecodeWord(e, BitFields(ws), w).value) == Ok(w)
  {
    PowValues();
    var s := ToBits(32, FromBE(w));
    PackUnpack(ws, s);
    assert s[..Sum(ws)] == s;
    BitsRoundTrip(32, FromBE(w));
    BEBytesRoundTrip(w);
    assert PackWord(ws, UnpackWord(ws, w)) == w;
  }

  /** Building the value parsed from the bytes of a non-array field gives back those bytes. */
  lemma EncodeDecodeWord(e: Endian, k: Kind, w: seq<byte>)
    requires ValidKind(k) && !k.ArrayOf? && |w| == KindSize(k) && DecodeWord(e, k, w).Ok?
    ensures Canonical(k, DecodeWord(e, k, w).value)
    ensures EncodeWord(e, k, DecodeWord(e, k, w).value) == Ok(w)
  {
    PowValues();
    match k
    case Tag(_) => UintBytesRoundTrip(e, w);
    case Pad(_) =>
    case U32 => UintBytesRoundTrip(e, w);
    case S32 => UintBytesRoundTrip(e, w);
    case F32 => UintBytesRoundTrip(e, w);
    case F64 => UintBytesRoundTrip(e, w);
    case Enum(codes) => EncodeDecodeEnum(e, codes, w);
    case BitFields(ws) => EncodeDecodeBitFields(e, ws, w);
  }

  lemma {:induction false} EncodeDecodeKind(e: Endian, k: Kind, b: seq<byte>)
    requires ValidKind(k) && DecodeKind(e, k, b).Ok?
    ensures Canonical(k, DecodeKind(e, k, b).value.0)
    ensures EncodeKind(e, k, DecodeKind(e, k, b).value.0) == Ok(b[..KindSize(k)])
    decreases k, 0
  {
    if k.ArrayOf? {
      EncodeDecodeItems(e, k.elem, k.count, b);
    } else {
      EncodeDecodeWord(e, k, b[..KindSize(k)]);
    }
  }

  lemma {:induction false} EncodeDecodeItems(e: Endian, k: Kind, c: nat, b: seq<byte>)
    requires ValidKind(k) && DecodeItems(e, k, c, b).Ok?
    ensures forall i :: 0 <= i < c ==> Canonical(k, DecodeItems(e, k, c, b).value.0[i])
    ensures EncodeItems(e, k, DecodeItems(e, k, c, b).value.0) == Ok(b[..ItemsSize(c, k)])
    decreases k, 1, c
  {
    if c > 0 {
      DecodeItemsUncons(e, k, c, b);
      var p := DecodeKind(e, k, b).value;
      EncodeDecodeKind(e, k, b);
      EncodeDecodeItems(e, k, c - 1, p.1);
      ItemsJoin(e, k, c, b, p.0, DecodeItems(e, k, c - 1, p.1).value.0, p.1);
    }
  }

  lemma {:induction false} EncodeDecodeFields(e: Endian, fs: seq<Field>, b: seq<byte>)
    requires ValidFields(fs) && DecodeFields(e, fs, b).Ok?
    ensures WellFormed(Layout(e, fs), DecodeFields(e, fs, b).value.0)
    ensures EncodeFields(e, fs, DecodeFields(e, fs, b).value.0) == Ok(b[..FieldsSize(fs)])
  {
    if fs != [] {
      DecodeFieldsUncons(e, fs, b);
      var p := DecodeKind(e, fs[0].kind, b).value;
      EncodeDecodeKind(e, fs[0].kind, b);
      EncodeDecodeFields(e, fs[1..], p.1);
      var rec := DecodeFields(e, fs[1..], p.1).value.0;
      WellFormedCons(e, fs, p.0, rec);
      FieldsJoin(e, fs, b, p.0, rec, p.1);
    }
  }

  /** A parsed record is well formed, and building it gives back the bytes it was parsed from. */
  lemma EncodeDecode(l: Layout, b: seq<byte>)
    requires ValidLayout(l) && Decode(l, b).Ok?
    ensures WellFormed(l, Decode(l, b).value)
    ensures Encode(l, Decode(l, b).value) == Ok(b[..Size(l)])
  {
    EncodeDecodeFields(l.endian, l.fields, b);
  }

  // ---------------------------------------------------------------------
  // How parsing fails
  // ---------------------------------------------------------------------

  /** A field that holds no tag parses from any bytes of its size. */
  lemma DecodeWordNoTag(e: Endian, k: Kind, w: seq<byte>)
    requires ValidKind(k) && NoTag(k) && !k.ArrayOf? && |w| == KindSize(k)
    ensures DecodeWord(e, k, w).Ok?
  {
  }

  lemma {:induction false} DecodeKindLength(e: Endian, k: Kind, b: seq<byte>)
    requires ValidKind(k) && NoTag(k)
    ensures DecodeKind(e, k, b).Ok? <==> KindSize(k) <= |b|
    ensures !DecodeKind(e, k, b).Ok? ==> DecodeKind(e, k, b) == Err(StreamError)
    decreases k, 0
  {
    if k.ArrayOf? {
      DecodeItemsLength(e, k.elem, k.count, b);
    } else if KindSize(k) <= |b| {
      DecodeWordNoTag(e, k, b[..KindSize(k)]);
    }
  }

  lemma {:induction false} DecodeItemsLength(e: Endian, k: Kind, c: nat, b: seq<byte>)
    requires ValidKind(k) && NoTag(k)
    ensures DecodeItems(e, k, c, b).Ok? <==> ItemsSize(c, k) <= |b|
    ensures !DecodeItems(e, k, c, b).Ok? ==> DecodeItems(e, k, c, b) == Err(StreamError)
    decreases k, 1, c
  {
    if c > 0 {
      DecodeKindLength(e, k, b);
      if KindSize(k) <= |b| {
        DecodeItemsLength(e, k, c - 1, b[KindSize(k)..]);
      }
    }
  }

  /** A table without tags parses exactly when the input is long enough, and
      otherwise fails for lack of input. */
  lemma {:induction false} DecodeFieldsLength(e: Endian, fs: seq<Field>, b: seq<byte>)
    requires ValidFields(fs) && TagFree(fs)
    ensures DecodeFields(e, fs, b).Ok? <==> FieldsSize(fs) <= |b|
    ensures !DecodeFields(e, fs, b).Ok? ==> DecodeFields(e, fs, b) == Err(StreamError)
  {
    if fs != [] {
      DecodeKindLength(e, fs[0].kind, b);
      if KindSize(fs[0].kind) <= |b| {
        DecodeFieldsLength(e, fs[1..], b[KindSize(fs[0].kind)..]);
      }
    }
  }

  /** The three ways a packet whose layout starts with a version tag parses:
      fewer than four bytes fail for lack of input, a different version fails
      the tag check, and a matching version parses exactly when the whole
      packet is present. */
  lemma DecodeTagged(l: Layout, tag: nat, b: seq<byte>)
    requires Tagged(l, tag)
    ensures |b| < 4 ==> Decode(l, b) == Err(StreamError)
    ensures 4 <= |b| && Uint(l.endian, b[..4]) != tag ==> Decode(l, b) == Err(ConstError)
    ensures 4 <= |b| && Uint(l.endian, b[..4]) == tag ==>
              (Decode(l, b).Ok? <==> Size(l) <= |b|)
              && (|b| < Size(l) ==> Decode(l, b) == Err(StreamError))
    ensures Decode(l, b).Ok? <==> Size(l) <= |b| && Uint(l.endian, b[..4]) == tag
  {
    var fs := l.fields;
    assert FieldsSize(fs) == 4 + FieldsSize(fs[1..]);
    if 4 <= |b| {
      DecodeFieldsLength(l.endian, fs[1..], b[4..]);
    }
  }

  /** Four bytes carry the tag exactly when they are the tag's own encoding. */
  lemma TagBytes(e: Endian, tag: nat, w: seq<byte>)
    requires tag < TwoTo32 && |w| == 4
    ensures Uint(e, w) == tag <==> w == Word32(e, tag)
  {
    PowValues();
    UintBytesRoundTrip(e, w);
    UintRoundTrip(e, 4, tag);
  }

  /** The number of elements of an array field is fixed by the layout, not by the record. */
  lemma ArrayCountFixed(l: Layout, rec: Record, i: nat)
    requires WellFormed(l, rec) && i < |l.fields| && l.fields[i].kind.ArrayOf?
    ensures rec[i].Items? && |rec[i].items| == l.fields[i].kind.count
  {
  }

  /** Parsed 32-bit integers lie in the range of their type: signed for S32, unsigned otherwise. */
  lemma DecodeWordRange(e: Endian, k: Kind, w: seq<byte>)
    requires (k == U32 || k == S32) && |w| == 4
    ensures DecodeWord(e, k, w).Ok? && DecodeWord(e, k, w).value.Int?
    ensures k == U32 ==> 0 <= DecodeWord(e, k, w).value.i < TwoTo32
    ensures k == S32 ==> -TwoTo31 <= DecodeWord(e, k, w).value.i < TwoTo31
    ensures k == S32 ==> DecodeWord(e, k, w).value.i % TwoTo32 == Uint(e, w)
  {
    PowValues();
  }

  /** A BitStruct value whose fields fit their widths builds to its packed word. */
  lemma EncodeBitFieldsWord(e: Endian, ws: seq<nat>, ps: seq<int>)
    requires Sum(ws) == 32 && PartsFit(ws, ps)
    ensures EncodeWord(e, BitFields(ws), Flags(ps)) == Ok(PackWord(ws, ps))
  {
  }

  /** A BitStruct word always parses, to its unpacked fields. */
  lemma DecodeBitFieldsWord(e: Endian, ws: seq<nat>, w: seq<byte>)
    requires Sum(ws) == 32 && |w| == 4
    ensures DecodeWord(e, BitFields(ws), w) == Ok(Flags(UnpackWord(ws, w)))
  {
  }
}
