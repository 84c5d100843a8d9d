/**
 * A generic fixed-layout binary record codec: the part of the construct
 * library that the FlightGear packet tables (FDM v25, Controls v27, GUI v8)
 * use. A layout is an ordered table of fields; a record is one value per
 * field, in table order. Parsing reads the fields one after another from the
 * front of the input and ignores whatever follows the last field; building
 * concatenates the encodings of the fields.
 */
module Codec {
  import opened Wrappers
  import opened Bytes

  /** The exceptions of the construct library that parsing and building raise. */
  datatype Error =
    | StreamError   // input shorter than the field, or raw bytes of the wrong length
    | ConstError    // a version tag that differs from the layout's constant
    | MappingError  // an enum value that is neither an integer nor a known symbol
    | RangeError    // an array with the wrong number of elements
    | FormatError   // a value of the wrong shape, or outside its field's range
    | KeyError      // a record that does not have one value per field

  /** The field types the packet tables use. Integers and floats are 32 bits wide
      except F64; the byte order is the layout's. */
  datatype Kind =
    | Tag(tag: nat)                     // Const(tag, Int32): the version field
    | Pad(len: nat)                     // Bytes(len): raw padding
    | U32                               // Int32ub / Int32ul
    | S32                               // Int32sb
    | F32                               // Float32: an opaque 4-byte IEEE word
    | F64                               // Float64: an opaque 8-byte IEEE word
    | Enum(codes: seq<(string, nat)>)   // Enum(Int32, name=code, ...)
    | ArrayOf(count: nat, elem: Kind)   // Array(count, elem)
    | BitFields(widths: seq<nat>)       // BitStruct over one 32-bit word, first field most significant

  datatype Field = Field(name: string, kind: Kind)

  datatype Layout = Layout(endian: Endian, fields: seq<Field>)

  /** Decoded field values. Floats stay bit patterns (Word); an enum code with a
      name decodes to Sym, any other code to Int, as construct's EnumInteger. */
  datatype Value =
    | Int(i: int)
    | Word(bits: nat)
    | Raw(bytes: seq<byte>)
    | Sym(name: string)
    | Items(items: seq<Value>)
    | Flags(parts: seq<int>)

  /** One value per field of the layout, in table order. */
  type Record = seq<Value>

  const TwoTo64: int := 0x1_0000_0000_0000_0000

  lemma PowValues()
    ensures Pow256(4) == TwoTo32 && Pow256(8) == TwoTo64 && Pow2(32) == TwoTo32
  {
    Pow2Bytes(4);
  }

  // ---------------------------------------------------------------------
  // Enum tables
  // ---------------------------------------------------------------------

  /** The code of a symbol (construct's encmapping). */
  function CodeOf(codes: seq<(string, nat)>, name: string): (r: Option<nat>)
    ensures r.Some? ==> exists i :: 0 <= i < |codes| && codes[i] == (name, r.value)
    ensures r.None? ==> forall i :: 0 <= i < |codes| ==> codes[i].0 != name
  {
    if codes == [] then None
    else if codes[0].0 == name then Some(codes[0].1)
    else
      var r := CodeOf(codes[1..], name);
      assert r.Some? ==> exists i :: 0 <= i < |codes[1..]| && codes[1..][i] == (name, r.value);
      r
  }

  /** The symbol of a code (construct's decmapping). */
  function NameOf(codes: seq<(string, nat)>, code: nat): (r: Option<string>)
    ensures r.Some? ==> exists i :: 0 <= i < |codes| && codes[i] == (r.value, code)
    ensures r.None? ==> forall i :: 0 <= i < |codes| ==> codes[i].1 != code
  {
    if codes == [] then None
    else if codes[0].1 == code then Some(codes[0].0)
    else
      var r := NameOf(codes[1..], code);
      assert r.Some? ==> exists i :: 0 <= i < |codes[1..]| && codes[1..][i] == (r.value, code);
      r
  }

  /** Names and codes are each distinct, and every code fits 32 bits. */
  predicate ValidCodes(codes: seq<(string, nat)>)
  {
    && (forall i, j :: 0 <= i < j < |codes| ==> codes[i].0 != codes[j].0 && codes[i].1 != codes[j].1)
    && (forall i :: 0 <= i < |codes| ==> codes[i].1 < TwoTo32)
  }

  /** In a valid table a symbol and its code determine each other. */
  lemma EnumTableInverse(codes: seq<(string, nat)>, name: string, code: nat)
    requires ValidCodes(codes)
    ensures CodeOf(codes, name) == Some(code) <==> NameOf(codes, code) == Some(name)
  {
    if CodeOf(codes, name) == Some(code) {
      var i :| 0 <= i < |codes| && codes[i] == (name, code);
      var n := NameOf(codes, code);
      if n.Some? {
        var j :| 0 <= j < |codes| && codes[j] == (n.value, code);
        assert i == j;
      }
    }
    if NameOf(codes, code) == Some(name) {
      var i :| 0 <= i < |codes| && codes[i] == (name, code);
      var c := CodeOf(codes, name);
      if c.Some? {
        var j :| 0 <= j < |codes| && codes[j] == (name, c.value);
        assert i == j;
      }
    }
  }

  // ---------------------------------------------------------------------
  // Sizes and well-formed layouts
  // ---------------------------------------------------------------------

  function KindSize(k: Kind): nat
    decreases k, 1
  {
    match k
    case Tag(_) => 4
    case Pad(n) => n
    case U32 => 4
    case S32 => 4
    case F32 => 4
    case F64 => 8
    case Enum(_) => 4
    case ArrayOf(c, elem) => ItemsSize(c, elem)
    case BitFields(_) => 4
  }

  /** The size of `c` consecutive elements of kind `k`. */
  function ItemsSize(c: nat, k: Kind): nat
    decreases k, 2, c
  {
    if c == 0 then 0 else KindSize(k) + ItemsSize(c - 1, k)
  }

  function FieldsSize(fs: seq<Field>): nat
  {
    if fs == [] then 0 else KindSize(fs[0].kind) + FieldsSize(fs[1..])
  }

  function Size(l: Layout): nat
  {
    FieldsSize(l.fields)
  }

  predicate ValidKind(k: Kind)
  {
    match k
    case Tag(t) => t < TwoTo32
    case Enum(codes) => ValidCodes(codes)
    case ArrayOf(_, elem) => ValidKind(elem)
    case BitFields(ws) => Sum(ws) == 32
    case _ => true
  }

  predicate ValidFields(fs: seq<Field>)
  {
    fs == [] || (ValidKind(fs[0].kind) && ValidFields(fs[1..]))
  }

  predicate ValidLayout(l: Layout)
  {
    ValidFields(l.fields)
  }

  /** Kinds that hold no version tag: parsing them can fail only for lack of input. */
  predicate NoTag(k: Kind)
  {
    match k
    case Tag(_) => false
    case ArrayOf(_, elem) => NoTag(elem)
    case _ => true
  }

  predicate TagFree(fs: seq<Field>)
  {
    fs == [] || (NoTag(fs[0].kind) && TagFree(fs[1..]))
  }

  /** A layout whose first field is the version tag `tag` and whose other fields hold none. */
  predicate Tagged(l: Layout, tag: nat)
  {
    && ValidLayout(l)
    && |l.fields| > 0
    && l.fields[0].kind == Tag(tag)
    && TagFree(l.fields[1..])
  }

  /** A run of consecutive fields that share one kind. */
  function Run(names: seq<string>, k: Kind): (fs: seq<Field>)
    ensures |fs| == |names|
    ensures forall i :: 0 <= i < |names| ==> fs[i] == Field(names[i], k)
  {
    seq(|names|, i requires 0 <= i < |names| => Field(names[i], k))
  }

  lemma {:induction false} RunFacts(names: seq<string>, k: Kind)
    ensures FieldsSize(Run(names, k)) == |names| * KindSize(k)
    ensures ValidKind(k) ==> ValidFields(Run(names, k))
    ensures NoTag(k) ==> TagFree(Run(names, k))
  {
    if names != [] {
      assert Run(names, k)[1..] == Run(names[1..], k);
      RunFacts(names[1..], k);
    }
  }

  /** The size of a run whose length and element size are known. */
  lemma RunSize(names: seq<string>, k: Kind, n: nat, w: nat)
    requires |names| == n && KindSize(k) == w
    ensures FieldsSize(Run(names, k)) == n * w
  {
    RunFacts(names, k);
  }

  lemma TailAppend<T>(a: seq<T>, b: seq<T>)
    requires a != []
    ensures (a + b)[0] == a[0] && (a + b)[1..] == a[1..] + b
  {
  }

  /** An array of c elements takes c times the room of one. */
  lemma {:induction false} ItemsSizeIs(c: nat, k: Kind)
    ensures ItemsSize(c, k) == c * KindSize(k)
  {
    if c > 0 {
      ItemsSizeIs(c - 1, k);
    }
  }

  /** Size, validity and tag-freedom of a table are those of its parts. */
  lemma {:induction false} FieldsAppend(a: seq<Field>, b: seq<Field>)
    ensures FieldsSize(a + b) == FieldsSize(a) + FieldsSize(b)
    ensures ValidFields(a + b) <==> ValidFields(a) && ValidFields(b)
    ensures TagFree(a + b) <==> TagFree(a) && TagFree(b)
  {
    if a == [] {
      assert a + b == b;
    } else {
      assert (a + b)[1..] == a[1..] + b;
      FieldsAppend(a[1..], b);
    }
  }

  // ---------------------------------------------------------------------
  // Parsing
  // ---------------------------------------------------------------------

  /** The 32-bit word in a layout's byte order. */
  function Word32(e: Endian, x: nat): (b: seq<byte>)
    requires x < TwoTo32
    ensures |b| == 4
  {
    PowValues();
    UintBytes(e, 4, x)
  }

  /** The fields of a BitStruct word, most significant first. */
  function UnpackWord(ws: seq<nat>, chunk: seq<byte>): (parts: seq<int>)
    requires Sum(ws) == 32 && |chunk| == 4
    ensures PartsFit(ws, parts)
  {
    PowValues();
    Unpack(ws, ToBits(32, FromBE(chunk)))
  }

  /** The BitStruct word holding `parts`. */
  function PackWord(ws: seq<nat>, parts: seq<int>): (chunk: seq<byte>)
    requires Sum(ws) == 32 && PartsFit(ws, parts)
    ensures |chunk| == 4
  {
    PowValues();
    ToBE(4, FromBits(Pack(ws, parts)))
  }

  /** Parse one field that is not an array from exactly its own bytes. */
  function DecodeWord(e: Endian, k: Kind, chunk: seq<byte>): Result<Value, Error>
    requires !k.ArrayOf? && |chunk| == KindSize(k)
  {
    match k
    case Tag(t) => if Uint(e, chunk) == t then Ok(Int(t)) else Err(ConstError)
    case Pad(_) => Ok(Raw(chunk))
    case U32 => Ok(Int(Uint(e, chunk)))
    case S32 => PowValues(); Ok(Int(ToSigned32(Uint(e, chunk))))
    case F32 => Ok(Word(Uint(e, chunk)))
    case F64 => Ok(Word(Uint(e, chunk)))
    case Enum(codes) =>
      var x := Uint(e, chunk);
      Ok(match NameOf(codes, x) { case Some(n) => Sym(n) case None => Int(x) })
    case BitFields(ws) =>
      if Sum(ws) != 32 then Err(FormatError) else Ok(Flags(UnpackWord(ws, chunk)))
  }

  /** Parse one field from the front of `b`; on success, also the unread rest. */
  function DecodeKind(e: Endian, k: Kind, b: seq<byte>): (r: Result<(Value, seq<byte>), Error>)
    ensures r.Ok? ==> KindSize(k) <= |b| && r.value.1 == b[KindSize(k)..]
    decreases k, 0
  {
    if k.ArrayOf? then
      match DecodeItems(e, k.elem, k.count, b)
      case Err(err) => Err(err)
      case Ok(p) => Ok((Items(p.0), p.1))
    else if |b| < KindSize(k) then Err(StreamError)
    else
      match DecodeWord(e, k, b[..KindSize(k)])
      case Err(err) => Err(err)
      case Ok(v) => Ok((v, b[KindSize(k)..]))
  }

  /** Parse `c` consecutive elements of kind `k`. */
  function DecodeItems(e: Endian, k: Kind, c: nat, b: seq<byte>): (r: Result<(seq<Value>, seq<byte>), Error>)
    ensures r.Ok? ==> |r.value.0| == c && ItemsSize(c, k) <= |b| && r.value.1 == b[ItemsSize(c, k)..]
    decreases k, 1, c
  {
    if c == 0 then Ok(([], b))
    else
      match DecodeKind(e, k, b)
      case Err(err) => Err(err)
      case Ok(p) =>
        match DecodeItems(e, k, c - 1, p.1)
        case Err(err) => Err(err)
        case Ok(q) => Ok(([p.0] + q.0, q.1))
  }

  function DecodeFields(e: Endian, fs: seq<Field>, b: seq<byte>): (r: Result<(Record, seq<byte>), Error>)
    ensures r.Ok? ==> |r.value.0| == |fs| && FieldsSize(fs) <= |b| && r.value.1 == b[FieldsSize(fs)..]
  {
    if fs == [] then Ok(([], b))
    else
      match DecodeKind(e, fs[0].kind, b)
      case Err(err) => Err(err)
      case Ok(p) =>
        match DecodeFields(e, fs[1..], p.1)
        case Err(err) => Err(err)
        case Ok(q) => Ok(([p.0] + q.0, q.1))
  }

  /** Struct.parse: the record in the first Size(l) bytes of `b`. */
  function Decode(l: Layout, b: seq<byte>): Result<Record, Error>
  {
    match DecodeFields(l.endian, l.fields, b)
    case Err(err) => Err(err)
    case Ok(p) => Ok(p.0)
  }

  // ---------------------------------------------------------------------
  // Building
  // ---------------------------------------------------------------------

  /** Build an enum field: an integer passes through, a symbol goes through the table. */
  function EncodeEnum(e: Endian, codes: seq<(string, nat)>, v: Value): (r: Result<seq<byte>, Error>)
    ensures r.Ok? ==> |r.value| == 4
  {
    if v.Int? then
      if 0 <= v.i < TwoTo32 then Ok(Word32(e, v.i)) else Err(FormatError)
    else if v.Sym? then
      match CodeOf(codes, v.name)
      case None => Err(MappingError)
      case Some(c) => if c < TwoTo32 then Ok(Word32(e, c)) else Err(FormatError)
    else Err(MappingError)
  }

  /** Build one field that is not an array. */
  function EncodeWord(e: Endian, k: Kind, v: Value): (r: Result<seq<byte>, Error>)
    requires !k.ArrayOf?
    ensures r.Ok? ==> |r.value| == KindSize(k)
  {
    match k
    case Tag(t) =>
      if v != Int(t) then Err(ConstError)
      else if t >= TwoTo32 then Err(FormatError)
      else Ok(Word32(e, t))
    case Pad(n) =>
      if !v.Raw? then Err(FormatError)
      else if |v.bytes| != n then Err(StreamError)
      else Ok(v.bytes)
    case U32 =>
      if v.Int? && 0 <= v.i < TwoTo32 then Ok(Word32(e, v.i)) else Err(FormatError)
    case S32 =>
      if v.Int? && -TwoTo31 <= v.i < TwoTo31 then Ok(Word32(e, FromSigned32(v.i))) else Err(FormatError)
    case F32 =>
      if v.Word? && v.bits < TwoTo32 then Ok(Word32(e, v.bits)) else Err(FormatError)
    case F64 =>
      if v.Word? && v.bits < TwoTo64 then PowValues(); Ok(UintBytes(e, 8, v.bits)) else Err(FormatError)
    case Enum(codes) => EncodeEnum(e, codes, v)
    case BitFields(ws) =>
      if Sum(ws) != 32 then Err(FormatError)
      else if v.Flags? && PartsFit(ws, v.parts) then Ok(PackWord(ws, v.parts))
      else Err(FormatError)
  }

  function EncodeKind(e: Endian, k: Kind, v: Value): (r: Result<seq<byte>, Error>)
    ensures r.Ok? ==> |r.value| == KindSize(k)
    decreases k, 0
  {
    if k.ArrayOf? then
      if v.Items? && |v.items| == k.count then EncodeItems(e, k.elem, v.items) else Err(RangeError)
    else EncodeWord(e, k, v)
  }

  function EncodeItems(e: Endian, k: Kind, vs: seq<Value>): (r: Result<seq<byte>, Error>)
    ensures r.Ok? ==> |r.value| == ItemsSize(|vs|, k)
    decreases k, 1, |vs|
  {
    if vs == [] then Ok([])
    else
      match EncodeKind(e, k, vs[0])
      case Err(err) => Err(err)
      case Ok(h) =>
        match EncodeItems(e, k, vs[1..])
        case Err(err) => Err(err)
        case Ok(t) => Ok(h + t)
  }

  function EncodeFields(e: Endian, fs: seq<Field>, rec: Record): (r: Result<seq<byte>, Error>)
    ensures r.Ok? ==> |r.value| == FieldsSize(fs)
  {
    if |rec| != |fs| then Err(KeyError)
    else if fs == [] then Ok([])
    else
      match EncodeKind(e, fs[0].kind, rec[0])
      case Err(err) => Err(err)
      case Ok(h) =>
        match EncodeFields(e, fs[1..], rec[1..])
        case Err(err) => Err(err)
        case Ok(t) => Ok(h + t)
  }

  /** Struct.build. */
  function Encode(l: Layout, rec: Record): Result<seq<byte>, Error>
  {
    EncodeFields(l.endian, l.fields, rec)
  }
}
