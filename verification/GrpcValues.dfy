/** Go structs to dynamic protobuf messages and back, driven by the bindings of a schema. */
module GrpcValues {
  import opened Options

  // ---------------------------------------------------------------- schemas

  /** What a field or a list element holds. `PtrMsg` is a pointer to a struct, in a slice. */
  datatype Elem = Str | Bool | Int(bits: nat) | Uint(bits: nat) | Flt | Time | Bytes | Msg(id: nat) | PtrMsg(id: nat)

  /** A pointer is proto3 optional, a slice is repeated. */
  datatype Shape = Plain(e: Elem) | Optional(e: Elem) | Repeated(e: Elem)

  datatype Field = Field(number: nat, goIndex: nat, shape: Shape)

  /** `zeros` is the Go zero value, every field of the struct included; `rank` orders structs
      held by value, which Go does not allow to be cyclic. */
  datatype Message = Message(fields: seq<Field>, zeros: seq<Go>, rank: nat)

  type Schema = map<nat, Message>

  // ---------------------------------------------------------------- values

  /** A float is one of the two zeros or something else. */
  datatype Float = PosZero | NegZero | Other(bits: nat)

  /** An instant and the zone it is shown in; zone 0 is UTC. */
  datatype Instant = Instant(seconds: int, nanos: nat, zone: nat)

  datatype Go =
    | GString(s: string) | GBool(b: bool) | GInt(i: int) | GUint(u: nat) | GFloat(f: Float) | GTime(t: Instant)
    | GNilBytes | GBytes(bs: seq<bv8>)
    | GStruct(fields: seq<Go>)
    | GNilPtr | GPtr(to: Go)
    | GNilSlice | GSlice(elems: seq<Go>)

  /** A message holds what was set, by field number. */
  datatype Proto =
    | PString(s: string) | PBool(b: bool) | PInt(i: int) | PUint(u: nat) | PFloat(f: Float) | PTime(seconds: int,
        nanos: nat)
    | PBytes(bs: seq<bv8>)
    | PMessage(fields: map<nat, Proto>)
    | PList(elems: seq<Proto>)

  // ---------------------------------------------------------------- supported schemas

  /** Half the range of an integer of `bits` bits. */
  function Half(bits: nat): nat {
    if bits == 8 then 0x80 else if bits == 16 then 0x8000 else if bits == 32 then 0x8000_0000 else 0x8000_0000_0000_0000
  }

  predicate FitsInt(i: int, bits: nat) {
    0 - Half(bits) <= i < Half(bits)
  }

  predicate FitsUint(u: nat, bits: nat) {
    u < 2 * Half(bits)
  }

  predicate IsWidth(bits: nat) {
    bits == 8 || bits == 16 || bits == 32 || bits == 64
  }

  predicate ElemOk(schema: Schema, e: Elem) {
    match e
    case Int(bits) => IsWidth(bits)
    case Uint(bits) => IsWidth(bits)
    case Msg(id) => id in schema
    case PtrMsg(id) => id in schema
    case _ => true
  }

  ghost predicate FieldOk(schema: Schema, m: Message, f: Field) {
    && f.goIndex < |m.zeros| && ElemOk(schema, f.shape.e)
    && match f.shape
       case Plain(e) => !e.PtrMsg? && (e.Msg? ==> schema[e.id].rank < m.rank)
       case Optional(e) => !e.PtrMsg? && !e.Bytes? && m.zeros[f.goIndex] == GNilPtr
       case Repeated(e) => m.zeros[f.goIndex] == GNilSlice
  }

  ghost predicate MessageOk(schema: Schema, m: Message) {
    && (forall k :: 0 <= k < |m.fields| ==> FieldOk(schema, m, m.fields[k]))
    && (forall j, k :: 0 <= j < k < |m.fields| ==> m.fields[j].number != m.fields[k].number)
    && (forall j, k :: 0 <= j < k < |m.fields| ==> m.fields[j].goIndex != m.fields[k].goIndex)
  }

  ghost predicate SchemaOk(schema: Schema) {
    forall id :: id in schema ==> MessageOk(schema, schema[id])
  }

  // ---------------------------------------------------------------- toDynamic

  /** Truncation to 32 bits, for the narrow kinds. */
  function Trunc32(i: int): (r: int)
    ensures FitsInt(r, 32) && (FitsInt(i, 32) ==> r == i)
  {
    (i + 0x8000_0000) % 0x1_0000_0000 - 0x8000_0000
  }

  function Trunc32u(u: nat): (r: nat)
    ensures FitsUint(r, 32) && (FitsUint(u, 32) ==> r == u)
  {
    u % 0x1_0000_0000
  }

  /** Scalars; `None` is a value of another type. */
  function ToScalar(e: Elem, v: Go): Option<Proto> {
    match (e, v)
    case (Str, GString(s)) => Some(PString(s))
    case (Bool, GBool(b)) => Some(PBool(b))
    case (Int(bits), GInt(i)) => Some(PInt(if bits <= 32 then Trunc32(i) else i))
    case (Uint(bits), GUint(u)) => Some(PUint(if bits <= 32 then Trunc32u(u) else u))
    case (Flt, GFloat(f)) => Some(PFloat(f))
    case (Time, GTime(t)) => Some(PTime(t.seconds, t.nanos))
    case (Bytes, GNilBytes) => Some(PBytes([]))
    case (Bytes, GBytes(bs)) => Some(PBytes(bs))
    case _ => None
  }

  predicate IsZero(v: Go) {
    match v
    case GString(s) => s == ""
    case GBool(b) => !b
    case GInt(i) => i == 0
    case GUint(u) => u == 0
    case GFloat(f) => !f.Other?
    case GNilBytes => true
    case GBytes(bs) => bs == []
    case _ => false
  }

  /** What a field contributes to the message. */
  datatype Out = Fails | Skips | Puts(p: Proto)

  function EncodeElem(schema: Schema, e: Elem, v: Go): Option<Proto>
    decreases v, 3, 0
  {
    if e.Msg? then Encode(schema, e.id, v)
    else if e.PtrMsg? then if v.GPtr? then Encode(schema, e.id, v.to) else None
    else ToScalar(e, v)
  }

  function EncodeField(schema: Schema, f: Field, v: Go): Out
    decreases v, 5, 0
  {
    match f.shape
    case Plain(e) =>
      if IsZero(v) && !e.Msg? && !e.Time? then Skips else PutIfSome(EncodeElem(schema, e, v))
    case Optional(e) =>
      if v.GPtr? then PutIfSome(EncodeElem(schema, e, v.to)) else Skips
    case Repeated(e) =>
      if !v.GSlice? || v.elems == [] then Skips
      else
        var r := EncodeList(schema, e, v, |v.elems|);
        if r.Some? then Puts(PList(r.value)) else Fails
  }

  function PutIfSome(p: Option<Proto>): Out {
    if p.Some? then Puts(p.value) else Fails
  }

  function EncodeList(schema: Schema, e: Elem, v: Go, n: nat): Option<seq<Proto>>
    requires v.GSlice? && n <= |v.elems|
    decreases v, 4, n
  {
    if n == 0 then Some([])
    else
      var before := EncodeList(schema, e, v, n - 1);
      if before.None? then None
      else
        var p := EncodeElem(schema, e, v.elems[n - 1]);
        if p.None? then None else Some(before.value + [p.value])
  }

  /** The first `n` bound fields. */
  function EncodeFields(schema: Schema, fields: seq<Field>, v: Go, n: nat): Option<map<nat, Proto>>
    requires v.GStruct? && n <= |fields|
    decreases v, 1, n
  {
    if n == 0 then Some(map[])
    else
      var before := EncodeFields(schema, fields, v, n - 1);
      if before.None? || fields[n - 1].goIndex >= |v.fields| then None
      else
        var out := EncodeField(schema, fields[n - 1], v.fields[fields[n - 1].goIndex]);
        match out
        case Fails => None
        case Skips => before
        case Puts(p) => Some(before.value[fields[n - 1].number := p])
  }

  /** `toDynamic`; a nil value is an error. */
  function Encode(schema: Schema, id: nat, v: Go): Option<Proto>
    decreases v, 2, 0
  {
    if !v.GStruct? || id !in schema then None
    else
      var r := EncodeFields(schema, schema[id].fields, v, |schema[id].fields|);
      if r.Some? then Some(PMessage(r.value)) else None
  }

  // ---------------------------------------------------------------- fromDynamic

  /** Scalars; `None` is a value of another kind, or an integer that overflows its Go type. */
  function FromScalar(e: Elem, p: Proto): Option<Go> {
    match (e, p)
    case (Str, PString(s)) => Some(GString(s))
    case (Bool, PBool(b)) => Some(GBool(b))
    case (Int(bits), PInt(i)) => if FitsInt(i, bits) then Some(GInt(i)) else None
    case (Uint(bits), PUint(u)) => if FitsUint(u, bits) then Some(GUint(u)) else None
    case (Flt, PFloat(f)) => Some(GFloat(f))
    case (Time, PTime(seconds, nanos)) => Some(GTime(Instant(seconds, nanos, 0)))
    case (Bytes, PBytes(bs)) => Some(GBytes(bs))
    case _ => None
  }

  /** What reading an unset scalar gives. */
  function DefaultScalar(e: Elem): Go {
    match e
    case Str => GString("")
    case Bool => GBool(false)
    case Int(_) => GInt(0)
    case Uint(_) => GUint(0)
    case Flt => GFloat(PosZero)
    case Time => GTime(Instant(0, 0, 0))
    case _ => GBytes([])
  }

  /** What a field receives from a message. */
  datatype In = Breaks | Stays | Takes(v: Go)

  /** A struct held by value whose message is absent is read from an empty one. */
  ghost function Empty(schema: Schema, id: nat, n: nat): seq<Go>
    requires SchemaOk(schema) && id in schema && n <= |schema[id].fields|
    decreases schema[id].rank, n
  {
    var m := schema[id];
    if n == 0 then m.zeros
    else
      var f := m.fields[n - 1];
      assert FieldOk(schema, m, f);
      var before := Empty(schema, id, n - 1);
      if !f.shape.Plain? || f.goIndex >= |before| then before
      else if f.shape.e.Msg? then
        before[f.goIndex := GStruct(Empty(schema, f.shape.e.id, |schema[f.shape.e.id].fields|))]
      else before[f.goIndex := DefaultScalar(f.shape.e)]
  }

  ghost function DecodeElem(schema: Schema, e: Elem, p: Proto): Option<Go>
    requires SchemaOk(schema) && ElemOk(schema, e)
    decreases p, 3, 0
  {
    if e.Msg? then Decode(schema, e.id, p)
    else if e.PtrMsg? then
      var r := Decode(schema, e.id, p);
      if r.Some? then Some(GPtr(r.value)) else None
    else FromScalar(e, p)
  }

  ghost function DecodeList(schema: Schema, e: Elem, p: Proto, n: nat): Option<seq<Go>>
    requires SchemaOk(schema) && ElemOk(schema, e) && p.PList? && n <= |p.elems|
    decreases p, 4, n
  {
    if n == 0 then Some([])
    else
      var before := DecodeList(schema, e, p, n - 1);
      if before.None? then None
      else
        var v := DecodeElem(schema, e, p.elems[n - 1]);
        if v.None? then None else Some(before.value + [v.value])
  }

  ghost function DecodePresent(schema: Schema, shape: Shape, p: Proto): In
    requires SchemaOk(schema) && ElemOk(schema, shape.e)
    decreases p, 5, 0
  {
    match shape
    case Plain(e) => (
      var r := DecodeElem(schema, e, p);
      if r.Some? then Takes(r.value) else Breaks)
    case Optional(e) => (
      var r := DecodeElem(schema, e, p);
      if r.Some? then Takes(GPtr(r.value)) else Breaks)
    case Repeated(e) =>
      if !p.PList? then Breaks
      else
        var r := DecodeList(schema, e, p, |p.elems|);
        if r.Some? then Takes(GSlice(r.value)) else Breaks
  }

  ghost function DecodeAbsent(schema: Schema, shape: Shape): In
    requires SchemaOk(schema) && ElemOk(schema, shape.e)
  {
    if !shape.Plain? then Stays
    else if shape.e.Msg? then Takes(GStruct(Empty(schema, shape.e.id, |schema[shape.e.id].fields|)))
    else Takes(DefaultScalar(shape.e))
  }

  /** The first `n` bound fields, over the zero value of the struct. */
  ghost function DecodeFields(schema: Schema, id: nat, p: Proto, n: nat): Option<seq<Go>>
    requires SchemaOk(schema) && id in schema && p.PMessage? && n <= |schema[id].fields|
    decreases p, 1, n
  {
    var m := schema[id];
    if n == 0 then Some(m.zeros)
    else
      var f := m.fields[n - 1];
      assert FieldOk(schema, m, f);
      var before := DecodeFields(schema, id, p, n - 1);
      if before.None? then None
      else
        Received(f.goIndex, before.value,
          if f.number in p.fields then DecodePresent(schema, f.shape, p.fields[f.number]) else DecodeAbsent(schema,
              f.shape))
  }

  function Received(x: nat, fields: seq<Go>, received: In): Option<seq<Go>> {
    match received
    case Breaks => None
    case Stays => Some(fields)
    case Takes(v) => if x < |fields| then Some(fields[x := v]) else None
  }

  /** `fromDynamic`, into a new struct. */
  ghost function Decode(schema: Schema, id: nat, p: Proto): Option<Go>
    requires SchemaOk(schema) && id in schema
    decreases p, 2, 0
  {
    if !p.PMessage? then None
    else
      var r := DecodeFields(schema, id, p, |schema[id].fields|);
      if r.Some? then Some(GStruct(r.value)) else None
  }

  // ---------------------------------------------------------------- typed values

  predicate HasScalar(e: Elem, v: Go) {
    match e
    case Str => v.GString?
    case Bool => v.GBool?
    case Int(bits) => v.GInt? && FitsInt(v.i, bits)
    case Uint(bits) => v.GUint? && FitsUint(v.u, bits)
    case Flt => v.GFloat?
    case Time => v.GTime?
    case Bytes => v.GNilBytes? || v.GBytes?
    case _ => false
  }

  ghost predicate HasElem(schema: Schema, e: Elem, v: Go)
    decreases v, 2
  {
    if e.Msg? then HasType(schema, e.id, v)
    else if e.PtrMsg? then v.GNilPtr? || (v.GPtr? && HasType(schema, e.id, v.to))
    else HasScalar(e, v)
  }

  ghost predicate HasShape(schema: Schema, shape: Shape, v: Go)
    decreases v, 3
  {
    match shape
    case Plain(e) => HasElem(schema, e, v)
    case Optional(e) => v.GNilPtr? || (v.GPtr? && HasElem(schema, e, v.to))
    case Repeated(e) => v.GNilSlice? || (v.GSlice? && forall i :: 0 <= i < |v.elems| ==> HasElem(schema, e, v.elems[i]))
  }

  ghost predicate HasType(schema: Schema, id: nat, v: Go)
    decreases v, 1
  {
    && v.GStruct? && id in schema && |v.fields| == |schema[id].zeros|
    && forall k :: 0 <= k < |schema[id].fields| && schema[id].fields[k].goIndex < |v.fields| ==>
         HasShape(schema, schema[id].fields[k].shape, v.fields[schema[id].fields[k].goIndex])
  }

  /** No bound slice, at any depth, has a nil pointer for an element. */
  ghost predicate SolidElem(schema: Schema, e: Elem, v: Go)
    decreases v, 2
  {
    if e.Msg? then Solid(schema, e.id, v)
    else if e.PtrMsg? then v.GPtr? && Solid(schema, e.id, v.to)
    else true
  }

  ghost predicate SolidShape(schema: Schema, shape: Shape, v: Go)
    decreases v, 3
  {
    match shape
    case Plain(e) => SolidElem(schema, e, v)
    case Optional(e) => v.GPtr? ==> SolidElem(schema, e, v.to)
    case Repeated(e) => v.GSlice? ==> forall i :: 0 <= i < |v.elems| ==> SolidElem(schema, e, v.elems[i])
  }

  ghost predicate Solid(schema: Schema, id: nat, v: Go)
    decreases v, 1
  {
    v.GStruct? && id in schema ==>
      forall k :: 0 <= k < |schema[id].fields| && schema[id].fields[k].goIndex < |v.fields| ==>
        SolidShape(schema, schema[id].fields[k].shape, v.fields[schema[id].fields[k].goIndex])
  }

  // ---------------------------------------------------------------- the normal form

  /** Times in UTC, byte slices not nil. */
  function NormalScalar(v: Go): Go {
    match v
    case GTime(t) => GTime(t.(zone := 0))
    case GNilBytes => GBytes([])
    case _ => v
  }

  function NormalElem(schema: Schema, e: Elem, v: Go): Go
    decreases v, 2, 0
  {
    if e.Msg? then Normal(schema, e.id, v)
    else if e.PtrMsg? then if v.GPtr? then GPtr(Normal(schema, e.id, v.to)) else v
    else NormalScalar(v)
  }

  /** Empty slices are nil; the negative zero of a plain field is zero. */
  function NormalShape(schema: Schema, shape: Shape, v: Go): Go
    decreases v, 4, 0
  {
    match shape
    case Plain(e) => if v == GFloat(NegZero) then GFloat(PosZero) else NormalElem(schema, e, v)
    case Optional(e) => if v.GPtr? then GPtr(NormalElem(schema, e, v.to)) else v
    case Repeated(e) =>
      if v.GSlice? && v.elems != [] then GSlice(NormalList(schema, e, v, |v.elems|)) else GNilSlice
  }

  function NormalList(schema: Schema, e: Elem, v: Go, n: nat): (r: seq<Go>)
    requires v.GSlice? && n <= |v.elems|
    decreases v, 3, n
  {
    if n == 0 then [] else NormalList(schema, e, v, n - 1) + [NormalElem(schema, e, v.elems[n - 1])]
  }

  /** Fields that are not bound are zero. */
  function NormalFields(schema: Schema, id: nat, v: Go, n: nat): (r: seq<Go>)
    requires v.GStruct? && id in schema && n <= |schema[id].fields|
    ensures |r| == |schema[id].zeros|
    decreases v, 0, n
  {
    if n == 0 then schema[id].zeros
    else
      var f := schema[id].fields[n - 1];
      var before := NormalFields(schema, id, v, n - 1);
      if f.goIndex < |before| &&
          f.goIndex < |v.fields| then before[f.goIndex := NormalShape(schema, f.shape, v.fields[f.goIndex])]
      else before
  }

  function Normal(schema: Schema, id: nat, v: Go): Go
    decreases v, 1, 0
  {
    if v.GStruct? && id in schema then GStruct(NormalFields(schema, id, v, |schema[id].fields|)) else v
  }

  // ---------------------------------------------------------------- scalars

  lemma {:induction false} ScalarRoundTrip(e: Elem, v: Go)
    requires HasScalar(e, v) && (e.Int? || e.Uint? ==> IsWidth(e.bits))
    ensures ToScalar(e, v).Some? && FromScalar(e, ToScalar(e, v).value) == Some(NormalScalar(v))
  {
  }

  lemma {:induction false} SkippedScalar(e: Elem, v: Go)
    requires HasScalar(e, v) && IsZero(v) && !e.Time?
    ensures DefaultScalar(e) == if v == GFloat(NegZero) then GFloat(PosZero) else NormalScalar(v)
  {
  }

  // ---------------------------------------------------------------- fields of a message

  /** What the first `n` fields left in the message. */
  ghost predicate Wrote(schema: Schema, fields: seq<Field>, v: Go, n: nat, m: map<nat, Proto>)
    requires v.GStruct? && n <= |fields|
  {
    && (forall k :: 0 <= k < n ==> fields[k].goIndex < |v.fields| && WroteField(schema, fields[k], v, m))
    && forall x :: x in m ==> exists k :: 0 <= k < n && fields[k].number == x
  }

  ghost predicate WroteField(schema: Schema, f: Field, v: Go, m: map<nat, Proto>)
    requires v.GStruct? && f.goIndex < |v.fields|
  {
    match EncodeField(schema, f, v.fields[f.goIndex])
    case Fails => false
    case Skips => f.number !in m
    case Puts(p) => f.number in m && m[f.number] == p
  }

  lemma {:induction false} FieldsWrote(schema: Schema, fields: seq<Field>, v: Go, n: nat)
    requires v.GStruct? && n <= |fields|
    requires forall j, k :: 0 <= j < k < |fields| ==> fields[j].number != fields[k].number
    requires EncodeFields(schema, fields, v, n).Some?
    ensures Wrote(schema, fields, v, n, EncodeFields(schema, fields, v, n).value)
  {
    if n > 0 {
      FieldsWrote(schema, fields, v, n - 1);
      var before := EncodeFields(schema, fields, v, n - 1).value;
      var m := EncodeFields(schema, fields, v, n).value;
      forall k | 0 <= k < n - 1 ensures WroteField(schema, fields[k], v, m) {
        assert WroteField(schema, fields[k], v, before);
      }
    }
  }

  /** The fields all encode exactly when each of them does. */
  lemma {:induction false} FieldsEncodeIff(schema: Schema, fields: seq<Field>, v: Go, n: nat)
    requires v.GStruct? && n <= |fields| && forall k :: 0 <= k < |fields| ==> fields[k].goIndex < |v.fields|
    ensures EncodeFields(schema, fields, v, n).Some? <==> forall k :: 0 <= k < n ==>
      !EncodeField(schema, fields[k], v.fields[fields[k].goIndex]).Fails?
  {
    if n > 0 {
      FieldsEncodeIff(schema, fields, v, n - 1);
    }
  }

  lemma {:induction false} NormalUntouched(schema: Schema, id: nat, v: Go, n: nat, x: nat)
    requires v.GStruct? && id in schema && n <= |schema[id].fields| && x < |schema[id].zeros|
    requires forall k :: 0 <= k < n ==> schema[id].fields[k].goIndex != x
    ensures NormalFields(schema, id, v, n)[x] == schema[id].zeros[x]
  {
    if n > 0 {
      NormalUntouched(schema, id, v, n - 1, x);
    }
  }

  // ---------------------------------------------------------------- when encoding fails

  lemma {:induction false} ElemEncodesIff(schema: Schema, e: Elem, v: Go)
    requires SchemaOk(schema) && ElemOk(schema, e) && HasElem(schema, e, v)
    ensures EncodeElem(schema, e, v).Some? <==> SolidElem(schema, e, v)
    decreases v, 3, 0
  {
    if e.Msg? {
      EncodesIff(schema, e.id, v);
    } else if e.PtrMsg? {
      if v.GPtr? {
        EncodesIff(schema, e.id, v.to);
      }
    } else {
      ScalarRoundTrip(e, v);
    }
  }

  lemma {:induction false} ListEncodesIff(schema: Schema, e: Elem, v: Go, n: nat)
    requires SchemaOk(schema) && ElemOk(schema, e) && v.GSlice? && n <= |v.elems|
    requires forall i :: 0 <= i < |v.elems| ==> HasElem(schema, e, v.elems[i])
    ensures EncodeList(schema, e, v, n).Some? <==> forall i :: 0 <= i < n ==> SolidElem(schema, e, v.elems[i])
    decreases v, 4, n
  {
    if n > 0 {
      ListEncodesIff(schema, e, v, n - 1);
      ElemEncodesIff(schema, e, v.elems[n - 1]);
    }
  }

  lemma {:induction false} FieldEncodesIff(schema: Schema, f: Field, v: Go)
    requires SchemaOk(schema) && ElemOk(schema, f.shape.e) && HasShape(schema, f.shape, v)
    requires (f.shape.Plain? ==> !f.shape.e.PtrMsg?)
    ensures EncodeField(schema, f, v).Fails? <==> !SolidShape(schema, f.shape, v)
    decreases v, 5, 0
  {
    var e := f.shape.e;
    if f.shape.Plain? {
      ElemEncodesIff(schema, e, v);
    } else if f.shape.Optional? {
      if v.GPtr? {
        ElemEncodesIff(schema, e, v.to);
      }
    } else if v.GSlice? {
      ListEncodesIff(schema, e, v, |v.elems|);
    }
  }

  lemma {:induction false} EncodesIff(schema: Schema, id: nat, v: Go)
    requires SchemaOk(schema) && id in schema && HasType(schema, id, v)
    ensures Encode(schema, id, v).Some? <==> Solid(schema, id, v)
    decreases v, 2, 0
  {
    var m := schema[id];
    assert MessageOk(schema, m);
    assert forall k :: 0 <= k < |m.fields| ==> FieldOk(schema, m, m.fields[k]);
    FieldsEncodeIff(schema, m.fields, v, |m.fields|);
    forall k | 0 <= k < |m.fields|
      ensures EncodeField(schema, m.fields[k], v.fields[m.fields[k].goIndex]).Fails? <==>
        !SolidShape(schema, m.fields[k].shape, v.fields[m.fields[k].goIndex])
    {
      FieldEncodesIff(schema, m.fields[k], v.fields[m.fields[k].goIndex]);
    }
  }

  // ---------------------------------------------------------------- the round trip

  ghost predicate ElemTrips(schema: Schema, e: Elem, v: Go)
    requires SchemaOk(schema) && ElemOk(schema, e)
  {
    EncodeElem(schema, e, v).Some? &&
        DecodeElem(schema, e, EncodeElem(schema, e, v).value) == Some(NormalElem(schema, e, v))
  }

  ghost predicate FieldTrips(schema: Schema, f: Field, v: Go, zero: Go)
    requires SchemaOk(schema) && ElemOk(schema, f.shape.e)
  {
    match EncodeField(schema, f, v)
    case Fails => false
    case Skips =>
      var r := DecodeAbsent(schema, f.shape);
      r == Takes(NormalShape(schema, f.shape, v)) || (r.Stays? && zero == NormalShape(schema, f.shape, v))
    case Puts(p) => DecodePresent(schema, f.shape, p) == Takes(NormalShape(schema, f.shape, v))
  }

  lemma {:induction false} ElemRoundTrip(schema: Schema, e: Elem, v: Go)
    requires SchemaOk(schema) && ElemOk(schema, e) && HasElem(schema, e, v) && SolidElem(schema, e, v)
    ensures ElemTrips(schema, e, v)
    decreases v, 3, 0
  {
    if e.Msg? {
      RoundTrip(schema, e.id, v);
    } else if e.PtrMsg? {
      RoundTrip(schema, e.id, v.to);
    } else {
      ScalarRoundTrip(e, v);
    }
  }

  lemma {:induction false} ListRoundTrip(schema: Schema, e: Elem, v: Go, n: nat, all: seq<Proto>)
    requires SchemaOk(schema) && ElemOk(schema, e) && v.GSlice? && n <= |v.elems| == |all|
    requires forall i :: 0 <= i < |v.elems| ==>
      ElemTrips(schema, e, v.elems[i]) && all[i] == EncodeElem(schema, e, v.elems[i]).value
    ensures EncodeList(schema, e, v, n) == Some(all[..n])
    ensures DecodeList(schema, e, PList(all), n) == Some(NormalList(schema, e, v, n))
  {
    if n > 0 {
      ListRoundTrip(schema, e, v, n - 1, all);
      assert all[..n] == all[..n - 1] + [all[n - 1]];
      assert ElemTrips(schema, e, v.elems[n - 1]);
    }
  }

  lemma {:induction false} FieldRoundTrip(schema: Schema, m: Message, f: Field, v: Go)
    requires SchemaOk(schema) && FieldOk(schema, m, f) && HasShape(schema, f.shape, v) && SolidShape(schema, f.shape, v)
    ensures FieldTrips(schema, f, v, m.zeros[f.goIndex])
    decreases v, 5, 0
  {
    var e := f.shape.e;
    if f.shape.Plain? {
      ElemRoundTrip(schema, e, v);
      if IsZero(v) && !e.Msg? && !e.Time? {
        SkippedScalar(e, v);
      }
    } else if f.shape.Optional? {
      if v.GPtr? {
        ElemRoundTrip(schema, e, v.to);
      }
    } else if v.GSlice? && v.elems != [] {
      forall i | 0 <= i < |v.elems| ensures ElemTrips(schema, e, v.elems[i]) {
        ElemRoundTrip(schema, e, v.elems[i]);
      }
      var all := seq(|v.elems|,
                     i requires 0 <= i < |v.elems| &&
                         ElemTrips(schema, e, v.elems[i]) => EncodeElem(schema, e, v.elems[i]).value);
      ListRoundTrip(schema, e, v, |v.elems|, all);
      assert all[..|all|] == all;
    }
  }

  /** One field: what it wrote is what it receives. */
  lemma {:induction false} ReceivesNormal(schema: Schema, f: Field, v: Go, m: map<nat, Proto>, before: seq<Go>)
    requires SchemaOk(schema) && ElemOk(schema, f.shape.e) && v.GStruct? && f.goIndex < |v.fields| == |before|
    requires WroteField(schema, f, v, m) && FieldTrips(schema, f, v.fields[f.goIndex], before[f.goIndex])
    ensures Received(f.goIndex, before,
                     if f.number in m then DecodePresent(schema, f.shape, m[f.number]) else DecodeAbsent(schema,
                         f.shape))
      == Some(before[f.goIndex := NormalShape(schema, f.shape, v.fields[f.goIndex])])
  {
    assert before == before[f.goIndex := before[f.goIndex]];
  }

  /** Field `k` was written to `p` and makes the round trip. */
  ghost predicate Trips(schema: Schema, id: nat, v: Go, p: Proto, k: nat)
    requires SchemaOk(schema)
  {
    && id in schema && v.GStruct? && |v.fields| == |schema[id].zeros| && p.PMessage? && k < |schema[id].fields|
    && var f := schema[id].fields[k];
       && f.goIndex < |v.fields| && ElemOk(schema, f.shape.e)
       && WroteField(schema, f, v, p.fields) && FieldTrips(schema, f, v.fields[f.goIndex], schema[id].zeros[f.goIndex])
  }

  lemma {:induction false} NextFieldRoundTrip(schema: Schema, id: nat, v: Go, p: Proto, n: nat)
    requires SchemaOk(schema) && Trips(schema, id, v, p, n)
    requires DecodeFields(schema, id, p, n) == Some(NormalFields(schema, id, v, n))
    requires NormalFields(schema, id, v,
                          n)[schema[id].fields[n].goIndex] == schema[id].zeros[schema[id].fields[n].goIndex]
    ensures DecodeFields(schema, id, p, n + 1) == Some(NormalFields(schema, id, v, n + 1))
  {
    ReceivesNormal(schema, schema[id].fields[n], v, p.fields, NormalFields(schema, id, v, n));
  }

  lemma {:induction false} StillZero(schema: Schema, id: nat, v: Go, n: nat)
    requires SchemaOk(schema) && id in schema && v.GStruct? && n < |schema[id].fields|
    requires schema[id].fields[n].goIndex < |schema[id].zeros|
    ensures NormalFields(schema, id, v,
                         n)[schema[id].fields[n].goIndex] == schema[id].zeros[schema[id].fields[n].goIndex]
  {
    assert MessageOk(schema, schema[id]);
    NormalUntouched(schema, id, v, n, schema[id].fields[n].goIndex);
  }

  lemma {:induction false} FieldsRoundTrip(schema: Schema, id: nat, v: Go, p: Proto, n: nat)
    requires SchemaOk(schema) && id in schema && v.GStruct? && p.PMessage? && n <= |schema[id].fields|
    requires forall k :: 0 <= k < |schema[id].fields| ==> Trips(schema, id, v, p, k)
    ensures DecodeFields(schema, id, p, n) == Some(NormalFields(schema, id, v, n))
  {
    if n > 0 {
      FieldsRoundTrip(schema, id, v, p, n - 1);
      assert Trips(schema, id, v, p, n - 1);
      StillZero(schema, id, v, n - 1);
      NextFieldRoundTrip(schema, id, v, p, n - 1);
    }
  }

  /** A typed value with no nil element comes back in its normal form. */
  lemma {:induction false} RoundTrip(schema: Schema, id: nat, v: Go)
    requires SchemaOk(schema) && id in schema && HasType(schema, id, v) && Solid(schema, id, v)
    ensures Encode(schema, id, v).Some?
    ensures Decode(schema, id, Encode(schema, id, v).value) == Some(Normal(schema, id, v))
    decreases v, 2, 0
  {
    var m := schema[id];
    assert MessageOk(schema, m);
    assert forall k :: 0 <= k < |m.fields| ==> FieldOk(schema, m, m.fields[k]);
    EncodesIff(schema, id, v);
    FieldsWrote(schema, m.fields, v, |m.fields|);
    var p := Encode(schema, id, v).value;
    forall k | 0 <= k < |m.fields| ensures Trips(schema, id, v, p, k) {
      assert WroteField(schema, m.fields[k], v, p.fields);
      FieldRoundTrip(schema, m, m.fields[k], v.fields[m.fields[k].goIndex]);
    }
    FieldsRoundTrip(schema, id, v, p, |m.fields|);
  }

  // ---------------------------------------------------------------- when nothing changes

  predicate CanonicalScalar(v: Go) {
    !v.GNilBytes? && (v.GTime? ==> v.t.zone == 0)
  }

  ghost predicate CanonicalElem(schema: Schema, e: Elem, v: Go)
    decreases v, 2
  {
    if e.Msg? then Canonical(schema, e.id, v)
    else if e.PtrMsg? then v.GPtr? ==> Canonical(schema, e.id, v.to)
    else CanonicalScalar(v)
  }

  ghost predicate CanonicalShape(schema: Schema, shape: Shape, v: Go)
    decreases v, 3
  {
    match shape
    case Plain(e) => v != GFloat(NegZero) && CanonicalElem(schema, e, v)
    case Optional(e) => v.GPtr? ==> CanonicalElem(schema, e, v.to)
    case Repeated(e) => v.GSlice? ==> v.elems != [] && forall i :: 0 <= i < |v.elems| ==>
        CanonicalElem(schema, e, v.elems[i])
  }

  /** Field `x` of the struct is in the contract. */
  predicate Bound(m: Message, x: nat) {
    exists k :: 0 <= k < |m.fields| && m.fields[k].goIndex == x
  }

  /** No nil or empty slice where the other is meant, no other zone than UTC, no negative zero in
      a plain field, and nothing in fields outside the contract; at every depth. */
  ghost predicate Canonical(schema: Schema, id: nat, v: Go)
    decreases v, 1
  {
    v.GStruct? && id in schema ==>
      && (forall k :: 0 <= k < |schema[id].fields| && schema[id].fields[k].goIndex < |v.fields| ==>
            CanonicalShape(schema, schema[id].fields[k].shape, v.fields[schema[id].fields[k].goIndex]))
      && (forall x :: 0 <= x < |v.fields| && x < |schema[id].zeros| && !Bound(schema[id], x) ==>
            v.fields[x] == schema[id].zeros[x])
  }

  lemma {:induction false} NormalElemIff(schema: Schema, e: Elem, v: Go)
    requires SchemaOk(schema) && ElemOk(schema, e) && HasElem(schema, e, v)
    ensures NormalElem(schema, e, v) == v <==> CanonicalElem(schema, e, v)
    decreases v, 3, 0
  {
    if e.Msg? {
      NormalIff(schema, e.id, v);
    } else if e.PtrMsg? && v.GPtr? {
      NormalIff(schema, e.id, v.to);
    }
  }

  lemma {:induction false} NormalListIs(schema: Schema, e: Elem, v: Go, n: nat)
    requires v.GSlice? && n <= |v.elems|
    ensures |NormalList(schema, e, v, n)| == n
    ensures forall i :: 0 <= i < n ==> NormalList(schema, e, v, n)[i] == NormalElem(schema, e, v.elems[i])
  {
    if n > 0 {
      NormalListIs(schema, e, v, n - 1);
    }
  }

  lemma {:induction false} NormalShapeIff(schema: Schema, shape: Shape, v: Go)
    requires SchemaOk(schema) && ElemOk(schema, shape.e) && HasShape(schema, shape, v)
    ensures NormalShape(schema, shape, v) == v <==> CanonicalShape(schema, shape, v)
    decreases v, 4, 0
  {
    var e := shape.e;
    if shape.Plain? {
      NormalElemIff(schema, e, v);
    } else if shape.Optional? {
      if v.GPtr? {
        NormalElemIff(schema, e, v.to);
      }
    } else if v.GSlice? {
      NormalListIs(schema, e, v, |v.elems|);
      forall i | 0 <= i < |v.elems| ensures NormalElem(schema, e, v.elems[i]) == v.elems[i] <==>
          CanonicalElem(schema, e, v.elems[i]) {
        NormalElemIff(schema, e, v.elems[i]);
      }
      if v.elems != [] && NormalList(schema, e, v, |v.elems|) == v.elems {
        forall i | 0 <= i < |v.elems| ensures CanonicalElem(schema, e, v.elems[i]) {
          assert NormalList(schema, e, v, |v.elems|)[i] == v.elems[i];
        }
      }
    }
  }

  lemma {:induction false} NormalFieldIs(schema: Schema, id: nat, v: Go, n: nat, k: nat)
    requires SchemaOk(schema) && id in schema && v.GStruct? && |v.fields| == |schema[id].zeros|
    requires k < n <= |schema[id].fields| && schema[id].fields[k].goIndex < |v.fields|
    ensures var f := schema[id].fields[k]; NormalFields(schema, id, v, n)[f.goIndex] == NormalShape(schema, f.shape,
        v.fields[f.goIndex])
  {
    assert MessageOk(schema, schema[id]);
    if k < n - 1 {
      NormalFieldIs(schema, id, v, n - 1, k);
    }
  }

  /** Every field of the normal form: bound or zero. */
  lemma {:induction false} NormalIs(schema: Schema, id: nat, v: Go, x: nat)
    requires SchemaOk(schema) && id in schema && v.GStruct? && |v.fields| == |schema[id].zeros| && x < |v.fields|
    requires !Bound(schema[id], x)
    ensures NormalFields(schema, id, v, |schema[id].fields|)[x] == schema[id].zeros[x]
  {
    NormalUntouched(schema, id, v, |schema[id].fields|, x);
  }

  lemma {:induction false} NormalIff(schema: Schema, id: nat, v: Go)
    requires SchemaOk(schema) && id in schema && HasType(schema, id, v)
    ensures Normal(schema, id, v) == v <==> Canonical(schema, id, v)
    decreases v, 2, 0
  {
    var m := schema[id];
    var n := |m.fields|;
    var r := NormalFields(schema, id, v, n);
    assert MessageOk(schema, m);
    forall k | 0 <= k < n
      ensures r[m.fields[k].goIndex] == v.fields[m.fields[k].goIndex] <==>
        CanonicalShape(schema, m.fields[k].shape, v.fields[m.fields[k].goIndex])
    {
      assert FieldOk(schema, m, m.fields[k]);
      NormalFieldIs(schema, id, v, n, k);
      NormalShapeIff(schema, m.fields[k].shape, v.fields[m.fields[k].goIndex]);
    }
    forall x | 0 <= x < |v.fields| && !Bound(m, x) ensures r[x] == m.zeros[x] {
      NormalIs(schema, id, v, x);
    }
    SameFieldsIff(schema, id, v, r);
  }

  lemma {:induction false} SameFieldsIff(schema: Schema, id: nat, v: Go, r: seq<Go>)
    requires SchemaOk(schema) && id in schema && HasType(schema, id, v) && |r| == |v.fields|
    requires forall k :: 0 <= k < |schema[id].fields| ==> schema[id].fields[k].goIndex < |v.fields|
    requires forall k :: 0 <= k < |schema[id].fields| ==>
      (r[schema[id].fields[k].goIndex] == v.fields[schema[id].fields[k].goIndex] <==> CanonicalShape(schema,
          schema[id].fields[k].shape, v.fields[schema[id].fields[k].goIndex]))
    requires forall x :: 0 <= x < |v.fields| && !Bound(schema[id], x) ==> r[x] == schema[id].zeros[x]
    ensures r == v.fields <==> Canonical(schema, id, v)
  {
    var m := schema[id];
    if Canonical(schema, id, v) {
      forall x | 0 <= x < |v.fields| ensures r[x] == v.fields[x] {
        if Bound(m, x) {
          var k :| 0 <= k < |m.fields| && m.fields[k].goIndex == x;
          assert CanonicalShape(schema, m.fields[k].shape, v.fields[m.fields[k].goIndex]);
        }
      }
    }
  }

  /** The original comes back exactly when it holds no nil element and is canonical. */
  lemma {:induction false} ComesBackIff(schema: Schema, id: nat, v: Go)
    requires SchemaOk(schema) && id in schema && HasType(schema, id, v)
    ensures Encode(schema, id, v).Some? && Decode(schema, id, Encode(schema, id, v).value) == Some(v)
      <==> Solid(schema, id, v) && Canonical(schema, id, v)
  {
    EncodesIff(schema, id, v);
    if Solid(schema, id, v) {
      RoundTrip(schema, id, v);
      NormalIff(schema, id, v);
    }
  }

  // ---------------------------------------------------------------- messages from anywhere

  /** The first `n` bound fields hold values of their types, the others are as in the zero value. */
  ghost predicate TypedSoFar(schema: Schema, id: nat, fields: seq<Go>, n: nat)
    requires SchemaOk(schema) && id in schema && n <= |schema[id].fields|
  {
    var m := schema[id];
    && |fields| == |m.zeros|
    && (forall k :: 0 <= k < |m.fields| ==> FieldTyped(schema, m, fields, k, n))
  }

  ghost predicate FieldTyped(schema: Schema, m: Message, fields: seq<Go>, k: nat, n: nat)
    requires k < |m.fields|
  {
    var f := m.fields[k];
    && f.goIndex < |fields| == |m.zeros|
    && if k < n then HasShape(schema, f.shape, fields[f.goIndex]) else fields[f.goIndex] == m.zeros[f.goIndex]
  }

  lemma {:induction false} ZerosTyped(schema: Schema, id: nat)
    requires SchemaOk(schema) && id in schema
    ensures TypedSoFar(schema, id, schema[id].zeros, 0)
  {
    var m := schema[id];
    forall k | 0 <= k < |m.fields| ensures FieldTyped(schema, m, m.zeros, k, 0) {
      assert FieldOk(schema, m, m.fields[k]);
    }
  }

  /** One field more, received or left as it was. */
  lemma {:induction false} OneMoreTyped(schema: Schema, id: nat, before: seq<Go>, n: nat, v: Option<Go>)
    requires SchemaOk(schema) && id in schema && n < |schema[id].fields| && TypedSoFar(schema, id, before, n)
    requires v.Some? ==> HasShape(schema, schema[id].fields[n].shape, v.value)
    requires v.None? ==> !schema[id].fields[n].shape.Plain?
    ensures var x := schema[id].fields[n].goIndex;
      x < |before| && TypedSoFar(schema, id, if v.Some? then before[x := v.value] else before, n + 1)
  {
    var m, f := schema[id], schema[id].fields[n];
    assert FieldTyped(schema, m, before, n, n) && FieldOk(schema, m, f);
    var after := if v.Some? then before[f.goIndex := v.value] else before;
    var n1 := n + 1;
    forall k | 0 <= k < |m.fields| ensures FieldTyped(schema, m, after, k, n1) {
      assert FieldTyped(schema, m, before, k, n);
      assert k != n ==> m.fields[k].goIndex != f.goIndex;
    }
  }

  lemma {:induction false} AllTyped(schema: Schema, id: nat, fields: seq<Go>)
    requires SchemaOk(schema) && id in schema && TypedSoFar(schema, id, fields, |schema[id].fields|)
    ensures HasType(schema, id, GStruct(fields))
  {
    var m := schema[id];
    forall k | 0 <= k < |m.fields| ensures HasShape(schema, m.fields[k].shape, fields[m.fields[k].goIndex]) {
      assert FieldTyped(schema, m, fields, k, |m.fields|);
    }
  }

  lemma {:induction false} ScalarTyped(e: Elem, p: Proto)
    requires FromScalar(e, p).Some?
    ensures HasScalar(e, FromScalar(e, p).value)
  {
  }

  /** An integer that does not fit its Go type is refused, and nothing else of the right kind is. */
  lemma {:induction false} RefusedIff(e: Elem, p: Proto)
    ensures e.Int? && p.PInt? ==>
      (FromScalar(e, p) == None <==> p.i < 0 - Half(e.bits) || p.i >= Half(e.bits))
    ensures e.Uint? && p.PUint? ==> (FromScalar(e, p) == None <==> p.u >= 2 * Half(e.bits))
    ensures e.Int? && p.PInt? && FromScalar(e, p).Some? ==> FromScalar(e, p) == Some(GInt(p.i))
    ensures e.Uint? && p.PUint? && FromScalar(e, p).Some? ==> FromScalar(e, p) == Some(GUint(p.u))
  {
  }

  lemma {:induction false} EmptyTyped(schema: Schema, id: nat, n: nat)
    requires SchemaOk(schema) && id in schema && n <= |schema[id].fields|
    ensures TypedSoFar(schema, id, Empty(schema, id, n), n)
    decreases schema[id].rank, n
  {
    if n == 0 {
      ZerosTyped(schema, id);
    } else {
      var f := schema[id].fields[n - 1];
      assert FieldOk(schema, schema[id], f);
      EmptyTyped(schema, id, n - 1);
      if f.shape.Plain? {
        if f.shape.e.Msg? {
          EmptyTyped(schema, f.shape.e.id, |schema[f.shape.e.id].fields|);
        }
        AbsentTyped(schema, f.shape);
        OneMoreTyped(schema, id, Empty(schema, id, n - 1), n - 1, Some(DecodeAbsent(schema, f.shape).v));
      } else {
        OneMoreTyped(schema, id, Empty(schema, id, n - 1), n - 1, None);
      }
    }
  }

  lemma {:induction false} AbsentTyped(schema: Schema, shape: Shape)
    requires SchemaOk(schema) && ElemOk(schema, shape.e) && shape.Plain? && !shape.e.PtrMsg?
    requires shape.e.Msg? ==>
      TypedSoFar(schema, shape.e.id, Empty(schema, shape.e.id, |schema[shape.e.id].fields|),
                 |schema[shape.e.id].fields|)
    ensures DecodeAbsent(schema, shape).Takes? && HasShape(schema, shape, DecodeAbsent(schema, shape).v)
  {
    if shape.e.Msg? {
      AllTyped(schema, shape.e.id, Empty(schema, shape.e.id, |schema[shape.e.id].fields|));
    }
  }

  lemma {:induction false} DecodeElemTyped(schema: Schema, e: Elem, p: Proto)
    requires SchemaOk(schema) && ElemOk(schema, e) && DecodeElem(schema, e, p).Some?
    ensures HasElem(schema, e, DecodeElem(schema, e, p).value)
    decreases p, 3, 0
  {
    if e.Msg? || e.PtrMsg? {
      DecodeTyped(schema, e.id, p);
    } else {
      ScalarTyped(e, p);
    }
  }

  lemma {:induction false} DecodeListTyped(schema: Schema, e: Elem, p: Proto, n: nat)
    requires SchemaOk(schema) && ElemOk(schema, e) && p.PList? && n <= |p.elems| && DecodeList(schema, e, p, n).Some?
    ensures forall i :: 0 <= i < |DecodeList(schema, e, p, n).value| ==>
              HasElem(schema, e, DecodeList(schema, e, p, n).value[i])
    decreases p, 4, n
  {
    if n > 0 {
      DecodeListTyped(schema, e, p, n - 1);
      DecodeElemTyped(schema, e, p.elems[n - 1]);
    }
  }

  lemma {:induction false} DecodePresentTyped(schema: Schema, shape: Shape, p: Proto)
    requires SchemaOk(schema) && ElemOk(schema, shape.e) && !DecodePresent(schema, shape, p).Breaks?
    ensures DecodePresent(schema, shape, p).Takes?
    ensures HasShape(schema, shape, DecodePresent(schema, shape, p).v)
    decreases p, 5, 0
  {
    if shape.Repeated? {
      DecodeListTyped(schema, shape.e, p, |p.elems|);
    } else {
      DecodeElemTyped(schema, shape.e, p);
    }
  }

  lemma {:induction false} DecodeFieldsTyped(schema: Schema, id: nat, p: Proto, n: nat)
    requires SchemaOk(schema) && id in schema && p.PMessage? && n <= |schema[id].fields|
    requires DecodeFields(schema, id, p, n).Some?
    ensures TypedSoFar(schema, id, DecodeFields(schema, id, p, n).value, n)
    decreases p, 1, n
  {
    if n == 0 {
      ZerosTyped(schema, id);
    } else {
      var f := schema[id].fields[n - 1];
      var before := DecodeFields(schema, id, p, n - 1).value;
      assert FieldOk(schema, schema[id], f);
      DecodeFieldsTyped(schema, id, p, n - 1);
      if f.number in p.fields {
        DecodePresentTyped(schema, f.shape, p.fields[f.number]);
        OneMoreTyped(schema, id, before, n - 1, Some(DecodePresent(schema, f.shape, p.fields[f.number]).v));
      } else if f.shape.Plain? {
        if f.shape.e.Msg? {
          EmptyTyped(schema, f.shape.e.id, |schema[f.shape.e.id].fields|);
        }
        AbsentTyped(schema, f.shape);
        OneMoreTyped(schema, id, before, n - 1, Some(DecodeAbsent(schema, f.shape).v));
      } else {
        OneMoreTyped(schema, id, before, n - 1, None);
      }
    }
  }

  /** Whatever message arrives, what it is decoded to is a value of the struct's type. */
  lemma {:induction false} DecodeTyped(schema: Schema, id: nat, p: Proto)
    requires SchemaOk(schema) && id in schema && Decode(schema, id, p).Some?
    ensures HasType(schema, id, Decode(schema, id, p).value)
    decreases p, 2, 0
  {
    var n := |schema[id].fields|;
    DecodeFieldsTyped(schema, id, p, n);
    AllTyped(schema, id, DecodeFields(schema, id, p, n).value);
  }
}
