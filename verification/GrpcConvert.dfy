/** The conversion loops themselves, against the functions of `GrpcValues`. */
module GrpcConvert {
  import opened Options
  import opened GrpcValues

  // ---------------------------------------------------------------- toDynamic

  lemma {:induction false} FieldsStayFailed(schema: Schema, fields: seq<Field>, v: Go, k: nat, n: nat)
    requires v.GStruct? && k <= n <= |fields| && EncodeFields(schema, fields, v, k).None?
    ensures EncodeFields(schema, fields, v, n).None?
  {
    if k < n {
      FieldsStayFailed(schema, fields, v, k, n - 1);
    }
  }

  lemma {:induction false} ListStaysFailed(schema: Schema, e: Elem, v: Go, k: nat, n: nat)
    requires v.GSlice? && k <= n <= |v.elems| && EncodeList(schema, e, v, k).None?
    ensures EncodeList(schema, e, v, n).None?
  {
    if k < n {
      ListStaysFailed(schema, e, v, k, n - 1);
    }
  }

  method ScalarToProto(schema: Schema, e: Elem, v: Go) returns (r: Option<Proto>)
    ensures r == EncodeElem(schema, e, v)
    decreases v, 3
  {
    if e.Msg? {
      r := ToDynamic(schema, e.id, v);
    } else if e.PtrMsg? {
      if !v.GPtr? {
        return None;
      }
      r := ToDynamic(schema, e.id, v.to);
    } else {
      r := ToScalar(e, v);
    }
  }

  method ListToProto(schema: Schema, e: Elem, v: Go) returns (r: Option<seq<Proto>>)
    requires v.GSlice?
    ensures r == EncodeList(schema, e, v, |v.elems|)
    decreases v, 4
  {
    var list: seq<Proto> := [];
    for i := 0 to |v.elems|
      invariant EncodeList(schema, e, v, i) == Some(list)
    {
      var p := ScalarToProto(schema, e, v.elems[i]);
      if p.None? {
        ListStaysFailed(schema, e, v, i + 1, |v.elems|);
        return None;
      }
      list := list + [p.value];
    }
    r := Some(list);
  }

  /** One turn of the field loop. */
  method FieldToProto(schema: Schema, f: Field, v: Go) returns (r: Out)
    ensures r == EncodeField(schema, f, v)
    decreases v, 5
  {
    var value := v;
    if f.shape.Optional? {
      if !v.GPtr? {
        return Skips;
      }
      value := v.to;
    } else if f.shape.Repeated? {
      if !v.GSlice? || v.elems == [] {
        return Skips;
      }
      var list := ListToProto(schema, f.shape.e, v);
      return if list.Some? then Puts(PList(list.value)) else Fails;
    } else if IsZero(v) && !f.shape.e.Msg? && !f.shape.e.Time? {
      return Skips;
    }
    var p := ScalarToProto(schema, f.shape.e, value);
    r := if p.Some? then Puts(p.value) else Fails;
  }

  method ToDynamic(schema: Schema, id: nat, src: Go) returns (r: Option<Proto>)
    ensures r == Encode(schema, id, src)
    decreases src, 2
  {
    if !src.GStruct? || id !in schema {
      return None;
    }
    var fields := schema[id].fields;
    var dst: map<nat, Proto> := map[];
    for i := 0 to |fields|
      invariant EncodeFields(schema, fields, src, i) == Some(dst)
    {
      if fields[i].goIndex >= |src.fields| {
        FieldsStayFailed(schema, fields, src, i + 1, |fields|);
        return None;
      }
      var out := FieldToProto(schema, fields[i], src.fields[fields[i].goIndex]);
      if out.Fails? {
        FieldsStayFailed(schema, fields, src, i + 1, |fields|);
        return None;
      }
      if out.Puts? {
        dst := dst[fields[i].number := out.p];
      }
    }
    r := Some(PMessage(dst));
  }

  // ---------------------------------------------------------------- fromDynamic

  lemma {:induction false} ReadStaysFailed(schema: Schema, id: nat, p: Proto, k: nat, n: nat)
    requires SchemaOk(schema) && id in schema && p.PMessage? && k <= n <= |schema[id].fields|
    requires DecodeFields(schema, id, p, k).None?
    ensures DecodeFields(schema, id, p, n).None?
  {
    if k < n {
      ReadStaysFailed(schema, id, p, k, n - 1);
    }
  }

  lemma {:induction false} ListReadStaysFailed(schema: Schema, e: Elem, p: Proto, k: nat, n: nat)
    requires SchemaOk(schema) && ElemOk(schema, e) && p.PList? && k <= n <= |p.elems|
    requires DecodeList(schema, e, p, k).None?
    ensures DecodeList(schema, e, p, n).None?
  {
    if k < n {
      ListReadStaysFailed(schema, e, p, k, n - 1);
    }
  }

  method ScalarFromProto(schema: Schema, e: Elem, p: Proto) returns (r: Option<Go>)
    requires SchemaOk(schema) && ElemOk(schema, e)
    ensures r == DecodeElem(schema, e, p)
    decreases p, 3
  {
    if e.Msg? {
      r := FromDynamic(schema, e.id, p);
    } else if e.PtrMsg? {
      r := FromDynamic(schema, e.id, p);
      if r.Some? {
        r := Some(GPtr(r.value));
      }
    } else {
      r := FromScalar(e, p);
    }
  }

  method ListFromProto(schema: Schema, e: Elem, p: Proto) returns (r: Option<seq<Go>>)
    requires SchemaOk(schema) && ElemOk(schema, e) && p.PList?
    ensures r == DecodeList(schema, e, p, |p.elems|)
    decreases p, 4
  {
    var slice: seq<Go> := [];
    for i := 0 to |p.elems|
      invariant DecodeList(schema, e, p, i) == Some(slice)
    {
      var v := ScalarFromProto(schema, e, p.elems[i]);
      if v.None? {
        ListReadStaysFailed(schema, e, p, i + 1, |p.elems|);
        return None;
      }
      slice := slice + [v.value];
    }
    r := Some(slice);
  }

  /** A field that is set. */
  method FieldFromProto(schema: Schema, shape: Shape, p: Proto) returns (r: In)
    requires SchemaOk(schema) && ElemOk(schema, shape.e)
    ensures r == DecodePresent(schema, shape, p)
    decreases p, 5
  {
    if shape.Repeated? {
      if !p.PList? {
        return Breaks;
      }
      var list := ListFromProto(schema, shape.e, p);
      return if list.Some? then Takes(GSlice(list.value)) else Breaks;
    }
    var v := ScalarFromProto(schema, shape.e, p);
    if v.None? {
      return Breaks;
    }
    r := Takes(if shape.Optional? then GPtr(v.value) else v.value);
  }

  /** A struct held by value, read from an empty message. */
  method FromEmpty(schema: Schema, id: nat) returns (fields: seq<Go>)
    requires SchemaOk(schema) && id in schema
    ensures fields == Empty(schema, id, |schema[id].fields|)
    decreases schema[id].rank
  {
    var m := schema[id];
    assert MessageOk(schema, m);
    fields := m.zeros;
    for i := 0 to |m.fields|
      invariant fields == Empty(schema, id, i)
    {
      var f := m.fields[i];
      assert FieldOk(schema, m, f);
      if f.shape.Plain? && f.goIndex < |fields| {
        if f.shape.e.Msg? {
          var nested := FromEmpty(schema, f.shape.e.id);
          fields := fields[f.goIndex := GStruct(nested)];
        } else {
          fields := fields[f.goIndex := DefaultScalar(f.shape.e)];
        }
      }
    }
  }

  /** `Empty` is what an empty message reads as. */
  lemma {:induction false} EmptyReadsAs(schema: Schema, id: nat, n: nat)
    requires SchemaOk(schema) && id in schema && n <= |schema[id].fields|
    ensures DecodeFields(schema, id, PMessage(map[]), n) == Some(Empty(schema, id, n))
    ensures |Empty(schema, id, n)| == |schema[id].zeros|
  {
    if n > 0 {
      EmptyReadsAs(schema, id, n - 1);
      assert MessageOk(schema, schema[id]);
      assert FieldOk(schema, schema[id], schema[id].fields[n - 1]);
    }
  }

  method FieldFromNothing(schema: Schema, shape: Shape) returns (r: In)
    requires SchemaOk(schema) && ElemOk(schema, shape.e)
    ensures r == DecodeAbsent(schema, shape)
  {
    if !shape.Plain? {
      return Stays;
    }
    if shape.e.Msg? {
      var nested := FromEmpty(schema, shape.e.id);
      return Takes(GStruct(nested));
    }
    r := Takes(DefaultScalar(shape.e));
  }

  method FromDynamic(schema: Schema, id: nat, src: Proto) returns (r: Option<Go>)
    requires SchemaOk(schema) && id in schema
    ensures r == Decode(schema, id, src)
    decreases src, 2
  {
    if !src.PMessage? {
      return None;
    }
    var m := schema[id];
    assert MessageOk(schema, m);
    var dst := m.zeros;
    for i := 0 to |m.fields|
      invariant DecodeFields(schema, id, src, i) == Some(dst)
    {
      var f := m.fields[i];
      assert FieldOk(schema, m, f);
      var received;
      if f.number in src.fields {
        received := FieldFromProto(schema, f.shape, src.fields[f.number]);
      } else {
        received := FieldFromNothing(schema, f.shape);
      }
      var next := Received(f.goIndex, dst, received);
      if next.None? {
        ReadStaysFailed(schema, id, src, i + 1, |m.fields|);
        return None;
      }
      dst := next.value;
    }
    r := Some(GStruct(dst));
  }
}
