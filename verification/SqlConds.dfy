/** Compiling conditions into a WHERE clause, and what the clause means to an SQL engine. */
module SqlConds {
  import opened Options
  import opened SqlText

  datatype Operator =
    | OpCompare(op: Comparison)
    | OpILike
    | OpIn
    | OpNotIn
    | OpIsNull
    | OpNotNull
    | OpBetween
    | OpUnknown(code: nat)   // a number past the last operator

  datatype Cond = Cond(column: string, op: Operator, value: Value)

  // ---------------------------------------------------------------- three-valued meaning

  datatype Truth = True | False | Unknown

  function Truly(b: bool): Truth {
    if b then True else False
  }

  function And3(a: Truth, b: Truth): Truth {
    if a.False? || b.False? then False
    else if a.True? && b.True? then True
    else Unknown
  }

  function Or3(a: Truth, b: Truth): Truth {
    if a.True? || b.True? then True
    else if a.False? && b.False? then False
    else Unknown
  }

  function Not3(a: Truth): Truth {
    match a
    case True => False
    case False => True
    case Unknown => Unknown
  }

  datatype Cell = NullCell | Cell(code: int)

  /** An SQL engine with its driver: how arguments become cells and how cells compare, and whether a negative
      OFFSET is read as none, as SQLite does, or refused. */
  datatype Engine = Engine(
    convert: Value -> Cell,
    equal: (int, int) -> bool,
    less: (int, int) -> bool,
    like: (int, int) -> bool,
    ilike: (int, int) -> bool,
    lower: int -> int,
    lenient: bool)

  /** NULL arrives as NULL; ILIKE is LIKE on folded operands. */
  ghost predicate Sound(e: Engine) {
    && e.convert(Nil) == NullCell && e.convert(NilPointer) == NullCell
    && forall a, b :: e.ilike(a, b) == e.like(e.lower(a), e.lower(b))
  }

  function CompareCodes(e: Engine, op: Comparison, a: int, b: int): bool {
    match op
    case Eq => e.equal(a, b)
    case NotEq => !e.equal(a, b)
    case GT => e.less(b, a)
    case GTE => e.less(b, a) || e.equal(a, b)
    case LT => e.less(a, b)
    case LTE => e.less(a, b) || e.equal(a, b)
    case Like => e.like(a, b)
  }

  /** A comparison with NULL on either side is unknown. */
  function Compare(e: Engine, op: Comparison, a: Cell, b: Cell): Truth {
    if a.NullCell? || b.NullCell? then Unknown else Truly(CompareCodes(e, op, a.code, b.code))
  }

  /** Membership, as a set would have it: true if some element is equal, else unknown if some
      element cannot be compared, else false. */
  ghost function MemberTruth(e: Engine, a: Cell, items: seq<Value>): Truth {
    if exists v :: v in items && Compare(e, Eq, a, e.convert(v)).True? then True
    else if exists v :: v in items && Compare(e, Eq, a, e.convert(v)).Unknown? then Unknown
    else False
  }

  /** What a condition says of a row, stated without SQL. */
  ghost function Meaning(e: Engine, row: string -> Cell, c: Cond): Truth
    requires Accepted(c)
  {
    var a := row(c.column);
    match c.op
    case OpIsNull => Truly(a.NullCell?)
    case OpNotNull => Truly(!a.NullCell?)
    case OpIn => if c.value.Bytes? then Compare(e, Eq, a, e.convert(c.value)) else MemberTruth(e, a, c.value.items)
    case OpNotIn =>
      Not3(if c.value.Bytes? then Compare(e, Eq, a, e.convert(c.value)) else MemberTruth(e, a, c.value.items))
    case OpBetween =>
      And3(Compare(e, GTE, a, e.convert(c.value.items[0])), Compare(e, LTE, a, e.convert(c.value.items[1])))
    case OpILike =>
      var b := e.convert(c.value);
      if a.NullCell? || b.NullCell? then Unknown else Truly(e.ilike(a.code, b.code))
    case OpCompare(op) =>
      if c.value.Nil? && op.Eq? then Truly(a.NullCell?)
      else if c.value.Nil? && op.NotEq? then Truly(!a.NullCell?)
      else Compare(e, op, a, e.convert(c.value))
  }

  /** All the conditions of a list, in three-valued logic. No condition is no restriction. */
  ghost function MeaningOfAll(e: Engine, row: string -> Cell, conds: seq<Cond>): Truth
    requires forall c :: c in conds ==> Accepted(c)
  {
    if exists c :: c in conds && Meaning(e, row, c).False? then False
    else if exists c :: c in conds && Meaning(e, row, c).Unknown? then Unknown
    else True
  }

  // ---------------------------------------------------------------- which conditions compile

  /** `elements`: a []byte is one scalar, a nil value is no elements. */
  function Elements(v: Value): Option<seq<Value>> {
    match v
    case Nil => Some([])
    case Bytes(_) => Some([v])
    case List(items) => Some(items)
    case _ => None
  }

  /** Operator and value fit together: a list or one []byte for IN, a list of two for BETWEEN. */
  predicate Accepted(c: Cond) {
    match c.op
    case OpUnknown(_) => false
    case OpIn => c.value.Bytes? || c.value.List?
    case OpNotIn => c.value.Bytes? || c.value.List?
    case OpBetween => c.value.List? && |c.value.items| == 2
    case _ => true
  }

  // ---------------------------------------------------------------- the clause text

  function CommaValues(items: seq<Value>): seq<Token>
  {
    if items == [] then []
    else if |items| == 1 then [Bound(items[0])]
    else [Bound(items[0]), Comma] + CommaValues(items[1..])
  }

  /** The predicate a condition becomes, with its values in place. */
  function PartOf(d: Dialect, c: Cond): seq<Token>
    requires Accepted(c)
  {
    var col := Name(c.column);
    match c.op
    case OpIsNull => [col, Is, Null]
    case OpNotNull => [col, Is, Not, Null]
    case OpIn =>
      var items := Elements(c.value).value;
      if items == [] then [Number(1), Op(Eq), Number(0)]
      else [col, In, LPar] + CommaValues(items) + [RPar]
    case OpNotIn =>
      var items := Elements(c.value).value;
      if items == [] then [Number(1), Op(Eq), Number(1)]
      else [col, Not, In, LPar] + CommaValues(items) + [RPar]
    case OpBetween =>
      var bounds := Elements(c.value).value;
      [col, Between, Bound(bounds[0]), And, Bound(bounds[1])]
    case OpILike =>
      if d == Postgres then [col, ILike, Bound(c.value)]
      else [Lower, LPar, col, RPar, Op(Like), Lower, LPar, Bound(c.value), RPar]
    case OpCompare(op) =>
      if c.value.Nil? && op.Eq? then [col, Is, Null]
      else if c.value.Nil? && op.NotEq? then [col, Is, Not, Null]
      else [col, Op(op), Bound(c.value)]
  }

  /** `strings.Join(parts, " AND ")`. */
  function JoinAnd(parts: seq<seq<Token>>): seq<Token> {
    if parts == [] then []
    else if |parts| == 1 then parts[0]
    else JoinAnd(parts[..|parts| - 1]) + [And] + parts[|parts| - 1]
  }

  function PartsOf(d: Dialect, conds: seq<Cond>): seq<seq<Token>>
    requires forall c :: c in conds ==> Accepted(c)
  {
    seq(|conds|, i requires 0 <= i < |conds| => PartOf(d, conds[i]))
  }

  function ClauseOf(d: Dialect, conds: seq<Cond>): seq<Token>
    requires forall c :: c in conds ==> Accepted(c)
  {
    JoinAnd(PartsOf(d, conds))
  }

  datatype CondError = UnknownOperator | BadColumn | NilList | NotAList | NotTwoBounds

  datatype Clause = Clause(text: seq<Token>, args: seq<Value>, idx: nat) | Failed(error: CondError, cond: Cond)

  /** The IN list: one placeholder per value, the counter bumped for each. */
  method ListHoles(d: Dialect, items: seq<Value>, startIdx: nat) returns (holes: seq<Token>, args: seq<Value>, idx: nat)
    ensures holes == Emit(d, CommaValues(items), startIdx)
    ensures args == items == ArgsOf(CommaValues(items)) && idx == startIdx + |items|
  {
    holes, args, idx := [], [], startIdx;
    for i := 0 to |items|
      invariant Listed(d, items, i, holes, args, startIdx) && idx == startIdx + i
    {
      idx := idx + 1;
      NextHole(d, items, i, holes, args, startIdx);
      holes := (if i == 0 then [] else holes + [Comma]) + [Hole(PlaceholderFor(d, idx))];
      args := args + [items[i]];
    }
    assert items[..|items|] == items;
  }

  /** The first `i` values of a list, with their placeholders. */
  ghost predicate Listed(d: Dialect, items: seq<Value>, i: nat, holes: seq<Token>, args: seq<Value>, used: nat) {
    && i <= |items| && holes == Emit(d, CommaValues(items[..i]), used)
    && args == items[..i] && ArgsOf(CommaValues(items[..i])) == items[..i]
  }

  lemma {:induction false} NextHole(d: Dialect, items: seq<Value>, i: nat, holes: seq<Token>, args: seq<Value>,
                                    used: nat)
    requires i < |items| && Listed(d, items, i, holes, args, used)
    ensures Listed(d, items, i + 1, (if i == 0 then [] else holes + [Comma]) + [Hole(PlaceholderFor(d, used + i + 1))],
                   args + [items[i]], used)
  {
    assert items[..i + 1] == items[..i] + [items[i]];
    CommaAppend(d, items[..i], items[i], used);
  }

  lemma {:induction false} CommaAppend(d: Dialect, items: seq<Value>, v: Value, used: nat)
    ensures CommaValues(items + [v]) == if items == [] then [Bound(v)] else CommaValues(items) + [Comma, Bound(v)]
    ensures ArgsOf(CommaValues(items)) == items
    ensures ArgsOf(CommaValues(items + [v])) == items + [v]
    ensures Emit(d, CommaValues(items + [v]), used) ==
      (if items == [] then [] else Emit(d, CommaValues(items), used) + [Comma]) +
          [Hole(PlaceholderFor(d, used + |items| + 1))]
  {
    CommaSplit(items, v);
    CommaArgs(items);
    CommaArgs(items + [v]);
    if items != [] {
      EmitConcat(d, CommaValues(items), [Comma, Bound(v)], used);
      SingleValue(d, [Comma], v, [], used + |items|);
      assert [Comma] + [Bound(v)] + [] == [Comma, Bound(v)];
    } else {
      assert [Bound(v)][1..] == [];
    }
  }

  lemma {:induction false} CommaSplit(items: seq<Value>, v: Value)
    ensures CommaValues(items + [v]) == if items == [] then [Bound(v)] else CommaValues(items) + [Comma, Bound(v)]
  {
    if |items| > 0 {
      assert (items + [v])[1..] == items[1..] + [v];
      CommaSplit(items[1..], v);
    }
  }

  lemma {:induction false} AfterComma(v: Value, rest: seq<Token>)
    ensures ArgsOf([Bound(v), Comma] + rest) == [v] + ArgsOf(rest)
    ensures FullyBound(rest) ==> FullyBound([Bound(v), Comma] + rest)
  {
    var text := [Bound(v), Comma] + rest;
    assert text[1..] == [Comma] + rest;
    assert text[1..][1..] == rest;
  }

  lemma {:induction false} CommaArgs(items: seq<Value>)
    ensures ArgsOf(CommaValues(items)) == items
    ensures FullyBound(CommaValues(items))
  {
    if |items| > 1 {
      CommaArgs(items[1..]);
      AfterComma(items[0], CommaValues(items[1..]));
      assert CommaValues(items) == [Bound(items[0]), Comma] + CommaValues(items[1..]);
      assert items == [items[0]] + items[1..];
    } else if |items| == 1 {
      assert [Bound(items[0])][1..] == [];
      assert items == [items[0]];
    }
  }

  /** One condition of `buildConds`: its text, its arguments and the next counter. */
  method RenderCond(d: Dialect, c: Cond, startIdx: nat) returns (r: Clause)
    ensures r.Clause? <==> Accepted(c)
    ensures r.Clause? ==>
      && r.text == Emit(d, PartOf(d, c), startIdx)
      && r.args == ArgsOf(PartOf(d, c)) && r.idx == startIdx + |r.args|
  {
    var col := Name(c.column);
    match c.op {
    case OpUnknown(_) =>
      return Failed(UnknownOperator, c);
    case OpIsNull =>
      r := Clause([col, Is, Null], [], startIdx);
    case OpNotNull =>
      r := Clause([col, Is, Not, Null], [], startIdx);
    case OpIn =>
      r := RenderList(d, c, startIdx);
    case OpNotIn =>
      r := RenderList(d, c, startIdx);
    case OpBetween =>
      var items := Elements(c.value);
      if items.None? {
        return Failed(NotAList, c);
      }
      if |items.value| != 2 {
        return Failed(NotTwoBounds, c);
      }
      var low, high := PlaceholderFor(d, startIdx + 1), PlaceholderFor(d, startIdx + 2);
      FiveTokens(d, PartOf(d, c), startIdx);
      r := Clause([col, Between, Hole(low), And, Hole(high)], [items.value[0], items.value[1]], startIdx + 2);
    case OpILike =>
      var h := Hole(PlaceholderFor(d, startIdx + 1));
      ILikeTokens(d, c, startIdx);
      r := Clause(if d == Postgres then [col, ILike, h] else [Lower, LPar, col, RPar, Op(Like), Lower, LPar, h, RPar],
                  [c.value], startIdx + 1);
    case OpCompare(op) =>
      if c.value.Nil? && op.Eq? {
        r := Clause([col, Is, Null], [], startIdx);
      } else if c.value.Nil? && op.NotEq? {
        r := Clause([col, Is, Not, Null], [], startIdx);
      } else {
        CompareTokens(d, c.column, op, c.value, startIdx);
        r := Clause([col, Op(op), Hole(PlaceholderFor(d, startIdx + 1))], [c.value], startIdx + 1);
      }
    }
    if r.Clause? && !c.op.OpIn? && !c.op.OpNotIn? && r.args == [] {
      PlainText(d, PartOf(d, c), startIdx);
    }
  }

  /** `IN` and `NOT IN`. An empty list is a constant: `IN ()` is not SQL. */
  method RenderList(d: Dialect, c: Cond, startIdx: nat) returns (r: Clause)
    requires c.op.OpIn? || c.op.OpNotIn?
    ensures r.Clause? <==> Accepted(c)
    ensures r.Clause? ==>
      && r.text == Emit(d, PartOf(d, c), startIdx)
      && r.args == ArgsOf(PartOf(d, c)) && r.idx == startIdx + |r.args|
  {
    if c.value.Nil? {
      return Failed(NilList, c);
    }
    var items := Elements(c.value);
    if items.None? {
      return Failed(NotAList, c);
    }
    if |items.value| == 0 {
      r := Clause([Number(1), Op(Eq), Number(if c.op == OpIn then 0 else 1)], [], startIdx);
      PlainText(d, PartOf(d, c), startIdx);
      return;
    }
    var holes, args, idx := ListHoles(d, items.value, startIdx);
    var head := if c.op == OpIn then [Name(c.column), In, LPar] else [Name(c.column), Not, In, LPar];
    r := Clause(head + holes + [RPar], args, idx);
    Bracketed(d, head, CommaValues(items.value), startIdx);
    assert PartOf(d, c) == head + CommaValues(items.value) + [RPar];
  }

  lemma {:induction false} PlainHead(d: Dialect, head: seq<Token>, inner: seq<Token>, used: nat)
    requires forall i :: 0 <= i < |head| ==> !head[i].Bound?
    ensures Emit(d, head + inner, used) == head + Emit(d, inner, used)
    ensures ArgsOf(head + inner) == ArgsOf(inner)
  {
    PlainText(d, head, used);
    EmitConcat(d, head, inner, used);
    ArgsOfConcat(head, inner);
  }

  lemma {:induction false} ClosingParen(d: Dialect, front: seq<Token>, used: nat)
    ensures Emit(d, front + [RPar], used) == Emit(d, front, used) + [RPar]
    ensures ArgsOf(front + [RPar]) == ArgsOf(front)
  {
    PlainText(d, [RPar], used + |ArgsOf(front)|);
    EmitConcat(d, front, [RPar], used);
    ArgsOfConcat(front, [RPar]);
  }

  lemma {:induction false} Bracketed(d: Dialect, head: seq<Token>, inner: seq<Token>, used: nat)
    requires forall i :: 0 <= i < |head| ==> !head[i].Bound?
    ensures Emit(d, head + inner + [RPar], used) == head + Emit(d, inner, used) + [RPar]
    ensures ArgsOf(head + inner + [RPar]) == ArgsOf(inner)
  {
    PlainHead(d, head, inner, used);
    ClosingParen(d, head + inner, used);
  }

  lemma {:induction false} PlainText(d: Dialect, text: seq<Token>, used: nat)
    requires forall i :: 0 <= i < |text| ==> !text[i].Bound?
    ensures Emit(d, text, used) == text && ArgsOf(text) == []
  {
    if text != [] {
      assert forall i :: 0 <= i < |text[1..]| ==> text[1..][i] == text[i + 1];
      PlainText(d, text[1..], used);
      assert text == [text[0]] + text[1..];
    }
  }

  lemma {:induction false} SingleValue(d: Dialect, head: seq<Token>, v: Value, tail: seq<Token>, used: nat)
    requires forall i :: 0 <= i < |head| ==> !head[i].Bound?
    requires forall i :: 0 <= i < |tail| ==> !tail[i].Bound?
    ensures Emit(d, head + [Bound(v)] + tail, used) == head + [Hole(PlaceholderFor(d, used + 1))] + tail
    ensures ArgsOf(head + [Bound(v)] + tail) == [v]
  {
    PlainText(d, head, used);
    PlainText(d, tail, used + 1);
    assert [Bound(v)][1..] == [];
    EmitConcat(d, head + [Bound(v)], tail, used);
    EmitConcat(d, head, [Bound(v)], used);
    ArgsOfConcat(head + [Bound(v)], tail);
    ArgsOfConcat(head, [Bound(v)]);
  }

  lemma {:induction false} CompareTokens(d: Dialect, column: string, op: Comparison, v: Value, used: nat)
    ensures Emit(d, [Name(column), Op(op), Bound(v)], used) == [Name(column), Op(op), Hole(PlaceholderFor(d, used + 1))]
    ensures ArgsOf([Name(column), Op(op), Bound(v)]) == [v]
  {
    SingleValue(d, [Name(column), Op(op)], v, [], used);
    assert [Name(column), Op(op), Bound(v)] == [Name(column), Op(op)] + [Bound(v)] + [];
  }

  lemma {:induction false} ILikeTokens(d: Dialect, c: Cond, used: nat)
    requires c.op.OpILike? && Accepted(c)
    ensures Emit(d, PartOf(d, c), used) == (
      var h := Hole(PlaceholderFor(d, used + 1));
      if d == Postgres then [Name(c.column), ILike, h] else [Lower, LPar, Name(c.column), RPar, Op(Like), Lower, LPar,
                                                             h, RPar])
    ensures ArgsOf(PartOf(d, c)) == [c.value]
  {
    var head := if d == Postgres then [Name(c.column), ILike] else [Lower, LPar, Name(c.column), RPar, Op(Like), Lower,
                                                                    LPar];
    var tail := if d == Postgres then [] else [RPar];
    SingleValue(d, head, c.value, tail, used);
    assert PartOf(d, c) == head + [Bound(c.value)] + tail;
  }

  lemma {:induction false} FiveTokens(d: Dialect, part: seq<Token>, used: nat)
    requires |part| == 5 && part[1] == Between && part[3] == And && part[2].Bound? && part[4].Bound? && part[0].Name?
    ensures Emit(d, part, used) ==
      [part[0], Between, Hole(PlaceholderFor(d, used + 1)), And, Hole(PlaceholderFor(d, used + 2))]
    ensures ArgsOf(part) == [part[2].value, part[4].value]
  {
    var first, second := part[..3], part[3..];
    assert part == first + second;
    assert first == [part[0], Between] + [part[2]] + [] && second == [And] + [part[4]] + [];
    SingleValue(d, [part[0], Between], part[2].value, [], used);
    SingleValue(d, [And], part[4].value, [], used + 1);
    EmitConcat(d, first, second, used);
    ArgsOfConcat(first, second);
  }

  /** `buildConds`: the clause without WHERE, its arguments, and the last number used. */
  method BuildConds(d: Dialect, valid: string -> bool, conds: seq<Cond>, startIdx: nat) returns (r: Clause)
    ensures r.Clause? <==> forall c :: c in conds ==> Accepted(c) && valid(c.column)
    ensures r.Clause? ==>
      && r.text == Emit(d, ClauseOf(d, conds), startIdx)
      && r.args == ArgsOf(ClauseOf(d, conds)) && r.idx == startIdx + |r.args|
  {
    var parts: seq<seq<Token>> := [];
    var args: seq<Value> := [];
    var idx := startIdx;
    for i := 0 to |conds|
      invariant forall k :: 0 <= k < i ==> Accepted(conds[k]) && valid(conds[k].column)
      invariant |parts| == i && idx == startIdx + |args|
      invariant Rendered(d, conds, i, parts, args, startIdx)
    {
      var c := conds[i];
      assert c in conds;
      if c.op.OpUnknown? {
        return Failed(UnknownOperator, c);
      }
      if !valid(c.column) {
        return Failed(BadColumn, c);
      }
      var part := RenderCond(d, c, idx);
      if part.Failed? {
        return part;
      }
      OneMoreCond(d, conds, i, parts, args, part.text, part.args, startIdx);
      parts := parts + [part.text];
      args := args + part.args;
      idx := part.idx;
    }
    AllRendered(d, conds, parts, args, startIdx);
    r := Clause(JoinAnd(parts), args, idx);
  }

  /** The first `i` conditions are in `parts` and `args`. */
  ghost predicate Rendered(d: Dialect, conds: seq<Cond>, i: nat, parts: seq<seq<Token>>, args: seq<Value>, used: nat) {
    && i <= |conds| && |parts| == i && (forall k :: 0 <= k < i ==> Accepted(conds[k]))
    && JoinAnd(parts) == Emit(d, ClauseOf(d, conds[..i]), used) && args == ArgsOf(ClauseOf(d, conds[..i]))
  }

  lemma {:induction false} AllRendered(d: Dialect, conds: seq<Cond>, parts: seq<seq<Token>>, args: seq<Value>,
                                       used: nat)
    requires Rendered(d, conds, |conds|, parts, args, used)
    ensures forall c :: c in conds ==> Accepted(c)
    ensures JoinAnd(parts) == Emit(d, ClauseOf(d, conds), used) && args == ArgsOf(ClauseOf(d, conds))
  {
    assert conds[..|conds|] == conds;
  }

  lemma {:induction false} OneMoreCond(d: Dialect, conds: seq<Cond>, i: nat, parts: seq<seq<Token>>,
                                       args: seq<Value>, text: seq<Token>,
                                       more: seq<Value>, used: nat)
    requires Rendered(d, conds, i, parts, args, used) && i < |conds| && Accepted(conds[i])
    requires text == Emit(d, PartOf(d, conds[i]), used + |args|) && more == ArgsOf(PartOf(d, conds[i]))
    ensures Rendered(d, conds, i + 1, parts + [text], args + more, used)
  {
    ClauseGrows(d, conds, i, parts, text, used);
  }

  lemma {:induction false} ClauseGrows(d: Dialect, conds: seq<Cond>, i: nat, parts: seq<seq<Token>>,
                                       text: seq<Token>, used: nat)
    requires i < |conds| && forall k :: 0 <= k <= i ==> Accepted(conds[k])
    requires |parts| == i && JoinAnd(parts) == Emit(d, ClauseOf(d, conds[..i]), used)
    requires text == Emit(d, PartOf(d, conds[i]), used + |ArgsOf(ClauseOf(d, conds[..i]))|)
    ensures JoinAnd(parts + [text]) == Emit(d, ClauseOf(d, conds[..i + 1]), used)
    ensures ArgsOf(ClauseOf(d, conds[..i + 1])) == ArgsOf(ClauseOf(d, conds[..i])) + ArgsOf(PartOf(d, conds[i]))
  {
    var all := PartsOf(d, conds[..i + 1]);
    assert all[..i] == PartsOf(d, conds[..i]) && all[i] == PartOf(d, conds[i]);
    assert all == all[..i] + [all[i]];
    JoinGrows(d, all[..i], all[i], parts, text, used);
  }

  /** One more part, after AND unless it is the first. */
  lemma {:induction false} JoinGrows(d: Dialect, bounds: seq<seq<Token>>, bound: seq<Token>, parts: seq<seq<Token>>,
                                     text: seq<Token>,
                                     used: nat)
    requires |parts| == |bounds| && JoinAnd(parts) == Emit(d, JoinAnd(bounds), used)
    requires text == Emit(d, bound, used + |ArgsOf(JoinAnd(bounds))|)
    ensures JoinAnd(parts + [text]) == Emit(d, JoinAnd(bounds + [bound]), used)
    ensures ArgsOf(JoinAnd(bounds + [bound])) == ArgsOf(JoinAnd(bounds)) + ArgsOf(bound)
  {
    assert (parts + [text])[..|parts|] == parts && (bounds + [bound])[..|bounds|] == bounds;
    if parts != [] {
      AndThen(d, JoinAnd(bounds), bound, used);
    }
  }

  lemma {:induction false} AndThen(d: Dialect, before: seq<Token>, part: seq<Token>, used: nat)
    ensures Emit(d, before + [And] + part, used) == Emit(d, before, used) + [And] +
        Emit(d, part, used + |ArgsOf(before)|)
    ensures ArgsOf(before + [And] + part) == ArgsOf(before) + ArgsOf(part)
  {
    PlainText(d, [And], used + |ArgsOf(before)|);
    EmitConcat(d, before + [And], part, used);
    EmitConcat(d, before, [And], used);
    ArgsOfConcat(before + [And], part);
    ArgsOfConcat(before, [And]);
  }
}
