/** Reading a bound WHERE clause back as SQL does, and evaluating it on a row. */
module SqlEngine {
  import opened Options
  import opened SqlText
  import opened SqlConds

  datatype Predicate =
    | NullTest(column: string, negated: bool)
    | Constant(left: nat, right: nat)
    | Membership(column: string, negated: bool, items: seq<Value>)
    | Range(column: string, low: Value, high: Value)
    | FoldedLike(column: string, pattern: Value)
    | LowerLike(column: string, pattern: Value)
    | Comparing(column: string, op: Comparison, value: Value)

  /** `v, v, …, v )` */
  function ParseItems(ts: seq<Token>): (r: Option<(seq<Value>, seq<Token>)>)
    ensures r.Some? ==> |r.value.1| < |ts|
  {
    if |ts| < 2 || !ts[0].Bound? then None
    else if ts[1] == RPar then Some(([ts[0].value], ts[2..]))
    else if ts[1] == Comma then
      match ParseItems(ts[2..])
      case None => None
      case Some((items, rest)) => Some(([ts[0].value] + items, rest))
    else None
  }

  function ParseMembership(column: string, negated: bool, ts: seq<Token>): (r: Option<(Predicate, seq<Token>)>)
    ensures r.Some? ==> |r.value.1| < |ts|
  {
    match ParseItems(ts)
    case None => None
    case Some((items, rest)) => Some((Membership(column, negated, items), rest))
  }

  /** One predicate, and the text after it. The AND inside BETWEEN belongs to BETWEEN. */
  function ParseOne(ts: seq<Token>): (r: Option<(Predicate, seq<Token>)>)
    ensures r.Some? ==> |r.value.1| < |ts|
  {
    if |ts| < 3 then None
    else if ts[0].Name? then
      var col := ts[0].name;
      if ts[1] == Is && ts[2] == Null then Some((NullTest(col, false), ts[3..]))
      else if ts[1] == Is && ts[2] == Not && |ts| >= 4 && ts[3] == Null then Some((NullTest(col, true), ts[4..]))
      else if ts[1] == In && ts[2] == LPar then ParseMembership(col, false, ts[3..])
      else if ts[1] == Not && ts[2] == In && |ts| >= 4 && ts[3] == LPar then ParseMembership(col, true, ts[4..])
      else if ts[1] == Between && |ts| >= 5 && ts[2].Bound? && ts[3] == And && ts[4].Bound? then
        Some((Range(col, ts[2].value, ts[4].value), ts[5..]))
      else if ts[1] == ILike && ts[2].Bound? then Some((FoldedLike(col, ts[2].value), ts[3..]))
      else if ts[1].Op? && ts[2].Bound? then Some((Comparing(col, ts[1].op, ts[2].value), ts[3..]))
      else None
    else if ts[0].Number? && ts[1] == Op(Eq) && ts[2].Number? then Some((Constant(ts[0].n, ts[2].n), ts[3..]))
    else if |ts| >= 9 && ts[0] == Lower && ts[1] == LPar && ts[2].Name? && ts[3] == RPar && ts[4] == Op(Like)
            && ts[5] == Lower && ts[6] == LPar && ts[7].Bound? && ts[8] == RPar then
      Some((LowerLike(ts[2].name, ts[7].value), ts[9..]))
    else None
  }

  /** predicate { AND predicate } */
  function ParseAll(ts: seq<Token>): Option<seq<Predicate>>
    decreases |ts|
  {
    match ParseOne(ts)
    case None => None
    case Some((p, rest)) =>
      if rest == [] then Some([p])
      else if rest[0] != And then None
      else match ParseAll(rest[1..])
        case None => None
        case Some(ps) => Some([p] + ps)
  }

  function EvalItems(e: Engine, a: Cell, items: seq<Value>): Truth {
    if items == [] then False
    else Or3(Compare(e, Eq, a, e.convert(items[0])), EvalItems(e, a, items[1..]))
  }

  function EvalOne(e: Engine, row: string -> Cell, p: Predicate): Truth {
    match p
    case NullTest(col, negated) => Truly(row(col).NullCell? != negated)
    case Constant(left, right) => Truly(left == right)
    case Membership(col, negated, items) =>
      var t := EvalItems(e, row(col), items);
      if negated then Not3(t) else t
    case Range(col, low, high) =>
      And3(Compare(e, GTE, row(col), e.convert(low)), Compare(e, LTE, row(col), e.convert(high)))
    case FoldedLike(col, v) =>
      var a, b := row(col), e.convert(v);
      if a.NullCell? || b.NullCell? then Unknown else Truly(e.ilike(a.code, b.code))
    case LowerLike(col, v) =>
      var a, b := row(col), e.convert(v);
      if a.NullCell? || b.NullCell? then Unknown else Truly(e.like(e.lower(a.code), e.lower(b.code)))
    case Comparing(col, op, v) => Compare(e, op, row(col), e.convert(v))
  }

  function EvalAll(e: Engine, row: string -> Cell, ps: seq<Predicate>): Truth {
    if ps == [] then True else And3(EvalOne(e, row, ps[0]), EvalAll(e, row, ps[1..]))
  }

  /** What the engine makes of a bound clause; no clause keeps every row. */
  function EvalClause(e: Engine, row: string -> Cell, clause: seq<Token>): Option<Truth> {
    if clause == [] then Some(True)
    else match ParseAll(clause)
      case None => None
      case Some(ps) => Some(EvalAll(e, row, ps))
  }

  // ---------------------------------------------------------------- text back to predicates

  function PredicateOf(d: Dialect, c: Cond): Predicate
    requires Accepted(c)
  {
    match c.op
    case OpIsNull => NullTest(c.column, false)
    case OpNotNull => NullTest(c.column, true)
    case OpIn =>
      var items := Elements(c.value).value;
      if items == [] then Constant(1, 0) else Membership(c.column, false, items)
    case OpNotIn =>
      var items := Elements(c.value).value;
      if items == [] then Constant(1, 1) else Membership(c.column, true, items)
    case OpBetween => Range(c.column, Elements(c.value).value[0], Elements(c.value).value[1])
    case OpILike => if d == Postgres then FoldedLike(c.column, c.value) else LowerLike(c.column, c.value)
    case OpCompare(op) =>
      if c.value.Nil? && op.Eq? then NullTest(c.column, false)
      else if c.value.Nil? && op.NotEq? then NullTest(c.column, true)
      else Comparing(c.column, op, c.value)
  }

  lemma {:induction false} ItemsParse(items: seq<Value>, rest: seq<Token>)
    requires items != []
    ensures ParseItems(CommaValues(items) + [RPar] + rest) == Some((items, rest))
  {
    var ts := CommaValues(items) + [RPar] + rest;
    if |items| == 1 {
      assert ts == [Bound(items[0]), RPar] + rest;
      assert ts[2..] == rest && [items[0]] == items;
    } else {
      assert ts == [Bound(items[0]), Comma] + (CommaValues(items[1..]) + [RPar] + rest);
      assert ts[2..] == CommaValues(items[1..]) + [RPar] + rest;
      ItemsParse(items[1..], rest);
      assert [items[0]] + items[1..] == items;
    }
  }

  /** Whatever follows, a condition's text reads back as its predicate. */
  lemma {:induction false} PartParses(d: Dialect, c: Cond, rest: seq<Token>)
    requires Accepted(c)
    ensures ParseOne(PartOf(d, c) + rest) == Some((PredicateOf(d, c), rest))
  {
    if c.op.OpIn? || c.op.OpNotIn? {
      ListParses(d, c, rest);
    } else {
      var part := PartOf(d, c);
      assert (part + rest)[|part|..] == rest;
    }
  }

  lemma {:induction false} ListParses(d: Dialect, c: Cond, rest: seq<Token>)
    requires Accepted(c) && (c.op.OpIn? || c.op.OpNotIn?)
    ensures ParseOne(PartOf(d, c) + rest) == Some((PredicateOf(d, c), rest))
  {
    var items := Elements(c.value).value;
    if items == [] {
      assert (PartOf(d, c) + rest)[3..] == rest;
    } else {
      var head := ListHead(c.column, c.op.OpNotIn?);
      var tail := CommaValues(items) + [RPar] + rest;
      assert PartOf(d, c) + rest == head + tail by {
        assert PartOf(d, c) == head + CommaValues(items) + [RPar];
      }
      ItemsParse(items, rest);
      ListHeadParses(c.column, c.op.OpNotIn?, tail);
    }
  }

  function ListHead(column: string, negated: bool): seq<Token> {
    if negated then [Name(column), Not, In, LPar] else [Name(column), In, LPar]
  }

  lemma {:induction false} ListHeadParses(column: string, negated: bool, tail: seq<Token>)
    ensures ParseOne(ListHead(column, negated) + tail) == ParseMembership(column, negated, tail)
  {
    var head := ListHead(column, negated);
    assert (head + tail)[|head|..] == tail;
  }

  lemma {:induction false} JoinFront(parts: seq<seq<Token>>)
    requires |parts| >= 2
    ensures JoinAnd(parts) == parts[0] + ([And] + JoinAnd(parts[1..]))
  {
    var n := |parts| - 1;
    assert parts[1..][..n - 1] == parts[..n][1..];
    if n == 1 {
      assert parts[1..] == [parts[1]] && parts[..1] == [parts[0]];
    } else {
      JoinFront(parts[..n]);
      assert JoinAnd(parts[1..]) == JoinAnd(parts[..n][1..]) + [And] + parts[n];
    }
  }

  function PredicatesOf(d: Dialect, conds: seq<Cond>): seq<Predicate>
    requires forall c :: c in conds ==> Accepted(c)
  {
    seq(|conds|, i requires 0 <= i < |conds| => PredicateOf(d, conds[i]))
  }

  /** The whole clause reads back as the list of predicates it was joined from. */
  lemma {:induction false} ClauseParses(d: Dialect, conds: seq<Cond>)
    requires conds != [] && forall c :: c in conds ==> Accepted(c)
    ensures ParseAll(ClauseOf(d, conds)) == Some(PredicatesOf(d, conds))
  {
    var first, others := conds[0], conds[1..];
    if others == [] {
      assert PartsOf(d, conds) == [PartOf(d, first)];
      assert PredicatesOf(d, conds) == [PredicateOf(d, first)];
      assert PartOf(d, first) + [] == ClauseOf(d, conds);
      PartParses(d, first, []);
    } else {
      ClauseFront(d, conds);
      PredicatesFront(d, conds);
      ClauseParses(d, others);
      FirstThenRest(d, first, ClauseOf(d, others));
    }
  }

  lemma {:induction false} ClauseFront(d: Dialect, conds: seq<Cond>)
    requires |conds| >= 2 && forall c :: c in conds ==> Accepted(c)
    ensures forall c :: c in conds[1..] ==> Accepted(c)
    ensures ClauseOf(d, conds) == PartOf(d, conds[0]) + ([And] + ClauseOf(d, conds[1..]))
  {
    assert forall c :: c in conds[1..] ==> c in conds;
    var parts, rest := PartsOf(d, conds), PartsOf(d, conds[1..]);
    assert parts[1..] == rest by {
      assert forall i :: 0 <= i < |rest| ==> rest[i] == parts[i + 1];
    }
    JoinFront(parts);
  }

  lemma {:induction false} PredicatesFront(d: Dialect, conds: seq<Cond>)
    requires conds != [] && forall c :: c in conds ==> Accepted(c)
    ensures forall c :: c in conds[1..] ==> Accepted(c)
    ensures PredicatesOf(d, conds) == [PredicateOf(d, conds[0])] + PredicatesOf(d, conds[1..])
  {
    assert forall c :: c in conds[1..] ==> c in conds;
  }

  lemma {:induction false} FirstThenRest(d: Dialect, first: Cond, rest: seq<Token>)
    requires Accepted(first)
    ensures ParseAll(PartOf(d, first) + ([And] + rest)) ==
      match ParseAll(rest)
      case None => None
      case Some(ps) => Some([PredicateOf(d, first)] + ps)
  {
    PartParses(d, first, [And] + rest);
    assert ([And] + rest)[1..] == rest;
  }

  // ---------------------------------------------------------------- predicates to meaning

  lemma {:induction false} ItemsMean(e: Engine, a: Cell, items: seq<Value>)
    ensures EvalItems(e, a, items) == MemberTruth(e, a, items)
  {
    if items != [] {
      ItemsMean(e, a, items[1..]);
      assert forall v :: v in items <==> v == items[0] || v in items[1..];
    }
  }

  /** A predicate evaluates to what its condition means: nil equality is a null test, an empty
      list is a constant, and folding both sides is ILIKE. */
  lemma {:induction false} PredicateMeans(d: Dialect, e: Engine, row: string -> Cell, c: Cond)
    requires Accepted(c) && Sound(e)
    ensures EvalOne(e, row, PredicateOf(d, c)) == Meaning(e, row, c)
  {
    if c.op.OpIn? || c.op.OpNotIn? {
      ItemsMean(e, row(c.column), Elements(c.value).value);
    }
  }

  // What the conditions mean, in terms of the values a caller gave.

  /** A row is IN a list when its cell is no NULL and equals some value of the list that is none either. */
  lemma {:induction false} InMeans(e: Engine, row: string -> Cell, column: string, items: seq<Value>)
    ensures Accepted(Cond(column, OpIn, List(items)))
    ensures Meaning(e, row, Cond(column, OpIn, List(items))).True? <==>
      row(column).Cell? && exists v :: v in items && e.convert(v).Cell? && e.equal(row(column).code, e.convert(v).code)
  {
    var a := row(column);
    forall v ensures Compare(e, Eq, a, e.convert(v)).True? <==>
                     a.Cell? && e.convert(v).Cell? && e.equal(a.code, e.convert(v).code) {
    }
    if a.Cell? {
      if v :| v in items && e.convert(v).Cell? && e.equal(a.code, e.convert(v).code) {
        assert Compare(e, Eq, a, e.convert(v)).True?;
      }
    }
  }

  /** It is NOT IN a list when the list is empty, or the cell is no NULL and differs from every value, none of
      which is NULL. */
  lemma {:induction false} NotInMeans(e: Engine, row: string -> Cell, column: string, items: seq<Value>)
    ensures Accepted(Cond(column, OpNotIn, List(items)))
    ensures Meaning(e, row, Cond(column, OpNotIn, List(items))).True? <==>
      items == [] || (row(column).Cell? && forall v :: v in items ==>
                                             e.convert(v).Cell? && !e.equal(row(column).code, e.convert(v).code))
  {
    var a := row(column);
    forall v ensures Compare(e, Eq, a, e.convert(v)).False? <==>
                     a.Cell? && e.convert(v).Cell? && !e.equal(a.code, e.convert(v).code) {
    }
    if items != [] {
      assert items[0] in items;
      if !Meaning(e, row, Cond(column, OpNotIn, List(items))).True? {
        var v :| v in items && !Compare(e, Eq, a, e.convert(v)).False?;
      }
    }
  }

  /** A []byte is one value, not a list of numbers. */
  lemma {:induction false} BytesAreOneValue(d: Dialect, e: Engine, row: string -> Cell, column: string, bytes: seq<int>)
    ensures var c := Cond(column, OpIn, Bytes(bytes));
      && Accepted(c) && ArgsOf(PartOf(d, c)) == [Bytes(bytes)]
      && Meaning(e, row, c) == Compare(e, Eq, row(column), e.convert(Bytes(bytes)))
  {
    CommaArgs([Bytes(bytes)]);
    BoundPart(d, Cond(column, OpIn, Bytes(bytes)), [Bytes(bytes)]);
  }

  /** A condition on a list has the values of the list for its arguments, all of them and in order. */
  lemma {:induction false} ListArgs(d: Dialect, column: string, negated: bool, items: seq<Value>)
    ensures var c := Cond(column, if negated then OpNotIn else OpIn, List(items));
      Accepted(c) && ArgsOf(PartOf(d, c)) == items
  {
    var c := Cond(column, if negated then OpNotIn else OpIn, List(items));
    if items == [] {
      PlainText(d, PartOf(d, c), 0);
    } else {
      BoundPart(d, c, items);
    }
  }

  lemma {:induction false} BoundPart(d: Dialect, c: Cond, items: seq<Value>)
    requires (c.op.OpIn? || c.op.OpNotIn?) && Accepted(c) && Elements(c.value) == Some(items) && items != []
    ensures ArgsOf(PartOf(d, c)) == items
  {
    var head := ListHead(c.column, c.op.OpNotIn?);
    CommaArgs(items);
    Bracketed(d, head, CommaValues(items), 0);
    assert PartOf(d, c) == head + CommaValues(items) + [RPar];
  }

  /** BETWEEN two values is from the first to the second, both included. */
  lemma {:induction false} BetweenMeans(d: Dialect, e: Engine, row: string -> Cell, column: string, lo: Value,
                                        hi: Value)
    ensures var c := Cond(column, OpBetween, List([lo, hi]));
      && Accepted(c) && ArgsOf(PartOf(d, c)) == [lo, hi]
      && (Meaning(e, row, c).True? <==>
            var a, b, z := row(column), e.convert(lo), e.convert(hi);
            && a.Cell? && b.Cell? && z.Cell?
            && (e.less(b.code, a.code) || e.equal(a.code, b.code))
            && (e.less(a.code, z.code) || e.equal(a.code, z.code)))
  {
    var c := Cond(column, OpBetween, List([lo, hi]));
    FiveTokens(d, PartOf(d, c), 0);
  }

  /** The comparisons, by the equality and the order of the engine; NULL compares with nothing. */
  lemma {:induction false} ComparisonMeans(e: Engine, row: string -> Cell, column: string, op: Comparison, v: Value)
    requires v != Nil
    ensures var c := Cond(column, OpCompare(op), v);
      && Accepted(c)
      && (Meaning(e, row, c).Unknown? <==> row(column).NullCell? || e.convert(v).NullCell?)
      && (row(column).Cell? && e.convert(v).Cell? ==>
            var a, b := row(column).code, e.convert(v).code;
            && (op == Eq ==> Meaning(e, row, c).True? == e.equal(a, b))
            && (op == NotEq ==> Meaning(e, row, c).False? == e.equal(a, b))
            && (op == LT ==> Meaning(e, row, c).True? == e.less(a, b))
            && (op == GT ==> Meaning(e, row, c).True? == e.less(b, a))
            && (op == LTE ==> Meaning(e, row, c).False? == !(e.less(a, b) || e.equal(a, b)))
            && (op == GTE ==> Meaning(e, row, c).False? == !(e.less(b, a) || e.equal(a, b)))
            && (op == Like ==> Meaning(e, row, c).True? == e.like(a, b)))
  {
  }

  /** Comparing with nil is a null test, and a typed nil is not: it is bound, and compares as NULL does. */
  lemma {:induction false} NilMeans(d: Dialect, e: Engine, row: string -> Cell, column: string)
    requires Sound(e)
    ensures Meaning(e, row, Cond(column, OpCompare(Eq), Nil)).True? <==> row(column) == NullCell
    ensures Meaning(e, row, Cond(column, OpIsNull, Nil)).True? <==> row(column) == NullCell
    ensures Meaning(e, row, Cond(column, OpCompare(NotEq), Nil)).True? <==> row(column) != NullCell
    ensures Meaning(e, row, Cond(column, OpNotNull, Nil)).True? <==> row(column) != NullCell
    ensures Meaning(e, row, Cond(column, OpCompare(Eq), NilPointer)).Unknown?
    ensures ArgsOf(PartOf(d, Cond(column, OpCompare(Eq), NilPointer))) == [NilPointer]
  {
    CompareTokens(d, column, Eq, NilPointer, 0);
  }

  /** Case is folded on both sides, in every dialect. */
  lemma {:induction false} ILikeMeans(e: Engine, row: string -> Cell, column: string, v: Value)
    requires Sound(e)
    ensures Meaning(e, row, Cond(column, OpILike, v)).True? <==>
      row(column).Cell? && e.convert(v).Cell? && e.like(e.lower(row(column).code), e.lower(e.convert(v).code))
  {
  }

  lemma {:induction false} AllMean(d: Dialect, e: Engine, row: string -> Cell, conds: seq<Cond>)
    requires (forall c :: c in conds ==> Accepted(c)) && Sound(e)
    ensures EvalAll(e, row, PredicatesOf(d, conds)) == MeaningOfAll(e, row, conds)
  {
    if conds != [] {
      var others := conds[1..];
      assert forall c :: c in conds <==> c == conds[0] || c in others;
      assert PredicatesOf(d, conds)[1..] == PredicatesOf(d, others);
      AllMean(d, e, row, others);
      PredicateMeans(d, e, row, conds[0]);
    }
  }

  // ---------------------------------------------------------------- the compiler's theorem

  lemma {:induction false} PartIsBound(d: Dialect, c: Cond)
    requires Accepted(c)
    ensures FullyBound(PartOf(d, c)) && PartOf(d, c) != []
  {
    if c.op.OpIn? || c.op.OpNotIn? {
      CommaArgs(Elements(c.value).value);
    }
  }

  lemma {:induction false} ClauseIsBound(d: Dialect, conds: seq<Cond>)
    requires forall c :: c in conds ==> Accepted(c)
    ensures FullyBound(ClauseOf(d, conds))
    ensures ClauseOf(d, conds) == [] <==> conds == []
  {
    if conds != [] {
      var n := |conds| - 1;
      PartIsBound(d, conds[n]);
      assert PartsOf(d, conds)[..n] == PartsOf(d, conds[..n]);
      assert forall c :: c in conds[..n] ==> c in conds;
      ClauseIsBound(d, conds[..n]);
    }
  }

  /** The clause `buildConds` returns, bound at its place in any statement whose earlier
      placeholders use `before`, is true, false or unknown of a row exactly as the conditions
      are, in every dialect. */
  lemma {:induction false} CompiledMeansConditions(d: Dialect, e: Engine, row: string -> Cell, conds: seq<Cond>,
                                                   clause: Clause,
                                                   before: seq<Value>, after: seq<Value>)
    requires (forall c :: c in conds ==> Accepted(c)) && Sound(e)
    requires clause.Clause? && clause.text == Emit(d, ClauseOf(d, conds), |before|)
    requires clause.args == ArgsOf(ClauseOf(d, conds))
    ensures EvalClause(e, row, Bind(d, clause.text, before + clause.args + after, |before|)) ==
            Some(MeaningOfAll(e, row, conds))
  {
    ClauseIsBound(d, conds);
    BindUndoesEmit(d, ClauseOf(d, conds), before, after);
    if conds != [] {
      ClauseParses(d, conds);
      AllMean(d, e, row, conds);
    }
  }

  /** A list passes a row iff every condition is true of it. */
  lemma {:induction false} KeptIff(e: Engine, row: string -> Cell, conds: seq<Cond>)
    requires forall c :: c in conds ==> Accepted(c)
    ensures MeaningOfAll(e, row, conds).True? <==> forall c :: c in conds ==> Meaning(e, row, c).True?
  {
  }
}
