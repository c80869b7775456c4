/** Statement text as tokens, placeholders, and the binding of arguments to them. */
module SqlText {

  datatype Dialect = Postgres | MySQL | SQLite

  /** A Go `any`. `NilPointer` is a typed nil: not the nil interface, yet bound as NULL. */
  datatype Value =
    | Nil
    | NilPointer
    | Scalar(code: int)
    | Bytes(bytes: seq<int>)
    | List(items: seq<Value>)

  datatype Placeholder = Dollar(index: nat) | Question

  datatype Comparison = Eq | NotEq | GT | GTE | LT | LTE | Like

  /** The words that part the clauses of a statement. */
  datatype Keyword =
    | UpdateWord | SetWord | SelectWord | CountWord | FromWord | WhereWord
    | OrderByWord | AscWord | DescWord | LimitWord | OffsetWord

  datatype Token =
    | Key(word: Keyword)
    | Name(name: string)             // a validated, quoted identifier
    | Text(text: string)             // fixed statement text holding no placeholder
    | Op(op: Comparison)
    | Hole(holder: Placeholder)
    | Bound(value: Value)            // a placeholder once its argument is bound
    | Unbound                        // a placeholder with no argument
    | Number(n: nat)
    | And | Is | Not | Null | In | Between | ILike | Lower
    | LPar | RPar | Comma

  /** `Dialect.placeholder`. */
  function PlaceholderFor(d: Dialect, index: nat): Placeholder {
    if d == Postgres then Dollar(index) else Question
  }

  /** What a driver executes: on PostgreSQL `$n` takes argument `n`, elsewhere the k-th `?` takes argument
      `k`; a placeholder of the other form takes none. */
  function Bind(d: Dialect, text: seq<Token>, args: seq<Value>, questions: nat): seq<Token>
  {
    if text == [] then []
    else match text[0]
      case Hole(Question) =>
        [if d != Postgres && questions < |args| then Bound(args[questions]) else Unbound] +
        Bind(d, text[1..], args, questions + 1)
      case Hole(Dollar(n)) =>
        [if d == Postgres && 1 <= n <= |args| then Bound(args[n - 1]) else Unbound] +
        Bind(d, text[1..], args, questions)
      case t => [t] + Bind(d, text[1..], args, questions)
  }

  /** The values of a bound text, in the order they occur. */
  function ArgsOf(bound: seq<Token>): seq<Value> {
    if bound == [] then []
    else (if bound[0].Bound? then [bound[0].value] else []) + ArgsOf(bound[1..])
  }

  /** The text that leaves a placeholder for each value, numbered from `used + 1`. */
  function Emit(d: Dialect, bound: seq<Token>, used: nat): seq<Token> {
    if bound == [] then []
    else if bound[0].Bound? then [Hole(PlaceholderFor(d, used + 1))] + Emit(d, bound[1..], used + 1)
    else [bound[0]] + Emit(d, bound[1..], used)
  }

  ghost predicate FullyBound(text: seq<Token>) {
    forall i :: 0 <= i < |text| ==> !text[i].Hole?
  }

  /** Holes in text order. */
  function Holes(text: seq<Token>): seq<Placeholder> {
    if text == [] then []
    else (if text[0].Hole? then [text[0].holder] else []) + Holes(text[1..])
  }

  lemma {:induction false} ArgsOfConcat(a: seq<Token>, b: seq<Token>)
    ensures ArgsOf(a + b) == ArgsOf(a) + ArgsOf(b)
  {
    if a == [] {
      assert a + b == b;
    } else {
      var head := if a[0].Bound? then [a[0].value] else [];
      calc {
        ArgsOf(a + b);
        { assert (a + b)[1..] == a[1..] + b; }
        head + ArgsOf(a[1..] + b);
        { ArgsOfConcat(a[1..], b); }
        head + (ArgsOf(a[1..]) + ArgsOf(b));
        ArgsOf(a) + ArgsOf(b);
      }
    }
  }

  /** A text emitted in two parts: the second continues the numbering of the first. */
  lemma {:induction false} EmitConcat(d: Dialect, a: seq<Token>, b: seq<Token>, used: nat)
    ensures Emit(d, a + b, used) == Emit(d, a, used) + Emit(d, b, used + |ArgsOf(a)|)
  {
    if a == [] {
      assert a + b == b;
    } else {
      assert (a + b)[1..] == a[1..] + b;
      EmitConcat(d, a[1..], b, if a[0].Bound? then used + 1 else used);
    }
  }

  /** The values of `bound` are the arguments from `used` on. */
  ghost predicate Supplies(args: seq<Value>, bound: seq<Token>, used: nat) {
    used + |ArgsOf(bound)| <= |args| && args[used..used + |ArgsOf(bound)|] == ArgsOf(bound)
  }

  lemma {:induction false} SuppliesRest(args: seq<Value>, t: Token, rest: seq<Token>, used: nat)
    requires Supplies(args, [t] + rest, used)
    ensures t.Bound? ==> used < |args| && args[used] == t.value
    ensures Supplies(args, rest, if t.Bound? then used + 1 else used)
  {
    var bound := [t] + rest;
    assert bound[1..] == rest;
    if t.Bound? {
      var here := args[used..used + |ArgsOf(bound)|];
      assert ArgsOf(bound) == [t.value] + ArgsOf(rest);
      assert args[used] == here[0];
      assert args[used + 1..used + 1 + |ArgsOf(rest)|] == here[1..];
    } else {
      assert ArgsOf(bound) == ArgsOf(rest);
    }
  }

  lemma {:induction false} BindsBack(d: Dialect, bound: seq<Token>, args: seq<Value>, used: nat)
    requires FullyBound(bound) && Supplies(args, bound, used)
    ensures Bind(d, Emit(d, bound, used), args, used) == bound
  {
    if bound != [] {
      var t, rest := bound[0], bound[1..];
      assert bound == [t] + rest;
      assert FullyBound(rest) by {
        assert forall i :: 0 <= i < |rest| ==> rest[i] == bound[i + 1];
      }
      SuppliesRest(args, t, rest, used);
      if t.Bound? {
        BindsBack(d, rest, args, used + 1);
        BindValue(d, t.value, rest, args, used);
      } else {
        BindsBack(d, rest, args, used);
        BindPlain(d, t, rest, args, used);
      }
    }
  }

  /** Binding undoes emitting, in every dialect, wherever in the argument list the values sit. */
  lemma {:induction false} BindUndoesEmit(d: Dialect, bound: seq<Token>, before: seq<Value>, after: seq<Value>)
    requires FullyBound(bound)
    ensures Bind(d, Emit(d, bound, |before|), before + ArgsOf(bound) + after, |before|) == bound
  {
    var args := before + ArgsOf(bound) + after;
    assert args[|before|..|before| + |ArgsOf(bound)|] == ArgsOf(bound);
    BindsBack(d, bound, args, |before|);
  }

  lemma {:induction false} BindValue(d: Dialect, v: Value, rest: seq<Token>, args: seq<Value>, used: nat)
    requires FullyBound(rest) && used < |args| && args[used] == v
    requires Bind(d, Emit(d, rest, used + 1), args, used + 1) == rest
    ensures Bind(d, Emit(d, [Bound(v)] + rest, used), args, used) == [Bound(v)] + rest
  {
    var bound := [Bound(v)] + rest;
    var text := Emit(d, bound, used);
    assert bound[1..] == rest;
    assert text[0] == Hole(PlaceholderFor(d, used + 1)) && text[1..] == Emit(d, rest, used + 1);
    if d == Postgres {
      DollarsIgnoreQuestions(rest, args, used + 1, used);
    }
  }

  lemma {:induction false} BindPlain(d: Dialect, t: Token, rest: seq<Token>, args: seq<Value>, used: nat)
    requires !t.Bound? && !t.Hole? && Bind(d, Emit(d, rest, used), args, used) == rest
    ensures Bind(d, Emit(d, [t] + rest, used), args, used) == [t] + rest
  {
    var bound := [t] + rest;
    var text := Emit(d, bound, used);
    assert bound[1..] == rest;
    assert text[0] == t && text[1..] == Emit(d, rest, used);
  }

  /** Numbered text does not depend on the count of `?`. */
  lemma {:induction false} DollarsIgnoreQuestions(bound: seq<Token>, args: seq<Value>, used: nat, q: nat)
    requires FullyBound(bound)
    ensures Bind(Postgres, Emit(Postgres, bound, used), args, q) ==
            Bind(Postgres, Emit(Postgres, bound, used), args, used)
  {
    DollarsOnly(bound, args, used, q, used);
  }

  lemma {:induction false} DollarsOnly(bound: seq<Token>, args: seq<Value>, used: nat, q: nat, r: nat)
    requires FullyBound(bound)
    ensures Bind(Postgres, Emit(Postgres, bound, used), args, q) == Bind(Postgres, Emit(Postgres, bound, used), args, r)
  {
    if bound != [] {
      var text := Emit(Postgres, bound, used);
      var used' := if bound[0].Bound? then used + 1 else used;
      assert forall i :: 0 <= i < |bound[1..]| ==> bound[1..][i] == bound[i + 1];
      assert text[1..] == Emit(Postgres, bound[1..], used');
      DollarsOnly(bound[1..], args, used', q, r);
    }
  }

  lemma {:induction false} HolesOfHead(d: Dialect, t: Token, rest: seq<Token>, used: nat)
    requires !t.Hole?
    ensures Holes(Emit(d, [t] + rest, used)) ==
      if t.Bound? then [PlaceholderFor(d, used + 1)] + Holes(Emit(d, rest, used + 1)) else Holes(Emit(d, rest, used))
    ensures ArgsOf([t] + rest) == if t.Bound? then [t.value] + ArgsOf(rest) else ArgsOf(rest)
  {
    var bound := [t] + rest;
    assert bound[1..] == rest;
    assert Emit(d, bound, used)[1..] == Emit(d, rest, if t.Bound? then used + 1 else used);
  }

  /** The k-th placeholder in text order carries number `used + k`. */
  lemma {:induction false} EmitNumbersInOrder(d: Dialect, bound: seq<Token>, used: nat)
    requires FullyBound(bound)
    ensures |Holes(Emit(d, bound, used))| == |ArgsOf(bound)|
    ensures forall k :: 0 <= k < |ArgsOf(bound)| ==> Holes(Emit(d, bound, used))[k] == PlaceholderFor(d, used + k + 1)
  {
    if bound != [] {
      var t, rest := bound[0], bound[1..];
      assert bound == [t] + rest;
      assert FullyBound(rest) by {
        assert forall i :: 0 <= i < |rest| ==> rest[i] == bound[i + 1];
      }
      EmitNumbersInOrder(d, rest, if t.Bound? then used + 1 else used);
      HolesOfHead(d, t, rest, used);
    }
  }

  /** The law every statement builder follows: text and arguments come from one bound text,
      numbered from 1; so all dialects bind the same values in the same places. */
  ghost predicate Renders(d: Dialect, text: seq<Token>, args: seq<Value>, bound: seq<Token>) {
    FullyBound(bound) && text == Emit(d, bound, 0) && args == ArgsOf(bound)
  }

  lemma {:induction false} RenderedBindsBack(d: Dialect, text: seq<Token>, args: seq<Value>, bound: seq<Token>)
    requires Renders(d, text, args, bound)
    ensures Bind(d, text, args, 0) == bound
    ensures |Holes(text)| == |args|
    ensures forall k :: 0 <= k < |args| ==> Holes(text)[k] == PlaceholderFor(d, k + 1)
  {
    BindUndoesEmit(d, bound, [], []);
    assert [] + ArgsOf(bound) + [] == args;
    EmitNumbersInOrder(d, bound, 0);
  }
}
