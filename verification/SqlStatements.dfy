/** The statement builders: each multi-clause statement numbers its placeholders across all
    its clauses and concatenates the arguments to match. */
module SqlStatements {
  import opened Options
  import opened TextOrder
  import opened SqlText
  import opened SqlConds
  import opened SqlEngine

  /** A repository as the builders see it. `valid` is the identifier check of `QuoteValidated`. */
  datatype Repo = Repo(dialect: Dialect, valid: string -> bool, table: string, id: string, insertCols: seq<string>)

  type Filter = map<string, Value>

  datatype StatementError = EmptyFilter | NoUpdateColumns | BadIdentifier | BadCondition

  datatype Statement = Statement(text: seq<Token>, args: seq<Value>) | Refused(error: StatementError)

  // ---------------------------------------------------------------- pieces of a statement

  /** A stretch of text whose placeholders continue from `used` and take exactly `args`. */
  ghost predicate Piece(d: Dialect, text: seq<Token>, args: seq<Value>, bound: seq<Token>, used: nat) {
    FullyBound(bound) && text == Emit(d, bound, used) && args == ArgsOf(bound)
  }

  lemma {:induction false} PieceConcat(d: Dialect, t1: seq<Token>, a1: seq<Value>, b1: seq<Token>,
                                       t2: seq<Token>, a2: seq<Value>, b2: seq<Token>, used: nat)
    requires Piece(d, t1, a1, b1, used) && Piece(d, t2, a2, b2, used + |a1|)
    ensures Piece(d, t1 + t2, a1 + a2, b1 + b2, used)
  {
    EmitConcat(d, b1, b2, used);
    ArgsOfConcat(b1, b2);
  }

  lemma {:induction false} PiecePlain(d: Dialect, text: seq<Token>, used: nat)
    requires forall i :: 0 <= i < |text| ==> !text[i].Bound? && !text[i].Hole?
    ensures Piece(d, text, [], text, used)
  {
    PlainText(d, text, used);
  }

  /** Fixed text, then a piece, then fixed text. */
  lemma {:induction false} PieceBetween(d: Dialect, head: seq<Token>, t: seq<Token>, a: seq<Value>, b: seq<Token>,
                                        tail: seq<Token>,
                                        used: nat)
    requires forall i :: 0 <= i < |head| ==> !head[i].Bound? && !head[i].Hole?
    requires forall i :: 0 <= i < |tail| ==> !tail[i].Bound? && !tail[i].Hole?
    requires Piece(d, t, a, b, used)
    ensures Piece(d, head + t + tail, a, head + b + tail, used)
  {
    PiecePlain(d, head, used);
    PiecePlain(d, tail, used + |a|);
    PieceConcat(d, head, [], head, t, a, b, used);
    assert [] + a == a && a + [] == a;
    PieceConcat(d, head + t, a, head + b, tail, [], tail, used);
  }

  lemma {:induction false} PieceHole(d: Dialect, head: seq<Token>, v: Value, used: nat)
    requires forall i :: 0 <= i < |head| ==> !head[i].Bound? && !head[i].Hole?
    ensures Piece(d, head + [Hole(PlaceholderFor(d, used + 1))], [v], head + [Bound(v)], used)
  {
    SingleValue(d, head, v, [], used);
    assert head + [Bound(v)] + [] == head + [Bound(v)];
    assert head + [Hole(PlaceholderFor(d, used + 1))] + [] == head + [Hole(PlaceholderFor(d, used + 1))];
  }

  // ---------------------------------------------------------------- filters

  ghost predicate IsKeyOrder(filter: Filter, keys: seq<string>) {
    InTextOrder(keys) && (set k | k in keys) == filter.Keys
  }

  /** Ranging a map is random, so the keys are sorted before use. */
  method SortedKeys(filter: Filter) returns (keys: seq<string>)
    ensures IsKeyOrder(filter, keys)
    ensures |keys| == 0 <==> filter == map[]
  {
    keys := [];
    var todo := filter.Keys;
    while todo != {}
      invariant todo <= filter.Keys
      invariant InTextOrder(keys) && (set k | k in keys) == filter.Keys - todo
    {
      var k :| k in todo;
      keys := InsertText(keys, k);
      todo := todo - {k};
    }
    assert (set k | k in keys) == filter.Keys;
    if |keys| > 0 {
      assert keys[0] in (set k | k in keys);
      assert keys[0] in filter;
    } else {
      assert filter.Keys == (set k | k in keys) == {};
      assert filter == map[];
    }
  }

  function FilterCond(filter: Filter, k: string): Cond
    requires k in filter
  {
    if filter[k].Nil? then Cond(k, OpIsNull, Nil) else Cond(k, OpCompare(Eq), filter[k])
  }

  function FilterConds(filter: Filter, keys: seq<string>): seq<Cond>
    requires forall k :: k in keys ==> k in filter
  {
    seq(|keys|, i requires 0 <= i < |keys| => FilterCond(filter, keys[i]))
  }

  lemma {:induction false} KeysAreKnown(filter: Filter, keys: seq<string>)
    requires IsKeyOrder(filter, keys)
    ensures forall k :: k in keys <==> k in filter
  {
    assert forall k :: k in keys <==> k in (set j | j in keys);
  }

  /** So the conditions of a filter are determined by it. */
  lemma {:induction false} KeyOrderIsUnique(filter: Filter, a: seq<string>, b: seq<string>)
    requires IsKeyOrder(filter, a) && IsKeyOrder(filter, b)
    ensures a == b
  {
    KeysAreKnown(filter, a);
    KeysAreKnown(filter, b);
    TextOrderIsUnique(a, b);
  }

  /** `filterToConds`. */
  method FilterToConds(filter: Filter) returns (conds: seq<Cond>, ghost keys: seq<string>)
    ensures IsKeyOrder(filter, keys) && (forall k :: k in keys <==> k in filter)
    ensures conds == FilterConds(filter, keys)
    ensures forall c :: c in conds ==> Accepted(c)
    ensures |conds| == 0 <==> filter == map[]
  {
    var sorted := SortedKeys(filter);
    keys := sorted;
    KeysAreKnown(filter, sorted);
    conds := [];
    for i := 0 to |sorted|
      invariant |conds| == i && forall k :: 0 <= k < i ==> conds[k] == FilterCond(filter, sorted[k])
    {
      var k := sorted[i];
      if filter[k].Nil? {
        conds := conds + [Cond(k, OpIsNull, Nil)];
      } else {
        conds := conds + [Cond(k, OpCompare(Eq), filter[k])];
      }
    }
  }

  /** A row passes a filter iff every named column is null where the filter says nil and equal
      to the given value elsewhere; the order of the keys plays no part. */
  lemma {:induction false} FilterMeans(e: Engine, row: string -> Cell, filter: Filter, keys: seq<string>)
    requires IsKeyOrder(filter, keys) && (forall k :: k in keys <==> k in filter)
    requires forall c :: c in FilterConds(filter, keys) ==> Accepted(c)
    ensures MeaningOfAll(e, row, FilterConds(filter, keys)).True? <==>
      forall k :: k in filter ==>
        if filter[k].Nil? then row(k).NullCell? else Compare(e, Eq, row(k), e.convert(filter[k])).True?
  {
    var conds := FilterConds(filter, keys);
    KeptIff(e, row, conds);
    forall k | k in filter
      ensures FilterCond(filter, k) in conds
    {
      var i :| 0 <= i < |keys| && keys[i] == k;
      assert conds[i] == FilterCond(filter, k);
    }
    forall c | c in conds
      ensures c.column in filter && c == FilterCond(filter, c.column)
    {
      var i :| 0 <= i < |conds| && conds[i] == c;
      assert keys[i] in keys;
    }
    if forall c :: c in conds ==> Meaning(e, row, c).True? {
      forall k | k in filter
        ensures if filter[k].Nil? then row(k).NullCell? else Compare(e, Eq, row(k), e.convert(filter[k])).True?
      {
        assert Meaning(e, row, FilterCond(filter, k)).True?;
      }
    }
  }

  /** The columns of a filter are its keys. */
  lemma {:induction false} FilterColumns(valid: string -> bool, filter: Filter, keys: seq<string>)
    requires forall k :: k in keys <==> k in filter
    ensures (forall c :: c in FilterConds(filter, keys) ==> valid(c.column)) <==> forall k :: k in filter ==> valid(k)
  {
    var conds := FilterConds(filter, keys);
    forall i | 0 <= i < |keys| ensures conds[i] in conds && conds[i].column == keys[i] && keys[i] in keys {
    }
    if forall c :: c in conds ==> valid(c.column) {
      forall k | k in filter ensures valid(k) {
        var i :| 0 <= i < |keys| && keys[i] == k;
        assert conds[i] in conds;
      }
    }
  }

  // ---------------------------------------------------------------- clauses

  /** `WHERE` and the clause, or nothing. */
  function WhereOf(d: Dialect, conds: seq<Cond>): seq<Token>
    requires forall c :: c in conds ==> Accepted(c)
  {
    if conds == [] then [] else [Key(WhereWord)] + ClauseOf(d, conds)
  }

  /** `buildWhereConds`. */
  method BuildWhere(repo: Repo, conds: seq<Cond>, startIdx: nat) returns (r: Clause)
    ensures r.Clause? <==> forall c :: c in conds ==> Accepted(c) && repo.valid(c.column)
    ensures r.Clause? ==>
      Piece(repo.dialect, r.text, r.args, WhereOf(repo.dialect, conds), startIdx) && r.idx == startIdx + |r.args|
  {
    r := BuildConds(repo.dialect, repo.valid, conds, startIdx);
    if r.Failed? {
      return;
    }
    ghost var bound := ClauseOf(repo.dialect, conds);
    ClauseIsBound(repo.dialect, conds);
    EmitLength(repo.dialect, bound, startIdx);
    if |r.text| == 0 {
      return Clause([], r.args, r.idx);
    }
    PieceBetween(repo.dialect, [Key(WhereWord)], r.text, r.args, bound, [], startIdx);
    assert [Key(WhereWord)] + r.text + [] == [Key(WhereWord)] + r.text;
    assert [Key(WhereWord)] + bound + [] == [Key(WhereWord)] + bound;
    r := Clause([Key(WhereWord)] + r.text, r.args, r.idx);
  }

  lemma {:induction false} EmitLength(d: Dialect, bound: seq<Token>, used: nat)
    ensures |Emit(d, bound, used)| == |bound|
  {
    if bound != [] {
      EmitLength(d, bound[1..], if bound[0].Bound? then used + 1 else used);
    }
  }

  /** `col = value, …` */
  function SetOfKeys(data: Filter, keys: seq<string>): seq<Token>
    requires forall k :: k in keys ==> k in data
  {
    if keys == [] then []
    else
      var n := |keys| - 1;
      var one := [Name(keys[n]), Op(Eq)] + [Bound(data[keys[n]])];
      if n == 0 then one else SetOfKeys(data, keys[..n]) + ([Comma] + one)
  }

  datatype SetClause = SetClause(text: seq<Token>, args: seq<Value>) | SetRefused(error: StatementError)

  /** `buildSetClause` from index 0. */
  method BuildSet(repo: Repo, data: Filter) returns (r: SetClause, ghost keys: seq<string>)
    ensures IsKeyOrder(data, keys) && (forall k :: k in keys <==> k in data)
    ensures r.SetClause? <==> data != map[] && forall k :: k in data ==> repo.valid(k)
    ensures r.SetClause? ==> Piece(repo.dialect, r.text, r.args, SetOfKeys(data, keys), 0)
  {
    var d := repo.dialect;
    var sorted := SortedKeys(data);
    keys := sorted;
    KeysAreKnown(data, sorted);
    if |sorted| == 0 {
      r := SetRefused(NoUpdateColumns);
      return;
    }
    var text, args, idx := [], [], 0;
    for i := 0 to |sorted|
      invariant idx == |args|
      invariant forall k :: 0 <= k < i ==> repo.valid(sorted[k])
      invariant Piece(d, text, args, SetOfKeys(data, sorted[..i]), 0)
    {
      var k := sorted[i];
      assert k in sorted;
      if !repo.valid(k) {
        r := SetRefused(BadIdentifier);
        return;
      }
      idx := idx + 1;
      var assign := [Name(k), Op(Eq)] + [Hole(PlaceholderFor(d, idx))];
      assert sorted[..i + 1][..i] == sorted[..i];
      if i == 0 {
        PieceHole(d, [Name(k), Op(Eq)], data[k], 0);
        text, args := assign, [data[k]];
      } else {
        PieceHole(d, [Comma, Name(k), Op(Eq)], data[k], |args|);
        assert [Comma] + assign == [Comma, Name(k), Op(Eq)] + [Hole(PlaceholderFor(d, idx))];
        assert [Comma] + ([Name(k), Op(Eq)] + [Bound(data[k])]) == [Comma, Name(k), Op(Eq)] + [Bound(data[k])];
        PieceConcat(d, text, args, SetOfKeys(data, sorted[..i]),
                    [Comma] + assign, [data[k]], [Comma] + ([Name(k), Op(Eq)] + [Bound(data[k])]), 0);
        text, args := text + ([Comma] + assign), args + [data[k]];
      }
    }
    assert sorted[..|sorted|] == sorted;
    r := SetClause(text, args);
  }

  // ---------------------------------------------------------------- UPDATE

  function UpdateHead(repo: Repo): seq<Token> {
    [Key(UpdateWord), Name(repo.table), Key(SetWord)]
  }

  /** Text around a WHERE: `UPDATE … SET` assignments, `middle`, the clause, `tail`. */
  lemma {:induction false} UpdateRenders(repo: Repo, set': seq<Token>, setArgs: seq<Value>, setBound: seq<Token>,
                                         middle: seq<Token>,
                      where': seq<Token>, whereArgs: seq<Value>, whereBound: seq<Token>, tail: seq<Token>)
    requires Piece(repo.dialect, set', setArgs, setBound, 0)
    requires Piece(repo.dialect, where', whereArgs, whereBound, |setArgs|)
    requires forall i :: 0 <= i < |middle| ==> !middle[i].Bound? && !middle[i].Hole?
    requires forall i :: 0 <= i < |tail| ==> !tail[i].Bound? && !tail[i].Hole?
    ensures Renders(repo.dialect, (UpdateHead(repo) + set' + middle) + (where' + tail), setArgs + whereArgs,
                    (UpdateHead(repo) + setBound + middle) + (whereBound + tail))
  {
    var d := repo.dialect;
    PieceBetween(d, UpdateHead(repo), set', setArgs, setBound, middle, 0);
    PieceBetween(d, [], where', whereArgs, whereBound, tail, |setArgs|);
    assert [] + where' + tail == where' + tail && [] + whereBound + tail == whereBound + tail;
    PieceConcat(d, UpdateHead(repo) + set' + middle, setArgs, UpdateHead(repo) + setBound + middle,
                where' + tail, whereArgs, whereBound + tail, 0);
  }

  /** `updateByIDQuery` with the arguments `UpdateOneByID` passes. */
  method UpdateByID(repo: Repo, id: Value, data: Filter) returns (r: Statement, ghost keys: seq<string>)
    ensures forall k :: k in keys ==> k in data
    ensures r.Statement? ==> IsKeyOrder(data, keys)
    ensures r.Statement? ==>
      Renders(repo.dialect, r.text, r.args,
              (UpdateHead(repo) + SetOfKeys(data, keys) + [Key(WhereWord), Name(repo.id), Op(Eq)]) + ([Bound(id)] + []))
    ensures r.Statement? <==> data != map[] && forall k :: k in data ==> repo.valid(k)
  {
    var d := repo.dialect;
    var set';
    set', keys := BuildSet(repo, data);
    if set'.SetRefused? {
      r := Refused(set'.error);
      return;
    }
    var hole := [Hole(PlaceholderFor(d, |set'.args| + 1))];
    PieceHole(d, [], id, |set'.args|);
    assert [] + hole == hole && [] + [Bound(id)] == [Bound(id)];
    UpdateRenders(repo, set'.text, set'.args, SetOfKeys(data, keys), [Key(WhereWord), Name(repo.id), Op(Eq)],
                  hole, [id], [Bound(id)], []);
    r := Statement((UpdateHead(repo) + set'.text + [Key(WhereWord), Name(repo.id), Op(Eq)]) + (hole + []),
                   set'.args + [id]);
  }

  /** The fixed text before and after the clause of a single-row update. MySQL cannot select
      from the table it updates. */
  function OneRowMiddle(repo: Repo): seq<Token> {
    if repo.dialect == MySQL then []
    else [Key(WhereWord), Name(repo.id), In, LPar, Key(SelectWord), Name(repo.id), Key(FromWord), Name(repo.table)]
  }

  function OneRowTail(repo: Repo): seq<Token> {
    [Key(LimitWord), Number(1)] + if repo.dialect == MySQL then [] else [RPar]
  }

  /** `updateByWhere` in general: SET data, then a clause on typed conditions, between fixed
      `middle` and `tail` text. */
  method UpdateWhere(repo: Repo, conds: seq<Cond>, data: Filter, middle: seq<Token>, tail: seq<Token>)
    returns (r: Statement, ghost keys: seq<string>)
    requires forall i :: 0 <= i < |middle| ==> !middle[i].Bound? && !middle[i].Hole?
    requires forall i :: 0 <= i < |tail| ==> !tail[i].Bound? && !tail[i].Hole?
    ensures forall k :: k in keys ==> k in data
    ensures r.Statement? <==>
      && conds != [] && data != map[] && (forall k :: k in data ==> repo.valid(k))
      && (forall c :: c in conds ==> Accepted(c) && repo.valid(c.column))
    ensures r.Statement? ==> IsKeyOrder(data, keys)
    ensures r.Statement? ==>
      Renders(repo.dialect, r.text, r.args,
              (UpdateHead(repo) + SetOfKeys(data, keys) + middle) + (WhereOf(repo.dialect, conds) + tail))
  {
    keys := [];
    if |conds| == 0 {
      r := Refused(EmptyFilter);
      return;
    }
    var set';
    set', keys := BuildSet(repo, data);
    if set'.SetRefused? {
      r := Refused(set'.error);
      return;
    }
    var clause := BuildWhere(repo, conds, |set'.args|);
    if clause.Failed? {
      r := Refused(BadCondition);
      return;
    }
    UpdateRenders(repo, set'.text, set'.args, SetOfKeys(data, keys), middle,
                  clause.text, clause.args, WhereOf(repo.dialect, conds), tail);
    r := Statement((UpdateHead(repo) + set'.text + middle) + (clause.text + tail), set'.args + clause.args);
  }

  /** `updateOneQuery`: the predicate's numbers continue where SET stopped. */
  method UpdateOne(repo: Repo, filter: Filter, data: Filter)
    returns (r: Statement, ghost keys: seq<string>, conds: seq<Cond>)
    ensures r.Statement? <==>
      && filter != map[] && data != map[]
      && (forall k :: k in data ==> repo.valid(k)) && (forall k :: k in filter ==> repo.valid(k))
    ensures r.Statement? ==> IsKeyOrder(data, keys) && (forall k :: k in keys ==> k in data)
    ensures r.Statement? ==>
      exists fk :: IsKeyOrder(filter, fk) && (forall k :: k in fk <==> k in filter) && conds == FilterConds(filter, fk)
    ensures r.Statement? ==> (forall c :: c in conds ==> Accepted(c))
    ensures r.Statement? ==>
      Renders(repo.dialect, r.text, r.args,
              (UpdateHead(repo) + SetOfKeys(data, keys) + OneRowMiddle(repo)) +
                  (WhereOf(repo.dialect, conds) + OneRowTail(repo)))
  {
    var cs, fk := FilterToConds(filter);
    conds := cs;
    FilterColumns(repo.valid, filter, fk);
    r, keys := UpdateWhere(repo, cs, data, OneRowMiddle(repo), OneRowTail(repo));
  }

  /** `updateManyQuery`. */
  method UpdateMany(repo: Repo, filter: Filter, data: Filter)
    returns (r: Statement, ghost keys: seq<string>, conds: seq<Cond>)
    ensures r.Statement? <==>
      && filter != map[] && data != map[]
      && (forall k :: k in data ==> repo.valid(k)) && (forall k :: k in filter ==> repo.valid(k))
    ensures r.Statement? ==> IsKeyOrder(data, keys) && (forall k :: k in keys ==> k in data)
    ensures r.Statement? ==>
      exists fk :: IsKeyOrder(filter, fk) && (forall k :: k in fk <==> k in filter) && conds == FilterConds(filter, fk)
    ensures r.Statement? ==> (forall c :: c in conds ==> Accepted(c))
    ensures r.Statement? ==>
      Renders(repo.dialect, r.text, r.args,
              (UpdateHead(repo) + SetOfKeys(data, keys) + []) + (WhereOf(repo.dialect, conds) + []))
  {
    var cs, fk := FilterToConds(filter);
    conds := cs;
    FilterColumns(repo.valid, filter, fk);
    r, keys := UpdateWhere(repo, cs, data, [], []);
  }

  /** `stepQuery` with the arguments Increment and Decrement pass: the step is placeholder 1. */
  method StepUpdate(repo: Repo, filter: Filter, column: string, plus: bool, step: Value)
    returns (r: Statement, conds: seq<Cond>)
    ensures r.Statement? <==> filter != map[] && repo.valid(column) && forall k :: k in filter ==> repo.valid(k)
    ensures r.Statement? ==> (forall c :: c in conds ==> Accepted(c))
    ensures r.Statement? ==>
      exists fk :: IsKeyOrder(filter, fk) && (forall k :: k in fk <==> k in filter) && conds == FilterConds(filter, fk)
    ensures r.Statement? ==>
      Renders(repo.dialect, r.text, r.args,
              (UpdateHead(repo) + [Name(column), Op(Eq), Name(column), Text(if plus then "+" else "-")] +
               [Bound(step)]) + WhereOf(repo.dialect, conds))
  {
    var d := repo.dialect;
    var cs, fk := FilterToConds(filter);
    conds := cs;
    FilterColumns(repo.valid, filter, fk);
    if |cs| == 0 {
      r := Refused(EmptyFilter);
      return;
    }
    if !repo.valid(column) {
      r := Refused(BadIdentifier);
      return;
    }
    var clause := BuildWhere(repo, cs, 1);
    if clause.Failed? {
      r := Refused(BadCondition);
      return;
    }
    var head := UpdateHead(repo) + [Name(column), Op(Eq), Name(column), Text(if plus then "+" else "-")];
    var hole := [Hole(PlaceholderFor(d, 1))];
    PieceHole(d, head, step, 0);
    PieceConcat(d, head + hole, [step], head + [Bound(step)], clause.text, clause.args, WhereOf(d, cs), 0);
    r := Statement((head + hole) + clause.text, [step] + clause.args);
  }

  // ---------------------------------------------------------------- SELECT pages

  function SelectHead(repo: Repo): seq<Token> {
    [Key(SelectWord), Text("columns"), Key(FromWord), Name(repo.table)]
  }

  function CountHead(repo: Repo): seq<Token> {
    [Key(SelectWord), Key(CountWord), Key(FromWord), Name(repo.table)]
  }

  function OrderById(repo: Repo, desc: bool): seq<Token> {
    [Key(OrderByWord), Name(repo.id), Key(if desc then DescWord else AscWord)]
  }

  /** The bound text of a page SELECT, of its COUNT, and of a keyset SELECT. */
  function PageText(repo: Repo, conds: seq<Cond>, order: seq<Token>, perPage: Value, offset: Value): seq<Token>
    requires forall c :: c in conds ==> Accepted(c)
  {
    ((SelectHead(repo) + WhereOf(repo.dialect, conds) + order) + ([Key(LimitWord)] + [Bound(perPage)])) +
        ([Key(OffsetWord)] + [Bound(offset)])
  }

  function CountText(repo: Repo, conds: seq<Cond>): seq<Token>
    requires forall c :: c in conds ==> Accepted(c)
  {
    CountHead(repo) + WhereOf(repo.dialect, conds) + []
  }

  function KeysetText(repo: Repo, conds: seq<Cond>, fetch: Value, desc: bool): seq<Token>
    requires forall c :: c in conds ==> Accepted(c)
  {
    (SelectHead(repo) + WhereOf(repo.dialect, conds) + OrderById(repo, desc)) + ([Key(LimitWord)] + [Bound(fetch)])
  }

  /** `pagesQuery`, and the arguments `pages` passes with it: the WHERE clause is shared, and LIMIT and OFFSET
      continue its numbering. */
  method PageSelect(repo: Repo, conds: seq<Cond>, order: seq<Token>, perPage: Value, offset: Value)
    returns (count: Statement, r: Statement)
    requires forall i :: 0 <= i < |order| ==> !order[i].Bound? && !order[i].Hole?
    ensures r.Statement? <==> forall c :: c in conds ==> Accepted(c) && repo.valid(c.column)
    ensures count.Statement? <==> r.Statement?
    ensures r.Statement? ==> Renders(repo.dialect, count.text, count.args, CountText(repo, conds))
    ensures r.Statement? ==> Renders(repo.dialect, r.text, r.args, PageText(repo, conds, order, perPage, offset))
  {
    var d := repo.dialect;
    var clause := BuildWhere(repo, conds, 0);
    if clause.Failed? {
      return Refused(BadCondition), Refused(BadCondition);
    }
    var n := clause.idx;
    PieceBetween(d, CountHead(repo), clause.text, clause.args, WhereOf(d, conds), [], 0);
    count := Statement(CountHead(repo) + clause.text + [], clause.args);
    PieceBetween(d, SelectHead(repo), clause.text, clause.args, WhereOf(d, conds), order, 0);
    PieceHole(d, [Key(LimitWord)], perPage, n);
    PieceHole(d, [Key(OffsetWord)], offset, n + 1);
    var limit := [Key(LimitWord)] + [Hole(PlaceholderFor(d, n + 1))];
    var skip := [Key(OffsetWord)] + [Hole(PlaceholderFor(d, n + 2))];
    var body := SelectHead(repo) + clause.text + order;
    ghost var bodyBound := SelectHead(repo) + WhereOf(d, conds) + order;
    PieceConcat(d, body, clause.args, bodyBound, limit, [perPage], [Key(LimitWord)] + [Bound(perPage)], 0);
    PieceConcat(d, body + limit, clause.args + [perPage], bodyBound + ([Key(LimitWord)] + [Bound(perPage)]),
                skip, [offset], [Key(OffsetWord)] + [Bound(offset)], 0);
    r := Statement(body + limit + skip, clause.args + [perPage] + [offset]);
  }

  /** The conditions of a keyset page: the filter's, then the cursor's. */
  function KeysetConds(repo: Repo, filterConds: seq<Cond>, after: Option<Value>, desc: bool): seq<Cond> {
    match after
    case None => filterConds
    case Some(v) => filterConds + [Cond(repo.id, OpCompare(if desc then LT else GT), v)]
  }

  /** `keysetQuery`: one row more than `limit` is asked for. */
  method KeysetSelect(repo: Repo, filter: Filter, after: Option<Value>, limit: int, encode: int -> Value, desc: bool)
    returns (r: Statement, ghost fk: seq<string>, conds: seq<Cond>)
    ensures IsKeyOrder(filter, fk) && (forall k :: k in fk <==> k in filter)
    ensures conds == KeysetConds(repo, FilterConds(filter, fk), after, desc)
    ensures forall c :: c in conds ==> Accepted(c)
    ensures r.Statement? <==> forall c :: c in conds ==> repo.valid(c.column)
    ensures r.Statement? ==> Renders(repo.dialect, r.text, r.args, KeysetText(repo, conds, encode(limit + 1), desc))
  {
    var d := repo.dialect;
    var cs, keys := FilterToConds(filter);
    fk := keys;
    if after.Some? {
      cs := cs + [Cond(repo.id, OpCompare(if desc then LT else GT), after.value)];
    }
    conds := cs;
    var clause := BuildWhere(repo, cs, 0);
    if clause.Failed? {
      r := Refused(BadCondition);
      return;
    }
    var fetch := encode(limit + 1);
    KeysetRenders(repo, cs, clause.text, clause.args, fetch, desc);
    var upTo := [Key(LimitWord)] + [Hole(PlaceholderFor(d, clause.idx + 1))];
    r := Statement((SelectHead(repo) + clause.text + OrderById(repo, desc)) + upTo, clause.args + [fetch]);
  }

  lemma {:induction false} KeysetRenders(repo: Repo, conds: seq<Cond>, text: seq<Token>, args: seq<Value>,
                                         fetch: Value, desc: bool)
    requires (forall c :: c in conds ==> Accepted(c))
    requires Piece(repo.dialect, text, args, WhereOf(repo.dialect, conds), 0)
    ensures Renders(repo.dialect,
                    (SelectHead(repo) + text + OrderById(repo, desc)) +
                        ([Key(LimitWord)] + [Hole(PlaceholderFor(repo.dialect, |args| + 1))]),
                    args + [fetch], KeysetText(repo, conds, fetch, desc))
  {
    var d, order := repo.dialect, OrderById(repo, desc);
    PieceBetween(d, SelectHead(repo), text, args, WhereOf(d, conds), order, 0);
    PieceHole(d, [Key(LimitWord)], fetch, |args|);
    PieceConcat(d, SelectHead(repo) + text + order, args, SelectHead(repo) + WhereOf(d, conds) + order,
                [Key(LimitWord)] + [Hole(PlaceholderFor(d, |args| + 1))], [fetch], [Key(LimitWord)] +
                    [Bound(fetch)], 0);
  }

  // ---------------------------------------------------------------- multi-row INSERT

  const InsertBatchLimit := 500

  /** `Dialect.placeholders`. */
  method Placeholders(d: Dialect, start: nat, row: seq<Value>) returns (out: seq<Token>)
    requires start > 0
    ensures Piece(d, out, row, CommaValues(row), start - 1)
  {
    var holes, _, _ := ListHoles(d, row, start - 1);
    CommaArgs(row);
    out := holes;
  }

  function RowsText(rows: seq<seq<Value>>): seq<Token> {
    if rows == [] then []
    else
      var n := |rows| - 1;
      var one := [LPar] + CommaValues(rows[n]) + [RPar];
      if n == 0 then one else RowsText(rows[..n]) + ([Comma] + one)
  }

  function CommaNames(columns: seq<string>): seq<Token> {
    if columns == [] then []
    else if |columns| == 1 then [Name(columns[0])]
    else [Name(columns[0]), Comma] + CommaNames(columns[1..])
  }

  lemma {:induction false} NamesArePlain(columns: seq<string>)
    ensures forall i :: 0 <= i < |CommaNames(columns)| ==>
      !CommaNames(columns)[i].Bound? && !CommaNames(columns)[i].Hole?
  {
    if |columns| > 1 {
      NamesArePlain(columns[1..]);
    }
  }

  function InsertHead(repo: Repo): seq<Token> {
    [Text("INSERT INTO"), Name(repo.table), LPar] + CommaNames(repo.insertCols) + [RPar, Text("VALUES")]
  }

  function Flatten(rows: seq<seq<Value>>): seq<Value> {
    if rows == [] then [] else Flatten(rows[..|rows| - 1]) + rows[|rows| - 1]
  }

  /** `insertManyQuery` with the row-major arguments of `InsertMany`: value `j` of row `i` takes
      placeholder `i·columns + j + 1`. */
  method InsertManyRows(repo: Repo, rows: seq<seq<Value>>) returns (r: Statement)
    requires forall i :: 0 <= i < |rows| ==> |rows[i]| == |repo.insertCols|
    ensures r.Statement? && r.args == Flatten(rows)
    ensures Renders(repo.dialect, r.text, r.args, InsertHead(repo) + RowsText(rows) + [])
  {
    var d, columns := repo.dialect, |repo.insertCols|;
    var text, args: seq<Value> := [], [];
    for i := 0 to |rows|
      invariant Piece(d, text, args, RowsText(rows[..i]), 0)
      invariant |args| == i * columns && args == Flatten(rows[..i])
    {
      var holes := Placeholders(d, i * columns + 1, rows[i]);
      OneMoreRow(d, rows, i, text, args, holes);
      var group := [LPar] + holes + [RPar];
      text := if i == 0 then group else text + ([Comma] + group);
      args := args + rows[i];
      assert (i + 1) * columns == i * columns + columns;
    }
    assert rows[..|rows|] == rows;
    InsertRenders(repo, text, args, RowsText(rows));
    r := Statement(InsertHead(repo) + text + [], args);
  }

  /** Row `i`, in parentheses, after a comma unless it is the first. */
  lemma {:induction false} OneMoreRow(d: Dialect, rows: seq<seq<Value>>, i: nat, text: seq<Token>, args: seq<Value>,
                                      holes: seq<Token>)
    requires i < |rows| && Piece(d, text, args, RowsText(rows[..i]), 0)
    requires Piece(d, holes, rows[i], CommaValues(rows[i]), |args|)
    requires args == Flatten(rows[..i])
    ensures var group := [LPar] + holes + [RPar];
      Piece(d, if i == 0 then group else text + ([Comma] + group), args + rows[i], RowsText(rows[..i + 1]), 0)
    ensures args + rows[i] == Flatten(rows[..i + 1])
  {
    assert rows[..i + 1][..i] == rows[..i];
    PieceBetween(d, [LPar], holes, rows[i], CommaValues(rows[i]), [RPar], |args|);
    var group, bound := [LPar] + holes + [RPar], [LPar] + CommaValues(rows[i]) + [RPar];
    if i > 0 {
      PieceBetween(d, [Comma], group, rows[i], bound, [], |args|);
      assert [Comma] + group + [] == [Comma] + group && [Comma] + bound + [] == [Comma] + bound;
      PieceConcat(d, text, args, RowsText(rows[..i]), [Comma] + group, rows[i], [Comma] + bound, 0);
    } else {
      assert args + rows[i] == rows[i];
    }
  }

  lemma {:induction false} InsertRenders(repo: Repo, text: seq<Token>, args: seq<Value>, bound: seq<Token>)
    requires Piece(repo.dialect, text, args, bound, 0)
    ensures Renders(repo.dialect, InsertHead(repo) + text + [], args, InsertHead(repo) + bound + [])
  {
    NamesArePlain(repo.insertCols);
    PieceBetween(repo.dialect, InsertHead(repo), text, args, bound, [], 0);
  }

  /** `InsertMany`: the chunks sent, in order. */
  method InsertChunks(rows: seq<seq<Value>>) returns (chunks: seq<seq<seq<Value>>>)
    ensures forall c :: c in chunks ==> 1 <= |c| <= InsertBatchLimit
    ensures Concat(chunks) == rows
    ensures |chunks| == (|rows| + InsertBatchLimit - 1) / InsertBatchLimit
  {
    chunks := [];
    var start := 0;
    while start < |rows|
      invariant 0 <= start <= |rows|
      invariant forall c :: c in chunks ==> 1 <= |c| <= InsertBatchLimit
      invariant Concat(chunks) == rows[..start]
      invariant
        || start == |chunks| * InsertBatchLimit
        || (start == |rows| && (|chunks| - 1) * InsertBatchLimit < |rows| <= |chunks| * InsertBatchLimit)
    {
      var end := start + InsertBatchLimit;
      if end > |rows| {
        end := |rows|;
      }
      assert (chunks + [rows[start..end]])[..|chunks|] == chunks;
      assert rows[..end] == rows[..start] + rows[start..end];
      chunks := chunks + [rows[start..end]];
      start := end;
    }
    assert rows[..|rows|] == rows;
  }

  function Concat<T>(parts: seq<seq<T>>): seq<T> {
    if parts == [] then [] else Concat(parts[..|parts| - 1]) + parts[|parts| - 1]
  }
}
