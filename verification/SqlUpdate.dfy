/** The UPDATE statements, parsed and executed on a table. */
module SqlUpdate {
  import opened Options
  import opened SqlText
  import opened SqlConds
  import opened SqlEngine
  import opened SqlStatements
  import opened SqlSelect

  // ---------------------------------------------------------------- an UPDATE as text

  /** The rows it is for: all of which a clause is true, one of them, or those whose column holds what a
      SELECT with LIMIT 1 picks. */
  datatype Target =
    | AllOf(clause: seq<Token>)
    | OneOf(clause: seq<Token>)
    | Picked(column: string, picked: string, from: string, clause: seq<Token>)

  datatype Change = Change(table: string, sets: seq<(string, Value)>, target: Target)

  /** `column = value, …`, from the last one on. */
  function ParseSets(ts: seq<Token>): Option<seq<(string, Value)>> {
    var n := |ts|;
    if n < 3 || !ts[n - 3].Name? || ts[n - 2] != Op(Eq) || !ts[n - 1].Bound? then None
    else
      var last := (ts[n - 3].name, ts[n - 1].value);
      if n == 3 then Some([last])
      else if ts[n - 4] != Comma then None
      else match ParseSets(ts[..n - 4])
        case None => None
        case Some(sets) => Some(sets + [last])
  }

  /** SELECT picked FROM table WHERE clause LIMIT 1 ) */
  function ParsePicked(column: string, ts: seq<Token>): Option<Target> {
    if |ts| < 5 || ts[0] != Key(SelectWord) || !ts[1].Name? || ts[2] != Key(FromWord) || !ts[3].Name? ||
       ts[4] != Key(WhereWord)
    then None
    else
      var k := KeyIndex(ts[5..]);
      if k > 0 && ts[5..][k..] == [Key(LimitWord), Number(1), RPar]
      then Some(Picked(column, ts[1].name, ts[3].name, ts[5..][..k]))
      else None
  }

  /** WHERE clause [LIMIT 1], or WHERE column IN ( and a SELECT. */
  function ParseTarget(ts: seq<Token>): Option<Target> {
    if ts == [] || ts[0] != Key(WhereWord) then None
    else
      var k := KeyIndex(ts[1..]);
      var clause, tail := ts[1..][..k], ts[1..][k..];
      if k == 0 then None
      else if tail == [] then Some(AllOf(clause))
      else if tail == [Key(LimitWord), Number(1)] then Some(OneOf(clause))
      else if k == 3 && clause[0].Name? && clause[1] == In && clause[2] == LPar then ParsePicked(clause[0].name, tail)
      else None
  }

  /** UPDATE table SET assignments target */
  function ParseUpdate(ts: seq<Token>): Option<Change> {
    if |ts| < 3 || ts[0] != Key(UpdateWord) || !ts[1].Name? || ts[2] != Key(SetWord) then None
    else
      var k := KeyIndex(ts[3..]);
      var sets, target := ParseSets(ts[3..][..k]), ParseTarget(ts[3..][k..]);
      if sets.None? || target.None? then None else Some(Change(ts[1].name, sets.value, target.value))
  }

  // ---------------------------------------------------------------- executing it

  /** The cell of a column once the assignments are made. */
  function CellAfter(e: Engine, sets: seq<(string, Value)>, row: string -> Cell, column: string): Cell {
    if sets == [] then row(column)
    else if sets[|sets| - 1].0 == column then e.convert(sets[|sets| - 1].1)
    else CellAfter(e, sets[..|sets| - 1], row, column)
  }

  ghost predicate Assigns(e: Engine, id: string, sets: seq<(string, Value)>, row: Row, row': Row) {
    forall column :: Cells(row', id)(column) == CellAfter(e, sets, Cells(row, id), column)
  }

  predicate IsTrue(e: Engine, id: string, clause: seq<Token>, row: Row) {
    EvalClause(e, Cells(row, id), clause) == Some(True)
  }

  /** LIMIT 1 without ORDER BY: some row of which the clause is true, if there is one. */
  ghost predicate PicksOne(e: Engine, id: string, clause: seq<Token>, table: seq<Row>, pick: Option<nat>) {
    match pick
    case None => forall i :: 0 <= i < |table| ==> !IsTrue(e, id, clause, table[i])
    case Some(i) => i < |table| && IsTrue(e, id, clause, table[i])
  }

  /** `IN` compares cells; NULL is in nothing. */
  predicate SameCell(e: Engine, a: Cell, b: Cell) {
    a.Cell? && b.Cell? && e.equal(a.code, b.code)
  }

  function SetOfOne(pick: Option<nat>): set<nat> {
    if pick.None? then {} else {pick.value}
  }

  /** The positions of the rows an UPDATE of table `name` is for. */
  ghost predicate Hits(e: Engine, name: string, id: string, target: Target, table: seq<Row>, hit: set<nat>) {
    match target
    case AllOf(clause) => hit == set i: nat | i < |table| && IsTrue(e, id, clause, table[i])
    case OneOf(clause) => exists pick :: PicksOne(e, id, clause, table, pick) && hit == SetOfOne(pick)
    case Picked(column, picked, from, clause) =>
      && from == name
      && exists pick :: PicksOne(e, id, clause, table, pick) && hit == Holding(e, id, column, picked, table, pick)
  }

  /** The rows whose column holds what the picked row holds. */
  ghost function Holding(e: Engine, id: string, column: string, picked: string, table: seq<Row>,
                         pick: Option<nat>): set<nat> {
    set i: nat | i < |table| && pick.Some? && pick.value < |table| &&
                 SameCell(e, Cells(table[i], id)(column), Cells(table[pick.value], id)(picked))
  }

  /** The rows at `hit` have been assigned to, the others are as they were, and ids are unique as before. */
  ghost predicate Rewrites(e: Engine, id: string, sets: seq<(string, Value)>, table: seq<Row>, table': seq<Row>,
                           hit: set<nat>) {
    && |table'| == |table| && UniqueIds(table')
    && forall i: nat :: i < |table| ==>
         if i in hit then Assigns(e, id, sets, table[i], table'[i]) else table'[i] == table[i]
  }

  /** A driver runs bound text on a table, and the table is this after it. */
  ghost predicate Executes(e: Engine, name: string, id: string, bound: seq<Token>, table: seq<Row>,
                           table': seq<Row>) {
    exists change, hit ::
      && ParseUpdate(bound) == Some(change) && change.table == name
      && Hits(e, name, id, change.target, table, hit) && Rewrites(e, id, change.sets, table, table', hit)
  }

  // ---------------------------------------------------------------- the text parses back

  function PairsOf(data: Filter, keys: seq<string>): (pairs: seq<(string, Value)>)
    requires forall k :: k in keys ==> k in data
  {
    seq(|keys|, i requires 0 <= i < |keys| => assert keys[i] in keys; (keys[i], data[keys[i]]))
  }

  lemma {:induction false} SetOfOneKey(data: Filter, key: string)
    requires key in data
    ensures SetOfKeys(data, [key]) == [Name(key), Op(Eq), Bound(data[key])]
    ensures ParseSets(SetOfKeys(data, [key])) == Some(PairsOf(data, [key])) && NoKeys(SetOfKeys(data, [key]))
  {
    assert SetOfKeys(data, [key]) == [Name(key), Op(Eq), Bound(data[key])];
    assert ParseSets([Name(key), Op(Eq), Bound(data[key])]) == Some([(key, data[key])]);
    assert PairsOf(data, [key]) == [(key, data[key])];
  }

  /** One assignment more. */
  lemma {:induction false} SetGrows(data: Filter, keys: seq<string>, key: string)
    requires keys != [] && (forall k :: k in keys ==> k in data) && key in data
    ensures forall k :: k in keys + [key] ==> k in data
    ensures SetOfKeys(data, keys + [key]) ==
            SetOfKeys(data, keys) + ([Comma] + ([Name(key), Op(Eq)] + [Bound(data[key])]))
    ensures PairsOf(data, keys + [key]) == PairsOf(data, keys) + [(key, data[key])]
  {
    assert (keys + [key])[..|keys|] == keys;
  }

  lemma {:induction false} SetsParse(data: Filter, keys: seq<string>)
    requires keys != [] && forall k :: k in keys ==> k in data
    ensures ParseSets(SetOfKeys(data, keys)) == Some(PairsOf(data, keys)) && NoKeys(SetOfKeys(data, keys))
    decreases |keys|
  {
    var n := |keys| - 1;
    var before, key := keys[..n], keys[n];
    assert keys == before + [key];
    if n == 0 {
      SetOfOneKey(data, key);
    } else {
      SetsParse(data, before);
      SetGrows(data, before, key);
      OneMoreParses(SetOfKeys(data, before), key, data[key]);
    }
  }

  lemma {:induction false} OneMoreParses(before: seq<Token>, column: string, v: Value)
    requires ParseSets(before).Some? && NoKeys(before)
    ensures var ts := before + ([Comma] + ([Name(column), Op(Eq)] + [Bound(v)]));
      ParseSets(ts) == Some(ParseSets(before).value + [(column, v)]) && NoKeys(ts)
  {
    var ts := before + ([Comma] + ([Name(column), Op(Eq)] + [Bound(v)]));
    assert ts[..|ts| - 4] == before;
  }

  /** What the assignments do does not depend on their order. */
  lemma {:induction false} PairsAssign(e: Engine, data: Filter, keys: seq<string>, row: string -> Cell, column: string)
    requires forall k :: k in keys ==> k in data
    ensures CellAfter(e, PairsOf(data, keys), row, column) ==
            if column in keys then e.convert(data[column]) else row(column)
    decreases |keys|
  {
    if keys != [] {
      var n := |keys| - 1;
      assert PairsOf(data, keys)[..n] == PairsOf(data, keys[..n]);
      assert keys == keys[..n] + [keys[n]];
      PairsAssign(e, data, keys[..n], row, column);
    }
  }

  lemma {:induction false} UpdateSplits(table: string, sets: seq<Token>, rest: seq<Token>)
    requires NoKeys(sets) && rest != [] && rest[0] == Key(WhereWord)
    ensures var after := ([Key(UpdateWord), Name(table), Key(SetWord)] + sets + rest)[3..];
      KeyIndex(after) == |sets| && after[..|sets|] == sets && after[|sets|..] == rest
  {
    KeyIndexSkips(sets, rest);
    assert ([Key(UpdateWord), Name(table), Key(SetWord)] + sets + rest)[3..] == sets + rest;
  }

  lemma {:induction false} UpdateParses(table: string, sets: seq<Token>, rest: seq<Token>, pairs: seq<(string,
                                        Value)>, target: Target)
    requires NoKeys(sets) && rest != [] && rest[0] == Key(WhereWord)
    requires ParseSets(sets) == Some(pairs) && ParseTarget(rest) == Some(target)
    ensures ParseUpdate([Key(UpdateWord), Name(table), Key(SetWord)] + sets + rest) ==
            Some(Change(table, pairs, target))
  {
    UpdateSplits(table, sets, rest);
    PartsMake([Key(UpdateWord), Name(table), Key(SetWord)] + sets + rest, table, sets, rest, pairs, target);
  }

  lemma {:induction false} PartsMake(ts: seq<Token>, table: string, sets: seq<Token>, rest: seq<Token>,
                                     pairs: seq<(string, Value)>,
                                     target: Target)
    requires |ts| >= 3 && ts[0] == Key(UpdateWord) && ts[1] == Name(table) && ts[2] == Key(SetWord)
    requires KeyIndex(ts[3..]) == |sets| && ts[3..][..|sets|] == sets && ts[3..][|sets|..] == rest
    requires ParseSets(sets) == Some(pairs) && ParseTarget(rest) == Some(target)
    ensures ParseUpdate(ts) == Some(Change(table, pairs, target))
  {
  }

  lemma {:induction false} WhereTarget(clause: seq<Token>, tail: seq<Token>)
    requires NoKeys(clause) && clause != [] && (tail == [] || tail[0].Key?)
    ensures var rest := ([Key(WhereWord)] + clause + tail)[1..];
      KeyIndex(rest) == |clause| && rest[..|clause|] == clause && rest[|clause|..] == tail
  {
    KeyIndexSkips(clause, tail);
    assert ([Key(WhereWord)] + clause + tail)[1..] == clause + tail;
  }

  lemma {:induction false} ManyTarget(clause: seq<Token>)
    requires NoKeys(clause) && clause != []
    ensures ParseTarget([Key(WhereWord)] + clause) == Some(AllOf(clause))
  {
    WhereTarget(clause, []);
    assert [Key(WhereWord)] + clause + [] == [Key(WhereWord)] + clause;
  }

  lemma {:induction false} LimitedTarget(clause: seq<Token>)
    requires NoKeys(clause) && clause != []
    ensures ParseTarget([Key(WhereWord)] + clause + [Key(LimitWord), Number(1)]) == Some(OneOf(clause))
  {
    WhereTarget(clause, [Key(LimitWord), Number(1)]);
  }

  /** SELECT id FROM table WHERE clause LIMIT 1 ) */
  function PickText(picked: string, from: string, clause: seq<Token>): seq<Token> {
    [Key(SelectWord), Name(picked), Key(FromWord), Name(from)] +
        ([Key(WhereWord)] + clause + [Key(LimitWord), Number(1), RPar])
  }

  lemma {:induction false} PickedParses(column: string, picked: string, from: string, clause: seq<Token>)
    requires NoKeys(clause) && clause != []
    ensures ParsePicked(column, PickText(picked, from, clause)) == Some(Picked(column, picked, from, clause))
  {
    var tail := [Key(LimitWord), Number(1), RPar];
    WhereTarget(clause, tail);
    assert PickText(picked, from, clause)[5..] == ([Key(WhereWord)] + clause + tail)[1..];
  }

  lemma {:induction false} PickedTarget(id: string, from: string, clause: seq<Token>)
    requires NoKeys(clause) && clause != []
    ensures ParseTarget([Key(WhereWord)] + [Name(id), In, LPar] + PickText(id, from, clause)) ==
            Some(Picked(id, id, from, clause))
  {
    WhereTarget([Name(id), In, LPar], PickText(id, from, clause));
    PickedParses(id, id, from, clause);
  }

  // ---------------------------------------------------------------- UpdateMany

  function UpdateManyText(repo: Repo, conds: seq<Cond>, data: Filter, keys: seq<string>): seq<Token>
    requires (forall c :: c in conds ==> Accepted(c)) && forall k :: k in keys ==> k in data
  {
    (UpdateHead(repo) + SetOfKeys(data, keys) + []) + (WhereOf(repo.dialect, conds) + [])
  }

  function UpdateOneText(repo: Repo, conds: seq<Cond>, data: Filter, keys: seq<string>): seq<Token>
    requires (forall c :: c in conds ==> Accepted(c)) && forall k :: k in keys ==> k in data
  {
    (UpdateHead(repo) + SetOfKeys(data, keys) + OneRowMiddle(repo)) +
        (WhereOf(repo.dialect, conds) + OneRowTail(repo))
  }

  lemma {:induction false} ClauseShape(d: Dialect, conds: seq<Cond>)
    requires conds != [] && forall c :: c in conds ==> Accepted(c)
    ensures ClauseOf(d, conds) != [] && NoKeys(ClauseOf(d, conds))
    ensures WhereOf(d, conds) == [Key(WhereWord)] + ClauseOf(d, conds)
  {
    ClauseIsBound(d, conds);
    ClauseNoKeys(d, conds);
  }

  lemma {:induction false} ManyParses(repo: Repo, conds: seq<Cond>, data: Filter, keys: seq<string>)
    requires conds != [] && (forall c :: c in conds ==> Accepted(c))
    requires keys != [] && forall k :: k in keys ==> k in data
    ensures ParseUpdate(UpdateManyText(repo, conds, data, keys)) ==
            Some(Change(repo.table, PairsOf(data, keys), AllOf(ClauseOf(repo.dialect, conds))))
  {
    var clause, sets := ClauseOf(repo.dialect, conds), SetOfKeys(data, keys);
    ClauseShape(repo.dialect, conds);
    ManyTarget(clause);
    SetsParse(data, keys);
    UpdateParses(repo.table, sets, [Key(WhereWord)] + clause, PairsOf(data, keys), AllOf(clause));
    Regroup4(UpdateHead(repo), sets, [], WhereOf(repo.dialect, conds), [], [Key(WhereWord)] + clause);
  }

  lemma {:induction false} Regroup4(head: seq<Token>, sets: seq<Token>, middle: seq<Token>, where': seq<Token>,
                                    tail: seq<Token>,
                                    rest: seq<Token>)
    requires rest == middle + where' + tail
    ensures (head + sets + middle) + (where' + tail) == head + sets + rest
  {
  }

  lemma {:induction false} OneParses(repo: Repo, conds: seq<Cond>, data: Filter, keys: seq<string>)
    requires conds != [] && (forall c :: c in conds ==> Accepted(c))
    requires keys != [] && forall k :: k in keys ==> k in data
    ensures ParseUpdate(UpdateOneText(repo, conds, data, keys)) ==
            Some(Change(repo.table, PairsOf(data, keys), OneTarget(repo, ClauseOf(repo.dialect, conds))))
  {
    var clause, sets, rest := ClauseOf(repo.dialect, conds), SetOfKeys(data, keys), OneRest(repo, conds);
    ClauseShape(repo.dialect, conds);
    OneRestParses(repo, conds);
    SetsParse(data, keys);
    UpdateParses(repo.table, sets, rest, PairsOf(data, keys), OneTarget(repo, clause));
    Regroup4(UpdateHead(repo), sets, OneRowMiddle(repo), WhereOf(repo.dialect, conds), OneRowTail(repo), rest);
  }

  /** What comes after the assignments. */
  function OneRest(repo: Repo, conds: seq<Cond>): seq<Token>
    requires forall c :: c in conds ==> Accepted(c)
  {
    OneRowMiddle(repo) + WhereOf(repo.dialect, conds) + OneRowTail(repo)
  }

  function OneTarget(repo: Repo, clause: seq<Token>): Target {
    if repo.dialect == MySQL then OneOf(clause) else Picked(repo.id, repo.id, repo.table, clause)
  }

  lemma {:induction false} OneRestParses(repo: Repo, conds: seq<Cond>)
    requires conds != [] && forall c :: c in conds ==> Accepted(c)
    ensures OneRest(repo, conds) != [] && OneRest(repo, conds)[0] == Key(WhereWord)
    ensures ParseTarget(OneRest(repo, conds)) == Some(OneTarget(repo, ClauseOf(repo.dialect, conds)))
  {
    var clause := ClauseOf(repo.dialect, conds);
    ClauseShape(repo.dialect, conds);
    if repo.dialect == MySQL {
      LimitedTarget(clause);
      assert OneRest(repo, conds) == [Key(WhereWord)] + clause + [Key(LimitWord), Number(1)];
    } else {
      PickedTarget(repo.id, repo.table, clause);
      PickedRest(repo, conds, clause);
    }
  }

  lemma {:induction false} PickedRest(repo: Repo, conds: seq<Cond>, clause: seq<Token>)
    requires (forall c :: c in conds ==> Accepted(c)) && repo.dialect != MySQL
    requires WhereOf(repo.dialect, conds) == [Key(WhereWord)] + clause
    ensures OneRest(repo, conds) == [Key(WhereWord)] + [Name(repo.id), In, LPar] +
            PickText(repo.id, repo.table, clause)
  {
  }

  // ---------------------------------------------------------------- what it changes

  /** Every condition is true of the row. */
  ghost predicate Matching(e: Engine, id: string, conds: seq<Cond>, row: Row) {
    forall c :: c in conds ==> Accepted(c) && Meaning(e, Cells(row, id), c).True?
  }

  /** Exactly the columns in `data` hold something else, what `data` has for them. */
  ghost predicate Carries(e: Engine, id: string, data: Filter, row: Row, row': Row) {
    forall column ::
      Cells(row', id)(column) == if column in data then e.convert(data[column]) else Cells(row, id)(column)
  }

  /** Exactly the rows at `hit` carry `data`. */
  ghost predicate ChangesJust(e: Engine, id: string, data: Filter, table: seq<Row>, table': seq<Row>, hit: set<nat>) {
    && |table'| == |table| && UniqueIds(table')
    && forall i: nat :: i < |table| ==>
         if i in hit then Carries(e, id, data, table[i], table'[i]) else table'[i] == table[i]
  }

  ghost function MatchingIn(e: Engine, id: string, conds: seq<Cond>, table: seq<Row>): set<nat> {
    set i: nat | i < |table| && Matching(e, id, conds, table[i])
  }

  lemma {:induction false} AssignsIff(e: Engine, id: string, data: Filter, keys: seq<string>, row: Row, row': Row)
    requires forall k :: k in keys <==> k in data
    ensures Assigns(e, id, PairsOf(data, keys), row, row') <==> Carries(e, id, data, row, row')
  {
    forall column
      ensures CellAfter(e, PairsOf(data, keys), Cells(row, id), column) ==
              if column in data then e.convert(data[column]) else Cells(row, id)(column)
    {
      PairsAssign(e, data, keys, Cells(row, id), column);
    }
  }

  lemma {:induction false} RewritesIff(e: Engine, id: string, data: Filter, keys: seq<string>, table: seq<Row>,
                                       table': seq<Row>,
                                       hit: set<nat>)
    requires forall k :: k in keys <==> k in data
    ensures Rewrites(e, id, PairsOf(data, keys), table, table', hit) <==> ChangesJust(e, id, data, table, table', hit)
  {
    if |table'| == |table| {
      forall i: nat | i < |table|
        ensures Assigns(e, id, PairsOf(data, keys), table[i], table'[i]) <==>
                Carries(e, id, data, table[i], table'[i])
      {
        AssignsIff(e, id, data, keys, table[i], table'[i]);
      }
    }
  }

  lemma {:induction false} TrueIffMatching(repo: Repo, e: Engine, conds: seq<Cond>, row: Row)
    requires (forall c :: c in conds ==> Accepted(c)) && Sound(e)
    ensures IsTrue(e, repo.id, ClauseOf(repo.dialect, conds), row) <==> Matching(e, repo.id, conds, row)
  {
    KeptIffMeant(repo, e, conds, row);
    KeptIff(e, Cells(row, repo.id), conds);
  }

  /** The rendered UPDATE of `UpdateMany`, bound, parsed and executed on a table, changes exactly the rows of which
      every condition is true, and in them exactly the columns of `data`. */
  lemma {:induction false} UpdateManyChanges(repo: Repo, e: Engine, conds: seq<Cond>, data: Filter,
                                             keys: seq<string>, st: Statement,
                                             table: seq<Row>, table': seq<Row>)
    requires conds != [] && (forall c :: c in conds ==> Accepted(c)) && Sound(e)
    requires keys != [] && (forall k :: k in keys <==> k in data)
    requires st.Statement? && Renders(repo.dialect, st.text, st.args, UpdateManyText(repo, conds, data, keys))
    ensures Executes(e, repo.table, repo.id, Bind(repo.dialect, st.text, st.args, 0), table, table') <==>
            ChangesJust(e, repo.id, data, table, table', MatchingIn(e, repo.id, conds, table))
  {
    var text, clause := UpdateManyText(repo, conds, data, keys), ClauseOf(repo.dialect, conds);
    var hit := MatchingIn(e, repo.id, conds, table);
    RenderedBindsBack(repo.dialect, st.text, st.args, text);
    ManyParses(repo, conds, data, keys);
    ManyHits(repo, e, conds, table);
    RewritesIff(e, repo.id, data, keys, table, table', hit);
    var change := Change(repo.table, PairsOf(data, keys), AllOf(clause));
    ExecutesAll(e, repo.table, repo.id, text, change, hit, table, table');
  }

  lemma {:induction false} ManyHits(repo: Repo, e: Engine, conds: seq<Cond>, table: seq<Row>)
    requires (forall c :: c in conds ==> Accepted(c)) && Sound(e)
    ensures forall hit :: Hits(e, repo.table, repo.id, AllOf(ClauseOf(repo.dialect, conds)), table, hit) <==>
                          hit == MatchingIn(e, repo.id, conds, table)
  {
    var clause := ClauseOf(repo.dialect, conds);
    forall i: nat | i < |table|
      ensures IsTrue(e, repo.id, clause, table[i]) <==> Matching(e, repo.id, conds, table[i])
    {
      TrueIffMatching(repo, e, conds, table[i]);
    }
    assert (set i: nat | i < |table| && IsTrue(e, repo.id, clause, table[i])) == MatchingIn(e, repo.id, conds, table);
  }

  /** A statement that can only be for the rows at `hit`. */
  lemma {:induction false} ExecutesAll(e: Engine, name: string, id: string, text: seq<Token>, change: Change,
                                       hit: set<nat>,
                                       table: seq<Row>, table': seq<Row>)
    requires ParseUpdate(text) == Some(change) && change.table == name
    requires forall h :: Hits(e, name, id, change.target, table, h) <==> h == hit
    ensures Executes(e, name, id, text, table, table') <==> Rewrites(e, id, change.sets, table, table', hit)
  {
    assert Hits(e, name, id, change.target, table, hit);
  }

  // ---------------------------------------------------------------- UpdateOne

  /** One row that matches, if there is one. */
  ghost predicate OneMatching(e: Engine, id: string, conds: seq<Cond>, table: seq<Row>, pick: Option<nat>) {
    match pick
    case None => forall i :: 0 <= i < |table| ==> !Matching(e, id, conds, table[i])
    case Some(i) => i < |table| && Matching(e, id, conds, table[i])
  }

  lemma {:induction false} PicksIff(repo: Repo, e: Engine, conds: seq<Cond>, table: seq<Row>, pick: Option<nat>)
    requires (forall c :: c in conds ==> Accepted(c)) && Sound(e)
    ensures PicksOne(e, repo.id, ClauseOf(repo.dialect, conds), table, pick) <==>
            OneMatching(e, repo.id, conds, table, pick)
  {
    forall i | 0 <= i < |table|
      ensures IsTrue(e, repo.id, ClauseOf(repo.dialect, conds), table[i]) <==> Matching(e, repo.id, conds, table[i])
    {
      TrueIffMatching(repo, e, conds, table[i]);
    }
  }

  /** Ids are compared as the numbers they are. */
  ghost predicate ExactIds(e: Engine) {
    forall a, b :: e.equal(a, b) <==> a == b
  }

  /** Only the picked row holds its id. */
  lemma {:induction false} HoldingIsPicked(e: Engine, id: string, table: seq<Row>, pick: Option<nat>)
    requires UniqueIds(table) && ExactIds(e) && (pick.Some? ==> pick.value < |table|)
    ensures Holding(e, id, id, id, table, pick) == SetOfOne(pick)
  {
    if pick.Some? {
      forall i: nat | i < |table| && table[i].id == table[pick.value].id ensures i == pick.value {
      }
    }
  }

  lemma {:induction false} OneHits(repo: Repo, e: Engine, conds: seq<Cond>, table: seq<Row>, hit: set<nat>)
    requires (forall c :: c in conds ==> Accepted(c)) && Sound(e) && UniqueIds(table) && ExactIds(e)
    ensures var clause := ClauseOf(repo.dialect, conds);
      Hits(e, repo.table, repo.id, OneTarget(repo, clause), table, hit) <==>
      exists pick :: OneMatching(e, repo.id, conds, table, pick) && hit == SetOfOne(pick)
  {
    var clause := ClauseOf(repo.dialect, conds);
    forall pick
      ensures PicksOne(e, repo.id, clause, table, pick) <==> OneMatching(e, repo.id, conds, table, pick)
      ensures PicksOne(e, repo.id, clause, table, pick) ==>
        Holding(e, repo.id, repo.id, repo.id, table, pick) == SetOfOne(pick)
    {
      PicksIff(repo, e, conds, table, pick);
      if PicksOne(e, repo.id, clause, table, pick) {
        HoldingIsPicked(e, repo.id, table, pick);
      }
    }
  }

  /** That of `UpdateOne`, in each dialect, changes exactly one row of which every condition is true, or none when
      there is none. */
  lemma {:induction false} UpdateOneChanges(repo: Repo, e: Engine, conds: seq<Cond>, data: Filter, keys: seq<string>,
                                            st: Statement,
                                            table: seq<Row>, table': seq<Row>)
    requires conds != [] && (forall c :: c in conds ==> Accepted(c)) && Sound(e) && ExactIds(e) && UniqueIds(table)
    requires keys != [] && (forall k :: k in keys <==> k in data)
    requires st.Statement? && Renders(repo.dialect, st.text, st.args, UpdateOneText(repo, conds, data, keys))
    ensures Executes(e, repo.table, repo.id, Bind(repo.dialect, st.text, st.args, 0), table, table') <==>
            exists pick :: OneMatching(e, repo.id, conds, table, pick) &&
                           ChangesJust(e, repo.id, data, table, table', SetOfOne(pick))
  {
    var text, clause := UpdateOneText(repo, conds, data, keys), ClauseOf(repo.dialect, conds);
    var target := OneTarget(repo, clause);
    RenderedBindsBack(repo.dialect, st.text, st.args, text);
    OneParses(repo, conds, data, keys);
    if Executes(e, repo.table, repo.id, text, table, table') {
      var change, hit :| ParseUpdate(text) == Some(change) && change.table == repo.table
                         && Hits(e, repo.table, repo.id, change.target, table, hit)
                         && Rewrites(e, repo.id, change.sets, table, table', hit);
      OneHits(repo, e, conds, table, hit);
      RewritesIff(e, repo.id, data, keys, table, table', hit);
    }
    if pick :| OneMatching(e, repo.id, conds, table, pick) &&
               ChangesJust(e, repo.id, data, table, table', SetOfOne(pick)) {
      OneHits(repo, e, conds, table, SetOfOne(pick));
      RewritesIff(e, repo.id, data, keys, table, table', SetOfOne(pick));
      var change := Change(repo.table, PairsOf(data, keys), target);
      assert ParseUpdate(text) == Some(change) && Hits(e, repo.table, repo.id, change.target, table, SetOfOne(pick));
    }
  }

  /** Where `data` leaves the id alone the statement goes through, whichever rows it is for. */
  lemma {:induction false} ChangesGoThrough(e: Engine, id: string, data: Filter, table: seq<Row>, hit: set<nat>)
    returns (table': seq<Row>)
    requires UniqueIds(table) && id !in data
    ensures ChangesJust(e, id, data, table, table', hit)
  {
    var cells := map c | c in data :: e.convert(data[c]);
    table' := seq(|table|, i requires 0 <= i < |table| =>
      if i in hit then Row(table[i].id, table[i].others + cells) else table[i]);
    forall i: nat | i < |table| && i in hit ensures Carries(e, id, data, table[i], table'[i]) {
      assert table'[i] == Row(table[i].id, table[i].others + cells);
    }
  }

  // ---------------------------------------------------------------- UpdateOneByID

  /** The statement of `UpdateOneByID` is one for the rows with that id: on a table of unique ids it changes that row,
      and none if there is none. */
  lemma {:induction false} UpdateByIDChanges(repo: Repo, e: Engine, encode: int -> Value, id: int, data: Filter,
                                             keys: seq<string>,
                                             st: Statement, table: seq<Row>, table': seq<Row>)
    requires NumericIds(e, encode) && ExactIds(e) && keys != [] && (forall k :: k in keys <==> k in data)
    requires st.Statement?
    requires Renders(repo.dialect, st.text, st.args,
                     (UpdateHead(repo) + SetOfKeys(data, keys) + [Key(WhereWord), Name(repo.id), Op(Eq)]) +
                     ([Bound(encode(id))] + []))
    ensures Executes(e, repo.table, repo.id, Bind(repo.dialect, st.text, st.args, 0), table, table') <==>
            ChangesJust(e, repo.id, data, table, table', set i: nat | i < |table| && table[i].id == id)
  {
    var conds := [Cond(repo.id, OpCompare(Eq), encode(id))];
    var d := repo.dialect;
    assert PartsOf(d, conds) == [PartOf(d, conds[0])];
    assert ClauseOf(d, conds) == [Name(repo.id), Op(Eq), Bound(encode(id))];
    ByIDText(repo, conds, data, keys, encode(id));
    UpdateManyChanges(repo, e, conds, data, keys, st, table, table');
    forall i: nat | i < |table| ensures Matching(e, repo.id, conds, table[i]) <==> table[i].id == id {
      assert conds[0] in conds;
      ComparisonMeans(e, Cells(table[i], repo.id), repo.id, Eq, encode(id));
    }
    assert MatchingIn(e, repo.id, conds, table) == set i: nat | i < |table| && table[i].id == id;
  }

  lemma {:induction false} ByIDText(repo: Repo, conds: seq<Cond>, data: Filter, keys: seq<string>, v: Value)
    requires conds == [Cond(repo.id, OpCompare(Eq), v)] && forall k :: k in keys ==> k in data
    requires ClauseOf(repo.dialect, conds) == [Name(repo.id), Op(Eq), Bound(v)]
    ensures UpdateManyText(repo, conds, data, keys) ==
            (UpdateHead(repo) + SetOfKeys(data, keys) + [Key(WhereWord), Name(repo.id), Op(Eq)]) + ([Bound(v)] + [])
  {
    var front, where' := UpdateHead(repo) + SetOfKeys(data, keys), [Key(WhereWord), Name(repo.id), Op(Eq)];
    assert WhereOf(repo.dialect, conds) + [] == where' + [Bound(v)];
    assert front + [] == front && [Bound(v)] + [] == [Bound(v)];
    Associates(front, where', [Bound(v)]);
  }

  lemma {:induction false} Associates<T>(a: seq<T>, b: seq<T>, c: seq<T>)
    ensures (a + b) + c == a + (b + c)
  {
  }

  // ---------------------------------------------------------------- INSERT

  /** `( value, … )` once or more, with commas between. */
  function ParseRows(ts: seq<Token>): Option<seq<seq<Value>>>
    decreases |ts|
  {
    if ts == [] || ts[0] != LPar then None
    else match ParseItems(ts[1..])
      case None => None
      case Some((row, rest)) =>
        if rest == [] then Some([row])
        else if rest[0] != Comma then None
        else match ParseRows(rest[1..])
          case None => None
          case Some(rows) => Some([row] + rows)
  }

  /** `name, …` and a parenthesis, and what follows. */
  function ParseNames(ts: seq<Token>): Option<(seq<string>, seq<Token>)>
    decreases |ts|
  {
    if |ts| < 2 || !ts[0].Name? then None
    else if ts[1] == RPar then Some(([ts[0].name], ts[2..]))
    else if ts[1] != Comma then None
    else match ParseNames(ts[2..])
      case None => None
      case Some((names, rest)) => Some(([ts[0].name] + names, rest))
  }

  function OneGroup(row: seq<Value>): seq<Token> {
    [LPar] + CommaValues(row) + [RPar]
  }

  /** The rows written from the front: the first, a comma, and the rest. */
  lemma {:induction false} RowsFront(rows: seq<seq<Value>>)
    requires |rows| >= 2
    ensures RowsText(rows) == OneGroup(rows[0]) + ([Comma] + RowsText(rows[1..]))
    decreases |rows|
  {
    var n := |rows| - 1;
    var rest, last := rows[1..], [Comma] + OneGroup(rows[n]);
    assert rest[..n - 1] == rows[..n][1..] && rest[n - 1] == rows[n];
    if n == 1 {
      assert rows[..1] == [rows[0]] && rest == [rows[1]];
    } else {
      RowsFront(rows[..n]);
      assert RowsText(rest) == RowsText(rows[..n][1..]) + last;
      MoveGroup(OneGroup(rows[0]), [Comma], RowsText(rows[..n][1..]), last);
    }
  }

  lemma {:induction false} MoveGroup<T>(a: seq<T>, b: seq<T>, c: seq<T>, d: seq<T>)
    ensures (a + (b + c)) + d == a + (b + (c + d))
  {
  }

  lemma {:induction false} GroupParses(row: seq<Value>, rest: seq<Token>, all: seq<Token>)
    requires row != [] && all == OneGroup(row) + rest
    ensures all != [] && all[0] == LPar && ParseItems(all[1..]) == Some((row, rest))
  {
    ItemsParse(row, rest);
    assert all[1..] == CommaValues(row) + [RPar] + rest;
  }

  /** The VALUES list of an INSERT is read back as the rows, each with all its values and in order. */
  lemma {:induction false} RowsParse(rows: seq<seq<Value>>)
    requires rows != [] && forall i :: 0 <= i < |rows| ==> rows[i] != []
    ensures ParseRows(RowsText(rows)) == Some(rows)
    decreases |rows|
  {
    if |rows| == 1 {
      assert RowsText(rows) == OneGroup(rows[0]) + [];
      GroupParses(rows[0], [], RowsText(rows));
      assert [rows[0]] == rows;
    } else {
      RowsFront(rows);
      RowsParse(rows[1..]);
      RowThenRows(rows[0], rows[1..], RowsText(rows[1..]), RowsText(rows));
      assert [rows[0]] + rows[1..] == rows;
    }
  }

  lemma {:induction false} RowThenRows(row: seq<Value>, rows: seq<seq<Value>>, rest: seq<Token>, all: seq<Token>)
    requires row != [] && all == OneGroup(row) + ([Comma] + rest) && ParseRows(rest) == Some(rows)
    ensures ParseRows(all) == Some([row] + rows)
  {
    GroupParses(row, [Comma] + rest, all);
    assert ([Comma] + rest)[1..] == rest;
  }

  lemma {:induction false} NamesParse(columns: seq<string>, rest: seq<Token>)
    requires columns != []
    ensures ParseNames(CommaNames(columns) + ([RPar] + rest)) == Some((columns, rest))
    decreases |columns|
  {
    var ts := CommaNames(columns) + ([RPar] + rest);
    if |columns| == 1 {
      assert ts == [Name(columns[0]), RPar] + rest && ts[2..] == rest;
      assert [columns[0]] == columns;
    } else {
      var tail := CommaNames(columns[1..]) + ([RPar] + rest);
      NamesParse(columns[1..], rest);
      assert ts == [Name(columns[0]), Comma] + tail && ts[2..] == tail;
      assert [columns[0]] + columns[1..] == columns;
    }
  }

  /** The INSERT of `insertManyQuery`, bound: its column list and its VALUES are those given, so value `j` of row
      `i` goes to column `j`. */
  lemma {:induction false} InsertIsRead(repo: Repo, rows: seq<seq<Value>>, st: Statement)
    requires repo.insertCols != [] && rows != [] && forall i :: 0 <= i < |rows| ==> |rows[i]| == |repo.insertCols|
    requires st.Statement? && Renders(repo.dialect, st.text, st.args, InsertHead(repo) + RowsText(rows) + [])
    ensures var bound := Bind(repo.dialect, st.text, st.args, 0);
      && |bound| > 3 && bound[1] == Name(repo.table)
      && ParseNames(bound[3..]) == Some((repo.insertCols, [Text("VALUES")] + RowsText(rows)))
      && ParseRows(RowsText(rows)) == Some(rows)
  {
    RenderedBindsBack(repo.dialect, st.text, st.args, InsertHead(repo) + RowsText(rows) + []);
    RowsParse(rows);
    NamesParse(repo.insertCols, [Text("VALUES")] + RowsText(rows));
    InsertTail(repo, rows, InsertHead(repo) + RowsText(rows) + []);
  }

  lemma {:induction false} InsertTail(repo: Repo, rows: seq<seq<Value>>, bound: seq<Token>)
    requires bound == InsertHead(repo) + RowsText(rows) + []
    ensures |bound| > 3 && bound[1] == Name(repo.table)
    ensures bound[3..] == CommaNames(repo.insertCols) + ([RPar] + ([Text("VALUES")] + RowsText(rows)))
  {
  }
}
