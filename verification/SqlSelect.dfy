/** Reading a bound SELECT back as SQL does, and executing it on a table. */
module SqlSelect {
  import opened Options
  import opened SqlText
  import opened SqlConds
  import opened SqlEngine
  import opened SqlStatements

  /** A row: its id, never null, and its other columns. */
  datatype Row = Row(id: int, others: map<string, Cell>)

  /** The cell under a column, given the name of the id column. */
  function Cells(row: Row, idColumn: string): string -> Cell {
    (column: string) =>
      if column == idColumn then Cell(row.id)
      else if column in row.others then row.others[column]
      else NullCell
  }

  /** The engine compares them as numbers, and `encode` is how the driver
      carries one back as an argument. */
  ghost predicate NumericIds(e: Engine, encode: int -> Value) {
    && Sound(e)
    && (forall a, b :: e.less(a, b) <==> a < b)
    && (forall n :: e.convert(encode(n)) == Cell(n) && encode(n) != Nil)
  }

  /** `a` comes strictly before `b` in the direction of the walk. */
  predicate Before(desc: bool, a: int, b: int) {
    if desc then b < a else a < b
  }

  /** The rows in the order ORDER BY id gives them: unique ids make it strict. */
  ghost predicate IsOrdered(rows: seq<Row>, desc: bool) {
    forall i, j :: 0 <= i < j < |rows| ==> Before(desc, rows[i].id, rows[j].id)
  }

  /** The engine keeps a row when the bound clause is true of it. */
  ghost predicate Kept(repo: Repo, e: Engine, conds: seq<Cond>, row: Row)
    requires forall c :: c in conds ==> Accepted(c)
  {
    EvalClause(e, Cells(row, repo.id), ClauseOf(repo.dialect, conds)) == Some(True)
  }

  ghost function Filtered(repo: Repo, e: Engine, conds: seq<Cond>, rows: seq<Row>): seq<Row>
    requires forall c :: c in conds ==> Accepted(c)
  {
    if rows == [] then []
    else if Kept(repo, e, conds, rows[0]) then [rows[0]] + Filtered(repo, e, conds, rows[1..])
    else Filtered(repo, e, conds, rows[1..])
  }

  ghost function Limit(rows: seq<Row>, n: nat): seq<Row> {
    if n < |rows| then rows[..n] else rows
  }

  lemma {:induction false} KeptIffMeant(repo: Repo, e: Engine, conds: seq<Cond>, row: Row)
    requires (forall c :: c in conds ==> Accepted(c)) && Sound(e)
    ensures Kept(repo, e, conds, row) <==> MeaningOfAll(e, Cells(row, repo.id), conds).True?
  {
    ClauseIsBound(repo.dialect, conds);
    if conds != [] {
      ClauseParses(repo.dialect, conds);
      AllMean(repo.dialect, e, Cells(row, repo.id), conds);
    }
  }

  /** What `Filtered` holds: the table's rows of which every condition is true. */
  lemma {:induction false} FilteredIsMeaning(repo: Repo, e: Engine, conds: seq<Cond>, rows: seq<Row>, row: Row)
    requires (forall c :: c in conds ==> Accepted(c)) && Sound(e)
    ensures row in Filtered(repo, e, conds, rows) <==>
      row in rows && forall c :: c in conds ==> Meaning(e, Cells(row, repo.id), c).True?
  {
    if rows != [] {
      FilteredIsMeaning(repo, e, conds, rows[1..], row);
      KeptIffMeant(repo, e, conds, rows[0]);
      KeptIff(e, Cells(rows[0], repo.id), conds);
    }
  }

  lemma {:induction false} FilteredMembers(repo: Repo, e: Engine, conds: seq<Cond>, rows: seq<Row>)
    requires forall c :: c in conds ==> Accepted(c)
    ensures forall r :: r in Filtered(repo, e, conds, rows) ==> r in rows
  {
    if rows != [] {
      FilteredMembers(repo, e, conds, rows[1..]);
    }
  }

  lemma {:induction false} FilteredOrdered(repo: Repo, e: Engine, conds: seq<Cond>, rows: seq<Row>, desc: bool)
    requires (forall c :: c in conds ==> Accepted(c)) && IsOrdered(rows, desc)
    ensures IsOrdered(Filtered(repo, e, conds, rows), desc)
  {
    if rows != [] {
      var rest := rows[1..];
      assert forall i :: 0 <= i < |rest| ==> rest[i] == rows[i + 1];
      FilteredOrdered(repo, e, conds, rest, desc);
      FilteredMembers(repo, e, conds, rest);
      var tail := Filtered(repo, e, conds, rest);
      forall i | 0 <= i < |tail|
        ensures Before(desc, rows[0].id, tail[i].id)
      {
        assert tail[i] in rest;
        var k :| 0 <= k < |rest| && rest[k] == tail[i];
        assert rows[k + 1] == tail[i];
      }
    }
  }

  // ---------------------------------------------------------------- a SELECT as text

  /** `clause` is the text of WHERE; `order` a column and whether it is descending. */
  datatype Query = Query(
    count: bool,
    table: string,
    clause: seq<Token>,
    order: Option<(string, bool)>,
    limit: Option<Value>,
    offset: Option<Value>)

  /** Where the next clause begins. */
  function KeyIndex(ts: seq<Token>): (k: nat)
    ensures k <= |ts|
  {
    if ts == [] || ts[0].Key? then 0 else KeyIndex(ts[1..]) + 1
  }

  /** `WORD value`, if that comes next. */
  function ParseValue(word: Keyword, ts: seq<Token>): (Option<Value>, seq<Token>) {
    if |ts| >= 2 && ts[0] == Key(word) && ts[1].Bound? then (Some(ts[1].value), ts[2..]) else (None, ts)
  }

  function ParseOrder(ts: seq<Token>): (Option<(string, bool)>, seq<Token>) {
    if |ts| >= 3 && ts[0] == Key(OrderByWord) && ts[1].Name? && (ts[2] == Key(AscWord) || ts[2] == Key(DescWord)) then
      (Some((ts[1].name, ts[2] == Key(DescWord))), ts[3..])
    else (None, ts)
  }

  /** [ORDER BY column direction] [LIMIT value] [OFFSET value] */
  function ParseTail(count: bool, table: string, clause: seq<Token>, ts: seq<Token>): Option<Query> {
    var (order, afterOrder) := ParseOrder(ts);
    var (limit, afterLimit) := ParseValue(LimitWord, afterOrder);
    var (offset, rest) := ParseValue(OffsetWord, afterLimit);
    if rest == [] then Some(Query(count, table, clause, order, limit, offset)) else None
  }

  /** SELECT columns FROM table [WHERE clause] tail */
  function ParseSelect(ts: seq<Token>): Option<Query> {
    if |ts| < 4 || ts[0] != Key(SelectWord) || ts[2] != Key(FromWord) || !ts[3].Name? then None
    else
      var count, table, rest := ts[1] == Key(CountWord), ts[3].name, ts[4..];
      if rest == [] || rest[0] != Key(WhereWord) then ParseTail(count, table, [], rest)
      else
        var k := KeyIndex(rest[1..]);
        if k == 0 then None else ParseTail(count, table, rest[1..][..k], rest[1..][k..])
  }

  // ---------------------------------------------------------------- executing it

  ghost predicate UniqueIds(table: seq<Row>) {
    forall i, j :: 0 <= i < j < |table| ==> table[i].id != table[j].id
  }

  /** The rows of the table the clause is true of, in the order of their ids. */
  ghost predicate IsSelection(e: Engine, id: string, clause: seq<Token>, table: seq<Row>, desc: bool,
                              sorted: seq<Row>) {
    && IsOrdered(sorted, desc)
    && forall r :: r in sorted <==> r in table && EvalClause(e, Cells(r, id), clause) == Some(True)
  }

  /** The whole number a bound argument stands for. */
  function NumberOf(e: Engine, v: Value): Option<int> {
    var cell := e.convert(v);
    if cell.NullCell? then None else Some(cell.code)
  }

  ghost function Skip(rows: seq<Row>, n: nat): seq<Row> {
    if n < |rows| then rows[n..] else []
  }

  /** The rows from an offset on; a negative one is an error, or none for an engine that is lenient. */
  ghost function RowsFrom(lenient: bool, rows: seq<Row>, from: int, size: nat): Option<seq<Row>> {
    if from >= 0 then Some(Limit(Skip(rows, from), size))
    else if lenient then Some(Limit(rows, size))
    else None
  }

  /** OFFSET first, then LIMIT; a number that is null, or a negative LIMIT, is an error. */
  ghost function Window(e: Engine, rows: seq<Row>, limit: Option<Value>, offset: Option<Value>): Option<seq<Row>> {
    var from := if offset.None? then Some(0) else NumberOf(e, offset.value);
    var size := if limit.None? then Some(|rows|) else NumberOf(e, limit.value);
    if from.None? || size.None? || size.value < 0 then None else RowsFrom(e.lenient, rows, from.value, size.value)
  }

  /** A driver runs bound text ordered by the id column on a table, and these rows come back. */
  ghost predicate Fetches(e: Engine, id: string, bound: seq<Token>, table: seq<Row>, out: seq<Row>) {
    exists q, sorted ::
      && ParseSelect(bound) == Some(q) && !q.count && q.order.Some? && q.order.value.0 == id
      && IsSelection(e, id, q.clause, table, q.order.value.1, sorted)
      && Window(e, sorted, q.limit, q.offset) == Some(out)
  }

  /** And this is the count it gets for a COUNT. */
  ghost predicate Counts(e: Engine, id: string, bound: seq<Token>, table: seq<Row>, n: nat) {
    exists q, sorted ::
      && ParseSelect(bound) == Some(q) && q.count && q.order.None? && q.limit.None? && q.offset.None?
      && IsSelection(e, id, q.clause, table, false, sorted) && n == |sorted|
  }

  // ---------------------------------------------------------------- what the builders write

  ghost predicate NoKeys(ts: seq<Token>) {
    forall i :: 0 <= i < |ts| ==> !ts[i].Key?
  }

  lemma {:induction false} CommaValuesNoKeys(items: seq<Value>)
    ensures NoKeys(CommaValues(items))
  {
    if |items| > 1 {
      CommaValuesNoKeys(items[1..]);
    }
  }

  lemma {:induction false} PartNoKeys(d: Dialect, c: Cond)
    requires Accepted(c)
    ensures NoKeys(PartOf(d, c))
  {
    if c.op.OpIn? || c.op.OpNotIn? {
      CommaValuesNoKeys(Elements(c.value).value);
    }
  }

  lemma {:induction false} ClauseNoKeys(d: Dialect, conds: seq<Cond>)
    requires forall c :: c in conds ==> Accepted(c)
    ensures NoKeys(ClauseOf(d, conds))
  {
    if conds != [] {
      var n := |conds| - 1;
      PartNoKeys(d, conds[n]);
      assert PartsOf(d, conds)[..n] == PartsOf(d, conds[..n]);
      assert forall c :: c in conds[..n] ==> c in conds;
      ClauseNoKeys(d, conds[..n]);
    }
  }

  lemma {:induction false} KeyIndexSkips(clause: seq<Token>, tail: seq<Token>)
    requires NoKeys(clause) && (tail == [] || tail[0].Key?)
    ensures KeyIndex(clause + tail) == |clause|
  {
    if clause == [] {
      assert clause + tail == tail;
    } else {
      assert (clause + tail)[1..] == clause[1..] + tail;
      KeyIndexSkips(clause[1..], tail);
    }
  }

  /** A head, the WHERE part of some conditions, and a tail: the parser takes them apart again. */
  lemma {:induction false} SelectParses(d: Dialect, head: seq<Token>, conds: seq<Cond>, tail: seq<Token>)
    requires forall c :: c in conds ==> Accepted(c)
    requires |head| == 4 && head[0] == Key(SelectWord) && head[2] == Key(FromWord) && head[3].Name?
    requires tail == [] || (tail[0].Key? && tail[0] != Key(WhereWord))
    ensures ParseSelect(head + WhereOf(d, conds) + tail) == ParseTail(head[1] == Key(CountWord), head[3].name,
                                                                      ClauseOf(d, conds), tail)
  {
    if conds == [] {
      assert head + WhereOf(d, conds) + tail == head + tail;
      assert (head + tail)[4..] == tail;
    } else {
      ClauseIsBound(d, conds);
      ClauseNoKeys(d, conds);
      WhereParses(head, ClauseOf(d, conds), tail);
    }
  }

  lemma {:induction false} WhereParses(head: seq<Token>, clause: seq<Token>, tail: seq<Token>)
    requires |head| == 4 && head[0] == Key(SelectWord) && head[2] == Key(FromWord) && head[3].Name?
    requires NoKeys(clause) && clause != [] && (tail == [] || tail[0].Key?)
    ensures ParseSelect(head + ([Key(WhereWord)] + clause) + tail) == ParseTail(head[1] == Key(CountWord),
        head[3].name, clause, tail)
  {
    var ts := head + ([Key(WhereWord)] + clause) + tail;
    KeyIndexSkips(clause, tail);
    assert ts[4..][1..] == clause + tail;
    assert (clause + tail)[..|clause|] == clause && (clause + tail)[|clause|..] == tail;
  }

  function KeysetTail(id: string, desc: bool, fetch: Value): seq<Token> {
    [Key(OrderByWord), Name(id), Key(if desc then DescWord else AscWord), Key(LimitWord), Bound(fetch)]
  }

  lemma {:induction false} KeysetTailParses(table: string, clause: seq<Token>, id: string, desc: bool, fetch: Value)
    ensures ParseTail(false, table, clause, KeysetTail(id, desc, fetch)) ==
            Some(Query(false, table, clause, Some((id, desc)), Some(fetch), None))
  {
    var tail := KeysetTail(id, desc, fetch);
    assert tail[3..] == [Key(LimitWord), Bound(fetch)];
    assert tail[3..][2..] == [];
  }

  lemma {:induction false} KeysetParses(repo: Repo, conds: seq<Cond>, fetch: Value, desc: bool)
    requires forall c :: c in conds ==> Accepted(c)
    ensures ParseSelect(KeysetText(repo, conds, fetch, desc)) ==
            Some(Query(false, repo.table, ClauseOf(repo.dialect, conds), Some((repo.id, desc)), Some(fetch), None))
  {
    var tail := KeysetTail(repo.id, desc, fetch);
    SelectParses(repo.dialect, SelectHead(repo), conds, tail);
    KeysetTailParses(repo.table, ClauseOf(repo.dialect, conds), repo.id, desc, fetch);
    assert KeysetText(repo, conds, fetch, desc) == SelectHead(repo) + WhereOf(repo.dialect, conds) + tail;
  }

  function PageTail(id: string, desc: bool, perPage: Value, offset: Value): seq<Token> {
    KeysetTail(id, desc, perPage) + [Key(OffsetWord), Bound(offset)]
  }

  lemma {:induction false} PageTailParses(table: string, clause: seq<Token>, id: string, desc: bool, perPage: Value,
                                          offset: Value)
    ensures ParseTail(false, table, clause, PageTail(id, desc, perPage, offset)) ==
            Some(Query(false, table, clause, Some((id, desc)), Some(perPage), Some(offset)))
  {
    var tail := PageTail(id, desc, perPage, offset);
    assert tail[3..] == [Key(LimitWord), Bound(perPage), Key(OffsetWord), Bound(offset)];
    assert tail[3..][2..] == [Key(OffsetWord), Bound(offset)];
    assert tail[3..][2..][2..] == [];
  }

  lemma {:induction false} Regroup(front: seq<Token>, a: seq<Token>, b: seq<Token>, c: seq<Token>)
    ensures ((front + a) + b) + c == front + ((a + b) + c)
  {
  }

  lemma {:induction false} PageTextSplits(repo: Repo, conds: seq<Cond>, desc: bool, perPage: Value, offset: Value)
    requires forall c :: c in conds ==> Accepted(c)
    ensures PageText(repo, conds, OrderById(repo, desc), perPage, offset) ==
            SelectHead(repo) + WhereOf(repo.dialect, conds) + PageTail(repo.id, desc, perPage, offset)
  {
    var order, limit := OrderById(repo, desc), [Key(LimitWord)] + [Bound(perPage)];
    var off := [Key(OffsetWord)] + [Bound(offset)];
    Regroup(SelectHead(repo) + WhereOf(repo.dialect, conds), order, limit, off);
    assert order + limit == KeysetTail(repo.id, desc, perPage);
    assert off == [Key(OffsetWord), Bound(offset)];
  }

  lemma {:induction false} PageParses(repo: Repo, conds: seq<Cond>, desc: bool, perPage: Value, offset: Value)
    requires forall c :: c in conds ==> Accepted(c)
    ensures ParseSelect(PageText(repo, conds, OrderById(repo, desc), perPage, offset)) ==
            Some(Query(false, repo.table, ClauseOf(repo.dialect, conds), Some((repo.id, desc)), Some(perPage),
                       Some(offset)))
  {
    PageTextSplits(repo, conds, desc, perPage, offset);
    SelectParses(repo.dialect, SelectHead(repo), conds, PageTail(repo.id, desc, perPage, offset));
    PageTailParses(repo.table, ClauseOf(repo.dialect, conds), repo.id, desc, perPage, offset);
  }

  lemma {:induction false} CountParses(repo: Repo, conds: seq<Cond>)
    requires forall c :: c in conds ==> Accepted(c)
    ensures ParseSelect(CountText(repo, conds)) == Some(Query(true, repo.table, ClauseOf(repo.dialect, conds), None,
                                                              None, None))
  {
    SelectParses(repo.dialect, CountHead(repo), conds, []);
  }

  // ---------------------------------------------------------------- a table and its ordered form

  /** The same rows. */
  ghost predicate SameRows(a: seq<Row>, b: seq<Row>) {
    forall r :: r in a <==> r in b
  }

  /** `ordered` holds the rows of a table with unique ids, in the order of the ids. */
  ghost predicate Orders(ordered: seq<Row>, table: seq<Row>, desc: bool) {
    UniqueIds(table) && IsOrdered(ordered, desc) && SameRows(ordered, table)
  }

  lemma {:induction false} OrderedIsUnique(a: seq<Row>, b: seq<Row>, desc: bool)
    requires IsOrdered(a, desc) && IsOrdered(b, desc) && SameRows(a, b)
    ensures a == b
  {
    SameRowsEmpty(a, b);
    if a != [] {
      var x, y := a[0], b[0];
      assert x in a && x in b && y in a && y in b;
      var i :| 0 <= i < |b| && b[i] == x;
      var j :| 0 <= j < |a| && a[j] == y;
      assert x == y;
      OrderedTail(a, desc);
      OrderedTail(b, desc);
      OrderedIsUnique(a[1..], b[1..], desc);
      assert a == [a[0]] + a[1..] && b == [b[0]] + b[1..];
    }
  }

  lemma {:induction false} SameRowsEmpty(a: seq<Row>, b: seq<Row>)
    requires SameRows(a, b)
    ensures a == [] <==> b == []
  {
    if a != [] {
      assert a[0] in a;
    }
    if b != [] {
      assert b[0] in b;
    }
  }

  lemma {:induction false} OrderedTail(a: seq<Row>, desc: bool)
    requires IsOrdered(a, desc) && a != []
    ensures IsOrdered(a[1..], desc) && forall r :: r in a[1..] <==> r in a && r != a[0]
  {
    forall r | r in a[1..] ensures r in a && r != a[0] {
      var i :| 0 <= i < |a[1..]| && a[1..][i] == r;
      assert a[i + 1] == r;
    }
  }

  /** A table of unique ids has an ordered form, in either direction. */
  lemma {:induction false} OrderedForm(table: seq<Row>, desc: bool) returns (ordered: seq<Row>)
    requires UniqueIds(table)
    ensures Orders(ordered, table, desc)
  {
    if table == [] {
      return [];
    }
    var n := |table| - 1;
    var before := OrderedForm(table[..n], desc);
    assert forall r :: r in before ==> r.id != table[n].id by {
      forall r | r in before ensures r.id != table[n].id {
        assert r in table[..n];
      }
    }
    ordered := InsertRow(before, table[n], desc);
    assert table == table[..n] + [table[n]];
  }

  lemma {:induction false} InsertRow(rows: seq<Row>, row: Row, desc: bool) returns (out: seq<Row>)
    requires IsOrdered(rows, desc) && forall r :: r in rows ==> r.id != row.id
    ensures IsOrdered(out, desc) && forall r :: r in out <==> r in rows || r == row
  {
    if rows == [] {
      return [row];
    }
    assert rows[0] in rows;
    if Before(desc, row.id, rows[0].id) {
      return [row] + rows;
    }
    OrderedTail(rows, desc);
    var rest := InsertRow(rows[1..], row, desc);
    forall i | 0 <= i < |rest| ensures Before(desc, rows[0].id, rest[i].id) {
      assert rest[i] in rest;
      if rest[i] != row {
        var k :| 0 <= k < |rows[1..]| && rows[1..][k] == rest[i];
        assert rows[k + 1] == rest[i];
      }
    }
    out := [rows[0]] + rest;
    assert rows == [rows[0]] + rows[1..];
  }

  lemma {:induction false} FilteredHas(repo: Repo, e: Engine, conds: seq<Cond>, rows: seq<Row>, r: Row)
    requires forall c :: c in conds ==> Accepted(c)
    ensures r in Filtered(repo, e, conds, rows) <==> r in rows && Kept(repo, e, conds, r)
  {
    if rows != [] {
      FilteredHas(repo, e, conds, rows[1..], r);
    }
  }

  /** What a clause selects from a table is the filtered ordered form. */
  lemma {:induction false} SelectionIs(repo: Repo, e: Engine, conds: seq<Cond>, table: seq<Row>, ordered: seq<Row>,
                                       desc: bool,
                                       sorted: seq<Row>)
    requires (forall c :: c in conds ==> Accepted(c)) && Orders(ordered, table, desc)
    ensures IsSelection(e, repo.id, ClauseOf(repo.dialect, conds), table, desc, sorted) <==>
      sorted == Filtered(repo, e, conds, ordered)
  {
    var all := Filtered(repo, e, conds, ordered);
    FilteredOrdered(repo, e, conds, ordered, desc);
    forall r ensures r in all <==> r in table && Kept(repo, e, conds, r) {
      FilteredHas(repo, e, conds, ordered, r);
    }
    assert IsSelection(e, repo.id, ClauseOf(repo.dialect, conds), table, desc, all);
    if IsSelection(e, repo.id, ClauseOf(repo.dialect, conds), table, desc, sorted) {
      OrderedIsUnique(sorted, all, desc);
    }
  }

  /** The rows a keyset SELECT fetches from a table. */
  lemma {:induction false} KeysetFetchesIff(repo: Repo, e: Engine, encode: int -> Value, conds: seq<Cond>,
                                            fetch: nat, desc: bool,
                                            table: seq<Row>, ordered: seq<Row>, out: seq<Row>)
    requires NumericIds(e, encode) && (forall c :: c in conds ==> Accepted(c))
    requires Orders(ordered, table, desc)
    ensures Fetches(e, repo.id, KeysetText(repo, conds, encode(fetch), desc), table, out) <==>
            out == Limit(Filtered(repo, e, conds, ordered), fetch)
  {
    var all := Filtered(repo, e, conds, ordered);
    KeysetParses(repo, conds, encode(fetch), desc);
    SelectionIs(repo, e, conds, table, ordered, desc, all);
    assert e.convert(encode(fetch)) == Cell(fetch);
    assert Skip(all, 0) == all;
    assert Window(e, all, Some(encode(fetch)), None) == Some(Limit(all, fetch));
    if Fetches(e, repo.id, KeysetText(repo, conds, encode(fetch), desc), table, out) {
      var q, sorted :| ParseSelect(KeysetText(repo, conds, encode(fetch), desc)) == Some(q) && !q.count && q.order.Some?
                       && q.order.value.0 == repo.id &&
                           IsSelection(e, repo.id, q.clause, table, q.order.value.1, sorted)
                       && Window(e, sorted, q.limit, q.offset) == Some(out);
      SelectionIs(repo, e, conds, table, ordered, desc, sorted);
    }
  }

  /** The rows an offset SELECT ordered by id fetches. */
  lemma {:induction false} PageFetchesIff(repo: Repo, e: Engine, encode: int -> Value, conds: seq<Cond>,
                                          perPage: nat, offset: int,
                                          table: seq<Row>, ordered: seq<Row>, out: seq<Row>)
    requires NumericIds(e, encode) && (forall c :: c in conds ==> Accepted(c))
    requires Orders(ordered, table, false)
    ensures Fetches(e, repo.id, PageText(repo, conds, OrderById(repo, false), encode(perPage), encode(offset)), table,
                    out) <==>
            RowsFrom(e.lenient, Filtered(repo, e, conds, ordered), offset, perPage) == Some(out)
  {
    var all := Filtered(repo, e, conds, ordered);
    var text := PageText(repo, conds, OrderById(repo, false), encode(perPage), encode(offset));
    PageParses(repo, conds, false, encode(perPage), encode(offset));
    SelectionIs(repo, e, conds, table, ordered, false, all);
    assert e.convert(encode(perPage)) == Cell(perPage) && e.convert(encode(offset)) == Cell(offset);
    assert Window(e, all, Some(encode(perPage)), Some(encode(offset))) == RowsFrom(e.lenient, all, offset, perPage);
    if Fetches(e, repo.id, text, table, out) {
      var q, sorted :| ParseSelect(text) == Some(q) && !q.count && q.order.Some? && q.order.value.0 == repo.id
                       && IsSelection(e, repo.id, q.clause, table, q.order.value.1, sorted)
                       && Window(e, sorted, q.limit, q.offset) == Some(out);
      SelectionIs(repo, e, conds, table, ordered, false, sorted);
    }
  }

  lemma {:induction false} CountIff(repo: Repo, e: Engine, conds: seq<Cond>, table: seq<Row>, ordered: seq<Row>, n: nat)
    requires (forall c :: c in conds ==> Accepted(c)) && Orders(ordered, table, false)
    ensures Counts(e, repo.id, CountText(repo, conds), table, n) <==> n == |Filtered(repo, e, conds, ordered)|
  {
    var all := Filtered(repo, e, conds, ordered);
    CountParses(repo, conds);
    SelectionIs(repo, e, conds, table, ordered, false, all);
    if Counts(e, repo.id, CountText(repo, conds), table, n) {
      var q, sorted :| ParseSelect(CountText(repo, conds)) == Some(q) && q.count && q.order.None? && q.limit.None? &&
          q.offset.None?
                       && IsSelection(e, repo.id, q.clause, table, false, sorted) && n == |sorted|;
      SelectionIs(repo, e, conds, table, ordered, false, sorted);
    }
  }

  // ---------------------------------------------------------------- one answer each

  /** Exactly these rows come back, or none and an error. */
  ghost predicate FetchesJust(e: Engine, id: string, bound: seq<Token>, table: seq<Row>, rows: Option<seq<Row>>) {
    forall out :: Fetches(e, id, bound, table, out) <==> rows == Some(out)
  }

  ghost predicate CountsJust(e: Engine, id: string, bound: seq<Token>, table: seq<Row>, total: nat) {
    forall n :: Counts(e, id, bound, table, n) <==> n == total
  }

  lemma {:induction false} OneFetch(e: Engine, id: string, bound: seq<Token>, table: seq<Row>, a: Option<seq<Row>>,
                                    b: Option<seq<Row>>)
    requires FetchesJust(e, id, bound, table, a) && FetchesJust(e, id, bound, table, b)
    ensures a == b
  {
    if a.Some? {
      assert Fetches(e, id, bound, table, a.value);
    } else if b.Some? {
      assert Fetches(e, id, bound, table, b.value);
    }
  }

  lemma {:induction false} OneCount(e: Engine, id: string, bound: seq<Token>, table: seq<Row>, a: nat, b: nat)
    requires CountsJust(e, id, bound, table, a) && CountsJust(e, id, bound, table, b)
    ensures a == b
  {
    assert Counts(e, id, bound, table, a);
  }

  lemma {:induction false} KeysetFetches(repo: Repo, e: Engine, encode: int -> Value, conds: seq<Cond>, fetch: nat,
                                         desc: bool,
                                         table: seq<Row>, ordered: seq<Row>)
    requires NumericIds(e, encode) && (forall c :: c in conds ==> Accepted(c))
    requires Orders(ordered, table, desc)
    ensures FetchesJust(e, repo.id, KeysetText(repo, conds, encode(fetch), desc), table,
                        Some(Limit(Filtered(repo, e, conds, ordered), fetch)))
  {
    forall out ensures Fetches(e, repo.id, KeysetText(repo, conds, encode(fetch), desc), table, out) <==>
                       Some(Limit(Filtered(repo, e, conds, ordered), fetch)) == Some(out)
    {
      KeysetFetchesIff(repo, e, encode, conds, fetch, desc, table, ordered, out);
    }
  }

  lemma {:induction false} PageFetches(repo: Repo, e: Engine, encode: int -> Value, conds: seq<Cond>, perPage: nat,
                                       offset: int,
                                       table: seq<Row>, ordered: seq<Row>)
    requires NumericIds(e, encode) && (forall c :: c in conds ==> Accepted(c))
    requires Orders(ordered, table, false)
    ensures FetchesJust(e, repo.id, PageText(repo, conds, OrderById(repo, false), encode(perPage), encode(offset)),
                        table, RowsFrom(e.lenient, Filtered(repo, e, conds, ordered), offset, perPage))
  {
    var text := PageText(repo, conds, OrderById(repo, false), encode(perPage), encode(offset));
    forall out ensures Fetches(e, repo.id, text, table, out) <==>
                       RowsFrom(e.lenient, Filtered(repo, e, conds, ordered), offset, perPage) == Some(out)
    {
      PageFetchesIff(repo, e, encode, conds, perPage, offset, table, ordered, out);
    }
  }

  lemma {:induction false} CountIs(repo: Repo, e: Engine, conds: seq<Cond>, table: seq<Row>, ordered: seq<Row>)
    requires (forall c :: c in conds ==> Accepted(c)) && Orders(ordered, table, false)
    ensures CountsJust(e, repo.id, CountText(repo, conds), table, |Filtered(repo, e, conds, ordered)|)
  {
    forall n: nat ensures Counts(e, repo.id, CountText(repo, conds), table, n) <==>
        n == |Filtered(repo, e, conds, ordered)| {
      CountIff(repo, e, conds, table, ordered, n);
    }
  }
}
