/** Keyset and offset pagination over a fixed table with unique ids. */
module SqlPages {
  import opened Options
  import opened SqlText
  import opened SqlConds
  import opened SqlEngine
  import opened SqlStatements
  import opened SqlSelect
  import Decimals

  const MaxPerPage := 500
  const DefaultPerPage := 15

  /** `normalizePageArgs`, and the same clamp in `KeysetPage`. */
  function NormalizeSize(perPage: int): (n: int)
    ensures 1 <= n <= MaxPerPage
    ensures 1 <= perPage <= MaxPerPage ==> n == perPage
    ensures perPage <= 0 ==> n == 15
    ensures perPage > MaxPerPage ==> n == 500
  {
    if perPage <= 0 then DefaultPerPage else if perPage > MaxPerPage then MaxPerPage else perPage
  }

  function NormalizePage(page: int): (n: int)
    ensures if page >= 1 then n == page else n == 1
  {
    if page < 1 then 1 else page
  }

  /** One more condition keeps the rows of the shorter list it is true of. */
  lemma {:induction false} KeptAppend(repo: Repo, e: Engine, conds: seq<Cond>, last: Cond, row: Row)
    requires (forall c :: c in conds ==> Accepted(c)) && Accepted(last) && Sound(e)
    ensures forall c :: c in conds + [last] ==> Accepted(c)
    ensures Kept(repo, e, conds + [last], row) <==>
      Kept(repo, e, conds, row) && Meaning(e, Cells(row, repo.id), last).True?
  {
    var all := conds + [last];
    assert forall c :: c in all <==> c in conds || c == last;
    KeptIffMeant(repo, e, conds, row);
    KeptIffMeant(repo, e, all, row);
    KeptIff(e, Cells(row, repo.id), conds);
    KeptIff(e, Cells(row, repo.id), all);
  }

  /** Adding the cursor condition keeps exactly the rows past the cursor. */
  lemma {:induction false} CursorCuts(repo: Repo, e: Engine, encode: int -> Value, conds: seq<Cond>, cursor: int,
                                      desc: bool, row: Row)
    requires NumericIds(e, encode) && (forall c :: c in conds ==> Accepted(c))
    ensures forall c :: c in KeysetConds(repo, conds, Some(encode(cursor)), desc) ==> Accepted(c)
    ensures Kept(repo, e, KeysetConds(repo, conds, Some(encode(cursor)), desc), row) <==>
            Kept(repo, e, conds, row) && Before(desc, cursor, row.id)
  {
    var last := Cond(repo.id, OpCompare(if desc then LT else GT), encode(cursor));
    KeptAppend(repo, e, conds, last, row);
    assert e.convert(encode(cursor)) == Cell(cursor) && encode(cursor) != Nil;
  }

  // ---------------------------------------------------------------- one page

  datatype KeysetResult = KeysetResult(data: seq<Row>, next: Option<int>, hasMore: bool)

  /** The tail of `KeysetPage`, once `limit + 1` rows have been asked for. The cursor is the
      last row's id, when there is more and the model carries the id column. */
  function PageOf(fetched: seq<Row>, limit: nat, carriesID: bool): KeysetResult {
    var more := |fetched| > limit;
    var data := if more then fetched[..limit] else fetched;
    KeysetResult(data, if |data| > 0 && more && carriesID then Some(data[|data| - 1].id) else None, more)
  }

  /** A page has at most `limit` rows, the first of those fetched; there is more when one more was fetched, and a
      cursor, the last row's id, exactly when there is more and the model carries the id column. */
  lemma {:induction false} PageOfIs(fetched: seq<Row>, limit: nat, carriesID: bool)
    requires limit >= 1
    ensures var page := PageOf(fetched, limit, carriesID);
      && page.data <= fetched && |page.data| == (if |fetched| <= limit then |fetched| else limit)
      && (page.hasMore <==> |fetched| > limit)
      && (page.next.Some? <==> page.hasMore && carriesID)
      && (page.next.Some? ==> |page.data| > 0 && page.next.value == page.data[|page.data| - 1].id)
  {
  }

  function Cursor(encode: int -> Value, after: Option<int>): Option<Value> {
    match after
    case None => None
    case Some(n) => Some(encode(n))
  }

  /** The driver answers every SELECT and COUNT as the engine does on the table; `None` is an error. */
  ghost predicate RunsOn(d: Dialect, e: Engine, id: string, table: seq<Row>,
                         fetch: Statement -> Option<seq<Row>>,
                         count: Statement -> nat) {
    && (forall st: Statement,
        out :: st.Statement? && FetchesJust(e, id, Bind(d, st.text, st.args, 0), table, out) ==> fetch(st) == out)
    && (forall st: Statement,
        n :: st.Statement? && CountsJust(e, id, Bind(d, st.text, st.args, 0), table, n) ==> count(st) == n)
  }

  /** `KeysetPage`: the limit is clamped, one statement is run, and what it fetches is cut. */
  method KeysetPage(repo: Repo, filter: Filter, after: Option<int>, limit: int, desc: bool, carriesID: bool,
                    encode: int -> Value, fetch: Statement -> Option<seq<Row>>)
    returns (r: Option<KeysetResult>, st: Statement, ghost fk: seq<string>)
    ensures IsKeyOrder(filter, fk) && (forall k :: k in fk <==> k in filter)
    ensures st.Statement? <==> (forall k :: k in filter ==> repo.valid(k)) && (after.Some? ==> repo.valid(repo.id))
    ensures r.Some? <==> st.Statement? && fetch(st).Some?
    ensures r.Some? ==> r.value == PageOf(fetch(st).value, NormalizeSize(limit), carriesID)
    ensures st.Statement? ==>
      var conds := KeysetConds(repo, FilterConds(filter, fk), Cursor(encode, after), desc);
      && (forall c :: c in conds ==> Accepted(c))
      && Renders(repo.dialect, st.text, st.args, KeysetText(repo, conds, encode(NormalizeSize(limit) + 1), desc))
  {
    var n := limit;
    if n <= 0 {
      n := DefaultPerPage;
    }
    if n > MaxPerPage {
      n := MaxPerPage;
    }
    var conds;
    st, fk, conds := KeysetSelect(repo, filter, Cursor(encode, after), n, encode, desc);
    KeysetColumns(repo, filter, fk, Cursor(encode, after), desc);
    if st.Refused? {
      return None, st, fk;
    }
    var fetched := fetch(st);
    if fetched.None? {
      return None, st, fk;
    }
    var data := fetched.value;
    var more := false;
    if |data| > n {
      more := true;
      data := data[..n];
    }
    var next := None;
    if |data| > 0 && carriesID && more {
      next := Some(data[|data| - 1].id);
    }
    r := Some(KeysetResult(data, next, more));
  }

  lemma {:induction false} KeysetColumns(repo: Repo, filter: Filter, fk: seq<string>, after: Option<Value>, desc: bool)
    requires forall k :: k in fk <==> k in filter
    ensures (forall c :: c in KeysetConds(repo, FilterConds(filter, fk), after, desc) ==> repo.valid(c.column)) <==>
            (forall k :: k in filter ==> repo.valid(k)) && (after.Some? ==> repo.valid(repo.id))
  {
    FilterColumns(repo.valid, filter, fk);
    if after.Some? {
      var last := Cond(repo.id, OpCompare(if desc then LT else GT), after.value);
      var conds := FilterConds(filter, fk);
      assert forall c :: c in conds + [last] <==> c in conds || c == last;
    }
  }

  /** The same page, of the ordered table. */
  ghost function ExpectedPage(repo: Repo, e: Engine, encode: int -> Value, ordered: seq<Row>, conds: seq<Cond>,
                              after: Option<int>, limit: nat, desc: bool): KeysetResult
    requires forall c :: c in conds ==> Accepted(c)
  {
    var all := KeysetConds(repo, conds, Cursor(encode, after), desc);
    assert forall c :: c in all ==> Accepted(c);
    PageOf(Limit(Filtered(repo, e, all, ordered), limit + 1), limit, true)
  }

  /** `result` is what the keyset SELECT with conditions `all`, run on the table, gives. */
  ghost predicate IsPageFor(repo: Repo, e: Engine, encode: int -> Value, table: seq<Row>, all: seq<Cond>, limit: nat,
                            desc: bool,
                            result: KeysetResult) {
    && (forall c :: c in all ==> Accepted(c))
    && exists out :: FetchesJust(e, repo.id, KeysetText(repo, all, encode(limit + 1), desc), table, Some(out)) &&
        result == PageOf(out, limit, true)
  }

  /** `result` is what the statement of a keyset page, run on the table, gives. */
  ghost predicate IsKeysetPage(repo: Repo, e: Engine, encode: int -> Value, table: seq<Row>, conds: seq<Cond>,
                               after: Option<int>, limit: nat, desc: bool, result: KeysetResult) {
    IsPageFor(repo, e, encode, table, KeysetConds(repo, conds, Cursor(encode, after), desc), limit, desc, result)
  }

  /** What the method returns on a driver that runs on the table is such a page. */
  lemma {:induction false} KeysetPageIs(repo: Repo, e: Engine, encode: int -> Value, table: seq<Row>, conds: seq<Cond>,
                                        after: Option<int>, limit: nat,
                     desc: bool, fetch: Statement -> Option<seq<Row>>, count: Statement -> nat, st: Statement)
    requires NumericIds(e, encode) && UniqueIds(table) && RunsOn(repo.dialect, e, repo.id, table, fetch, count)
    requires st.Statement?
    requires forall c :: c in conds ==> Accepted(c)
    requires var all := KeysetConds(repo, conds, Cursor(encode, after), desc);
      (forall c :: c in all ==> Accepted(c)) &&
          Renders(repo.dialect, st.text, st.args, KeysetText(repo, all, encode(limit + 1), desc))
    ensures fetch(st).Some?
    ensures IsKeysetPage(repo, e, encode, table, conds, after, limit, desc, PageOf(fetch(st).value, limit, true))
  {
    var all := KeysetConds(repo, conds, Cursor(encode, after), desc);
    var text := KeysetText(repo, all, encode(limit + 1), desc);
    RenderedBindsBack(repo.dialect, st.text, st.args, text);
    var ordered := OrderedForm(table, desc);
    var out := Limit(Filtered(repo, e, all, ordered), limit + 1);
    KeysetFetches(repo, e, encode, all, limit + 1, desc, table, ordered);
    assert FetchesJust(e, repo.id, Bind(repo.dialect, st.text, st.args, 0), table, Some(out));
  }

  /** And there is only one. */
  lemma {:induction false} KeysetPageIsExpected(repo: Repo, e: Engine, encode: int -> Value, table: seq<Row>,
                                                ordered: seq<Row>,
                                                conds: seq<Cond>,
                                                after: Option<int>, limit: nat, desc: bool, result: KeysetResult)
    requires NumericIds(e, encode) && Orders(ordered, table, desc)
    requires (forall c :: c in conds ==> Accepted(c))
    ensures IsKeysetPage(repo, e, encode, table, conds, after, limit, desc, result) <==>
            result == ExpectedPage(repo, e, encode, ordered, conds, after, limit, desc)
  {
    var all := KeysetConds(repo, conds, Cursor(encode, after), desc);
    assert forall c :: c in all ==> Accepted(c);
    PageForIs(repo, e, encode, table, ordered, all, limit, desc, result);
  }

  lemma {:induction false} PageForIs(repo: Repo, e: Engine, encode: int -> Value, table: seq<Row>, ordered: seq<Row>,
                                     all: seq<Cond>,
                                     limit: nat, desc: bool,
                                     result: KeysetResult)
    requires NumericIds(e, encode) && Orders(ordered, table, desc)
    requires (forall c :: c in all ==> Accepted(c))
    ensures IsPageFor(repo, e, encode, table, all, limit, desc, result) <==>
            result == PageOf(Limit(Filtered(repo, e, all, ordered), limit + 1), limit, true)
  {
    var rows, text := Limit(Filtered(repo, e, all, ordered), limit + 1), KeysetText(repo, all, encode(limit + 1), desc);
    KeysetFetches(repo, e, encode, all, limit + 1, desc, table, ordered);
    if IsPageFor(repo, e, encode, table, all, limit, desc, result) {
      var out :| FetchesJust(e, repo.id, text, table, Some(out)) && result == PageOf(out, limit, true);
      OneFetch(e, repo.id, text, table, Some(out), Some(rows));
    }
  }

  /** Filtering with the cursor is filtering, then dropping what is not past the cursor. */
  lemma {:induction false} CursorFilters(repo: Repo, e: Engine, encode: int -> Value, conds: seq<Cond>, all: seq<Cond>,
                                         cursor: int, desc: bool, rows: seq<Row>)
    requires NumericIds(e, encode) && (forall c :: c in conds ==> Accepted(c)) && (forall c :: c in all ==> Accepted(c))
    requires all == KeysetConds(repo, conds, Some(encode(cursor)), desc)
    ensures Filtered(repo, e, all, rows) == Past(Filtered(repo, e, conds, rows), cursor, desc)
  {
    if rows != [] {
      var rest := rows[1..];
      CursorFilters(repo, e, encode, conds, all, cursor, desc, rest);
      CursorCuts(repo, e, encode, conds, cursor, desc, rows[0]);
      PastHead(rows[0], Filtered(repo, e, conds, rest), cursor, desc);
    }
  }

  lemma {:induction false} PastHead(row: Row, rows: seq<Row>, cursor: int, desc: bool)
    ensures Past([row] + rows, cursor, desc) ==
            if Before(desc, cursor, row.id) then [row] + Past(rows, cursor, desc) else Past(rows, cursor, desc)
  {
    assert ([row] + rows)[1..] == rows;
  }

  ghost function Past(rows: seq<Row>, cursor: int, desc: bool): seq<Row> {
    if rows == [] then []
    else if Before(desc, cursor, rows[0].id) then [rows[0]] + Past(rows[1..], cursor, desc)
    else Past(rows[1..], cursor, desc)
  }

  /** Past the id of row `k`, an ordered list has its rows from `k + 1` on. */
  lemma {:induction false} PastIsSuffix(rows: seq<Row>, k: nat, desc: bool)
    requires k < |rows| && IsOrdered(rows, desc)
    ensures Past(rows, rows[k].id, desc) == rows[k + 1..]
  {
    var cursor := rows[k].id;
    var rest := rows[1..];
    assert forall i :: 0 <= i < |rest| ==> rest[i] == rows[i + 1];
    if k == 0 {
      AllPast(rest, cursor, desc);
    } else {
      PastIsSuffix(rest, k - 1, desc);
      assert rest[k..] == rows[k + 1..];
    }
  }

  lemma {:induction false} AllPast(rows: seq<Row>, cursor: int, desc: bool)
    requires forall i :: 0 <= i < |rows| ==> Before(desc, cursor, rows[i].id)
    ensures Past(rows, cursor, desc) == rows
  {
    if rows != [] {
      assert forall i :: 0 <= i < |rows[1..]| ==> rows[1..][i] == rows[i + 1];
      AllPast(rows[1..], cursor, desc);
      assert rows == [rows[0]] + rows[1..];
    }
  }

  // ---------------------------------------------------------------- whole walks

  /** A page of the matching rows, given as a list: what lies past the cursor, cut to size. */
  ghost function PageFrom(all: seq<Row>, after: Option<int>, limit: nat, desc: bool): KeysetResult {
    var rest := match after
      case None => all
      case Some(cursor) => Past(all, cursor, desc);
    PageOf(Limit(rest, limit + 1), limit, true)
  }

  /** The statement with the cursor in its WHERE clause, run on a table in any order, fetches that page. */
  lemma {:induction false} KeysetPageIsPageFrom(repo: Repo, e: Engine, encode: int -> Value, table: seq<Row>,
                                                ordered: seq<Row>,
                                                conds: seq<Cond>,
                                                after: Option<int>, limit: nat, desc: bool, result: KeysetResult)
    requires NumericIds(e, encode) && (forall c :: c in conds ==> Accepted(c))
    requires Orders(ordered, table, desc)
    ensures IsKeysetPage(repo, e, encode, table, conds, after, limit, desc, result) <==>
            result == PageFrom(Filtered(repo, e, conds, ordered), after, limit, desc)
  {
    KeysetPageIsExpected(repo, e, encode, table, ordered, conds, after, limit, desc, result);
    if after.Some? {
      var all := KeysetConds(repo, conds, Cursor(encode, after), desc);
      assert forall c :: c in all ==> Accepted(c);
      CursorFilters(repo, e, encode, conds, all, after.value, desc, ordered);
    }
  }

  /** The cursor page `i` of a walk is asked for with. */
  ghost function AfterOf(pages: seq<KeysetResult>, i: nat): Option<int>
    requires i <= |pages|
  {
    if i == 0 then None else pages[i - 1].next
  }

  /** A walk: start with no cursor, feed each page's cursor back, stop at the first page that
      says there is no more. */
  ghost predicate IsWalk(page: Option<int> -> KeysetResult, pages: seq<KeysetResult>) {
    && pages != []
    && forall i :: 0 <= i < |pages| ==> WalkPage(page, pages, i)
  }

  ghost predicate WalkPage(page: Option<int> -> KeysetResult, pages: seq<KeysetResult>, i: nat)
    requires i < |pages|
  {
    pages[i] == page(AfterOf(pages, i)) && pages[i].hasMore == (i < |pages| - 1)
  }

  /** The pages of a walk come from the matching rows `all`. */
  ghost predicate WalksOver(all: seq<Row>, limit: nat, desc: bool, page: Option<int> -> KeysetResult) {
    && limit >= 1 && IsOrdered(all, desc)
    && forall after :: page(after) == PageFrom(all, after, limit, desc)
  }

  /** A page asked for at position `k` of the matching rows holds the next `limit` of them. */
  lemma {:induction false} PageAt(all: seq<Row>, limit: nat, desc: bool, after: Option<int>, k: nat)
    requires limit >= 1 && IsOrdered(all, desc) && k <= |all|
    requires if k == 0 then after == None else after == Some(all[k - 1].id)
    ensures var page := PageFrom(all, after, limit, desc);
            && page.data == Limit(all[k..], limit)
            && (page.hasMore <==> k + limit < |all|)
            && (page.hasMore ==> page.next == Some(all[k + limit - 1].id))
  {
    var rest := all[k..];
    if k == 0 {
      assert rest == all;
    } else {
      PastIsSuffix(all, k - 1, desc);
    }
    var fetched := Limit(rest, limit + 1);
    if |rest| > limit {
      assert fetched[..limit] == rest[..limit];
      assert rest[limit - 1] == all[k + limit - 1];
    }
  }

  /** Where page `i` (from 0) starts. */
  ghost function Offset(i: nat, size: nat): nat {
    if i == 0 then 0 else Offset(i - 1, size) + size
  }

  lemma {:induction false} OffsetIsProduct(i: nat, size: nat)
    ensures Offset(i, size) == i * size
  {
    if i > 0 {
      OffsetIsProduct(i - 1, size);
    }
  }

  /** Every walk visits the matching rows, each once and in order: page `i` is the i-th slice,
      and all pages but the last are full. */
  lemma {:induction false} WalkSlices(all: seq<Row>, limit: nat, desc: bool,
                                      page: Option<int> -> KeysetResult, pages: seq<KeysetResult>, i: nat)
    requires WalksOver(all, limit, desc, page) && IsWalk(page, pages) && i < |pages|
    ensures Offset(i, limit) <= |all|
    ensures pages[i].data == Limit(all[Offset(i, limit)..], limit)
    ensures pages[i].hasMore <==> Offset(i + 1, limit) < |all|
    ensures pages[i].hasMore ==> pages[i].next == Some(all[Offset(i + 1, limit) - 1].id)
  {
    assert WalkPage(page, pages, i);
    if i == 0 {
      SliceAt(all, limit, desc, page, None, 0);
    } else {
      WalkSlices(all, limit, desc, page, pages, i - 1);
      assert WalkPage(page, pages, i - 1);
      SliceAt(all, limit, desc, page, AfterOf(pages, i), i);
    }
  }

  /** The page asked for with the cursor of slice `i` is that slice. */
  lemma {:induction false} SliceAt(all: seq<Row>, limit: nat, desc: bool, page: Option<int> -> KeysetResult,
                                   after: Option<int>, i: nat)
    requires WalksOver(all, limit, desc, page) && Offset(i, limit) <= |all|
    requires if i == 0 then after == None else Offset(i, limit) > 0 && after == Some(all[Offset(i, limit) - 1].id)
    ensures page(after).data == Limit(all[Offset(i, limit)..], limit)
    ensures page(after).hasMore <==> Offset(i + 1, limit) < |all|
    ensures page(after).hasMore ==> page(after).next == Some(all[Offset(i + 1, limit) - 1].id)
  {
    PageAt(all, limit, desc, after, Offset(i, limit));
  }

  ghost function DataOf(pages: seq<KeysetResult>): seq<seq<Row>> {
    seq(|pages|, i requires 0 <= i < |pages| => pages[i].data)
  }

  /** Page `k` (from 0) of an offset listing: OFFSET k·size, LIMIT size. */
  ghost function OffsetSlice(rows: seq<Row>, k: nat, size: nat): seq<Row> {
    var from := Offset(k, size);
    if from >= |rows| then [] else Limit(rows[from..], size)
  }

  ghost function OffsetSlices(rows: seq<Row>, count: nat, size: nat): seq<seq<Row>> {
    seq(count, i requires 0 <= i < count => OffsetSlice(rows, i, size))
  }

  lemma {:induction false} LimitGrows(rows: seq<Row>, from: nat, size: nat)
    ensures Limit(rows, from) + (if from >= |rows| then [] else Limit(rows[from..], size)) == Limit(rows, from + size)
  {
    if from < |rows| {
      if from + size < |rows| {
        assert rows[from..][..size] == rows[from..from + size];
        assert rows[..from] + rows[from..from + size] == rows[..from + size];
      } else {
        assert rows[..from] + rows[from..] == rows;
      }
    }
  }

  lemma {:induction false} SlicesGrow(rows: seq<Row>, n: nat, size: nat)
    requires n >= 1
    ensures Concat(OffsetSlices(rows, n, size)) ==
            Concat(OffsetSlices(rows, n - 1, size)) + OffsetSlice(rows, n - 1, size)
  {
    assert OffsetSlices(rows, n, size)[..n - 1] == OffsetSlices(rows, n - 1, size);
  }

  lemma {:induction false} SliceGrows(rows: seq<Row>, n: nat, size: nat)
    ensures Limit(rows, Offset(n, size)) + OffsetSlice(rows, n, size) == Limit(rows, Offset(n + 1, size))
  {
    LimitGrows(rows, Offset(n, size), size);
  }

  /** Slices 0 … n−1 put together are the first n·size rows. */
  lemma {:induction false} SlicesConcat(rows: seq<Row>, n: nat, size: nat)
    requires size >= 1
    ensures Concat(OffsetSlices(rows, n, size)) == Limit(rows, Offset(n, size))
  {
    if n > 0 {
      SlicesConcat(rows, n - 1, size);
      SlicesGrow(rows, n, size);
      SliceGrows(rows, n - 1, size);
    }
  }

  /** The number of pages of `size` rows that `total` rows fill. */
  ghost predicate FillsPages(total: nat, size: nat, n: nat) {
    total <= Offset(n, size) && (n > 0 ==> Offset(n - 1, size) < total)
  }

  lemma {:induction false} WalkData(all: seq<Row>, limit: nat, desc: bool, page: Option<int> -> KeysetResult,
                                    pages: seq<KeysetResult>,
                                    i: nat)
    requires WalksOver(all, limit, desc, page) && IsWalk(page, pages) && i < |pages|
    ensures pages[i].data == OffsetSlice(all, i, limit)
  {
    WalkSlices(all, limit, desc, page, pages, i);
  }

  lemma {:induction false} WalkCount(all: seq<Row>, limit: nat, desc: bool, page: Option<int> -> KeysetResult,
                                     pages: seq<KeysetResult>)
    requires WalksOver(all, limit, desc, page) && IsWalk(page, pages)
    ensures |all| <= Offset(|pages|, limit)
    ensures if all == [] then |pages| == 1 else FillsPages(|all|, limit, |pages|)
  {
    var n := |pages|;
    LastSlice(all, limit, desc, page, pages);
    if n >= 2 {
      SliceBeforeLast(all, limit, desc, page, pages);
    }
  }

  lemma {:induction false} LastSlice(all: seq<Row>, limit: nat, desc: bool, page: Option<int> -> KeysetResult,
                                     pages: seq<KeysetResult>)
    requires WalksOver(all, limit, desc, page) && IsWalk(page, pages)
    ensures |all| <= Offset(|pages|, limit)
  {
    WalkSlices(all, limit, desc, page, pages, |pages| - 1);
    assert WalkPage(page, pages, |pages| - 1);
  }

  lemma {:induction false} SliceBeforeLast(all: seq<Row>, limit: nat, desc: bool, page: Option<int> -> KeysetResult,
                                           pages: seq<KeysetResult>)
    requires WalksOver(all, limit, desc, page) && IsWalk(page, pages) && |pages| >= 2
    ensures Offset(|pages| - 1, limit) < |all|
  {
    assert WalkPage(page, pages, |pages| - 2);
    WalkSlices(all, limit, desc, page, pages, |pages| - 2);
  }

  /** A walk lists every matching row exactly once, in order, and ends after as many pages as
      that takes. */
  lemma {:induction false} WalkConcat(all: seq<Row>, limit: nat, desc: bool, page: Option<int> -> KeysetResult,
                                      pages: seq<KeysetResult>)
    requires WalksOver(all, limit, desc, page) && IsWalk(page, pages)
    ensures Concat(DataOf(pages)) == all
    ensures if all == [] then |pages| == 1 else FillsPages(|all|, limit, |pages|)
  {
    assert DataOf(pages) == OffsetSlices(all, |pages|, limit) by {
      forall i | 0 <= i < |pages|
        ensures pages[i].data == OffsetSlice(all, i, limit)
      {
        WalkData(all, limit, desc, page, pages, i);
      }
    }
    WalkCount(all, limit, desc, page, pages);
    SlicesConcat(all, |pages|, limit);
  }

  /** Page `i` of a walk under way: asked for with the cursor before it, and with more to come. */
  ghost predicate FullPage(page: Option<int> -> KeysetResult, pages: seq<KeysetResult>, i: nat)
    requires i < |pages|
  {
    pages[i] == page(AfterOf(pages, i)) && pages[i].hasMore
  }

  /** A walk under way: each page has more, and the next one starts at row `k`. */
  ghost predicate IsWalkTo(all: seq<Row>, page: Option<int> -> KeysetResult, pages: seq<KeysetResult>, k: nat) {
    && (forall i :: 0 <= i < |pages| ==> FullPage(page, pages, i))
    && k <= |all| && (k == 0 <==> pages == []) && (k > 0 ==> pages[|pages| - 1].next == Some(all[k - 1].id))
  }

  /** The page that a walk under way asks for next. */
  lemma {:induction false} NextPage(all: seq<Row>, limit: nat, desc: bool, page: Option<int> -> KeysetResult,
                                    pages: seq<KeysetResult>, k: nat)
    requires WalksOver(all, limit, desc, page) && IsWalkTo(all, page, pages, k)
    ensures var next := page(AfterOf(pages, |pages|));
            next.hasMore ==> k + limit < |all| && next.next == Some(all[k + limit - 1].id)
  {
    PageAt(all, limit, desc, AfterOf(pages, |pages|), k);
  }

  lemma {:induction false} WalkOn(all: seq<Row>, limit: nat, desc: bool, page: Option<int> -> KeysetResult,
                                  pages: seq<KeysetResult>, k: nat) returns (full: seq<KeysetResult>)
    requires WalksOver(all, limit, desc, page) && IsWalkTo(all, page, pages, k)
    ensures IsWalk(page, full)
    decreases |all| - k
  {
    var next := page(AfterOf(pages, |pages|));
    NextPage(all, limit, desc, page, pages, k);
    if next.hasMore {
      OnePageOn(all, page, pages, k, limit);
      full := WalkOn(all, limit, desc, page, pages + [next], k + limit);
    } else {
      LastPage(all, page, pages, k);
      full := pages + [next];
    }
  }

  lemma {:induction false} SameCursors(pages: seq<KeysetResult>, next: KeysetResult, i: nat)
    requires i <= |pages|
    ensures AfterOf(pages + [next], i) == AfterOf(pages, i)
  {
  }

  lemma {:induction false} OnePageOn(all: seq<Row>, page: Option<int> -> KeysetResult, pages: seq<KeysetResult>,
                                     k: nat, limit: nat)
    requires IsWalkTo(all, page, pages, k) && limit >= 1 && k + limit < |all|
    requires var next := page(AfterOf(pages, |pages|)); next.hasMore && next.next == Some(all[k + limit - 1].id)
    ensures IsWalkTo(all, page, pages + [page(AfterOf(pages, |pages|))], k + limit)
  {
    var next := page(AfterOf(pages, |pages|));
    var more := pages + [next];
    forall i | 0 <= i < |more| ensures FullPage(page, more, i) {
      assert i < |pages| ==> FullPage(page, pages, i);
      SameCursors(pages, next, i);
    }
  }

  lemma {:induction false} LastPage(all: seq<Row>, page: Option<int> -> KeysetResult, pages: seq<KeysetResult>, k: nat)
    requires IsWalkTo(all, page, pages, k) && !page(AfterOf(pages, |pages|)).hasMore
    ensures IsWalk(page, pages + [page(AfterOf(pages, |pages|))])
  {
    var next := page(AfterOf(pages, |pages|));
    var full := pages + [next];
    forall i | 0 <= i < |full| ensures WalkPage(page, full, i) {
      assert i < |pages| ==> FullPage(page, pages, i);
      SameCursors(pages, next, i);
    }
  }

  /** Feeding the cursor back comes to an end. */
  lemma {:induction false} WalkExists(all: seq<Row>, limit: nat, desc: bool,
                                      page: Option<int> -> KeysetResult) returns (pages: seq<KeysetResult>)
    requires WalksOver(all, limit, desc, page)
    ensures IsWalk(page, pages)
  {
    pages := WalkOn(all, limit, desc, page, [], 0);
  }

  /** `page` is what `KeysetPage` returns on this table, for every cursor. */
  ghost predicate PagesOf(repo: Repo, e: Engine, encode: int -> Value, table: seq<Row>, conds: seq<Cond>, limit: nat,
                          desc: bool,
                          page: Option<int> -> KeysetResult) {
    forall after :: IsKeysetPage(repo, e, encode, table, conds, after, limit, desc, page(after))
  }

  lemma {:induction false} PagesWalkOver(repo: Repo, e: Engine, encode: int -> Value, table: seq<Row>,
                                         ordered: seq<Row>,
                                         conds: seq<Cond>, limit: nat,
                                         desc: bool, page: Option<int> -> KeysetResult)
    requires NumericIds(e, encode) && (forall c :: c in conds ==> Accepted(c)) && limit >= 1
    requires Orders(ordered, table, desc)
    requires PagesOf(repo, e, encode, table, conds, limit, desc, page)
    ensures WalksOver(Filtered(repo, e, conds, ordered), limit, desc, page)
  {
    FilteredOrdered(repo, e, conds, ordered, desc);
    forall after
      ensures page(after) == PageFrom(Filtered(repo, e, conds, ordered), after, limit, desc)
    {
      KeysetPageIsPageFrom(repo, e, encode, table, ordered, conds, after, limit, desc, page(after));
    }
  }

  /** Feeding `NextCursor` back until `HasMore` is false comes to an end, lists every row the filter matches
      exactly once, in id order, and takes as many pages as an offset listing. `ordered` is the table, ordered. */
  lemma {:induction false} KeysetWalkListsEverything(repo: Repo, e: Engine, encode: int -> Value, table: seq<Row>,
                                                     ordered: seq<Row>,
                                                     conds: seq<Cond>,
                                                     limit: nat, desc: bool, page: Option<int> -> KeysetResult)
    requires NumericIds(e, encode) && (forall c :: c in conds ==> Accepted(c)) && limit >= 1
    requires Orders(ordered, table, desc)
    requires PagesOf(repo, e, encode, table, conds, limit, desc, page)
    ensures exists pages :: IsWalk(page, pages)
    ensures forall pages :: IsWalk(page, pages) ==>
      var all := Filtered(repo, e, conds, ordered);
      Concat(DataOf(pages)) == all && |pages| == if all == [] then 1 else PageCount(|all|, limit)
  {
    var all := Filtered(repo, e, conds, ordered);
    PagesWalkOver(repo, e, encode, table, ordered, conds, limit, desc, page);
    var some := WalkExists(all, limit, desc, page);
    forall pages | IsWalk(page, pages)
      ensures Concat(DataOf(pages)) == all && |pages| == if all == [] then 1 else PageCount(|all|, limit)
    {
      WalkConcat(all, limit, desc, page, pages);
      if all != [] {
        CountIsUnique(|all|, limit, |pages|);
      }
    }
  }

  // ---------------------------------------------------------------- offset pages

  /** Pages needed for `total` rows, as integers would have it. */
  function PageCount(total: nat, size: nat): nat
    requires size >= 1
  {
    (total + size - 1) / size
  }

  lemma {:induction false} OffsetGrows(a: nat, b: nat, size: nat)
    requires a <= b
    ensures Offset(a, size) <= Offset(b, size)
  {
    if a < b {
      OffsetGrows(a, b - 1, size);
    }
  }

  lemma {:induction false} CountIsUnique(total: nat, size: nat, n: nat)
    requires size >= 1 && FillsPages(total, size, n)
    ensures PageCount(total, size) == n
  {
    var q := PageCount(total, size);
    CountFills(total, size);
    if q < n {
      OffsetGrows(q, n - 1, size);
    } else if n < q {
      OffsetGrows(n, q - 1, size);
    }
  }

  lemma {:induction false} CountFills(total: nat, size: nat)
    requires size >= 1
    ensures FillsPages(total, size, PageCount(total, size))
  {
    var t, q := total + size - 1, PageCount(total, size);
    OffsetIsProduct(q, size);
    assert t == q * size + t % size;
  }

  // ---------------------------------------------------------------- TotalPages in floating point

  const TwoTo53: int := 0x20_0000_0000_0000

  /** Rounding does not move `q` past `n`. */
  ghost predicate KeepsSide(q: real, r: real, n: int) {
    (q <= n as real ==> r <= n as real) && (n as real <= q ==> n as real <= r)
  }

  /** `r` is `q` rounded to a double: relative error at most 2^-53, and integers up to 2^53 are
      doubles, so rounding never steps over one. */
  ghost predicate RoundedQuotient(q: real, r: real) {
    && r >= q - q / TwoTo53 as real
    && (forall n: int :: 0 <= n <= TwoTo53 ==> KeepsSide(q, r, n))
  }

  function Ceil(x: real): int {
    -((-x).Floor)
  }

  /** `int64(math.Ceil(float64(total)/float64(perPage)))` is exact for totals below 2^53. */
  lemma {:induction false} TotalPagesExact(total: nat, size: nat, r: real)
    requires total < TwoTo53 && 1 <= size
    requires RoundedQuotient(total as real / size as real, r)
    ensures Ceil(r) == PageCount(total, size)
  {
    var q := total as real / size as real;
    var k, f := total / size, total % size;
    assert total == k * size + f && k <= total;
    QuotientBetween(total, size, k, f, q);
    assert KeepsSide(q, r, k) && KeepsSide(q, r, k + 1);
    if f == 0 {
      CountExact(total, size, k);
    } else {
      StaysAbove(total, size, k, q, r);
      CountAbove(total, size, k);
    }
  }

  lemma {:induction false} QuotientBetween(total: nat, size: nat, k: nat, f: nat, q: real)
    requires 1 <= size && total == k * size + f && f < size && q == total as real / size as real
    ensures k as real <= q < (k + 1) as real
    ensures f == 0 ==> q == k as real
    ensures q * size as real == total as real
  {
    var s, x := size as real, k as real;
    CastProduct(k, size);
    assert q * s == total as real == x * s + f as real;
    LessIfScaledLess(x - q, s);
    LessIfScaledLess(q - x - 1.0, s);
    LessIfScaledLess(q - x, s);
    assert (x - q) * s == x * s - q * s;
    assert (q - x - 1.0) * s == q * s - x * s - s;
    assert (q - x) * s == q * s - x * s;
  }

  lemma {:induction false} CastProduct(k: nat, size: nat)
    ensures (k * size) as real == k as real * size as real
  {
  }

  /** Scaling by a positive number keeps the sign. */
  lemma {:induction false} LessIfScaledLess(a: real, s: real)
    requires s > 0.0
    ensures a * s <= 0.0 ==> a <= 0.0
    ensures a * s < 0.0 ==> a < 0.0
  {
  }

  lemma {:induction false} CountExact(total: nat, size: nat, k: nat)
    requires size >= 1 && total == k * size
    ensures PageCount(total, size) == k
  {
    OffsetIsProduct(k, size);
    CountIsUnique(total, size, k);
  }

  lemma {:induction false} CountAbove(total: nat, size: nat, k: nat)
    requires size >= 1 && k * size < total < k * size + size
    ensures PageCount(total, size) == k + 1
  {
    OffsetIsProduct(k, size);
    CountIsUnique(total, size, k + 1);
  }

  /** The fractional part is at least 1/size, more than the rounding error. */
  lemma {:induction false} StaysAbove(total: nat, size: nat, k: nat, q: real, r: real)
    requires 1 <= size && total < TwoTo53 && k * size < total
    requires q * size as real == total as real && r >= q - q / TwoTo53 as real
    ensures r > k as real
  {
    var s, x, u := size as real, k as real, q / TwoTo53 as real;
    CastProduct(k, size);
    assert u * s == (q * s) / TwoTo53 as real < 1.0;
    LessIfScaledLess(x + u - q, s);
    assert (x + u - q) * s == x * s + u * s - q * s;
  }

  // ---------------------------------------------------------------- Pages

  datatype OffsetResult = OffsetResult(data: seq<Row>, total: nat, page: int, perPage: int, totalPages: int)

  /** What `pages` returns, given what its two statements return. `quotient` is the division in floating point. */
  function OffsetPageOf(rows: Option<seq<Row>>, total: nat, page: int, perPage: int,
                        quotient: (int, int) -> real): Option<OffsetResult> {
    if total == 0 then Some(OffsetResult([], 0, page, perPage, 0))
    else match rows
      case None => None
      case Some(data) => Some(OffsetResult(data, total, page, perPage, Ceil(quotient(total, perPage))))
  }

  /** `(page - 1) * perPage` in 64 bits. */
  function RowOffset(n: int, size: int): int {
    Decimals.Wrap((n - 1) * size)
  }

  predicate Fits(n: int, size: int) {
    (n - 1) * size <= Decimals.MaxInt64
  }

  lemma {:induction false} OffsetFitsIff(n: int, size: nat)
    requires n >= 1
    ensures RowOffset(n, size) == (n - 1) * size <==> Fits(n, size)
    ensures !Fits(n, size) ==> RowOffset(n, size) < (n - 1) * size
  {
    OffsetIsProduct(n - 1, size);
    if Fits(n, size) {
      Decimals.WrapIsUnique((n - 1) * size, (n - 1) * size);
    }
  }

  /** `pages`: the window is clamped, the matching rows are counted, and one page of them is fetched. */
  method Pages(repo: Repo, filter: Filter, page: int, perPage: int, order: seq<Token>, encode: int -> Value,
               fetch: Statement -> Option<seq<Row>>, count: Statement -> nat, quotient: (int, int) -> real)
    returns (r: Option<OffsetResult>, cst: Statement, st: Statement, ghost fk: seq<string>)
    requires forall i :: 0 <= i < |order| ==> !order[i].Bound? && !order[i].Hole?
    ensures IsKeyOrder(filter, fk) && (forall k :: k in fk <==> k in filter)
    ensures st.Statement? <==> forall k :: k in filter ==> repo.valid(k)
    ensures cst.Statement? <==> st.Statement?
    ensures r == if st.Statement? then
                   OffsetPageOf(fetch(st), count(cst), NormalizePage(page), NormalizeSize(perPage), quotient)
                 else None
    ensures st.Statement? ==>
      var conds, n, size := FilterConds(filter, fk), NormalizePage(page), NormalizeSize(perPage);
      && (forall c :: c in conds ==> Accepted(c))
      && Renders(repo.dialect, cst.text, cst.args, CountText(repo, conds))
      && Renders(repo.dialect, st.text, st.args, PageText(repo, conds, order, encode(size), encode(RowOffset(n, size))))
  {
    var n, size := NormalizePage(page), NormalizeSize(perPage);
    var conds, keys := FilterToConds(filter);
    fk := keys;
    FilterColumns(repo.valid, filter, fk);
    cst, st := PageSelect(repo, conds, order, encode(size), encode(RowOffset(n, size)));
    if st.Refused? {
      return None, cst, st, fk;
    }
    var total := count(cst);
    if total == 0 {
      return Some(OffsetResult([], 0, n, size, 0)), cst, st, fk;
    }
    var rows := fetch(st);
    if rows.None? {
      return None, cst, st, fk;
    }
    r := Some(OffsetResult(rows.value, total, n, size, Ceil(quotient(total, size))));
  }

  /** `result` is what the statements of page `n`, ordered by id and run on the table, give. */
  ghost predicate IsOffsetPage(repo: Repo, e: Engine, encode: int -> Value, table: seq<Row>, conds: seq<Cond>, n: int,
                               size: nat,
                               quotient: (int, int) -> real, result: Option<OffsetResult>) {
    && n >= 1 && (forall c :: c in conds ==> Accepted(c))
    && exists rows: Option<seq<Row>>, total: nat ::
         && CountsJust(e, repo.id, CountText(repo, conds), table, total)
         && FetchesJust(e, repo.id,
                        PageText(repo, conds, OrderById(repo, false), encode(size),
                                 encode(RowOffset(n, size))), table, rows)
         && result == OffsetPageOf(rows, total, n, size, quotient)
  }

  /** What the method returns on a driver that runs on the table is such a page. */
  lemma {:induction false} PagesIs(repo: Repo, e: Engine, encode: int -> Value, table: seq<Row>, conds: seq<Cond>,
                                   n: int, size: nat,
                quotient: (int, int) -> real, fetch: Statement -> Option<seq<Row>>, count: Statement -> nat,
                                   cst: Statement, st: Statement)
    requires NumericIds(e, encode) && UniqueIds(table) && RunsOn(repo.dialect, e, repo.id, table, fetch, count)
    requires cst.Statement? && st.Statement? && n >= 1 && (forall c :: c in conds ==> Accepted(c))
    requires Renders(repo.dialect, cst.text, cst.args, CountText(repo, conds))
    requires Renders(repo.dialect, st.text, st.args,
                     PageText(repo, conds, OrderById(repo, false), encode(size), encode(RowOffset(n, size))))
    ensures IsOffsetPage(repo, e, encode, table, conds, n, size, quotient,
                         OffsetPageOf(fetch(st), count(cst), n, size, quotient))
  {
    var offset := RowOffset(n, size);
    var text := PageText(repo, conds, OrderById(repo, false), encode(size), encode(offset));
    RenderedBindsBack(repo.dialect, cst.text, cst.args, CountText(repo, conds));
    RenderedBindsBack(repo.dialect, st.text, st.args, text);
    var ordered := OrderedForm(table, false);
    var all := Filtered(repo, e, conds, ordered);
    var rows := RowsFrom(e.lenient, all, offset, size);
    PageFetches(repo, e, encode, conds, size, offset, table, ordered);
    CountIs(repo, e, conds, table, ordered);
    assert FetchesJust(e, repo.id, Bind(repo.dialect, st.text, st.args, 0), table, rows) &&
        CountsJust(e, repo.id, Bind(repo.dialect, cst.text, cst.args, 0), table, |all|);
  }

  /** The division is exact enough for this many rows. */
  ghost predicate Divides(quotient: (int, int) -> real, total: nat, size: nat) {
    size >= 1 && total < TwoTo53 && RoundedQuotient(total as real / size as real, quotient(total, size))
  }

  /** A page holds the rows from its 64-bit offset on, and the number of all that match. */
  lemma {:induction false} OffsetRowsAre(repo: Repo, e: Engine, encode: int -> Value, table: seq<Row>,
                                         ordered: seq<Row>,
                      conds: seq<Cond>, n: int, size: nat, quotient: (int, int) -> real, result: Option<OffsetResult>)
    requires NumericIds(e, encode) && Orders(ordered, table, false)
    requires (forall c :: c in conds ==> Accepted(c))
    requires IsOffsetPage(repo, e, encode, table, conds, n, size, quotient, result)
    ensures var all := Filtered(repo, e, conds, ordered);
      result == OffsetPageOf(RowsFrom(e.lenient, all, RowOffset(n, size), size), |all|, n, size, quotient)
  {
    var all, offset := Filtered(repo, e, conds, ordered), RowOffset(n, size);
    var text := PageText(repo, conds, OrderById(repo, false), encode(size), encode(offset));
    var rows: Option<seq<Row>>, total: nat :| CountsJust(e, repo.id, CountText(repo, conds), table, total) &&
        FetchesJust(e, repo.id, text, table, rows)
                            && result == OffsetPageOf(rows, total, n, size, quotient);
    CountIs(repo, e, conds, table, ordered);
    OneCount(e, repo.id, CountText(repo, conds), table, total, |all|);
    PageFetches(repo, e, encode, conds, size, offset, table, ordered);
    OneFetch(e, repo.id, text, table, rows, RowsFrom(e.lenient, all, offset, size));
  }

  /** Where the offset fits, the rows from it on are slice `n - 1`. */
  lemma {:induction false} OffsetPageIs(repo: Repo, e: Engine, encode: int -> Value, table: seq<Row>,
                                        ordered: seq<Row>, conds: seq<Cond>,
                                        n: int, size: nat, quotient: (int, int) -> real, result: Option<OffsetResult>)
    requires NumericIds(e, encode) && Orders(ordered, table, false) && Fits(n, size)
    requires (forall c :: c in conds ==> Accepted(c))
    requires IsOffsetPage(repo, e, encode, table, conds, n, size, quotient, result)
    ensures var all := Filtered(repo, e, conds, ordered);
      result == OffsetPageOf(Some(OffsetSlice(all, n - 1, size)), |all|, n, size, quotient)
  {
    FittingSlice(e.lenient, Filtered(repo, e, conds, ordered), n, size);
    OffsetRowsAre(repo, e, encode, table, ordered, conds, n, size, quotient, result);
  }

  lemma {:induction false} FittingSlice(lenient: bool, all: seq<Row>, n: int, size: nat)
    requires n >= 1 && Fits(n, size)
    ensures RowsFrom(lenient, all, RowOffset(n, size), size) == Some(OffsetSlice(all, n - 1, size))
  {
    OffsetIsProduct(n - 1, size);
    OffsetFitsIff(n, size);
  }

  /** The rows fetched for page `n` are slice `n - 1` of whatever rows match. */
  ghost predicate SlicesAlways(lenient: bool, n: int, size: nat)
    requires n >= 1
  {
    forall all :: RowsFrom(lenient, all, RowOffset(n, size), size) == Some(OffsetSlice(all, n - 1, size))
  }

  /** They are exactly when the offset fits into 64 bits: beyond that the page shows rows of an earlier one, or
      those of the first, or is refused. */
  lemma {:induction false} PageIsSliceIff(lenient: bool, n: int, size: nat)
    requires n >= 1 && size >= 1
    ensures SlicesAlways(lenient, n, size) <==> Fits(n, size)
  {
    OffsetIsProduct(n - 1, size);
    OffsetFitsIff(n, size);
    if !Fits(n, size) {
      var offset: nat := if RowOffset(n, size) < 0 then 0 else RowOffset(n, size);
      var all := seq(offset + 1, i => Row(i, map[]));
      assert Limit(Skip(all, offset), size)[0] == all[offset];
      assert OffsetSlice(all, n - 1, size) == [];
      assert RowsFrom(lenient, all, RowOffset(n, size), size) != Some([]);
    }
  }

  /** Page 2^62 + 1 of four rows each is the first page again; of three rows each it has a negative offset. */
  lemma {:induction false} FarPagesWrap()
    ensures RowOffset(0x4000_0000_0000_0001, 4) == 0 && RowOffset(0x4000_0000_0000_0001, 3) < 0
  {
  }

  /** Page `n` holds slice `n - 1` of the matching rows, their number, and the exact page count. */
  lemma {:induction false} OffsetPageHolds(all: seq<Row>, n: int, size: nat, quotient: (int, int) -> real)
    requires n >= 1 && Divides(quotient, |all|, size)
    ensures var result := OffsetPageOf(Some(OffsetSlice(all, n - 1, size)), |all|, n, size, quotient);
      && result.Some? && result.value.data == OffsetSlice(all, n - 1, size) && result.value.total == |all|
      && result.value.page == n && result.value.perPage == size
      && result.value.totalPages == PageCount(|all|, size)
  {
    TotalPagesExact(|all|, size, quotient(|all|, size));
    if all == [] {
      CountExact(0, size, 0);
    }
  }

  ghost function OffsetData(results: seq<OffsetResult>): seq<seq<Row>> {
    seq(|results|, i requires 0 <= i < |results| => results[i].data)
  }

  /** `results` are what `pages` returns for page 1, page 2 and so on. */
  ghost predicate AreOffsetPages(repo: Repo, e: Engine, encode: int -> Value, table: seq<Row>, conds: seq<Cond>,
                                 size: nat,
                                 quotient: (int, int) -> real, results: seq<OffsetResult>) {
    forall i :: 0 <= i < |results| ==> IsOffsetPage(repo, e, encode, table, conds, i + 1, size, quotient,
                                                    Some(results[i]))
  }

  /** Every page that holds rows has an offset that fits. */
  lemma {:induction false} PageFits(total: nat, size: nat, i: nat)
    requires total < TwoTo53 && size >= 1 && i < PageCount(total, size)
    ensures Fits(i + 1, size)
  {
    CountFills(total, size);
    OffsetGrows(i, PageCount(total, size) - 1, size);
    OffsetIsProduct(i, size);
  }

  lemma {:induction false} OffsetDataAt(repo: Repo, e: Engine, encode: int -> Value, table: seq<Row>,
                                        ordered: seq<Row>, conds: seq<Cond>,
                                        i: nat, size: nat, quotient: (int, int) -> real, result: OffsetResult)
    requires NumericIds(e, encode) && Orders(ordered, table, false)
    requires (forall c :: c in conds ==> Accepted(c))
    requires IsOffsetPage(repo, e, encode, table, conds, i + 1, size, quotient, Some(result))
    requires Divides(quotient, |Filtered(repo, e, conds, ordered)|, size)
    requires i < PageCount(|Filtered(repo, e, conds, ordered)|, size)
    ensures result.data == OffsetSlice(Filtered(repo, e, conds, ordered), i, size)
  {
    var all := Filtered(repo, e, conds, ordered);
    PageFits(|all|, size, i);
    OffsetPageIs(repo, e, encode, table, ordered, conds, i + 1, size, quotient, Some(result));
    OffsetPageHolds(all, i + 1, size, quotient);
  }

  lemma {:induction false} OffsetDataIs(repo: Repo, e: Engine, encode: int -> Value, table: seq<Row>,
                                        ordered: seq<Row>, conds: seq<Cond>,
                                        size: nat,
                                        quotient: (int, int) -> real, results: seq<OffsetResult>)
    requires NumericIds(e, encode) && Orders(ordered, table, false)
    requires (forall c :: c in conds ==> Accepted(c))
    requires AreOffsetPages(repo, e, encode, table, conds, size, quotient, results)
    requires Divides(quotient, |Filtered(repo, e, conds, ordered)|, size)
    requires |results| <= PageCount(|Filtered(repo, e, conds, ordered)|, size)
    ensures OffsetData(results) == OffsetSlices(Filtered(repo, e, conds, ordered), |results|, size)
  {
    var all := Filtered(repo, e, conds, ordered);
    forall i | 0 <= i < |results|
      ensures results[i].data == OffsetSlice(all, i, size)
    {
      OffsetDataAt(repo, e, encode, table, ordered, conds, i, size, quotient, results[i]);
    }
  }

  /** Offset pages 1 to the TotalPages the first one reports, put together, are the rows that match, each once
      and in id order: what an ascending keyset walk over the same table lists. */
  lemma {:induction false} OffsetPagesListEverything(repo: Repo, e: Engine, encode: int -> Value, table: seq<Row>,
                                                     ordered: seq<Row>,
                                                     conds: seq<Cond>,
                                                     size: nat, quotient: (int,
                                                     int) -> real, first: OffsetResult, results: seq<OffsetResult>,
                                                     page: Option<int> -> KeysetResult, pages: seq<KeysetResult>)
    requires NumericIds(e, encode) && Orders(ordered, table, false)
    requires (forall c :: c in conds ==> Accepted(c))
    requires Divides(quotient, |Filtered(repo, e, conds, ordered)|, size)
    requires IsOffsetPage(repo, e, encode, table, conds, 1, size, quotient, Some(first))
    requires |results| == first.totalPages
    requires AreOffsetPages(repo, e, encode, table, conds, size, quotient, results)
    requires PagesOf(repo, e, encode, table, conds, size, false, page) && IsWalk(page, pages)
    ensures Concat(OffsetData(results)) == Filtered(repo, e, conds, ordered) == Concat(DataOf(pages))
  {
    var all := Filtered(repo, e, conds, ordered);
    OffsetPageIs(repo, e, encode, table, ordered, conds, 1, size, quotient, Some(first));
    OffsetPageHolds(all, 1, size, quotient);
    OffsetDataIs(repo, e, encode, table, ordered, conds, size, quotient, results);
    SlicesConcat(all, |results|, size);
    CountFills(|all|, size);
    KeysetWalkListsEverything(repo, e, encode, table, ordered, conds, size, false, page);
  }
}
