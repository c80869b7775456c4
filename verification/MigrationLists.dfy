/** The pending list, computed alike by the SQL and the MongoDB migrator. */
module MigrationLists {
  ghost predicate Ascending(s: seq<int>) {
    forall i, j :: 0 <= i < j < |s| ==> s[i] < s[j]
  }

  /** The first `n` of `migs` that are not in `seen`, order kept. */
  function Unseen(migs: seq<int>, n: nat, seen: set<int>): (r: seq<int>)
    requires n <= |migs|
  {
    if n == 0 then []
    else if migs[n - 1] in seen then Unseen(migs, n - 1, seen)
    else Unseen(migs, n - 1, seen) + [migs[n - 1]]
  }

  /** Exactly the versions not seen. */
  lemma {:induction false} UnseenHas(migs: seq<int>, n: nat, seen: set<int>, v: int)
    requires n <= |migs|
    ensures v in Unseen(migs, n, seen) <==> v in migs[..n] && v !in seen
  {
    if n > 0 {
      UnseenHas(migs, n - 1, seen, v);
      assert migs[..n] == migs[..n - 1] + [migs[n - 1]];
    }
  }

  /** Each once, in ascending order. */
  lemma {:induction false} UnseenAscends(migs: seq<int>, n: nat, seen: set<int>)
    requires n <= |migs| && Ascending(migs)
    ensures Ascending(Unseen(migs, n, seen))
  {
    if n > 0 {
      UnseenAscends(migs, n - 1, seen);
      var r := Unseen(migs, n - 1, seen);
      forall i | 0 <= i < |r| ensures r[i] < migs[n - 1] {
        UnseenHas(migs, n - 1, seen, r[i]);
        assert r[i] in r;
        var k :| 0 <= k < n - 1 && migs[..n - 1][k] == r[i];
      }
    }
  }

  method Pending(migs: seq<int>, applied: seq<int>, max: int) returns (pending: seq<int>)
    requires Ascending(migs)
    ensures pending == Cut(Unseen(migs, |migs|, set v | v in applied), max)
  {
    var seen := {};
    for i := 0 to |applied|
      invariant seen == set v | v in applied[..i]
    {
      seen := seen + {applied[i]};
    }
    assert applied[..|applied|] == applied;
    pending := [];
    for i := 0 to |migs|
      invariant pending == Unseen(migs, i, seen)
    {
      if migs[i] !in seen {
        pending := pending + [migs[i]];
      }
    }
    if 0 < max < |pending| {
      pending := pending[..max];
    }
  }

  /** At most `max` of them; zero or less means all. */
  function Cut(pending: seq<int>, max: int): (r: seq<int>)
    ensures r <= pending && |r| == if 0 < max < |pending| then max else |pending|
  {
    if 0 < max < |pending| then pending[..max] else pending
  }

  function Members(s: seq<int>): set<int> {
    set v | v in s
  }

  lemma {:induction false} AscendingCount(s: seq<int>)
    requires Ascending(s)
    ensures |Members(s)| == |s|
  {
    if s != [] {
      var n := |s| - 1;
      AscendingCount(s[..n]);
      assert s == s[..n] + [s[n]];
      assert Members(s) == Members(s[..n]) + {s[n]} && s[n] !in Members(s[..n]);
    }
  }

  /** A run asked for `max` versions plans that many, or all that are pending if there are fewer or `max` is not
      positive; so a run that succeeds, which has applied its plan, has applied as many. */
  lemma {:induction false} PlanSize(migs: seq<int>, seen: set<int>, max: int)
    requires Ascending(migs)
    ensures var pending := |set v | v in migs && v !in seen|;
      |Cut(Unseen(migs, |migs|, seen), max)| == if max <= 0 || pending <= max then pending else max
  {
    UnseenAscends(migs, |migs|, seen);
    AscendingCount(Unseen(migs, |migs|, seen));
    assert migs[..|migs|] == migs;
    forall v ensures v in Unseen(migs, |migs|, seen) <==> v in migs && v !in seen {
      UnseenHas(migs, |migs|, seen, v);
    }
    assert Members(Unseen(migs, |migs|, seen)) == set v | v in migs && v !in seen;
  }

  /** What a run plans: ascending, registered, not yet seen. */
  lemma {:induction false} PendingIs(migs: seq<int>, seen: set<int>, max: int)
    requires Ascending(migs)
    ensures var plan := Cut(Unseen(migs, |migs|, seen), max);
      Ascending(plan) && forall i :: 0 <= i < |plan| ==> plan[i] in migs && plan[i] !in seen
  {
    var pending := Unseen(migs, |migs|, seen);
    var plan := Cut(pending, max);
    assert plan == pending[..|plan|];
    UnseenAscends(migs, |migs|, seen);
    forall i | 0 <= i < |plan| ensures plan[i] in migs && plan[i] !in seen {
      UnseenHas(migs, |migs|, seen, pending[i]);
      assert pending[i] in pending;
    }
  }

  /** The rows of the tracking table, ordered by version. */
  ghost predicate IsListing(listing: seq<int>, tracking: set<int>) {
    Ascending(listing) && forall v :: v in listing <==> v in tracking
  }

  /** The last `n` of a listing, newest first. */
  function Newest(listing: seq<int>, n: nat): (r: seq<int>)
    ensures |r| == if n < |listing| then n else |listing|
    ensures forall i :: 0 <= i < |r| ==> r[i] == listing[|listing| - 1 - i]
  {
    seq(if n < |listing| then n else |listing|, i requires 0 <= i < |listing| => listing[|listing| - 1 - i])
  }

  lemma {:induction false} ListingEmpty(a: seq<int>, tracking: set<int>)
    requires IsListing(a, tracking)
    ensures a == [] <==> tracking == {}
  {
    if a != [] {
      assert a[0] in a;
    }
    if a == [] {
      assert forall v :: v in tracking ==> v in a;
      assert tracking == {};
    }
  }

  lemma {:induction false} ListingIsUnique(a: seq<int>, b: seq<int>, tracking: set<int>)
    requires IsListing(a, tracking) && IsListing(b, tracking)
    ensures a == b
  {
    ListingEmpty(a, tracking);
    ListingEmpty(b, tracking);
    if a != [] {
      var x, y := a[|a| - 1], b[|b| - 1];
      assert x in a && x in b && y in a && y in b;
      assert x == y;
      ListingLast(a, tracking);
      ListingLast(b, tracking);
      ListingIsUnique(a[..|a| - 1], b[..|b| - 1], tracking - {x});
    }
  }

  lemma {:induction false} ListingLast(a: seq<int>, tracking: set<int>)
    requires IsListing(a, tracking) && a != []
    ensures IsListing(a[..|a| - 1], tracking - {a[|a| - 1]})
  {
    assert a == a[..|a| - 1] + [a[|a| - 1]];
  }

  lemma {:induction false} InsertAscends(a: seq<int>, i: nat, v: int)
    requires Ascending(a) && i <= |a| && (i > 0 ==> a[i - 1] < v) && (i < |a| ==> v < a[i])
    ensures Ascending(a[..i] + [v] + a[i..])
  {
    var b := a[..i] + [v] + a[i..];
    forall k | 0 <= k < |b| ensures b[k] == if k < i then a[k] else if k == i then v else a[k - 1] {
    }
  }

  lemma {:induction false} InsertHas(a: seq<int>, i: nat, v: int, x: int)
    requires i <= |a|
    ensures x in a[..i] + [v] + a[i..] <==> x in a || x == v
  {
    assert a == a[..i] + a[i..];
  }

  method InsertRow(a: seq<int>, v: int) returns (b: seq<int>)
    requires Ascending(a) && v !in a
    ensures Ascending(b) && forall x :: x in b <==> x in a || x == v
  {
    var i := |a|;
    while i > 0 && a[i - 1] > v
      invariant 0 <= i <= |a| && (i < |a| ==> v < a[i])
    {
      i := i - 1;
    }
    InsertAscends(a, i, v);
    b := a[..i] + [v] + a[i..];
    forall x ensures x in b <==> x in a || x == v {
      InsertHas(a, i, v, x);
    }
  }

  method Pick<T>(todo: set<T>) returns (v: T)
    requires todo != {}
    ensures v in todo
  {
    v :| v in todo;
  }

  /** The rows of a table keyed by version, as ORDER BY version returns them. */
  method OrderByVersion(tracking: set<int>) returns (listing: seq<int>)
    ensures IsListing(listing, tracking)
  {
    listing := [];
    var todo := tracking;
    while todo != {}
      invariant todo <= tracking && Ascending(listing)
      invariant forall x :: x in listing <==> x in tracking && x !in todo
    {
      var v := Pick(todo);
      listing := InsertRow(listing, v);
      todo := todo - {v};
    }
  }
}
