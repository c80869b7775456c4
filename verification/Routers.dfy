/** The subject router: an exact map, a specificity-sorted wildcard list and a bounded memo. */
module Routers {
  import opened Options
  import opened Patterns
  import opened TextOrder

  /** `handler` stands for the transport, controller, field and guards of the declaring code. */
  datatype Route = Route(pattern: string, handler: nat)

  const MaxRouteCacheEntries := 4096

  // ---------------------------------------------------------------- what Resolve should return

  /** The most specific registered route that matches the subject, if any matches. */
  ghost predicate IsBest(routes: set<Route>, subject: string, best: Option<Route>) {
    match best
    case None =>
      forall q :: q in routes ==> !Matches(q.pattern, subject)
    case Some(r) =>
      && r in routes && Matches(r.pattern, subject)
      && forall q :: q in routes && q != r && Matches(q.pattern, subject) ==> Beats(r.pattern, q.pattern)
  }

  lemma {:induction false} BestIsUnique(routes: set<Route>, subject: string, a: Option<Route>, b: Option<Route>)
    requires IsBest(routes, subject, a) && IsBest(routes, subject, b)
    ensures a == b
  {
    if a.Some? && b.Some? && a != b {
      BeatsIsTotal(a.value.pattern, b.value.pattern);
    }
  }

  /** No route that matches is preferred to the answer: an exact one is answered before any wildcard, and of
      two wildcards the one with more literal characters, then fewer wildcards, then first in byte order. */
  lemma {:induction false} AnswerIsPreferred(routes: set<Route>, subject: string, r: Route, q: Route)
    requires IsBest(routes, subject, Some(r)) && q in routes && q != r && Matches(q.pattern, subject)
    ensures WildcardsOf(r.pattern) != {} ==> WildcardsOf(q.pattern) != {}
    ensures WildcardsOf(r.pattern) != {} ==>
      && |LiteralsOf(r.pattern)| >= |LiteralsOf(q.pattern)|
      && (|LiteralsOf(r.pattern)| == |LiteralsOf(q.pattern)| ==>
            && |WildcardsOf(r.pattern)| <= |WildcardsOf(q.pattern)|
            && (|WildcardsOf(r.pattern)| == |WildcardsOf(q.pattern)| ==> LeadsInBytes(r.pattern, q.pattern)))
    ensures WildcardsOf(r.pattern) == {} ==> r.pattern == subject
  {
    BeatsIffPreferred(r.pattern, q.pattern);
    IsWildcardIff(r.pattern);
    if !IsWildcard(r.pattern) {
      LiteralMatches(r.pattern, subject);
    }
  }

  // ---------------------------------------------------------------- the wildcard list

  ghost predicate SortedBySpecificity(wild: seq<Route>) {
    forall i, j :: 0 <= i < j < |wild| ==> Beats(wild[i].pattern, wild[j].pattern)
  }

  /** The first route of the list that matches. */
  ghost function FirstMatch(wild: seq<Route>, subject: string): Option<Route> {
    if wild == [] then None
    else if Matches(wild[0].pattern, subject) then Some(wild[0])
    else FirstMatch(wild[1..], subject)
  }

  /** In a specificity-sorted list the first hit is the best one. */
  lemma {:induction false} FirstMatchIsBest(wild: seq<Route>, subject: string)
    requires SortedBySpecificity(wild)
    ensures IsBest((set r | r in wild), subject, FirstMatch(wild, subject))
  {
    if wild != [] {
      var rest := wild[1..];
      assert forall i, j :: 0 <= i < j < |rest| ==> rest[i] == wild[i + 1] && rest[j] == wild[j + 1];
      FirstMatchIsBest(rest, subject);
      assert forall q :: q in wild ==> q == wild[0] || q in rest;
      forall q | q in rest
        ensures Beats(wild[0].pattern, q.pattern)
      {
        var i :| 0 <= i < |rest| && rest[i] == q;
        assert wild[i + 1] == q;
      }
    }
  }

  ghost predicate DistinctList(routes: seq<Route>) {
    forall i, j :: 0 <= i < j < |routes| ==> routes[i].pattern != routes[j].pattern
  }

  /** A sorted list is determined by its members. */
  lemma {:induction false} SortedIsUnique(a: seq<Route>, b: seq<Route>)
    requires SortedBySpecificity(a) && SortedBySpecificity(b)
    requires forall r :: r in a <==> r in b
    ensures a == b
  {
    assert forall i :: 0 <= i < |a| ==> a[i] in b;
    assert forall i :: 0 <= i < |b| ==> b[i] in a;
    if a != [] && b != [] {
      SortedHeadLeads(a, b);
      SortedHeadLeads(b, a);
      BeatsIsTotal(a[0].pattern, b[0].pattern);
      SortedTail(a);
      SortedTail(b);
      SortedIsUnique(a[1..], b[1..]);
    }
  }

  lemma {:induction false} SortedHeadLeads(a: seq<Route>, b: seq<Route>)
    requires SortedBySpecificity(a) && a != [] && b != [] && b[0] in a
    ensures a[0] == b[0] || Beats(a[0].pattern, b[0].pattern)
  {
  }

  lemma {:induction false} SortedTail(a: seq<Route>)
    requires SortedBySpecificity(a) && a != []
    ensures SortedBySpecificity(a[1..])
    ensures forall r :: r in a[1..] <==> r in a && r != a[0]
  {
    forall r | r in a[1..]
      ensures r != a[0]
    {
      var i :| 0 <= i < |a[1..]| && a[1..][i] == r;
      BeatsIsTotal(a[0].pattern, a[i + 1].pattern);
    }
  }

  lemma {:induction false} InsertionIsSorted(wild: seq<Route>, i: nat, route: Route)
    requires SortedBySpecificity(wild) && i <= |wild|
    requires forall k :: 0 <= k < i ==> Beats(wild[k].pattern, route.pattern)
    requires forall k :: i <= k < |wild| ==> Beats(route.pattern, wild[k].pattern)
    ensures SortedBySpecificity(wild[..i] + [route] + wild[i..])
  {
    var out := wild[..i] + [route] + wild[i..];
    assert forall k :: 0 <= k < |out| ==> out[k] == if k < i then wild[k] else if k == i then route else wild[k - 1];
  }

  /** Whatever stands before the place of `route` beats it. */
  lemma {:induction false} BeatsFromTheFront(wild: seq<Route>, i: nat, route: Route)
    requires SortedBySpecificity(wild) && i <= |wild| && forall r :: r in wild ==> r.pattern != route.pattern
    requires i > 0 ==> !Beats(route.pattern, wild[i - 1].pattern)
    ensures forall k :: 0 <= k < i ==> Beats(wild[k].pattern, route.pattern)
  {
    forall k | 0 <= k < i
      ensures Beats(wild[k].pattern, route.pattern)
    {
      assert wild[i - 1] in wild;
      BeatsIsTotal(wild[i - 1].pattern, route.pattern);
      if k < i - 1 {
        BeatsTransitive(wild[k].pattern, wild[i - 1].pattern, route.pattern);
      }
    }
  }

  /** One insertion of a stable sort by specificity. */
  method InsertBySpecificity(wild: seq<Route>, route: Route) returns (out: seq<Route>)
    requires SortedBySpecificity(wild)
    requires forall r :: r in wild ==> r.pattern != route.pattern
    ensures SortedBySpecificity(out)
    ensures |out| == |wild| + 1
    ensures forall r :: r in out <==> r in wild || r == route
  {
    var i := |wild|;
    while i > 0 && Beats(route.pattern, wild[i - 1].pattern)
      invariant 0 <= i <= |wild|
      invariant forall k :: i <= k < |wild| ==> Beats(route.pattern, wild[k].pattern)
    {
      i := i - 1;
    }
    BeatsFromTheFront(wild, i, route);
    InsertionIsSorted(wild, i, route);
    assert wild == wild[..i] + wild[i..];
    out := wild[..i] + [route] + wild[i..];
  }

  /** `sort.SliceStable` with `moreSpecificThan`. */
  method SortBySpecificity(routes: seq<Route>) returns (out: seq<Route>)
    requires DistinctList(routes)
    ensures SortedBySpecificity(out)
    ensures |out| == |routes| && forall r :: r in out <==> r in routes
  {
    out := [];
    for i := 0 to |routes|
      invariant SortedBySpecificity(out)
      invariant |out| == i && forall r :: r in out <==> r in routes[..i]
    {
      out := InsertBySpecificity(out, routes[i]);
    }
    assert routes[..|routes|] == routes;
  }

  // ---------------------------------------------------------------- registration

  datatype AddResult = NilRoute | InvalidPattern | Duplicate(existing: Route) | Added

  /** The registered routes after an `Add`. */
  ghost function AfterAdd(routes: set<Route>, route: Option<Route>): set<Route> {
    if route.Some? && ValidPattern(route.value.pattern) &&
        (forall q :: q in routes ==> q.pattern != route.value.pattern)
    then routes + {route.value}
    else routes
  }

  ghost function SetOf(exact: map<string, Route>, wild: seq<Route>): set<Route> {
    (set p | p in exact :: exact[p]) + (set r | r in wild)
  }

  /** What `Add` keeps true of the two tables. */
  ghost predicate ValidTables(exact: map<string, Route>, wild: seq<Route>) {
    && (forall p :: p in exact ==> exact[p].pattern == p && !IsWildcard(p) && ValidPattern(p))
    && (forall r :: r in wild ==> IsWildcard(r.pattern) && ValidPattern(r.pattern))
    && SortedBySpecificity(wild)
  }

  /** Looking in the exact map first and the sorted list second finds the best route. */
  lemma {:induction false} LookupIsBest(exact: map<string, Route>, wild: seq<Route>, subject: string)
    requires ValidTables(exact, wild)
    ensures IsBest(SetOf(exact, wild), subject,
                   if subject in exact then Some(exact[subject]) else FirstMatch(wild, subject))
  {
    FirstMatchIsBest(wild, subject);
    forall p | p in exact
      ensures Matches(p, subject) <==> p == subject
    {
      LiteralMatches(p, subject);
    }
    if subject in exact {
      forall q | q in SetOf(exact, wild) && q != exact[subject] && Matches(q.pattern, subject)
        ensures Beats(subject, q.pattern)
      {
        assert q in wild;
      }
    }
  }

  /** Registering a new pattern in the table it belongs to. */
  lemma {:induction false} WildGrows(exact: map<string, Route>, wild: seq<Route>, wild': seq<Route>, r: Route)
    requires ValidTables(exact, wild) && ValidPattern(r.pattern) && IsWildcard(r.pattern)
    requires SortedBySpecificity(wild') && forall q :: q in wild' <==> q in wild || q == r
    ensures ValidTables(exact, wild') && SetOf(exact, wild') == SetOf(exact, wild) + {r}
  {
  }

  lemma {:induction false} ExactGrows(exact: map<string, Route>, wild: seq<Route>, r: Route)
    requires ValidTables(exact, wild) && ValidPattern(r.pattern) && !IsWildcard(r.pattern)
    requires forall q :: q in SetOf(exact, wild) ==> q.pattern != r.pattern
    ensures ValidTables(exact[r.pattern := r], wild)
    ensures SetOf(exact[r.pattern := r], wild) == SetOf(exact, wild) + {r}
  {
    var grown := exact[r.pattern := r];
    assert r.pattern !in exact by {
      assert forall p :: p in exact ==> exact[p] in SetOf(exact, wild);
    }
    assert forall p :: p in exact ==> p in grown && grown[p] == exact[p];
    assert r.pattern in grown;
    assert SetOf(grown, wild) == SetOf(exact, wild) + {r};
  }

  lemma {:induction false} ListIsDistinct(exact: map<string, Route>, wild: seq<Route>, r: Route)
    requires ValidTables(exact, wild)
    requires forall q :: q in SetOf(exact, wild) ==> q.pattern != r.pattern
    ensures DistinctList(wild + [r])
  {
    forall i, j | 0 <= i < j < |wild| + 1
      ensures (wild + [r])[i].pattern != (wild + [r])[j].pattern
    {
      if j < |wild| {
        BeatsIsTotal(wild[i].pattern, wild[j].pattern);
      } else {
        assert wild[i] in SetOf(exact, wild);
      }
    }
  }

  /** `Resolve`'s search of the wildcard list. */
  method SearchWild(wild: seq<Route>, subject: string) returns (best: Option<Route>)
    ensures best == FirstMatch(wild, subject)
  {
    assert wild[0..] == wild;
    for i := 0 to |wild|
      invariant FirstMatch(wild, subject) == FirstMatch(wild[i..], subject)
    {
      var hit, _ := Match(wild[i].pattern, subject);
      assert wild[i..][1..] == wild[i + 1..];
      if hit {
        return Some(wild[i]);
      }
    }
    best := None;
  }

  class Router {
    var exact: map<string, Route>
    var wild: seq<Route>
    var cache: map<string, Option<Route>>

    ghost predicate Valid()
      reads this
    {
      && ValidTables(exact, wild)
      && (forall s :: s in cache ==> cache[s] == FirstMatch(wild, s))
      && |cache| <= MaxRouteCacheEntries
    }

    ghost function Routes(): set<Route>
      reads this
    {
      SetOf(exact, wild)
    }

    constructor ()
      ensures Valid() && Routes() == {}
    {
      exact, wild, cache := map[], [], map[];
    }

    /** The route registered for exactly this pattern, if any. */
    method Find(pattern: string) returns (r: Option<Route>)
      requires Valid()
      ensures r.Some? ==> r.value in Routes() && r.value.pattern == pattern
      ensures r.None? ==> forall q :: q in Routes() ==> q.pattern != pattern
    {
      if pattern in exact {
        return Some(exact[pattern]);
      }
      for i := 0 to |wild|
        invariant forall k :: 0 <= k < i ==> wild[k].pattern != pattern
      {
        if wild[i].pattern == pattern {
          return Some(wild[i]);
        }
      }
      r := None;
    }

    method Add(route: Option<Route>) returns (result: AddResult)
      requires Valid()
      modifies this
      ensures Valid()
      ensures Routes() == AfterAdd(old(Routes()), route)
      ensures result.Added? <==> Routes() != old(Routes())
      ensures result.Added? ==> cache == map[]
      ensures !result.Added? ==> exact == old(exact) && wild == old(wild) && cache == old(cache)
      ensures result.NilRoute? <==> route.None?
      ensures result.InvalidPattern? <==> route.Some? && !ValidPattern(route.value.pattern)
      ensures result.Duplicate? ==> result.existing in Routes() && result.existing.pattern == route.value.pattern
    {
      if route.None? {
        return NilRoute;
      }
      var r := route.value;
      if !ValidPattern(r.pattern) {
        return InvalidPattern;
      }
      var existing := Find(r.pattern);
      if existing.Some? {
        return Duplicate(existing.value);
      }
      if IsWildcard(r.pattern) {
        ListIsDistinct(exact, wild, r);
        var sorted := SortBySpecificity(wild + [r]);
        WildGrows(exact, wild, sorted, r);
        wild := sorted;
      } else {
        ExactGrows(exact, wild, r);
        exact := exact[r.pattern := r];
      }
      cache := map[];
      result := Added;
    }

    /** Atomic `Resolve`: the memo never changes the answer. */
    method Resolve(subject: string) returns (best: Option<Route>)
      requires Valid()
      modifies this`cache
      ensures Valid()
      ensures IsBest(Routes(), subject, best)
    {
      LookupIsBest(exact, wild, subject);
      if subject in exact {
        return Some(exact[subject]);
      }
      if |wild| == 0 {
        return None;
      }
      if subject in cache {
        return cache[subject];
      }
      best := SearchWild(wild, subject);
      if |cache| >= MaxRouteCacheEntries {
        cache := map[];
      }
      cache := cache[subject := best];
    }

    /** Every registered pattern: the literals in text order, then the wildcards most specific first. */
    method ListPatterns() returns (out: seq<string>)
      requires Valid()
      ensures InRouterOrder(Routes(), out) && LiteralsInTextOrder(out)
    {
      var literals: seq<string> := [];
      var todo := exact.Keys;
      while todo != {}
        invariant todo <= exact.Keys
        invariant (set p | p in literals) == exact.Keys - todo
        invariant InTextOrder(literals)
      {
        var p :| p in todo;
        literals := InsertText(literals, p);
        todo := todo - {p};
      }
      out := literals;
      for i := 0 to |wild|
        invariant out == literals + Names(wild[..i])
      {
        assert wild[..i + 1] == wild[..i] + [wild[i]];
        out := out + [wild[i].pattern];
      }
      assert wild[..|wild|] == wild;
      ListedInOrder(exact, wild, literals);
    }
  }

  function Names(routes: seq<Route>): seq<string> {
    seq(|routes|, i requires 0 <= i < |routes| => routes[i].pattern)
  }

  /** The order `Patterns` lists in: literals first, wildcards by specificity, no repeats. */
  ghost predicate InRouterOrder(routes: set<Route>, listed: seq<string>) {
    && (forall p :: p in listed <==> exists r :: r in routes && r.pattern == p)
    && (forall i, j :: 0 <= i < j < |listed| ==> listed[i] != listed[j])
    && (forall i, j :: 0 <= i < j < |listed| && IsWildcard(listed[i]) ==>
          IsWildcard(listed[j]) && Beats(listed[i], listed[j]))
  }

  /** And the literals among them in text order. */
  ghost predicate LiteralsInTextOrder(listed: seq<string>) {
    forall i, j :: 0 <= i < j < |listed| && !IsWildcard(listed[j]) ==> TextLess(listed[i], listed[j])
  }

  lemma {:induction false} ListedInOrder(exact: map<string, Route>, wild: seq<Route>, literals: seq<string>)
    requires ValidTables(exact, wild) && InTextOrder(literals) && (set p | p in literals) == exact.Keys
    ensures InRouterOrder(SetOf(exact, wild), literals + Names(wild)) && LiteralsInTextOrder(literals + Names(wild))
  {
    assert forall p :: p in literals <==> p in exact by {
      assert forall p :: p in literals <==> p in (set q | q in literals);
    }
    ListsTheRoutes(exact, wild, literals);
    ListsInOrder(exact, wild, literals);
    LiteralsStayInOrder(wild, literals);
  }

  lemma {:induction false} LiteralsStayInOrder(wild: seq<Route>, literals: seq<string>)
    requires InTextOrder(literals) && forall r :: r in wild ==> IsWildcard(r.pattern)
    ensures LiteralsInTextOrder(literals + Names(wild))
  {
    var listed := literals + Names(wild);
    forall i | |literals| <= i < |listed|
      ensures IsWildcard(listed[i])
    {
      assert wild[i - |literals|] in wild;
    }
  }

  lemma {:induction false} ListsTheRoutes(exact: map<string, Route>, wild: seq<Route>, literals: seq<string>)
    requires ValidTables(exact, wild) && forall p :: p in literals <==> p in exact
    ensures forall p :: p in literals + Names(wild) <==> exists r :: r in SetOf(exact, wild) && r.pattern == p
  {
    var routes := SetOf(exact, wild);
    var listed := literals + Names(wild);
    assert forall i :: 0 <= i < |wild| ==> wild[i] in wild && wild[i] in routes;
    forall p
      ensures p in listed <==> exists r :: r in routes && r.pattern == p
    {
      if p in literals {
        assert exact[p] in routes;
      } else if p in listed {
        var i :| 0 <= i < |listed| && listed[i] == p;
        assert wild[i - |literals|] in routes;
      }
      if r :| r in routes && r.pattern == p {
        if r in wild {
          var i :| 0 <= i < |wild| && wild[i] == r;
          assert listed[|literals| + i] == p;
        } else {
          var i :| 0 <= i < |literals| && literals[i] == p;
          assert listed[i] == p;
        }
      }
    }
  }

  lemma {:induction false} ListsInOrder(exact: map<string, Route>, wild: seq<Route>, literals: seq<string>)
    requires ValidTables(exact, wild) && InTextOrder(literals) && forall p :: p in literals <==> p in exact
    ensures var listed := literals + Names(wild);
      forall i, j :: 0 <= i < j < |listed| ==>
        listed[i] != listed[j] && (IsWildcard(listed[i]) ==> IsWildcard(listed[j]) && Beats(listed[i], listed[j]))
  {
    var listed := literals + Names(wild);
    assert forall i :: 0 <= i < |literals| ==> literals[i] in literals;
    assert forall i :: 0 <= i < |wild| ==> wild[i] in wild;
    forall i, j | 0 <= i < j < |listed|
      ensures listed[i] != listed[j]
      ensures IsWildcard(listed[i]) ==> IsWildcard(listed[j]) && Beats(listed[i], listed[j])
    {
      if j < |literals| {
        TextLessIrreflexive(listed[i]);
      } else if i >= |literals| {
        BeatsIsTotal(listed[i], listed[j]);
      }
    }
  }

  // ---------------------------------------------------------------- whole runs

  datatype Op = AddOp(route: Option<Route>) | ResolveOp(subject: string)

  /** The routes registered once the first `n` calls have run: the memo leaves no trace. */
  ghost function RoutesAfter(ops: seq<Op>, n: nat): set<Route>
    requires n <= |ops|
  {
    if n == 0 then {}
    else
      match ops[n - 1]
      case AddOp(route) => AfterAdd(RoutesAfter(ops, n - 1), route)
      case ResolveOp(_) => RoutesAfter(ops, n - 1)
  }

  ghost predicate AnsweredBest(ops: seq<Op>, i: nat, answer: Option<Route>)
    requires i < |ops|
  {
    ops[i].ResolveOp? ==> IsBest(RoutesAfter(ops, i), ops[i].subject, answer)
  }

  /** One call on a router, whatever it is. */
  method Call(router: Router, op: Op) returns (answer: Option<Route>)
    requires router.Valid()
    modifies router
    ensures router.Valid()
    ensures op.AddOp? ==> router.Routes() == AfterAdd(old(router.Routes()), op.route)
    ensures op.ResolveOp? ==> router.Routes() == old(router.Routes()) && IsBest(router.Routes(), op.subject, answer)
  {
    match op
    case AddOp(route) =>
      var _ := router.Add(route);
      answer := None;
    case ResolveOp(subject) =>
      answer := router.Resolve(subject);
  }

  ghost predicate AllAnsweredBest(ops: seq<Op>, answers: seq<Option<Route>>) {
    |answers| <= |ops| && forall i :: 0 <= i < |answers| ==> AnsweredBest(ops, i, answers[i])
  }

  lemma {:induction false} OneMoreAnswer(ops: seq<Op>, answers: seq<Option<Route>>, answer: Option<Route>)
    requires AllAnsweredBest(ops, answers) && |answers| < |ops| && AnsweredBest(ops, |answers|, answer)
    ensures AllAnsweredBest(ops, answers + [answer])
  {
  }

  /** Any sequence of calls, each taken as a whole, from an empty router: every `Resolve`
      answers with the best of what the earlier `Add`s registered. */
  method Replay(ops: seq<Op>) returns (answers: seq<Option<Route>>)
    ensures |answers| == |ops| && AllAnsweredBest(ops, answers)
  {
    var router := new Router();
    answers := [];
    for i := 0 to |ops|
      invariant fresh(router) && router.Valid() && router.Routes() == RoutesAfter(ops, i)
      invariant |answers| == i && AllAnsweredBest(ops, answers)
    {
      var answer := Call(router, ops[i]);
      OneMoreAnswer(ops, answers, answer);
      answers := answers + [answer];
    }
  }

  /** The run registers valid patterns, none of them twice. */
  ghost predicate AddsAreDistinct(ops: seq<Op>) {
    && (forall i :: 0 <= i < |ops| && ops[i].AddOp? ==> ops[i].route.Some? && ValidPattern(ops[i].route.value.pattern))
    && (forall i, j :: 0 <= i < j < |ops| && ops[i].AddOp? && ops[j].AddOp? ==>
          ops[i].route.value.pattern != ops[j].route.value.pattern)
  }

  /** Registering valid, distinct patterns in any order, with any lookups in between, leaves
      exactly those routes. */
  lemma {:induction false} RoutesAreTheAdds(ops: seq<Op>, n: nat)
    requires n <= |ops| && AddsAreDistinct(ops)
    ensures RoutesAfter(ops, n) == set i | 0 <= i < n && ops[i].AddOp? :: ops[i].route.value
  {
    if n > 0 {
      RoutesAreTheAdds(ops, n - 1);
    }
  }

  /** Registration order never matters: two runs that register the same routes give the same
      answer to the same subject. */
  lemma {:induction false} OrderIsIrrelevant(a: seq<Op>, b: seq<Op>, subject: string, fromA: Option<Route>,
                                             fromB: Option<Route>)
    requires AddsAreDistinct(a) && AddsAreDistinct(b)
    requires forall op: Op :: op.AddOp? ==> (op in a <==> op in b)
    requires IsBest(RoutesAfter(a, |a|), subject, fromA) && IsBest(RoutesAfter(b, |b|), subject, fromB)
    ensures fromA == fromB
  {
    RoutesAreTheAdds(a, |a|);
    RoutesAreTheAdds(b, |b|);
    SameAdds(a, b);
    SameAdds(b, a);
    BestIsUnique(RoutesAfter(a, |a|), subject, fromA, fromB);
  }

  lemma {:induction false} SameAdds(a: seq<Op>, b: seq<Op>)
    requires forall i :: 0 <= i < |a| && a[i].AddOp? ==> a[i].route.Some?
    requires forall i :: 0 <= i < |b| && b[i].AddOp? ==> b[i].route.Some?
    requires forall op :: op in a && op.AddOp? ==> op in b
    ensures (set i | 0 <= i < |a| && a[i].AddOp? :: a[i].route.value) <= (set i | 0 <= i < |b| &&
                                                                          b[i].AddOp? :: b[i].route.value)
  {
    forall i | 0 <= i < |a| && a[i].AddOp?
      ensures exists j :: 0 <= j < |b| && b[j].AddOp? && b[j].route.value == a[i].route.value
    {
      assert a[i] in b;
      var j :| 0 <= j < |b| && b[j] == a[i];
    }
  }
}
