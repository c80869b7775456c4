/** One SQL migration run inside the lock: what `UpN` and `DownN` do to the database. */
module SqlMigrations {
  import opened Options
  import opened MigrationLists
  import Lock = SqlLock

  /** A body maps the schema, or fails. */
  datatype Migration<!D> = Migration(up: D -> Option<D>, down: Option<D -> Option<D>>, checksum: string)

  /** The schema, and the tracking table from version to recorded checksum. */
  datatype World<D> = World(schema: D, tracking: map<int, string>)

  type Registry<!D> = map<int, Migration<D>>

  // ---------------------------------------------------------------- one transaction

  function Applied<D>(m: Migration<D>, v: int, w: World<D>): Option<World<D>> {
    if v in w.tracking then None
    else match m.up(w.schema)
      case None => None
      case Some(d) => Some(World(d, w.tracking[v := m.checksum]))
  }

  function RolledBack<D>(migs: Registry<D>, v: int, w: World<D>): Option<World<D>> {
    if v !in migs || migs[v].down.None? then None
    else match migs[v].down.value(w.schema)
      case None => None
      case Some(d) => Some(World(d, w.tracking - {v}))
  }

  // ---------------------------------------------------------------- whole runs

  /** The first `n` of `plan` applied, all of them or none. */
  ghost function AppliedAll<D>(migs: Registry<D>, plan: seq<int>, n: nat, w: World<D>): Option<World<D>>
    requires n <= |plan| && forall v :: v in plan ==> v in migs
  {
    if n == 0 then Some(w)
    else match AppliedAll(migs, plan, n - 1, w)
      case None => None
      case Some(w') => Applied(migs[plan[n - 1]], plan[n - 1], w')
  }

  ghost function RolledBackAll<D>(migs: Registry<D>, plan: seq<int>, n: nat, w: World<D>): Option<World<D>>
    requires n <= |plan|
  {
    if n == 0 then Some(w)
    else match RolledBackAll(migs, plan, n - 1, w)
      case None => None
      case Some(w') => RolledBack(migs, plan[n - 1], w')
  }

  /** A body changed after it ran; an empty checksum on either side says nothing. */
  ghost predicate Changed<D>(migs: Registry<D>, tracking: map<int, string>) {
    exists v :: v in migs && v in tracking && migs[v].checksum != "" && tracking[v] != "" &&
        tracking[v] != migs[v].checksum
  }

  class Migrator<D> {
    const versions: seq<int>
    const migs: Registry<D>
    var world: World<D>

    ghost predicate Valid()
      reads this
    {
      Ascending(versions) && forall v :: v in versions <==> v in migs
    }

    /** The pending list of a state. */
    ghost function Plan(max: int): seq<int>
      reads this
    {
      Cut(Unseen(versions, |versions|, world.tracking.Keys), max)
    }

    constructor (versions: seq<int>, migs: Registry<D>, world: World<D>)
      requires Ascending(versions) && forall v :: v in versions <==> v in migs
      ensures Valid() && this.versions == versions && this.migs == migs && this.world == world
    {
      this.versions, this.migs, this.world := versions, migs, world;
    }

    /** Claim, body and commit; an error from commit may hide a commit. */
    method ApplyOne(v: int, fate: Lock.Outcome) returns (ok: bool)
      requires Valid() && v in migs
      modifies this
      ensures ok <==> fate.Committed? && Applied(migs[v], v, old(world)).Some?
      ensures world == Settle(fate, old(world), Applied(migs[v], v, old(world)))
      ensures fate.Aborted? ==> world == old(world)
      ensures ok ==> world.tracking == old(world.tracking)[v := migs[v].checksum]
      ensures ok ==> migs[v].up(old(world.schema)) == Some(world.schema) && v !in old(world.tracking)
    {
      if v in world.tracking {
        return false;
      }
      var tracking := world.tracking[v := migs[v].checksum];
      var schema := migs[v].up(world.schema);
      if schema.None? {
        return false;
      }
      if !fate.Aborted? {
        world := World(schema.value, tracking);
      }
      ok := fate.Committed?;
    }

    method RollbackOne(v: int, fate: Lock.Outcome) returns (ok: bool)
      requires Valid()
      modifies this
      ensures ok <==> fate.Committed? && RolledBack(migs, v, old(world)).Some?
      ensures world == Settle(fate, old(world), RolledBack(migs, v, old(world)))
      ensures fate.Aborted? ==> world == old(world)
      ensures ok ==> world.tracking == old(world.tracking) - {v} && v in migs && migs[v].down.Some?
      ensures ok ==> migs[v].down.value(old(world.schema)) == Some(world.schema)
    {
      if v !in migs || migs[v].down.None? {
        return false;
      }
      var schema := migs[v].down.value(world.schema);
      if schema.None? {
        return false;
      }
      if !fate.Aborted? {
        world := World(schema.value, world.tracking - {v});
      }
      ok := fate.Committed?;
    }

    method Verify() returns (ok: bool)
      requires Valid()
      ensures ok <==> !Changed(migs, world.tracking)
    {
      for i := 0 to |versions|
        invariant forall k :: 0 <= k < i ==>
          var v := versions[k];
          || v !in world.tracking || migs[v].checksum == ""
          || world.tracking[v] == "" || world.tracking[v] == migs[v].checksum
      {
        var v := versions[i];
        assert v in versions;
        if v !in world.tracking || migs[v].checksum == "" || world.tracking[v] == "" {
          continue;
        }
        if world.tracking[v] != migs[v].checksum {
          return false;
        }
      }
      ok := true;
      forall v | v in migs && v in world.tracking && migs[v].checksum != "" && world.tracking[v] != ""
        ensures world.tracking[v] == migs[v].checksum
      {
        assert v in versions;
      }
    }

    /** The loop of `UpN`. */
    method ApplyPlan(plan: seq<int>, fates: int -> Lock.Outcome) returns (applied: seq<int>, ok: bool)
      requires Valid() && forall v :: v in plan ==> v in migs
      modifies this
      ensures applied <= plan && (ok <==> applied == plan)
      ensures ok ==> Reached(migs, plan, |plan|, old(world), world)
      ensures !ok ==> UpStops(migs, plan, |applied|, old(world), world, fates)
      ensures forall v :: v in applied ==> fates(v).Committed?
    {
      applied := [];
      for i := 0 to |plan|
        invariant applied == plan[..i]
        invariant Reached(migs, plan, i, old(world), world)
        invariant forall v :: v in applied ==> fates(v).Committed?
      {
        var done := ApplyOne(plan[i], fates(plan[i]));
        if !done {
          return applied, false;
        }
        applied := applied + [plan[i]];
      }
      ok := true;
    }

    /** A prefix of the pending list is applied, in order; success means all of it. A run that
        fails stops at the version that failed, and only there. */
    method UpN(max: int, fates: int -> Lock.Outcome) returns (applied: seq<int>, ok: bool)
      requires Valid()
      modifies this
      ensures forall v :: v in old(Plan(max)) ==> v in migs
      ensures old(Changed(migs, world.tracking)) ==> !ok && applied == [] && world == old(world)
      ensures !old(Changed(migs, world.tracking)) ==> applied <= old(Plan(max)) && (ok <==> applied == old(Plan(max)))
      ensures ok ==> Reached(migs, old(Plan(max)), |applied|, old(world), world)
      ensures !old(Changed(migs, world.tracking)) && !ok ==>
        UpStops(migs, old(Plan(max)), |applied|, old(world), world, fates)
      ensures forall v :: v in applied ==> fates(v).Committed?
    {
      applied := [];
      PendingIs(versions, world.tracking.Keys, max);
      var same := Verify();
      if !same {
        return applied, false;
      }
      var rows := OrderByVersion(world.tracking.Keys);
      assert forall v :: v in rows <==> v in world.tracking.Keys;
      assert (set v | v in rows) == world.tracking.Keys;
      var plan := Pending(versions, rows, max);
      applied, ok := ApplyPlan(plan, fates);
    }

    /** The loop of `DownN`. */
    method RollNewest(listing: seq<int>, n: nat, fates: int -> Lock.Outcome) returns (rolled: seq<int>, ok: bool)
      requires Valid()
      modifies this
      ensures rolled <= Newest(listing, n) && (ok <==> rolled == Newest(listing, n))
      ensures ok ==> RolledTo(migs, Newest(listing, n), |rolled|, old(world), world)
      ensures !ok ==> DownStops(migs, Newest(listing, n), |rolled|, old(world), world, fates)
    {
      rolled := [];
      ghost var plan := Newest(listing, n);
      var i := |listing| - 1;
      while i >= 0 && |rolled| < n
        invariant -1 <= i < |listing| && |rolled| == |listing| - 1 - i <= |plan|
        invariant rolled == plan[..|rolled|]
        invariant RolledTo(migs, plan, |rolled|, old(world), world)
      {
        assert listing[i] == plan[|rolled|];
        var done := RollbackOne(listing[i], fates(listing[i]));
        if !done {
          return rolled, false;
        }
        rolled := rolled + [listing[i]];
        i := i - 1;
      }
      ok := true;
    }

    /** The newest versions are rolled back, newest first, until one fails. */
    method DownN(n: int, fates: int -> Lock.Outcome) returns (listing: seq<int>, rolled: seq<int>, ok: bool)
      requires Valid()
      modifies this
      ensures IsListing(listing, old(world.tracking.Keys))
      ensures n <= 0 ==> ok && rolled == [] && world == old(world)
      ensures n > 0 ==> rolled <= Newest(listing, n) && (ok <==> rolled == Newest(listing, n))
      ensures n > 0 && ok ==> RolledTo(migs, Newest(listing, n), |rolled|, old(world), world)
      ensures n > 0 && !ok ==> DownStops(migs, Newest(listing, n), |rolled|, old(world), world, fates)
    {
      rolled, ok := [], true;
      listing := OrderByVersion(world.tracking.Keys);
      if n <= 0 {
        return;
      }
      rolled, ok := RollNewest(listing, n, fates);
    }
  }

  ghost predicate Reached<D>(migs: Registry<D>, plan: seq<int>, n: nat, w: World<D>, w': World<D>) {
    n <= |plan| && (forall v :: v in plan ==> v in migs) && AppliedAll(migs, plan, n, w) == Some(w')
  }

  ghost predicate RolledTo<D>(migs: Registry<D>, plan: seq<int>, n: nat, w: World<D>, w': World<D>) {
    n <= |plan| && RolledBackAll(migs, plan, n, w) == Some(w')
  }

  /** What a transaction leaves, given how it ends. */
  function Settle<D>(fate: Lock.Outcome, w: World<D>, next: Option<World<D>>): World<D> {
    if next.Some? && !fate.Aborted? then next.value else w
  }

  /** The run ended at version `plan[n]`: its body failed, or its transaction did not answer well. */
  ghost predicate UpStops<D>(migs: Registry<D>, plan: seq<int>, n: nat, w: World<D>, w': World<D>,
                             fates: int -> Lock.Outcome) {
    && n < |plan| && (forall v :: v in plan ==> v in migs) && AppliedAll(migs, plan, n, w).Some?
    && var before := AppliedAll(migs, plan, n, w).value;
       var next := Applied(migs[plan[n]], plan[n], before);
       && (next.None? || !fates(plan[n]).Committed?)
       && w' == Settle(fates(plan[n]), before, next)
  }

  ghost predicate DownStops<D>(migs: Registry<D>, plan: seq<int>, n: nat, w: World<D>, w': World<D>,
                               fates: int -> Lock.Outcome) {
    && n < |plan| && RolledBackAll(migs, plan, n, w).Some?
    && var before := RolledBackAll(migs, plan, n, w).value;
       var next := RolledBack(migs, plan[n], before);
       && (next.None? || !fates(plan[n]).Committed?)
       && w' == Settle(fates(plan[n]), before, next)
  }

  // ---------------------------------------------------------------- up and down again

  /** Every Down undoes its Up. */
  ghost predicate Inverts<D(!new)>(m: Migration<D>) {
    m.down.Some? && forall d :: m.up(d).Some? ==> m.down.value(m.up(d).value) == Some(d)
  }

  lemma {:induction false} AppliedTracks<D>(migs: Registry<D>, plan: seq<int>, n: nat, w: World<D>, w': World<D>,
                                            listing: seq<int>)
    requires Reached(migs, plan, n, w, w') && Ascending(plan)
    requires IsListing(listing, w.tracking.Keys)
    requires forall v, i :: v in w.tracking && 0 <= i < |plan| ==> v < plan[i]
    ensures IsListing(listing + plan[..n], w'.tracking.Keys)
  {
    if n > 0 {
      var w1 := AppliedAll(migs, plan, n - 1, w).value;
      AppliedTracks(migs, plan, n - 1, w, w1, listing);
      assert plan[..n] == plan[..n - 1] + [plan[n - 1]];
      assert listing + plan[..n] == listing + plan[..n - 1] + [plan[n - 1]];
      assert w'.tracking.Keys == w1.tracking.Keys + {plan[n - 1]};
      forall i | 0 <= i < |listing| ensures listing[i] < plan[n - 1] {
        assert listing[i] in listing && listing[i] in w.tracking.Keys;
      }
    }
  }

  /** What a plan records: for each of its versions the checksum of its migration, and nothing else. */
  lemma {:induction false} PlanRecords<D>(migs: Registry<D>, plan: seq<int>, n: nat, w: World<D>, w': World<D>)
    requires Reached(migs, plan, n, w, w')
    ensures forall v :: v in w'.tracking <==> v in w.tracking || v in plan[..n]
    ensures forall v :: v in plan[..n] ==> v !in w.tracking && w'.tracking[v] == migs[v].checksum
    ensures forall v :: v in w.tracking ==> w'.tracking[v] == w.tracking[v]
  {
    if n > 0 {
      PlanRecords(migs, plan, n - 1, w, AppliedAll(migs, plan, n - 1, w).value);
      assert plan[..n] == plan[..n - 1] + [plan[n - 1]];
    }
  }

  /** After a successful `UpN`, verification against a registry `later` fails exactly when a body applied before or
      one of those just applied has another checksum there, none on either side being empty. */
  lemma {:induction false} ChangedSinceIff<D>(migs: Registry<D>, later: Registry<D>, plan: seq<int>, w: World<D>,
                                              w': World<D>)
    requires Reached(migs, plan, |plan|, w, w')
    ensures Changed(later, w'.tracking) <==>
      || (exists v :: v in later && v in w.tracking && later[v].checksum != "" && w.tracking[v] != "" &&
                      w.tracking[v] != later[v].checksum)
      || (exists v :: v in later && v in plan && later[v].checksum != "" && migs[v].checksum != "" &&
                      migs[v].checksum != later[v].checksum)
  {
    PlanRecords(migs, plan, |plan|, w, w');
    assert plan[..|plan|] == plan;
  }

  lemma {:induction false} UndoOne<D(!new)>(migs: Registry<D>, v: int, w: World<D>)
    requires v in migs && Inverts(migs[v]) && Applied(migs[v], v, w).Some?
    ensures RolledBack(migs, v, Applied(migs[v], v, w).value) == Some(w)
  {
    assert Applied(migs[v], v, w).value.tracking - {v} == w.tracking;
  }

  lemma {:induction false} UndoLast<D(!new)>(migs: Registry<D>, plan: seq<int>, n: nat, w: World<D>, down: seq<int>,
                                      k: nat, w': World<D>)
    requires n < |plan| && k < |down| && down[k] == plan[n] && (forall v :: v in plan ==> v in migs)
    requires Inverts(migs[plan[n]])
    requires AppliedAll(migs, plan, n + 1, w).Some?
    requires RolledBackAll(migs, down, k, w') == AppliedAll(migs, plan, n + 1, w)
    ensures RolledBackAll(migs, down, k + 1, w') == AppliedAll(migs, plan, n, w)
    ensures AppliedAll(migs, plan, n, w).Some?
  {
    UndoOne(migs, plan[n], AppliedAll(migs, plan, n, w).value);
  }

  /** The last `k` of an applied plan, rolled back, leave what the others made. */
  lemma {:induction false} RollbackUndoes<D(!new)>(migs: Registry<D>, plan: seq<int>, down: seq<int>, k: nat,
                                                   w: World<D>, w': World<D>)
    requires Reached(migs, plan, |plan|, w, w') && (forall v :: v in plan ==> Inverts(migs[v]))
    requires k <= |plan| && |plan| <= |down| && forall i :: 0 <= i < |plan| ==> down[i] == plan[|plan| - 1 - i]
    ensures RolledBackAll(migs, down, k, w') == AppliedAll(migs, plan, |plan| - k, w)
    ensures AppliedAll(migs, plan, |plan| - k, w).Some?
  {
    if k > 0 {
      RollbackUndoes(migs, plan, down, k - 1, w, w');
      var n := |plan| - k;
      assert plan[n] in plan && down[k - 1] == plan[n];
      UndoLast(migs, plan, n, w, down, k - 1, w');
    }
  }

  lemma {:induction false} RolledIsGone<D>(migs: Registry<D>, down: seq<int>, n: nat, j: nat, w: World<D>)
    requires j < n <= |down| && RolledBackAll(migs, down, n, w).Some?
    ensures down[j] !in RolledBackAll(migs, down, n, w).value.tracking
  {
    if j < n - 1 {
      RolledIsGone(migs, down, n - 1, j, w);
    }
  }

  /** `UpN(k)` that applied `plan`, then `DownN(k)`, both successful. When the plan lies above every
      applied version and each Down undoes its Up, the database is back exactly when as many
      versions were pending as asked for, or nothing was applied before: otherwise `DownN` goes on
      to older versions. `rows` and `rows'` are the tracking tables before and between. */
  lemma {:induction false} UpThenDownIff<D(!new)>(migs: Registry<D>, plan: seq<int>, k: nat, w: World<D>,
                                           w': World<D>, w'': World<D>,
                               rows: seq<int>, rows': seq<int>)
    requires Reached(migs, plan, |plan|, w, w') && Ascending(plan) && |plan| <= k
    requires forall v :: v in plan ==> Inverts(migs[v])
    requires forall v, i :: v in w.tracking && 0 <= i < |plan| ==> v < plan[i]
    requires IsListing(rows, w.tracking.Keys) && IsListing(rows', w'.tracking.Keys)
    requires RolledTo(migs, Newest(rows', k), |Newest(rows', k)|, w', w'')
    ensures w'' == w <==> |plan| == k || w.tracking == map[]
  {
    AppliedTracks(migs, plan, |plan|, w, w', rows);
    assert plan[..|plan|] == plan;
    ListingIsUnique(rows', rows + plan, w'.tracking.Keys);
    ListingEmpty(rows, w.tracking.Keys);
    assert w.tracking == map[] <==> w.tracking.Keys == {};
    forall i | 0 <= i < |rows| ensures rows[i] in w.tracking {
      assert rows[i] in rows && rows[i] in w.tracking.Keys;
    }
    DownFrom(migs, plan, k, w, w', w'', rows);
  }

  lemma {:induction false} DownFrom<D(!new)>(migs: Registry<D>, plan: seq<int>, k: nat, w: World<D>, w': World<D>,
                                      w'': World<D>,
                          rows: seq<int>)
    requires Reached(migs, plan, |plan|, w, w') && |plan| <= k
    requires forall v :: v in plan ==> Inverts(migs[v])
    requires forall i :: 0 <= i < |rows| ==> rows[i] in w.tracking
    requires RolledTo(migs, Newest(rows + plan, k), |Newest(rows + plan, k)|, w', w'')
    ensures w'' == w <==> |plan| == k || rows == []
  {
    var down := Newest(rows + plan, k);
    RollbackUndoes(migs, plan, down, |plan|, w, w');
    if |down| > |plan| {
      RolledIsGone(migs, down, |down|, |plan|, w');
      assert down[|plan|] == rows[|rows| - 1];
    }
  }
}
