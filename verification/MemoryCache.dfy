/** The in-process cache, against a map whose entries vanish at their deadline. */
module MemoryCache {
  import opened Options
  import opened Decimals

  /** No deadline is no expiry. */
  datatype Item = Item(value: string, expiresAt: Option<int>)

  datatype Error = KeyEmpty | NotFound | NotAnInteger | NotMarshallable

  datatype Answer =
    | Done | Won(won: bool) | Value(value: string) | Counter(n: int)
    | Remaining(ttl: int) | NoExpiry | Failed(error: Error)

  /** A value that cannot be marshalled is `None`. `lag` is the time between the two looks `TTL` takes at
      the clock. */
  datatype Call =
    | Set(key: string, value: Option<string>, exp: int)
    | SetNX(key: string, value: Option<string>, exp: int)
    | Get(key: string)
    | Delete(key: string)
    | Increment(key: string, delta: int)
    | TTL(key: string, lag: nat)
    | DeleteExpired
    | Close

  function Deadline(exp: int, now: int): Option<int> {
    if exp <= 0 then None else Some(now + exp)
  }

  predicate Expired(item: Item, now: int) {
    item.expiresAt.Some? && now >= item.expiresAt.value
  }

  // ---------------------------------------------------------------- the reference

  type Items = map<string, Item>

  /** Entries that have vanished by `now` are gone. */
  function Live(items: Items, now: int): (live: Items) {
    map k | k in items && !Expired(items[k], now) :: items[k]
  }

  /** The map with deadlines; closing it a second time does nothing. */
  datatype Reference = Reference(items: Items, closed: bool)

  /** What a call does to entries that are all live, and what it answers. */
  function Effect(m: Reference, call: Call, now: int): (Reference, Answer) {
    match call
    case Set(key, value, exp) =>
      if key == "" then (m, Failed(KeyEmpty))
      else if value.None? then (m, Failed(NotMarshallable))
      else (m.(items := m.items[key := Item(value.value, Deadline(exp, now))]), Done)
    case SetNX(key, value, exp) =>
      if key == "" then (m, Failed(KeyEmpty))
      else if value.None? then (m, Failed(NotMarshallable))
      else if key in m.items then (m, Won(false))
      else (m.(items := m.items[key := Item(value.value, Deadline(exp, now))]), Won(true))
    case Get(key) =>
      if key == "" then (m, Failed(KeyEmpty))
      else if key in m.items then (m, Value(m.items[key].value))
      else (m, Failed(NotFound))
    case Delete(key) =>
      if key == "" then (m, Failed(KeyEmpty)) else (m.(items := m.items - {key}), Done)
    case Increment(key, delta) =>
      if key == "" then (m, Failed(KeyEmpty))
      else if key !in m.items then
        (m.(items := m.items[key := Item(FormatInt(Wrap(delta)), None)]), Counter(Wrap(delta)))
      else (
        match ParseInt(m.items[key].value)
        case None => (m, Failed(NotAnInteger))
        case Some(current) =>
          var next := Wrap(current + delta);
          (m.(items := m.items[key := m.items[key].(value := FormatInt(next))]), Counter(next)))
    case TTL(key, lag) =>
      if key == "" then (m, Failed(KeyEmpty))
      else if key !in m.items then (m, Failed(NotFound))
      else if m.items[key].expiresAt.None? then (m, NoExpiry)
      else (m, Remaining(m.items[key].expiresAt.value - (now + lag)))
    case DeleteExpired => (m, Done)
    case Close => (Reference(if m.closed then m.items else map[], true), Done)
  }

  /** First the clock, then the call. */
  function RefCall(m: Reference, call: Call, now: int): (Reference, Answer) {
    Effect(m.(items := Live(m.items, now)), call, now)
  }

  /** The clock never goes back. */
  predicate Clocked(now: seq<int>) {
    forall i, j :: 0 <= i < j < |now| ==> now[i] <= now[j]
  }

  /** The reference after the first `n` calls, made at the times `now`. */
  function RefAfter(calls: seq<Call>, now: seq<int>, n: nat): Reference
    requires n <= |calls| == |now|
  {
    if n == 0 then Reference(map[], false) else RefCall(RefAfter(calls, now, n - 1), calls[n - 1], now[n - 1]).0
  }

  function RefAnswer(calls: seq<Call>, now: seq<int>, n: nat): Answer
    requires n < |calls| == |now|
  {
    RefCall(RefAfter(calls, now, n), calls[n], now[n]).1
  }

  lemma {:induction false} LiveStored(items: Items, key: string, item: Item, now: int)
    requires !Expired(item, now)
    ensures Live(items[key := item], now) == Live(items, now)[key := item]
  {
  }

  lemma {:induction false} LiveRemoved(items: Items, key: string, now: int)
    ensures Live(items - {key}, now) == Live(items, now) - {key}
  {
  }

  // ---------------------------------------------------------------- what the calls mean to one another

  // Each call by what later calls answer; `m` is any state of the map, and `later` is not before `now`.

  function GetAt(m: Reference, key: string, now: int): Answer {
    RefCall(m, Get(key), now).1
  }

  function TTLAt(m: Reference, key: string, now: int): Answer {
    RefCall(m, TTL(key, 0), now).1
  }

  /** What a stored value answers until its deadline, and after it. */
  ghost predicate Shown(m: Reference, key: string, value: string, deadline: Option<int>, later: int) {
    && GetAt(m, key, later) == (if deadline.Some? && later >= deadline.value then Failed(NotFound) else Value(value))
    && TTLAt(m, key, later) ==
         if deadline.None? then NoExpiry
         else if later >= deadline.value then Failed(NotFound)
         else Remaining(deadline.value - later)
  }

  /** A value that was set is what `Get` returns until it expires; a time to live that is not positive is none. */
  lemma {:induction false} SetIsShown(m: Reference, key: string, value: string, exp: int, now: int, later: int)
    requires key != "" && now <= later
    ensures RefCall(m, Set(key, Some(value), exp), now).1 == Done
    ensures Shown(RefCall(m, Set(key, Some(value), exp), now).0, key, value,
                  if exp <= 0 then None else Some(now + exp), later)
  {
  }

  /** `SetNX` wins exactly when a `Get` would find nothing, and then stores as `Set` does; if it loses, it changes
      nothing. */
  lemma {:induction false} SetNXIsShown(m: Reference, key: string, value: string, exp: int, now: int, later: int)
    requires key != "" && now <= later
    ensures var (m', won) := RefCall(m, SetNX(key, Some(value), exp), now);
      && won == Won(GetAt(m, key, now) == Failed(NotFound))
      && (won == Won(true) ==> Shown(m', key, value, if exp <= 0 then None else Some(now + exp), later))
      && (won == Won(false) ==> GetAt(m', key, later) == GetAt(m, key, later) &&
                                TTLAt(m', key, later) == TTLAt(m, key, later))
  {
  }

  /** A deleted key, and every key of a cache closed for the first time, is not found. */
  lemma {:induction false} RemovedIsGone(m: Reference, key: string, now: int, later: int)
    requires key != "" && now <= later
    ensures GetAt(RefCall(m, Delete(key), now).0, key, later) == Failed(NotFound)
    ensures !m.closed ==> GetAt(RefCall(m, Close, now).0, key, later) == Failed(NotFound)
  {
  }

  /** An increment adds to what `Get` finds, wraps around at 64 bits, answers with what `Get` then returns, and leaves
      the time to live alone. */
  lemma {:induction false} IncrementAdds(m: Reference, key: string, delta: int, text: string, now: int, later: int)
    requires key != "" && now <= later && GetAt(m, key, now) == Value(text) && ParseInt(text).Some?
    ensures var (m', answer) := RefCall(m, Increment(key, delta), now);
      var sum := Wrap(ParseInt(text).value + delta);
      && answer == Counter(sum) && TTLAt(m', key, later) == TTLAt(m, key, later)
      && (TTLAt(m, key, later) != Failed(NotFound) ==> GetAt(m', key, later) == Value(FormatInt(sum)))
  {
    var live := m.(items := Live(m.items, now));
    assert key in live.items && live.items[key].value == text;
    IncrementStores(live, Increment(key, delta), now, live.items[key]);
  }

  /** Where `Get` finds nothing it starts from zero, without a time to live. */
  lemma {:induction false} IncrementStarts(m: Reference, key: string, delta: int, now: int, later: int)
    requires key != "" && now <= later && GetAt(m, key, now) == Failed(NotFound)
    ensures var (m', answer) := RefCall(m, Increment(key, delta), now);
      answer == Counter(Wrap(delta)) && Shown(m', key, FormatInt(Wrap(delta)), None, later)
  {
  }

  /** Anything but an integer is refused and left as it is. */
  lemma {:induction false} IncrementRefuses(m: Reference, key: string, delta: int, text: string, now: int, later: int)
    requires key != "" && now <= later && GetAt(m, key, now) == Value(text) && ParseInt(text).None?
    ensures var (m', answer) := RefCall(m, Increment(key, delta), now);
      answer == Failed(NotAnInteger) && GetAt(m', key, later) == GetAt(m, key, later)
  {
  }

  /** A call leaves the entries of all other keys alone, unless it closes the cache. */
  lemma {:induction false} OthersUntouched(m: Reference, call: Call, key: string, now: int, later: int)
    requires now <= later && !call.Close?
    requires !call.DeleteExpired? ==> call.key != key
    ensures GetAt(RefCall(m, call, now).0, key, later) == GetAt(m, key, later)
    ensures TTLAt(RefCall(m, call, now).0, key, later) == TTLAt(m, key, later)
  {
  }

  /** The empty key, and a value that cannot be marshalled, are refused and change nothing that can be seen. */
  lemma {:induction false} RefusedCalls(m: Reference, key: string, value: Option<string>, exp: int, delta: int,
                                        lag: nat, now: int)
    ensures RefCall(m, Set("", value, exp), now).1 == RefCall(m, SetNX("", value, exp), now).1 == Failed(KeyEmpty)
    ensures RefCall(m, Get(""), now).1 == RefCall(m, Delete(""), now).1 == Failed(KeyEmpty)
    ensures RefCall(m, Increment("", delta), now).1 == RefCall(m, TTL("", lag), now).1 == Failed(KeyEmpty)
    ensures key != "" ==> RefCall(m, Set(key, None, exp), now).1 == Failed(NotMarshallable)
    ensures key != "" ==> RefCall(m, SetNX(key, None, exp), now).1 == Failed(NotMarshallable)
    ensures RefCall(m, Set(key, None, exp), now).0 == RefCall(m, Get(key), now).0
    ensures RefCall(m, SetNX(key, None, exp), now).0 == RefCall(m, Get(key), now).0
  {
  }

  // ---------------------------------------------------------------- calls at two instants

  /** `Get` and `TTL` read the map under one lock and look at the clock after it. */
  function Held(items: Items, key: string): Option<Item> {
    if key in items then Some(items[key]) else None
  }

  /** The answer for an entry read before, when the clock says `checked`: of `Get`, or of a `TTL` that takes
      its second look `lag` later. */
  function Finished(item: Option<Item>, lag: Option<nat>, checked: int): Answer {
    if item.None? || Expired(item.value, checked) then Failed(NotFound)
    else if lag.None? then Value(item.value.value)
    else if item.value.expiresAt.None? then NoExpiry
    else Remaining(item.value.expiresAt.value - (checked + lag.value))
  }

  /** A call made at one instant, either half of a `Get` or `TTL` of goroutine `t`, or the re-check that
      a `Get` which found its entry expired makes after that. */
  datatype Event =
    | Made(call: Call) | Reads(t: nat, key: string) | Checks(t: nat, lag: Option<nat>) | Evicts(key: string)

  /** What a goroutine holds between its two halves. */
  datatype Pending = Pending(key: string, item: Option<Item>)

  datatype World = World(m: Reference, open: map<nat, Pending>)

  /** What an event does to the map with deadlines; a check without a read does nothing. */
  function RefEvent(w: World, event: Event, now: int): (World, Answer) {
    var live := w.m.(items := Live(w.m.items, now));
    match event
    case Made(call) => (w.(m := Effect(live, call, now).0), Effect(live, call, now).1)
    case Reads(t, key) =>
      if key == "" then (w.(m := live), Failed(KeyEmpty))
      else (World(live, w.open[t := Pending(key, Held(live.items, key))]), Done)
    case Checks(t, lag) =>
      if t !in w.open then (w.(m := live), Done)
      else (World(live, w.open - {t}), Finished(w.open[t].item, lag, now))
    case Evicts(key) => (w.(m := live), Done)
  }

  function WorldAfter(events: seq<Event>, now: seq<int>, n: nat): World
    requires n <= |events| == |now|
  {
    if n == 0 then World(Reference(map[], false), map[])
    else RefEvent(WorldAfter(events, now, n - 1), events[n - 1], now[n - 1]).0
  }

  function EventAnswer(events: seq<Event>, now: seq<int>, n: nat): Answer
    requires n < |events| == |now|
  {
    RefEvent(WorldAfter(events, now, n), events[n], now[n]).1
  }

  /** To the map the halves are what a sweep is: nothing but the clock. */
  function CallOf(event: Event): Call {
    if event.Made? then event.call else DeleteExpired
  }

  function CallsOf(events: seq<Event>): (calls: seq<Call>)
    ensures |calls| == |events|
  {
    seq(|events|, i requires 0 <= i < |events| => CallOf(events[i]))
  }

  /** So a run of events is a run of calls, and each call answers as in it. */
  lemma {:induction false} EventsAreCalls(events: seq<Event>, now: seq<int>, n: nat)
    requires n <= |events| == |now|
    ensures WorldAfter(events, now, n).m == RefAfter(CallsOf(events), now, n)
    ensures n < |events| && events[n].Made? ==> EventAnswer(events, now, n) == RefAnswer(CallsOf(events), now, n)
  {
    if n > 0 {
      EventsAreCalls(events, now, n - 1);
    }
  }

  // ---------------------------------------------------------------- the provider

  /** An increment of what is there, or of zero. */
  lemma {:induction false} IncrementEffect(items: Items, closed: bool, key: string, delta: int, now: int, current: int,
                                           expiresAt: Option<int>)
    requires key != ""
    requires if key in items && !Expired(items[key], now) then
               ParseInt(items[key].value) == Some(current) && expiresAt == items[key].expiresAt
             else current == 0 && expiresAt == None
    ensures var live, next := Live(items, now), Wrap(current + delta);
      Effect(Reference(live, closed), Increment(key, delta), now) ==
      (Reference(live[key := Item(FormatInt(next), expiresAt)], closed), Counter(next))
  {
    assert key in Live(items, now) <==> key in items && !Expired(items[key], now);
  }

  class MemoryProvider {
    var items: Items
    var closed: bool

    /** What can be observed of it at `now`. */
    function View(now: int): Reference
      reads this
    {
      Reference(Live(items, now), closed)
    }

    constructor ()
      ensures items == map[] && !closed
    {
      items, closed := map[], false;
    }

    method DoSet(key: string, value: Option<string>, exp: int, now: int) returns (r: Answer)
      modifies this
      ensures (View(now), r) == Effect(old(View(now)), Set(key, value, exp), now)
    {
      if key == "" {
        return Failed(KeyEmpty);
      }
      if value.None? {
        return Failed(NotMarshallable);
      }
      LiveStored(items, key, Item(value.value, Deadline(exp, now)), now);
      items := items[key := Item(value.value, Deadline(exp, now))];
      r := Done;
    }

    method DoSetNX(key: string, value: Option<string>, exp: int, now: int) returns (r: Answer)
      modifies this
      ensures (View(now), r) == Effect(old(View(now)), SetNX(key, value, exp), now)
    {
      if key == "" {
        return Failed(KeyEmpty);
      }
      if value.None? {
        return Failed(NotMarshallable);
      }
      if key in items && !Expired(items[key], now) {
        return Won(false);
      }
      LiveStored(items, key, Item(value.value, Deadline(exp, now)), now);
      items := items[key := Item(value.value, Deadline(exp, now))];
      r := Won(true);
    }

    /** The first half of `Get` and of `TTL`: the map is read under the read lock. */
    method ReadItem(key: string) returns (item: Option<Item>)
      ensures item == Held(items, key)
    {
      item := if key in items then Some(items[key]) else None;
    }

    /** The second half of `Get`: the clock is looked at. */
    method FinishGet(item: Option<Item>, now: int) returns (r: Answer)
      ensures r == Finished(item, None, now)
    {
      if item.None? {
        return Failed(NotFound);
      }
      if Expired(item.value, now) {
        return Failed(NotFound);
      }
      r := Value(item.value.value);
    }

    /** Evicts what it finds expired; that is never visible. */
    method DoGet(key: string, now: int) returns (r: Answer)
      modifies this
      ensures (View(now), r) == Effect(old(View(now)), Get(key), now)
    {
      if key == "" {
        return Failed(KeyEmpty);
      }
      var item := ReadItem(key);
      r := FinishGet(item, now);
      if item.Some? && Expired(item.value, now) {
        Evict(key, now);
      }
    }

    /** The re-check under the write lock: whatever is there now goes only if it has expired. */
    method Evict(key: string, now: int)
      modifies this
      ensures closed == old(closed) && View(now) == old(View(now))
      ensures items == if key in old(items) && Expired(old(items)[key], now) then old(items) - {key} else old(items)
    {
      if key in items && Expired(items[key], now) {
        items := items - {key};
      }
    }

    method DoDelete(key: string, now: int) returns (r: Answer)
      modifies this
      ensures (View(now), r) == Effect(old(View(now)), Delete(key), now)
    {
      if key == "" {
        return Failed(KeyEmpty);
      }
      LiveRemoved(items, key, now);
      items := items - {key};
      r := Done;
    }

    method DoIncrement(key: string, delta: int, now: int) returns (r: Answer)
      modifies this
      ensures (View(now), r) == Effect(old(View(now)), Increment(key, delta), now)
    {
      if key == "" {
        return Failed(KeyEmpty);
      }
      var current, expiresAt := 0, None;
      if key in items && !Expired(items[key], now) {
        var parsed := ParseInt(items[key].value);
        if parsed.None? {
          return Failed(NotAnInteger);
        }
        current, expiresAt := parsed.value, items[key].expiresAt;
      }
      var next := Wrap(current + delta);
      IncrementEffect(items, closed, key, delta, now, current, expiresAt);
      LiveStored(items, key, Item(FormatInt(next), expiresAt), now);
      items := items[key := Item(FormatInt(next), expiresAt)];
      r := Counter(next);
    }

    /** The second half of `TTL`: the entry is checked at `now`; the clock is looked at again, `lag` later, for
        what remains. */
    method FinishTTL(item: Option<Item>, lag: nat, now: int) returns (r: Answer)
      ensures r == Finished(item, Some(lag), now)
    {
      if item.None? || Expired(item.value, now) {
        return Failed(NotFound);
      }
      if item.value.expiresAt.None? {
        return NoExpiry;
      }
      r := Remaining(item.value.expiresAt.value - (now + lag));
    }

    method DoTTL(key: string, lag: nat, now: int) returns (r: Answer)
      modifies this
      ensures (View(now), r) == Effect(old(View(now)), TTL(key, lag), now)
    {
      if key == "" {
        return Failed(KeyEmpty);
      }
      var item := ReadItem(key);
      r := FinishTTL(item, lag, now);
    }

    /** The janitor's sweep: exactly the expired entries go. */
    method DoDeleteExpired(now: int) returns (removed: nat)
      modifies this
      ensures closed == old(closed) && items == Live(old(items), now)
      ensures View(now) == old(View(now))
      ensures removed == |old(items)| - |items|
    {
      removed := 0;
      var todo := items;
      while todo != map[]
        invariant closed == old(closed)
        invariant forall k :: k in items ==> k in old(items) && items[k] == old(items)[k]
        invariant forall k :: k in todo ==> k in items
        invariant forall k :: k in old(items) && k !in todo ==> (k in items <==> !Expired(old(items)[k], now))
        invariant removed == |old(items)| - |items|
        decreases |todo|
      {
        var key := PickKey(todo);
        todo := todo - {key};
        if Expired(items[key], now) {
          items := items - {key};
          removed := removed + 1;
        }
      }
      assert items == Live(old(items), now);
    }

    method DoClose(now: int) returns (r: Answer)
      modifies this
      ensures (View(now), r) == Effect(old(View(now)), Close, now)
    {
      if !closed {
        items, closed := map[], true;
      }
      r := Done;
    }

    method Do(call: Call, now: int) returns (r: Answer)
      modifies this
      ensures (View(now), r) == Effect(old(View(now)), call, now)
    {
      match call {
        case Set(key, value, exp) => r := DoSet(key, value, exp, now);
        case SetNX(key, value, exp) => r := DoSetNX(key, value, exp, now);
        case Get(key) => r := DoGet(key, now);
        case Delete(key) => r := DoDelete(key, now);
        case Increment(key, delta) => r := DoIncrement(key, delta, now);
        case TTL(key, lag) => r := DoTTL(key, lag, now);
        case DeleteExpired =>
          var removed := DoDeleteExpired(now);
          r := Done;
        case Close => r := DoClose(now);
      }
    }
  }

  method PickKey(m: Items) returns (k: string)
    requires m != map[]
    ensures k in m
  {
    assert m.Keys != {};
    k :| k in m;
  }

  // ---------------------------------------------------------------- whole runs

  /** What has vanished stays vanished. */
  lemma {:induction false} LiveLater(items: Items, now: int, later: int)
    requires now <= later
    ensures Live(Live(items, now), later) == Live(items, later)
  {
  }

  /** The reference and the provider show the same entries at `at`. */
  ghost predicate Seen(items: Items, closed: bool, at: int, m: Reference) {
    Live(m.items, at) == Live(items, at) && m.closed == closed
  }

  lemma {:induction false} SeenLater(items: Items, closed: bool, at: int, later: int, m: Reference)
    requires at <= later && Seen(items, closed, at, m)
    ensures Seen(items, closed, later, m)
  {
    LiveLater(items, at, later);
    LiveLater(m.items, at, later);
  }

  /** A goroutine holds the same entry, or one that had expired by `at`. */
  ghost predicate Alike(p: Pending, q: Pending, at: int) {
    && p.key == q.key
    && (p.item == q.item || (q.item.None? && p.item.Some? && Expired(p.item.value, at)))
  }

  ghost predicate AllAlike(open: map<nat, Pending>, refOpen: map<nat, Pending>, at: int) {
    open.Keys == refOpen.Keys && forall t :: t in open ==> Alike(open[t], refOpen[t], at)
  }

  /** Whatever expired entries the provider still keeps, what is read of it and checked later answers as
      the reference does. */
  lemma {:induction false} SplitIgnoresEvictions(items: Items, key: string, at: int)
    ensures Alike(Pending(key, Held(items, key)), Pending(key, Held(Live(items, at), key)), at)
  {
  }

  lemma {:induction false} AlikeAnswers(p: Pending, q: Pending, at: int, lag: Option<nat>, checked: int)
    requires at <= checked && Alike(p, q, at)
    ensures Finished(p.item, lag, checked) == Finished(q.item, lag, checked)
  {
  }

  /** One event on a provider, with what the goroutines hold. */
  method Perform(cache: MemoryProvider, open: map<nat, Pending>, event: Event, now: int, ghost w: World)
    returns (open': map<nat, Pending>, r: Answer)
    requires Seen(cache.items, cache.closed, now, w.m) && AllAlike(open, w.open, now)
    modifies cache
    ensures var (w', answer) := RefEvent(w, event, now);
      r == answer && Seen(cache.items, cache.closed, now, w'.m) && AllAlike(open', w'.open, now)
  {
    open', r := open, Done;
    LiveLater(w.m.items, now, now);
    match event {
      case Made(call) =>
        r := cache.Do(call, now);
        LiveLater(cache.items, now, now);
      case Reads(t, key) =>
        if key == "" {
          return open, Failed(KeyEmpty);
        }
        var item := cache.ReadItem(key);
        SplitIgnoresEvictions(cache.items, key, now);
        open' := open[t := Pending(key, item)];
      case Checks(t, lag) =>
        if t in open {
          AlikeAnswers(open[t], w.open[t], now, lag, now);
          if lag.None? {
            r := cache.FinishGet(open[t].item, now);
          } else {
            r := cache.FinishTTL(open[t].item, lag.value, now);
          }
          open' := open - {t};
        }
      case Evicts(key) =>
        cache.Evict(key, now);
    }
  }

  /** Any run on a new provider, with any number of `Get` and `TTL` calls under way in parts, answers as
      the map with deadlines does: no lazy eviction and no sweep is ever seen, whenever it comes. */
  method Replay(events: seq<Event>, now: seq<int>) returns (answers: seq<Answer>)
    requires |events| == |now| && Clocked(now)
    ensures |answers| == |events|
    ensures forall i :: 0 <= i < |events| ==> answers[i] == EventAnswer(events, now, i)
  {
    var cache := new MemoryProvider();
    var open: map<nat, Pending> := map[];
    answers := [];
    for i := 0 to |events|
      invariant |answers| == i
      invariant forall k :: 0 <= k < i ==> answers[k] == EventAnswer(events, now, k)
      invariant i < |events| ==> Seen(cache.items, cache.closed, now[i], WorldAfter(events, now, i).m)
      invariant i < |events| ==> AllAlike(open, WorldAfter(events, now, i).open, now[i])
    {
      ghost var w := WorldAfter(events, now, i);
      var r;
      open, r := Perform(cache, open, events[i], now[i], w);
      answers := answers + [r];
      if i + 1 < |events| {
        SeenLater(cache.items, cache.closed, now[i], now[i + 1], RefEvent(w, events[i], now[i]).0.m);
      }
    }
  }

  // ---------------------------------------------------------------- the lifetime of an entry

  /** The calls that may end or replace the entry of `key` while it is live. */
  predicate Replaces(call: Call, key: string) {
    ((call.Set? || call.Delete?) && call.key == key) || call.Close?
  }

  function Delta(call: Call, key: string): int {
    if call.Increment? && call.key == key then call.delta else 0
  }

  /** What the calls from `a` to `n` add to the counter at `key`. */
  function Sum(calls: seq<Call>, key: string, a: nat, n: nat): int
    requires a <= n <= |calls|
  {
    if n == a then 0 else Sum(calls, key, a, n - 1) + Delta(calls[n - 1], key)
  }

  /** The same deadline, and a counter (modulo 2^64) greater by `sum`. */
  ghost predicate Adds(was: Item, after: Item, sum: int) {
    && after.expiresAt == was.expiresAt
    && (ParseInt(was.value).Some? ==> ParseInt(after.value) == Some(Wrap(ParseInt(was.value).value + sum)))
  }

  lemma {:induction false} AddsNothing(item: Item)
    ensures Adds(item, item, 0)
  {
    if ParseInt(item.value).Some? {
      WrapIsUnique(ParseInt(item.value).value, ParseInt(item.value).value);
    }
  }

  lemma {:induction false} AddsMore(a: Item, b: Item, c: Item, x: int, y: int)
    requires Adds(a, b, x) && Adds(b, c, y)
    ensures Adds(a, c, x + y)
  {
    if ParseInt(a.value).Some? {
      WrapAbsorbs(ParseInt(a.value).value + x, y);
    }
  }

  lemma {:induction false} AddsDelta(item: Item, n: int, delta: int)
    requires ParseInt(item.value) == Some(n)
    ensures Adds(item, item.(value := FormatInt(Wrap(n + delta))), delta)
  {
    ParseUndoesFormat(Wrap(n + delta));
  }

  lemma {:induction false} EntryKept(m: Reference, call: Call, now: int, key: string)
    requires key != "" && key in m.items && !Expired(m.items[key], now) && !Replaces(call, key)
    ensures var m' := RefCall(m, call, now).0; key in m'.items && Adds(m.items[key], m'.items[key], Delta(call, key))
  {
    var item := m.items[key];
    var live := m.(items := Live(m.items, now));
    assert key in live.items && live.items[key] == item;
    AddsNothing(item);
    if call.Increment? && call.key == key {
      IncrementKept(m, call, now, item);
    } else {
      OthersKept(live, call, now, key);
    }
  }

  lemma {:induction false} OthersKept(m: Reference, call: Call, now: int, key: string)
    requires key in m.items && !Replaces(call, key) && !(call.Increment? && call.key == key)
    ensures var m' := Effect(m, call, now).0; key in m'.items && m'.items[key] == m.items[key]
  {
  }

  /** What an increment leaves of a live entry. */
  lemma {:induction false} IncrementStores(live: Reference, call: Call, now: int, item: Item)
    requires call.Increment? && call.key != "" && call.key in live.items && live.items[call.key] == item
    ensures var m' := Effect(live, call, now).0;
      && call.key in m'.items
      && m'.items[call.key] == match ParseInt(item.value)
         case None => item
         case Some(n) => item.(value := FormatInt(Wrap(n + call.delta)))
  {
  }

  lemma {:induction false} IncrementKept(m: Reference, call: Call, now: int, item: Item)
    requires call.Increment? && call.key != "" && call.key in m.items && !Expired(item, now)
    requires item == m.items[call.key]
    ensures var m' := RefCall(m, call, now).0;
      call.key in m'.items && Adds(item, m'.items[call.key], call.delta)
  {
    IncrementStores(m.(items := Live(m.items, now)), call, now, item);
    if ParseInt(item.value).Some? {
      AddsDelta(item, ParseInt(item.value).value, call.delta);
    }
  }

  lemma {:induction false} AddsByCall(was: Item, m: Reference, call: Call, now: int, key: string, sum: int)
    requires key != "" && key in m.items && Adds(was, m.items[key], sum) && !Expired(was, now) && !Replaces(call, key)
    ensures var m' := RefCall(m, call, now).0; key in m'.items && Adds(was, m'.items[key], sum + Delta(call, key))
  {
    EntryKept(m, call, now, key);
    AddsMore(was, m.items[key], RefCall(m, call, now).0.items[key], sum, Delta(call, key));
  }

  /** From call `a` to call `n` nothing replaces `key`, whose deadline `d` lies ahead throughout. */
  ghost predicate Undisturbed(calls: seq<Call>, now: seq<int>, a: nat, n: nat, key: string, d: Option<int>)
    requires a <= n <= |calls| == |now|
  {
    forall i :: a <= i < n ==> !Replaces(calls[i], key) && (d.Some? ==> now[i] < d.value)
  }

  /** A live entry keeps its deadline whatever else is called, and a counter adds up what was
      added to it, modulo 2^64. */
  lemma {:induction false} IncrementsSum(calls: seq<Call>, now: seq<int>, a: nat, n: nat, key: string)
    requires a <= n <= |calls| == |now| && key != "" && key in RefAfter(calls, now, a).items
    requires Undisturbed(calls, now, a, n, key, RefAfter(calls, now, a).items[key].expiresAt)
    ensures key in RefAfter(calls, now, n).items
    ensures Adds(RefAfter(calls, now, a).items[key], RefAfter(calls, now, n).items[key], Sum(calls, key, a, n))
  {
    var ms := seq(n + 1, i requires 0 <= i <= n => RefAfter(calls, now, i));
    forall i | 0 <= i < n ensures Follows(ms, calls, now, i) {
      AfterNext(calls, now, i);
    }
    SumOverRun(ms, calls, now, a, n, key);
  }

  lemma {:induction false} AfterNext(calls: seq<Call>, now: seq<int>, n: nat)
    requires n < |calls| == |now|
    ensures RefAfter(calls, now, n + 1) == RefCall(RefAfter(calls, now, n), calls[n], now[n]).0
  {
  }

  ghost predicate Follows(ms: seq<Reference>, calls: seq<Call>, now: seq<int>, i: nat)
    requires i < |calls| == |now| && i + 1 < |ms|
  {
    ms[i + 1] == RefCall(ms[i], calls[i], now[i]).0
  }

  lemma {:induction false} SumOverRun(ms: seq<Reference>, calls: seq<Call>, now: seq<int>, a: nat, n: nat, key: string)
    requires a <= n <= |calls| == |now| && n < |ms| && key != "" && key in ms[a].items
    requires forall i :: a <= i < n ==> Follows(ms, calls, now, i)
    requires Undisturbed(calls, now, a, n, key, ms[a].items[key].expiresAt)
    ensures key in ms[n].items && Adds(ms[a].items[key], ms[n].items[key], Sum(calls, key, a, n))
  {
    if n == a {
      AddsNothing(ms[a].items[key]);
    } else {
      SumOverRun(ms, calls, now, a, n - 1, key);
      assert Follows(ms, calls, now, n - 1);
      AddsByCall(ms[a].items[key], ms[n - 1], calls[n - 1], now[n - 1], key, Sum(calls, key, a, n - 1));
    }
  }

  lemma {:induction false} WinnerStores(m: Reference, call: Call, now: int)
    requires call.SetNX? && RefCall(m, call, now).1 == Won(true)
    ensures var m' := RefCall(m, call, now).0;
      call.key in m'.items && m'.items[call.key].expiresAt == Deadline(call.exp, now)
  {
  }

  lemma {:induction false} LoserFoundIt(m: Reference, call: Call, now: int)
    requires call.SetNX? && call.key in m.items && RefCall(m, call, now).1 == Won(true)
    ensures Expired(m.items[call.key], now)
  {
  }

  /** Two winners of the same key, with nothing in between that replaces it: the first one's
      entry had a deadline, and it had passed. */
  lemma {:induction false} OneWinnerPerLifetime(calls: seq<Call>, now: seq<int>, i: nat, j: nat)
    requires i < j < |calls| == |now| && Clocked(now)
    requires calls[i].SetNX? && calls[j].SetNX? && calls[i].key == calls[j].key
    requires RefAnswer(calls, now, i) == Won(true) && RefAnswer(calls, now, j) == Won(true)
    requires forall k :: i < k < j ==> !Replaces(calls[k], calls[i].key)
    ensures calls[i].exp > 0 && now[j] >= now[i] + calls[i].exp
  {
    var key, d := calls[i].key, Deadline(calls[i].exp, now[i]);
    WinnerStores(RefAfter(calls, now, i), calls[i], now[i]);
    assert RefAfter(calls, now, i + 1).items[key].expiresAt == d;
    if d.None? || now[j] < d.value {
      IncrementsSum(calls, now, i + 1, j, key);
      LoserFoundIt(RefAfter(calls, now, j), calls[j], now[j]);
    }
  }

  // ---------------------------------------------------------------- Get and TTL as atomic calls

  /** The call puts a new entry under `key`: an increment does so only where there is none. */
  predicate Fresh(m: Reference, call: Call, now: int, key: string) {
    match call
    case Set(k, value, _) => k == key && value.Some?
    case SetNX(k, value, _) => k == key && value.Some? && key !in Live(m.items, now)
    case Increment(k, _) => k == key && key !in Live(m.items, now)
    case _ => false
  }

  function FreshDeadline(call: Call, now: int): Option<int> {
    if call.Set? || call.SetNX? then Deadline(call.exp, now) else None
  }

  /** The call replaces or removes what is under `key`. */
  predicate Unsettles(m: Reference, call: Call, now: int, key: string) {
    Fresh(m, call, now, key) || (call.Delete? && call.key == key) || (call.Close? && !m.closed)
  }

  lemma {:induction false} FreshStores(m: Reference, call: Call, now: int, key: string)
    requires key != "" && Fresh(m, call, now, key)
    ensures var m' := RefCall(m, call, now).0; key in m'.items && m'.items[key].expiresAt == FreshDeadline(call, now)
  {
  }

  /** An entry that is there after a call that did not put it there was there before, and was left alone. */
  lemma {:induction false} NotFreshIsOld(m: Reference, call: Call, now: int, key: string)
    requires key != "" && key in RefCall(m, call, now).0.items && !Fresh(m, call, now, key)
    ensures key in m.items && RefCall(m, call, now).0.items[key].expiresAt == m.items[key].expiresAt
    ensures !Unsettles(m, call, now, key)
  {
    var live := m.(items := Live(m.items, now));
    assert key in live.items ==> live.items[key] == m.items[key];
  }

  predicate Outlives(deadline: Option<int>, at: int) {
    deadline.Some? ==> at < deadline.value
  }

  /** Call `k` puts an entry under `key` that outlives `at`, and the calls up to `j` leave it alone. */
  ghost predicate StoredToStay(ms: seq<Reference>, calls: seq<Call>, now: seq<int>, k: nat, j: nat,
                               key: string, at: int)
    requires k < j <= |calls| == |now| && j < |ms|
  {
    && Fresh(ms[k], calls[k], now[k], key) && Outlives(FreshDeadline(calls[k], now[k]), at)
    && forall l :: k < l < j ==> !Unsettles(ms[l], calls[l], now[l], key)
  }

  /** A run of the reference. */
  ghost predicate IsRefRun(ms: seq<Reference>, calls: seq<Call>, now: seq<int>) {
    && |calls| == |now| && |ms| == |calls| + 1 && Clocked(now) && ms[0] == Reference(map[], false)
    && forall k :: 0 <= k < |calls| ==> Follows(ms, calls, now, k)
  }

  /** A live entry that is not the one of call `i` was put there in between. */
  lemma {:induction false} LiveWasStored(ms: seq<Reference>, calls: seq<Call>, now: seq<int>, i: nat, j: nat,
                                         key: string, at: int)
    returns (k: nat)
    requires IsRefRun(ms, calls, now) && i <= j <= |calls| && key != "" && (j > i ==> now[j - 1] <= at)
    requires key in ms[j].items && !Expired(ms[j].items[key], at)
    requires key in ms[i].items ==> Expired(ms[i].items[key], at)
    ensures i <= k < j && StoredToStay(ms, calls, now, k, j, key, at)
  {
    if Fresh(ms[j - 1], calls[j - 1], now[j - 1], key) {
      FreshStays(ms, calls, now, j - 1, key, at);
      k := j - 1;
    } else {
      assert Follows(ms, calls, now, j - 1);
      NotFreshIsOld(ms[j - 1], calls[j - 1], now[j - 1], key);
      k := LiveWasStored(ms, calls, now, i, j - 1, key, at);
      StaysLonger(ms, calls, now, k, j - 1, key, at);
    }
  }

  lemma {:induction false} FreshStays(ms: seq<Reference>, calls: seq<Call>, now: seq<int>, k: nat, key: string, at: int)
    requires IsRefRun(ms, calls, now) && k < |calls| && key != "" && Fresh(ms[k], calls[k], now[k], key)
    requires key in ms[k + 1].items && !Expired(ms[k + 1].items[key], at)
    ensures StoredToStay(ms, calls, now, k, k + 1, key, at)
  {
    assert Follows(ms, calls, now, k);
    FreshStores(ms[k], calls[k], now[k], key);
  }

  lemma {:induction false} StaysLonger(ms: seq<Reference>, calls: seq<Call>, now: seq<int>, k: nat, j: nat,
                                       key: string, at: int)
    requires k < j < |calls| == |now| && j + 1 < |ms|
    requires StoredToStay(ms, calls, now, k, j, key, at) && !Unsettles(ms[j], calls[j], now[j], key)
    ensures StoredToStay(ms, calls, now, k, j + 1, key, at)
  {
  }

  /** Its states are those of `RefAfter`. */
  lemma {:induction false} RefRunIs(ms: seq<Reference>, calls: seq<Call>, now: seq<int>, k: nat)
    requires IsRefRun(ms, calls, now) && k <= |calls|
    ensures ms[k] == RefAfter(calls, now, k)
  {
    if k > 0 {
      RefRunIs(ms, calls, now, k - 1);
      assert Follows(ms, calls, now, k - 1);
      AfterNext(calls, now, k - 1);
    }
  }

  // Goroutine `t` reads in event `i` and checks in event `n`.

  /** After the first `k` events, at time `at`: an instant between event `i` and event `n`. */
  ghost predicate Instant(now: seq<int>, i: nat, n: nat, k: nat, at: int)
    requires i <= n < |now|
  {
    i <= k <= n && now[i] <= at <= now[n] && (k > i ==> now[k - 1] <= at) && at <= now[k]
  }

  predicate Shows(m: Reference, key: string, at: int) {
    key in m.items && !Expired(m.items[key], at)
  }

  ghost predicate ShowsThroughout(calls: seq<Call>, now: seq<int>, i: nat, n: nat, key: string)
    requires i <= n < |now| == |calls|
  {
    forall k: nat, at :: Instant(now, i, n, k, at) ==> Shows(RefAfter(calls, now, k), key, at)
  }

  /** The answer of an atomic `Get`, or of an atomic `TTL` that takes its second look at the same time. */
  function AtomicAnswer(m: Reference, key: string, lag: Option<nat>, at: int, checked: int): Answer
    requires at <= checked
  {
    if lag.None? then RefCall(m, Get(key), at).1 else RefCall(m, TTL(key, checked + lag.value - at), at).1
  }

  lemma {:induction false} AtomicIsFinished(m: Reference, key: string, lag: Option<nat>, at: int, checked: int)
    requires key != "" && at <= checked
    ensures !Shows(m, key, at) ==> AtomicAnswer(m, key, lag, at, checked) == Failed(NotFound)
    ensures Shows(m, key, at) ==> AtomicAnswer(m, key, lag, at, checked) != Failed(NotFound)
    ensures Shows(m, key, checked) ==>
      AtomicAnswer(m, key, lag, at, checked) == Finished(Some(m.items[key]), lag, checked)
  {
  }

  ghost predicate AtomicSomewhere(calls: seq<Call>, now: seq<int>, i: nat, n: nat, key: string, lag: Option<nat>,
                                  answer: Answer)
    requires i <= n < |now| == |calls|
  {
    exists k: nat, at :: Instant(now, i, n, k, at) &&
      AtomicAnswer(RefAfter(calls, now, k), key, lag, at, now[n]) == answer
  }

  predicate Touches(event: Event, t: nat) {
    (event.Reads? || event.Checks?) && event.t == t
  }

  /** Goroutine `t` calls `Get` or `TTL`: it reads in event `i` and checks in event `n`. */
  ghost predicate Straddles(events: seq<Event>, i: nat, n: nat, t: nat, key: string, lag: Option<nat>) {
    && i < n < |events| && key != "" && events[i] == Reads(t, key) && events[n] == Checks(t, lag)
    && forall l :: i < l < n ==> !Touches(events[l], t)
  }

  /** What it holds is what it read. */
  lemma {:induction false} StillHeld(events: seq<Event>, now: seq<int>, i: nat, n: nat, t: nat, key: string)
    requires i < n <= |events| == |now| && key != "" && events[i] == Reads(t, key)
    requires forall l :: i < l < n ==> !Touches(events[l], t)
    ensures var open := WorldAfter(events, now, n).open;
      t in open && open[t].item == Held(Live(WorldAfter(events, now, i).m.items, now[i]), key)
  {
    if n > i + 1 {
      StillHeld(events, now, i, n - 1, t, key);
      assert !Touches(events[n - 1], t);
    }
  }

  /** The entry read shows at the read and has expired by the check. */
  predicate Lapses(m: Reference, key: string, read: int, checked: int) {
    Shows(m, key, read) && Expired(m.items[key], checked)
  }

  /** Over every run: the answer of a `Get` or `TTL` in two halves is that of an atomic one at some instant in
      between, exactly unless the entry it read has expired by the check and yet the key shows all along. */
  lemma {:induction false} LinearizableIff(events: seq<Event>, now: seq<int>, i: nat, n: nat, t: nat, key: string,
                                           lag: Option<nat>)
    requires |events| == |now| && Clocked(now) && Straddles(events, i, n, t, key, lag)
    ensures var calls := CallsOf(events);
      AtomicSomewhere(calls, now, i, n, key, lag, EventAnswer(events, now, n)) <==>
      !(Lapses(RefAfter(calls, now, i), key, now[i], now[n]) && ShowsThroughout(calls, now, i, n, key))
  {
    var calls := CallsOf(events);
    var m, answer := RefAfter(calls, now, i), EventAnswer(events, now, n);
    EventsAreCalls(events, now, i);
    StillHeld(events, now, i, n, t, key);
    assert answer == Finished(Held(Live(m.items, now[i]), key), lag, now[n]);
    assert Instant(now, i, n, i, now[i]);
    AtomicIsFinished(m, key, lag, now[i], now[n]);
    if Lapses(m, key, now[i], now[n]) {
      LapsedIff(calls, now, i, n, key, lag);
    }
  }

  /** "Not found" is an atomic answer exactly where the key does not show. */
  lemma {:induction false} LapsedIff(calls: seq<Call>, now: seq<int>, i: nat, n: nat, key: string, lag: Option<nat>)
    requires i <= n < |now| == |calls| && key != ""
    ensures AtomicSomewhere(calls, now, i, n, key, lag, Failed(NotFound)) <==> !ShowsThroughout(calls, now, i, n, key)
  {
    forall k: nat, at | Instant(now, i, n, k, at)
      ensures AtomicAnswer(RefAfter(calls, now, k), key, lag, at, now[n]) == Failed(NotFound) <==>
              !Shows(RefAfter(calls, now, k), key, at)
    {
      AtomicIsFinished(RefAfter(calls, now, k), key, lag, at, now[n]);
    }
  }

  /** So it is atomic whenever no call in between puts an entry under the key that outlives the check and is
      left alone. */
  lemma {:induction false} UndisturbedIsAtomic(ms: seq<Reference>, events: seq<Event>, now: seq<int>, i: nat, n: nat,
                                               t: nat, key: string,
                                               lag: Option<nat>)
    requires IsRefRun(ms, CallsOf(events), now) && Straddles(events, i, n, t, key, lag)
    requires forall k :: i <= k < n ==> !StoredToStay(ms, CallsOf(events), now, k, n, key, now[n])
    ensures AtomicSomewhere(CallsOf(events), now, i, n, key, lag, EventAnswer(events, now, n))
  {
    var calls := CallsOf(events);
    LinearizableIff(events, now, i, n, t, key, lag);
    RefRunIs(ms, calls, now, i);
    RefRunIs(ms, calls, now, n);
    if Lapses(ms[i], key, now[i], now[n]) && ShowsThroughout(calls, now, i, n, key) {
      assert Instant(now, i, n, n, now[n]);
      var k := LiveWasStored(ms, calls, now, i, n, key, now[n]);
    }
  }

  // A key that shows at every instant, because it is replaced in time, and is still reported missing.

  function MissingRun(key: string, old': string, new': string): seq<Event> {
    [Made(Set(key, Some(old'), 5)), Reads(0, key), Made(Set(key, Some(new'), 100)), Checks(0, None)]
  }

  const MissingTimes := [0, 1, 4, 6]

  lemma {:induction false} MissingStates(key: string, old': string, new': string)
    requires key != ""
    ensures var calls := CallsOf(MissingRun(key, old', new'));
      && RefAfter(calls, MissingTimes, 1).items == map[key := Item(old', Some(5))]
      && RefAfter(calls, MissingTimes, 2).items == map[key := Item(old', Some(5))]
      && RefAfter(calls, MissingTimes, 3).items == map[key := Item(new', Some(104))]
  {
    var calls := CallsOf(MissingRun(key, old', new'));
    assert RefAfter(calls, MissingTimes, 0) == Reference(map[], false);
    AfterNext(calls, MissingTimes, 0);
    AfterNext(calls, MissingTimes, 1);
    AfterNext(calls, MissingTimes, 2);
  }

  lemma {:induction false} SplitGetMisses(key: string, old': string, new': string)
    requires key != ""
    ensures var events := MissingRun(key, old', new');
      && ShowsThroughout(CallsOf(events), MissingTimes, 1, 3, key)
      && EventAnswer(events, MissingTimes, 3) == Failed(NotFound)
      && !AtomicSomewhere(CallsOf(events), MissingTimes, 1, 3, key, None, EventAnswer(events, MissingTimes, 3))
  {
    var events := MissingRun(key, old', new');
    MissingStates(key, old', new');
    assert Straddles(events, 1, 3, 0, key, None);
    LinearizableIff(events, MissingTimes, 1, 3, 0, key, None);
    StillHeld(events, MissingTimes, 1, 3, 0, key);
    EventsAreCalls(events, MissingTimes, 1);
  }
}
