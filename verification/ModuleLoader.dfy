/** Loading a module graph: memoised, with cycle detection and one container per module. */
module ModuleLoader {
  import opened Options

  /** A Go type, as a container key. */
  datatype Type = Concrete(n: nat) | Interface(n: nat)

  /** A provider instance: which provider built it, from what. */
  datatype Instance = Instance(maker: nat, args: seq<Instance>)

  type Container = map<Type, Instance>

  /** A provider: nil, a value, or a constructor with parameter types, a declared result type and the
      concrete type of what it returns; `fails` when it returns an error or a nil. */
  datatype Provider =
    | NilProvider
    | Provider(maker: nat, isFunc: bool, params: seq<Type>, declared: Type, concrete: Type, fails: bool)

  /** A controller: nil, a constructor, or a value, which has to be a non-nil pointer to a struct. */
  datatype Controller = NilController | Constructor(params: seq<Type>, fails: bool) | Instantiated(structPointer: bool)

  /** A module type. An export that is nil, or a constructor of nothing, has no type. */
  datatype Module = Module(imports: seq<nat>, providers: seq<Provider>, controllers: seq<Controller>,
                           exports: seq<Option<Type>>)

  /** The modules of an application (any other number is a nil module), and which concrete types implement
      which interfaces. */
  datatype Graph = Graph(modules: map<nat, Module>, implements: (Type, Type) -> bool, root: Container)

  /** Why loading panics: a nil module, an import cycle, or module `m` that cannot be built. */
  datatype Reason = NilModule(m: nat) | Circular(m: nat) | CannotBuild(m: nat)

  // ---------------------------------------------------------------- resolving a dependency

  ghost function Candidates(g: Graph, wanted: Type, c: Container): set<Type> {
    set k | k in c && k.Concrete? && g.implements(k, wanted)
  }

  /** The exact key, else the one concrete provider that implements the wanted interface. */
  ghost predicate ResolvesTo(g: Graph, wanted: Type, c: Container, found: Option<Instance>) {
    if wanted in c then found == Some(c[wanted])
    else match found
      case Some(i) => wanted.Interface? && exists k :: Candidates(g, wanted, c) == {k} && c[k] == i
      case None => wanted.Interface? ==> forall k :: Candidates(g, wanted, c) != {k}
  }

  lemma {:induction false} ResolutionIsUnique(g: Graph, wanted: Type, c: Container, a: Option<Instance>,
                                              b: Option<Instance>)
    requires ResolvesTo(g, wanted, c, a) && ResolvesTo(g, wanted, c, b)
    ensures a == b
  {
    if wanted !in c && a.Some? && b.Some? {
      var k :| Candidates(g, wanted, c) == {k} && c[k] == a.value;
      var j :| Candidates(g, wanted, c) == {j} && c[j] == b.value;
      assert k in {j};
    }
  }

  /** Lookup as `invokeConstructor` does it; the map is ranged in an arbitrary order. */
  method Resolve(g: Graph, wanted: Type, c: Container) returns (found: Option<Instance>)
    ensures ResolvesTo(g, wanted, c, found)
  {
    if wanted in c {
      return Some(c[wanted]);
    }
    if !wanted.Interface? {
      return None;
    }
    var hit: Option<Type> := None;
    var todo := c.Keys;
    while todo != {}
      invariant todo <= c.Keys
      invariant hit.None? ==> Candidates(g, wanted, c) <= todo
      invariant hit.Some? ==>
        hit.value in Candidates(g, wanted, c) && hit.value !in todo && Candidates(g, wanted, c) <= todo + {hit.value}
    {
      var k :| k in todo;
      todo := todo - {k};
      if k.Interface? || !g.implements(k, wanted) {
        continue;
      }
      if hit.Some? {
        assert k in Candidates(g, wanted, c) && hit.value in Candidates(g, wanted, c);
        return None;
      }
      hit := Some(k);
    }
    if hit.None? {
      return None;
    }
    assert Candidates(g, wanted, c) == {hit.value};
    found := Some(c[hit.value]);
  }

  ghost function Found(g: Graph, wanted: Type, c: Container): (found: Option<Instance>)
    ensures ResolvesTo(g, wanted, c, found)
  {
    if wanted in c then Some(c[wanted])
    else if wanted.Interface? && exists k :: Candidates(g, wanted, c) == {k} then
      var k :| Candidates(g, wanted, c) == {k};
      assert k in Candidates(g, wanted, c);
      Some(c[k])
    else None
  }

  // ---------------------------------------------------------------- building one module

  ghost function ResolveAll(g: Graph, params: seq<Type>, n: nat, c: Container): Option<seq<Instance>>
    requires n <= |params|
  {
    if n == 0 then Some([])
    else match (ResolveAll(g, params, n - 1, c), Found(g, params[n - 1], c))
      case (Some(args), Some(i)) => Some(args + [i])
      case _ => None
  }

  lemma {:induction false} Unresolvable(g: Graph, params: seq<Type>, k: nat, n: nat, c: Container)
    requires k <= n <= |params| && ResolveAll(g, params, k, c).None?
    ensures ResolveAll(g, params, n, c).None?
  {
    if k < n {
      Unresolvable(g, params, k, n - 1, c);
    }
  }

  /** The argument loop of `invokeConstructor`. */
  method ResolveArgs(g: Graph, params: seq<Type>, c: Container) returns (args: Option<seq<Instance>>)
    ensures args == ResolveAll(g, params, |params|, c)
  {
    var got: seq<Instance> := [];
    for i := 0 to |params|
      invariant ResolveAll(g, params, i, c) == Some(got)
    {
      var dep := Resolve(g, params[i], c);
      ResolutionIsUnique(g, params[i], c, dep, Found(g, params[i], c));
      if dep.None? {
        Unresolvable(g, params, i + 1, |params|, c);
        return None;
      }
      got := got + [dep.value];
    }
    args := Some(got);
  }

  /** `registerProvider`: under the concrete type, and under the declared interface if any. */
  ghost function Registered(g: Graph, p: Provider, c: Container): Option<Container> {
    if p.NilProvider? then None
    else match if p.isFunc then ResolveAll(g, p.params, |p.params|, c) else Some([])
    case None => None
    case Some(args) =>
      if p.isFunc && p.fails then None
      else
        var i := Instance(p.maker, args);
        var c1 := c[p.concrete := i];
        Some(if p.isFunc && p.declared.Interface? then c1[p.declared := i] else c1)
  }

  ghost function RegisteredAll(g: Graph, ps: seq<Provider>, n: nat, c: Container): Option<Container>
    requires n <= |ps|
  {
    if n == 0 then Some(c)
    else match RegisteredAll(g, ps, n - 1, c)
      case None => None
      case Some(c') => Registered(g, ps[n - 1], c')
  }

  lemma {:induction false} Unregistrable(g: Graph, ps: seq<Provider>, k: nat, n: nat, c: Container)
    requires k <= n <= |ps| && RegisteredAll(g, ps, k, c).None?
    ensures RegisteredAll(g, ps, n, c).None?
  {
    if k < n {
      Unregistrable(g, ps, k, n - 1, c);
    }
  }

  /** A module's exports, given the container its imports leave it. `None` is a panic. */
  ghost function Build(g: Graph, m: Module, c: Container): Option<Container> {
    match RegisteredAll(g, m.providers, |m.providers|, c)
    case None => None
    case Some(own) =>
      if forall k :: 0 <= k < |m.controllers| ==> Controls(g, m.controllers[k], own) then
        if forall t :: t in m.exports ==> t.Some? && t.value in own then Some(Exported(m.exports, own)) else None
      else None
  }

  /** A controller can be made; the fields of a struct that nothing provides are left alone. */
  ghost predicate Controls(g: Graph, c: Controller, own: Container) {
    match c
    case NilController => false
    case Constructor(params, fails) => ResolveAll(g, params, |params|, own).Some? && !fails
    case Instantiated(structPointer) => structPointer
  }

  ghost function Exported(exports: seq<Option<Type>>, own: Container): Container
    requires forall t :: t in exports ==> t.Some? && t.value in own
  {
    map t | t in own && Some(t) in exports :: own[t]
  }

  method RegisterProvider(g: Graph, p: Provider, c: Container) returns (r: Option<Container>)
    ensures r == Registered(g, p, c)
  {
    if p.NilProvider? {
      return None;
    }
    var args: Option<seq<Instance>> := Some([]);
    if p.isFunc {
      args := ResolveArgs(g, p.params, c);
      if args.None? || p.fails {
        return None;
      }
    }
    var instance := Instance(p.maker, args.value);
    var c' := c[p.concrete := instance];
    if p.isFunc && p.declared.Interface? {
      c' := c'[p.declared := instance];
    }
    r := Some(c');
  }

  /** The provider, controller and export loops of `loadModule`. */
  method BuildModule(g: Graph, m: Module, c: Container) returns (r: Option<Container>)
    ensures r == Build(g, m, c)
  {
    var own := c;
    for i := 0 to |m.providers|
      invariant RegisteredAll(g, m.providers, i, c) == Some(own)
    {
      var next := RegisterProvider(g, m.providers[i], own);
      if next.None? {
        Unregistrable(g, m.providers, i + 1, |m.providers|, c);
        return None;
      }
      own := next.value;
    }
    for i := 0 to |m.controllers|
      invariant forall k :: 0 <= k < i ==> Controls(g, m.controllers[k], own)
    {
      var made := MakeController(g, m.controllers[i], own);
      if !made {
        return None;
      }
    }
    var exports: Container := map[];
    for i := 0 to |m.exports|
      invariant forall t :: t in m.exports[..i] ==> t.Some? && t.value in own
      invariant exports == Exported(m.exports[..i], own)
    {
      assert m.exports[..i + 1] == m.exports[..i] + [m.exports[i]];
      if m.exports[i].None? || m.exports[i].value !in own {
        assert m.exports[i] in m.exports;
        return None;
      }
      exports := exports[m.exports[i].value := own[m.exports[i].value]];
    }
    assert m.exports[..|m.exports|] == m.exports;
    r := Some(exports);
  }

  method MakeController(g: Graph, c: Controller, own: Container) returns (made: bool)
    ensures made == Controls(g, c, own)
  {
    match c {
      case NilController => return false;
      case Constructor(params, fails) =>
        var args := ResolveArgs(g, params, own);
        return args.Some? && !fails;
      case Instantiated(structPointer) => return structPointer;
    }
  }

  // ---------------------------------------------------------------- what a build is

  // Stated of the providers, the controllers and the export list, without the loops.

  ghost function Lookup(c: Container, t: Type): Option<Instance> {
    if t in c then Some(c[t]) else None
  }

  lemma {:induction false} ResolveAllIff(g: Graph, params: seq<Type>, n: nat, c: Container, args: seq<Instance>)
    requires n <= |params|
    ensures ResolveAll(g, params, n, c) == Some(args) <==>
      |args| == n && forall j :: 0 <= j < n ==> ResolvesTo(g, params[j], c, Some(args[j]))
  {
    if n > 0 && args != [] {
      var last := |args| - 1;
      ResolveAllIff(g, params, n - 1, c, args[..last]);
      assert args == args[..last] + [args[last]];
      if |args| == n && ResolvesTo(g, params[n - 1], c, Some(args[last])) {
        ResolutionIsUnique(g, params[n - 1], c, Some(args[last]), Found(g, params[n - 1], c));
      }
    }
  }

  /** Some resolution of every parameter. */
  ghost predicate Resolvable(g: Graph, params: seq<Type>, c: Container) {
    forall j :: 0 <= j < |params| ==> !ResolvesTo(g, params[j], c, None)
  }

  lemma {:induction false} ResolvableIff(g: Graph, params: seq<Type>, n: nat, c: Container)
    requires n <= |params|
    ensures ResolveAll(g, params, n, c).Some? <==> forall j :: 0 <= j < n ==> !ResolvesTo(g, params[j], c, None)
  {
    if n > 0 {
      ResolvableIff(g, params, n - 1, c);
      var found := Found(g, params[n - 1], c);
      if found.Some? && ResolvesTo(g, params[n - 1], c, None) {
        ResolutionIsUnique(g, params[n - 1], c, found, None);
      }
    }
  }

  /** The keys a provider is registered under: the concrete type, and the interface a constructor declares. */
  ghost predicate Supplies(p: Provider, t: Type) {
    p.Provider? && (t == p.concrete || (p.isFunc && p.declared.Interface? && t == p.declared))
  }

  /** The provider yields `i` where it sees `before`: a value as it is, a constructor from what its parameters
      resolve to. */
  ghost predicate MadeBy(g: Graph, p: Provider, before: Container, i: Instance) {
    && p.Provider? && i.maker == p.maker
    && if p.isFunc then
         && !p.fails && |i.args| == |p.params|
         && forall j :: 0 <= j < |p.params| ==> ResolvesTo(g, p.params[j], before, Some(i.args[j]))
       else i.args == []
  }

  /** What the first `n` providers leave under `t`: the instance of the last that supplies it, else what was there. */
  ghost predicate Shows(ps: seq<Provider>, insts: seq<Instance>, n: nat, c: Container, t: Type,
                        found: Option<Instance>)
    requires n <= |ps| && n <= |insts|
  {
    || (exists k :: 0 <= k < n && LastSupplier(ps, n, t, k) && found == Some(insts[k]))
    || ((forall k :: 0 <= k < n ==> !Supplies(ps[k], t)) && found == Lookup(c, t))
  }

  ghost predicate LastSupplier(ps: seq<Provider>, n: nat, t: Type, k: nat)
    requires k < n <= |ps|
  {
    Supplies(ps[k], t) && forall j :: k < j < n ==> !Supplies(ps[j], t)
  }

  /** `insts` are made one after another, `cs` what is there before each and at the end. */
  ghost predicate Chain(g: Graph, ps: seq<Provider>, n: nat, c: Container, cs: seq<Container>, insts: seq<Instance>) {
    && n <= |ps| && |cs| == n + 1 && |insts| == n
    && (forall k :: 0 <= k < n ==> MadeBy(g, ps[k], cs[k], insts[k]))
    && (forall k, t :: 0 <= k <= n ==> Shows(ps, insts, k, c, t, Lookup(cs[k], t)))
  }

  ghost predicate Provides(g: Graph, ps: seq<Provider>, c: Container, own: Container) {
    exists cs, insts :: Chain(g, ps, |ps|, c, cs, insts) && cs[|ps|] == own
  }

  lemma {:induction false} ShowsStep(ps: seq<Provider>, insts: seq<Instance>, n: nat, c: Container, t: Type,
                                     found: Option<Instance>)
    requires 0 < n <= |ps| && n <= |insts|
    ensures Shows(ps, insts, n, c, t, found) <==>
      if Supplies(ps[n - 1], t) then found == Some(insts[n - 1]) else Shows(ps, insts, n - 1, c, t, found)
  {
    if Supplies(ps[n - 1], t) {
      assert LastSupplier(ps, n, t, n - 1);
    } else {
      forall k | 0 <= k < n - 1 ensures LastSupplier(ps, n, t, k) <==> LastSupplier(ps, n - 1, t, k) {
      }
    }
  }

  lemma {:induction false} ShowsPrefix(ps: seq<Provider>, a: seq<Instance>, b: seq<Instance>, n: nat, c: Container,
                                       t: Type,
                                       found: Option<Instance>)
    requires n <= |ps| && n <= |a| && n <= |b| && a[..n] == b[..n]
    ensures Shows(ps, a, n, c, t, found) <==> Shows(ps, b, n, c, t, found)
  {
    forall k | 0 <= k < n ensures a[k] == b[k] {
      assert a[..n][k] == b[..n][k];
    }
  }

  /** Registration, stated outright. */
  lemma {:induction false} RegisteredIff(g: Graph, p: Provider, before: Container, own: Container)
    ensures Registered(g, p, before) == Some(own) <==>
      exists i :: MadeBy(g, p, before, i) &&
                  forall t :: Lookup(own, t) == if Supplies(p, t) then Some(i) else Lookup(before, t)
  {
    if Registered(g, p, before) == Some(own) {
      var i := if p.isFunc then Instance(p.maker, ResolveAll(g, p.params, |p.params|, before).value)
               else Instance(p.maker, []);
      if p.isFunc {
        ResolveAllIff(g, p.params, |p.params|, before, i.args);
      }
      assert MadeBy(g, p, before, i);
    }
    if i :| MadeBy(g, p, before, i) &&
            forall t :: Lookup(own, t) == if Supplies(p, t) then Some(i) else Lookup(before, t) {
      MadeIsRegistered(g, p, before, own, i);
    }
  }

  lemma {:induction false} MadeIsRegistered(g: Graph, p: Provider, before: Container, own: Container, i: Instance)
    requires MadeBy(g, p, before, i)
    requires forall t :: Lookup(own, t) == if Supplies(p, t) then Some(i) else Lookup(before, t)
    ensures Registered(g, p, before) == Some(own)
  {
    if p.isFunc {
      ResolveAllIff(g, p.params, |p.params|, before, i.args);
    }
    assert i == Instance(p.maker, i.args);
    SameLookups(Registered(g, p, before).value, own);
  }

  lemma {:induction false} SameLookups(a: Container, b: Container)
    requires forall t :: Lookup(a, t) == Lookup(b, t)
    ensures a == b
  {
    assert forall t :: t in a <==> Lookup(a, t).Some?;
    assert forall t :: t in b <==> Lookup(b, t).Some?;
    forall t | t in a ensures a[t] == b[t] {
      assert Lookup(a, t) == Lookup(b, t);
    }
  }

  lemma {:induction false} ChainOf(g: Graph, ps: seq<Provider>, n: nat, c: Container)
    returns (cs: seq<Container>, insts: seq<Instance>)
    requires n <= |ps| && RegisteredAll(g, ps, n, c).Some?
    ensures Chain(g, ps, n, c, cs, insts) && cs[n] == RegisteredAll(g, ps, n, c).value
  {
    if n == 0 {
      cs, insts := [c], [];
    } else {
      var cs0, insts0 := ChainOf(g, ps, n - 1, c);
      var own := RegisteredAll(g, ps, n, c).value;
      RegisteredIff(g, ps[n - 1], cs0[n - 1], own);
      var i :| MadeBy(g, ps[n - 1], cs0[n - 1], i) &&
               forall t :: Lookup(own, t) == if Supplies(ps[n - 1], t) then Some(i) else Lookup(cs0[n - 1], t);
      cs, insts := cs0 + [own], insts0 + [i];
      ChainGrows(g, ps, n - 1, c, cs0, insts0, own, i);
    }
  }

  lemma {:induction false} ChainGrows(g: Graph, ps: seq<Provider>, n: nat, c: Container, cs: seq<Container>,
                                      insts: seq<Instance>,
                                      own: Container, i: Instance)
    requires n < |ps| && Chain(g, ps, n, c, cs, insts) && MadeBy(g, ps[n], cs[n], i)
    requires forall t :: Lookup(own, t) == if Supplies(ps[n], t) then Some(i) else Lookup(cs[n], t)
    ensures Chain(g, ps, n + 1, c, cs + [own], insts + [i])
  {
    var cs', insts' := cs + [own], insts + [i];
    forall k, t | 0 <= k <= n + 1 ensures Shows(ps, insts', k, c, t, Lookup(cs'[k], t)) {
      if k <= n {
        assert Shows(ps, insts, k, c, t, Lookup(cs[k], t));
        ShowsPrefix(ps, insts, insts', k, c, t, Lookup(cs[k], t));
      } else {
        assert Shows(ps, insts, n, c, t, Lookup(cs[n], t));
        ShowsPrefix(ps, insts, insts', n, c, t, Lookup(cs[n], t));
        ShowsStep(ps, insts', n + 1, c, t, Lookup(own, t));
      }
    }
  }

  lemma {:induction false} ChainRegisters(g: Graph, ps: seq<Provider>, n: nat, c: Container, cs: seq<Container>,
                                          insts: seq<Instance>)
    requires Chain(g, ps, n, c, cs, insts)
    ensures RegisteredAll(g, ps, n, c) == Some(cs[n])
  {
    if n == 0 {
      forall t ensures Lookup(cs[0], t) == Lookup(c, t) {
        assert Shows(ps, insts, 0, c, t, Lookup(cs[0], t));
      }
      SameLookups(cs[0], c);
    } else {
      ChainShrinks(g, ps, n, c, cs, insts);
      ChainRegisters(g, ps, n - 1, c, cs[..n], insts[..n - 1]);
      LinkShows(g, ps, n, c, cs, insts);
      MadeIsRegistered(g, ps[n - 1], cs[n - 1], cs[n], insts[n - 1]);
    }
  }

  lemma {:induction false} ChainShrinks(g: Graph, ps: seq<Provider>, n: nat, c: Container, cs: seq<Container>,
                                        insts: seq<Instance>)
    requires n > 0 && Chain(g, ps, n, c, cs, insts)
    ensures Chain(g, ps, n - 1, c, cs[..n], insts[..n - 1])
  {
    forall k, t | 0 <= k <= n - 1 ensures Shows(ps, insts[..n - 1], k, c, t, Lookup(cs[..n][k], t)) {
      assert Shows(ps, insts, k, c, t, Lookup(cs[k], t));
      ShowsPrefix(ps, insts, insts[..n - 1], k, c, t, Lookup(cs[k], t));
    }
  }

  lemma {:induction false} LinkShows(g: Graph, ps: seq<Provider>, n: nat, c: Container, cs: seq<Container>,
                                     insts: seq<Instance>)
    requires n > 0 && Chain(g, ps, n, c, cs, insts)
    ensures forall t ::
      (Lookup(cs[n], t) == if Supplies(ps[n - 1], t) then Some(insts[n - 1]) else Lookup(cs[n - 1], t))
  {
    forall t ensures Lookup(cs[n], t) == if Supplies(ps[n - 1], t) then Some(insts[n - 1]) else Lookup(cs[n - 1], t) {
      assert Shows(ps, insts, n, c, t, Lookup(cs[n], t)) && Shows(ps, insts, n - 1, c, t, Lookup(cs[n - 1], t));
      ShowsStep(ps, insts, n, c, t, Lookup(cs[n], t));
      if !Supplies(ps[n - 1], t) {
        OneShows(ps, insts, n - 1, c, t, Lookup(cs[n], t), Lookup(cs[n - 1], t));
      }
    }
  }

  lemma {:induction false} OneShows(ps: seq<Provider>, insts: seq<Instance>, n: nat, c: Container, t: Type,
                                    a: Option<Instance>,
                                    b: Option<Instance>)
    requires n <= |ps| && n <= |insts| && Shows(ps, insts, n, c, t, a) && Shows(ps, insts, n, c, t, b)
    ensures a == b
  {
  }

  /** A controller is made from what its parameters resolve to; a value has to be a pointer to a struct. */
  ghost predicate Makes(g: Graph, c: Controller, own: Container) {
    || (c.Constructor? && !c.fails && Resolvable(g, c.params, own))
    || (c.Instantiated? && c.structPointer)
  }

  /** Exactly the listed types are exported, each of them provided or imported. */
  ghost predicate ExportsExactly(listed: seq<Option<Type>>, own: Container, exports: Container) {
    && (forall t :: t in listed ==> t.Some? && t.value in own)
    && (forall t :: Lookup(exports, t) == if Some(t) in listed then Lookup(own, t) else None)
  }

  ghost predicate Builds(g: Graph, m: Module, c: Container, exports: Container) {
    exists own :: Provides(g, m.providers, c, own)
                  && (forall k :: 0 <= k < |m.controllers| ==> Makes(g, m.controllers[k], own))
                  && ExportsExactly(m.exports, own, exports)
  }

  lemma {:induction false} ControlsIff(g: Graph, c: Controller, own: Container)
    ensures Controls(g, c, own) <==> Makes(g, c, own)
  {
    if c.Constructor? {
      ResolvableIff(g, c.params, |c.params|, own);
    }
  }

  lemma {:induction false} ProvidesIff(g: Graph, ps: seq<Provider>, c: Container, own: Container)
    ensures RegisteredAll(g, ps, |ps|, c) == Some(own) <==> Provides(g, ps, c, own)
  {
    if RegisteredAll(g, ps, |ps|, c) == Some(own) {
      var cs, insts := ChainOf(g, ps, |ps|, c);
    }
    if cs, insts :| Chain(g, ps, |ps|, c, cs, insts) && cs[|ps|] == own {
      ChainRegisters(g, ps, |ps|, c, cs, insts);
    }
  }

  lemma {:induction false} ExportedIs(listed: seq<Option<Type>>, own: Container, exports: Container)
    requires forall t :: t in listed ==> t.Some? && t.value in own
    ensures Exported(listed, own) == exports <==> ExportsExactly(listed, own, exports)
  {
    forall t ensures Lookup(Exported(listed, own), t) == if Some(t) in listed then Lookup(own, t) else None {
      if Some(t) in listed {
        assert Some(t).value in own;
      }
    }
    if ExportsExactly(listed, own, exports) {
      SameLookups(Exported(listed, own), exports);
    }
  }

  /** A build succeeds with these exports exactly when the providers, one after another, the controllers and the
      export list say so; otherwise it panics. */
  lemma {:induction false} BuildIff(g: Graph, m: Module, c: Container, exports: Container)
    ensures Build(g, m, c) == Some(exports) <==> Builds(g, m, c, exports)
  {
    forall own ensures RegisteredAll(g, m.providers, |m.providers|, c) == Some(own) <==>
                       Provides(g, m.providers, c, own)
    {
      ProvidesIff(g, m.providers, c, own);
    }
    forall k, own | 0 <= k < |m.controllers|
      ensures Controls(g, m.controllers[k], own) <==> Makes(g, m.controllers[k], own)
    {
      ControlsIff(g, m.controllers[k], own);
    }
    var all := RegisteredAll(g, m.providers, |m.providers|, c);
    if all.Some? && forall t :: t in m.exports ==> t.Some? && t.value in all.value {
      ExportedIs(m.exports, all.value, exports);
    }
  }

  // ---------------------------------------------------------------- what imports leave

  /** The root snapshot overlaid by the exports of the first `n` imports, later imports winning. */
  ghost function Overlay(root: Container, imports: seq<nat>, n: nat, done: map<nat, Container>): Container
    requires n <= |imports|
    requires forall k :: 0 <= k < n ==> imports[k] in done
  {
    if n == 0 then root
    else Overlay(root, imports, n - 1, done) + done[imports[n - 1]]
  }

  /** Import `k` is the last of the first `n` that exports `t`. */
  ghost predicate LastExport(imports: seq<nat>, n: nat, done: map<nat, Container>, t: Type, k: nat)
    requires k < n <= |imports| && forall i :: 0 <= i < n ==> imports[i] in done
  {
    t in done[imports[k]] && forall j :: k < j < n ==> t !in done[imports[j]]
  }

  /** What an import can show its importer: a key comes from the last import that exports it,
      or, when none does, from the root container. */
  lemma {:induction false} OverlayIsLastExport(root: Container, imports: seq<nat>, n: nat, done: map<nat, Container>,
                                               t: Type)
    requires n <= |imports|
    requires forall k :: 0 <= k < n ==> imports[k] in done
    ensures var c := Overlay(root, imports, n, done);
      if exists k :: 0 <= k < n && t in done[imports[k]] then
        t in c && exists k :: 0 <= k < n && LastExport(imports, n, done, t, k) && c[t] == done[imports[k]][t]
      else if t in root then t in c && c[t] == root[t]
      else t !in c
  {
    if n > 0 {
      OverlayIsLastExport(root, imports, n - 1, done, t);
      if t in done[imports[n - 1]] {
        assert LastExport(imports, n, done, t, n - 1);
      } else {
        forall k | 0 <= k < n - 1 && LastExport(imports, n - 1, done, t, k) ensures LastExport(imports, n, done, t, k) {
        }
      }
    }
  }

  lemma {:induction false} OverlayKeeps(root: Container, imports: seq<nat>, n: nat, done: map<nat, Container>,
                                        more: map<nat, Container>)
    requires n <= |imports|
    requires forall k :: 0 <= k < n ==> imports[k] in done
    requires forall x :: x in done ==> x in more && more[x] == done[x]
    ensures Overlay(root, imports, n, done) == Overlay(root, imports, n, more)
  {
    if n > 0 {
      OverlayKeeps(root, imports, n - 1, done, more);
    }
  }

  // ---------------------------------------------------------------- loadModule

  /** The application's bookkeeping: finished modules, modules being loaded, and the order in
      which modules were built. */
  datatype Books = Books(exports: map<nat, Container>, loading: set<nat>, built: seq<nat>)

  datatype Loaded = Loaded(exports: Container) | Panicked(why: Reason)

  /** `loadModule`. The deferred delete runs on every way out. */
  ghost function Load(g: Graph, m: nat, b: Books): (r: (Books, Loaded))
    ensures r.0.loading == b.loading
    decreases g.modules.Keys - b.loading, 1, 0
  {
    if m !in g.modules then (b, Panicked(NilModule(m)))
    else if m in b.exports then (b, Loaded(b.exports[m]))
    else if m in b.loading then (b, Panicked(Circular(m)))
    else
      var imports := g.modules[m].imports;
      var (b1, r) := LoadImports(g, imports, |imports|, b.(loading := b.loading + {m}));
      Finish(g, m, b1.(loading := b.loading), r)
  }

  /** The end of `loadModule`, once its imports have been loaded or have panicked. */
  ghost function Finish(g: Graph, m: nat, b: Books, r: Loaded): (Books, Loaded)
    requires m in g.modules
  {
    match r
    case Panicked(why) => (b, Panicked(why))
    case Loaded(c) =>
      match Build(g, g.modules[m], c)
      case None => (b, Panicked(CannotBuild(m)))
      case Some(exports) => (b.(exports := b.exports[m := exports], built := b.built + [m]), Loaded(exports))
  }

  /** The first `n` imports, in order, each overlaying the container. */
  ghost function LoadImports(g: Graph, imports: seq<nat>, n: nat, b: Books): (r: (Books, Loaded))
    requires n <= |imports|
    ensures r.0.loading == b.loading
    decreases g.modules.Keys - b.loading, 2, n
  {
    if n == 0 then (b, Loaded(g.root))
    else
      var (b1, r) := LoadImports(g, imports, n - 1, b);
      match r
      case Panicked(why) => (b1, Panicked(why))
      case Loaded(c) =>
        var (b2, r2) := Load(g, imports[n - 1], b1);
        match r2
        case Panicked(why) => (b2, Panicked(why))
        case Loaded(exports) => (b2, Loaded(c + exports))
  }

  lemma {:induction false} ImportsPanicked(g: Graph, imports: seq<nat>, k: nat, n: nat, b: Books)
    requires k <= n <= |imports| && LoadImports(g, imports, k, b).1.Panicked?
    ensures LoadImports(g, imports, n, b) == LoadImports(g, imports, k, b)
    decreases n
  {
    if k < n {
      ImportsPanicked(g, imports, k, n - 1, b);
    }
  }

  class App {
    var moduleExports: map<nat, Container>
    var loadingModules: set<nat>
    ghost var built: seq<nat>

    ghost function Records(): Books
      reads this
    {
      Books(moduleExports, loadingModules, built)
    }

    constructor ()
      ensures Records() == Books(map[], {}, [])
    {
      moduleExports, loadingModules, built := map[], {}, [];
    }

    /** A panic is a returned reason; it unwinds every enclosing call. */
    method LoadModule(g: Graph, m: nat) returns (r: Loaded)
      modifies this
      ensures (Records(), r) == Load(g, m, old(Records()))
      decreases g.modules.Keys - loadingModules
    {
      if m !in g.modules {
        return Panicked(NilModule(m));
      }
      if m in moduleExports {
        return Loaded(moduleExports[m]);
      }
      if m in loadingModules {
        return Panicked(Circular(m));
      }
      ghost var b := Records().(loading := loadingModules + {m});
      var imports := g.modules[m].imports;
      var container := g.root;
      loadingModules := loadingModules + {m};
      for i := 0 to |imports|
        invariant LoadImports(g, imports, i, b) == (Records(), Loaded(container))
      {
        var exports := LoadModule(g, imports[i]);
        if exports.Panicked? {
          ImportsPanicked(g, imports, i + 1, |imports|, b);
          loadingModules := loadingModules - {m};
          return exports;
        }
        container := container + exports.exports;
      }
      var exports := BuildModule(g, g.modules[m], container);
      loadingModules := loadingModules - {m};
      if exports.None? {
        return Panicked(CannotBuild(m));
      }
      moduleExports := moduleExports[m := exports.value];
      built := built + [m];
      r := Loaded(exports.value);
    }
  }

  // ---------------------------------------------------------------- what every load keeps

  ghost predicate BuiltBefore(b: Books, x: nat, i: nat)
    requires i <= |b.built|
  {
    exists j :: 0 <= j < i && b.built[j] == x
  }

  /** The i-th module built was built from its imports, all of them built before it. */
  ghost predicate BuiltRight(g: Graph, b: Books, i: nat)
    requires i < |b.built|
  {
    var m := b.built[i];
    && m in g.modules && m in b.exports
    && (forall k :: 0 <= k < |g.modules[m].imports| ==> BuiltBefore(b, g.modules[m].imports[k], i))
    && (forall k :: 0 <= k < |g.modules[m].imports| ==> g.modules[m].imports[k] in b.exports)
    && Build(g, g.modules[m],
             Overlay(g.root, g.modules[m].imports, |g.modules[m].imports|, b.exports)) == Some(b.exports[m])
  }

  ghost predicate Consistent(g: Graph, b: Books) {
    && (forall x :: x in b.exports <==> x in b.built)
    && (forall i, j :: 0 <= i < j < |b.built| ==> b.built[i] != b.built[j])
    && b.loading !! b.exports.Keys
    && forall i :: 0 <= i < |b.built| ==> BuiltRight(g, b, i)
  }

  ghost predicate Extends(b: Books, b': Books) {
    && |b.built| <= |b'.built| && b.built == b'.built[..|b.built|]
    && forall x :: x in b.exports ==> x in b'.exports && b'.exports[x] == b.exports[x]
  }

  // ---------------------------------------------------------------- reachability

  ghost predicate Path(g: Graph, p: seq<nat>) {
    forall i :: 0 <= i < |p| - 1 ==> p[i] in g.modules && p[i + 1] in g.modules[p[i]].imports
  }

  /** By one import or more. */
  ghost predicate Reaches(g: Graph, a: nat, c: nat) {
    exists p :: Path(g, p) && |p| >= 2 && p[0] == a && p[|p| - 1] == c
  }

  ghost predicate Within(g: Graph, a: nat, c: nat) {
    a == c || Reaches(g, a, c)
  }

  lemma {:induction false} ReachesByImport(g: Graph, a: nat, k: nat)
    requires a in g.modules && k < |g.modules[a].imports|
    ensures Reaches(g, a, g.modules[a].imports[k])
  {
    assert Path(g, [a, g.modules[a].imports[k]]);
  }

  lemma {:induction false} ReachesFurther(g: Graph, a: nat, c: nat, d: nat)
    requires Reaches(g, a, c) && Reaches(g, c, d)
    ensures Reaches(g, a, d)
  {
    var p :| Path(g, p) && |p| >= 2 && p[0] == a && p[|p| - 1] == c;
    var q :| Path(g, q) && |q| >= 2 && q[0] == c && q[|q| - 1] == d;
    var r := p + q[1..];
    forall i | 0 <= i < |r| - 1 ensures r[i] in g.modules && r[i + 1] in g.modules[r[i]].imports {
      if i < |p| - 1 {
        assert r[i] == p[i] && r[i + 1] == p[i + 1];
      } else {
        assert r[i] == q[i - |p| + 1] && r[i + 1] == q[i - |p| + 2];
      }
    }
    assert Path(g, r);
  }

  /** In a consistent state everything below a built module was built, and earlier. */
  lemma {:induction false} BuiltBelow(g: Graph, b: Books, p: seq<nat>, i: nat, k: nat)
    requires Consistent(g, b) && Path(g, p) && k < |p|
    requires i < |b.built| && p[0] == b.built[i]
    ensures if k == 0 then true else BuiltBefore(b, p[k], i)
  {
    if k == 1 {
      assert BuiltRight(g, b, i);
      assert p[0 + 1] in g.modules[p[0]].imports;
    } else if k > 1 {
      BuiltBelow(g, b, p, i, k - 1);
      var j :| 0 <= j < i && b.built[j] == p[k - 1];
      assert BuiltRight(g, b, j);
      assert p[k - 1 + 1] in g.modules[p[k - 1]].imports;
      var h :| 0 <= h < |g.modules[p[k - 1]].imports| && g.modules[p[k - 1]].imports[h] == p[k];
      assert BuiltBefore(b, p[k], j);
    }
  }

  lemma {:induction false} BuiltMeansAcyclic(g: Graph, b: Books, m: nat, c: nat)
    requires Consistent(g, b) && m in b.exports && Within(g, m, c)
    ensures c in b.exports && c in g.modules && !Reaches(g, c, c)
  {
    var i :| 0 <= i < |b.built| && b.built[i] == m;
    assert BuiltRight(g, b, i);
    if m != c {
      var p :| Path(g, p) && |p| >= 2 && p[0] == m && p[|p| - 1] == c;
      BuiltBelow(g, b, p, i, |p| - 1);
    }
    var j :| 0 <= j < |b.built| && b.built[j] == c;
    assert BuiltRight(g, b, j);
    if Reaches(g, c, c) {
      var p :| Path(g, p) && |p| >= 2 && p[0] == c && p[|p| - 1] == c;
      BuiltBelow(g, b, p, j, |p| - 1);
      assert false;
    }
  }

  // ---------------------------------------------------------------- what a load comes to

  ghost predicate ImportsDone(g: Graph, x: nat, done: map<nat, Container>) {
    x in g.modules && forall k :: 0 <= k < |g.modules[x].imports| ==> g.modules[x].imports[k] in done
  }

  ghost function BuildFrom(g: Graph, x: nat, done: map<nat, Container>): Option<Container>
    requires ImportsDone(g, x, done)
  {
    Build(g, g.modules[x], Overlay(g.root, g.modules[x].imports, |g.modules[x].imports|, done))
  }

  /** Every panic names a module in the graph of `m` that really has the fault. */
  ghost predicate Explained(g: Graph, m: nat, b: Books, why: Reason) {
    && Within(g, m, why.m)
    && match why
       case NilModule(x) => x !in g.modules
       case Circular(x) => Reaches(g, x, x)
       case CannotBuild(x) => ImportsDone(g, x, b.exports) && BuildFrom(g, x, b.exports) == None
  }

  lemma {:induction false} ExplainedAbove(g: Graph, m: nat, k: nat, b: Books, why: Reason)
    requires m in g.modules && k < |g.modules[m].imports|
    requires Explained(g, g.modules[m].imports[k], b, why)
    ensures Explained(g, m, b, why)
  {
    ReachesByImport(g, m, k);
    if g.modules[m].imports[k] != why.m {
      ReachesFurther(g, m, g.modules[m].imports[k], why.m);
    }
  }

  ghost predicate GoodLoad(g: Graph, m: nat, b: Books, b': Books, r: Loaded) {
    && Consistent(g, b') && Extends(b, b')
    && match r
       case Loaded(c) => m in b'.exports && b'.exports[m] == c
       case Panicked(why) => Explained(g, m, b', why)
  }

  ghost predicate GoodImports(g: Graph, m: nat, n: nat, b: Books, b': Books, r: Loaded)
    requires m in g.modules && n <= |g.modules[m].imports|
  {
    && Consistent(g, b') && Extends(b, b')
    && match r
       case Loaded(c) =>
         && (forall k :: 0 <= k < n ==> g.modules[m].imports[k] in b'.exports)
         && c == Overlay(g.root, g.modules[m].imports, n, b'.exports)
       case Panicked(why) => Explained(g, m, b', why)
  }

  lemma {:induction false} BuiltRightKeeps(g: Graph, b: Books, b': Books, i: nat)
    requires i < |b.built| && BuiltRight(g, b, i) && Extends(b, b')
    ensures BuiltRight(g, b', i)
  {
    var m := b.built[i];
    var imports := g.modules[m].imports;
    assert b'.built[i] == m;
    forall k | 0 <= k < |imports| ensures BuiltBefore(b', imports[k], i) {
      assert BuiltBefore(b, imports[k], i);
      var j :| 0 <= j < i && b.built[j] == imports[k];
      assert b'.built[j] == imports[k];
    }
    OverlayKeeps(g.root, imports, |imports|, b.exports, b'.exports);
  }

  /** Filing a module that was built from its imports. */
  lemma {:induction false} FileKeeps(g: Graph, m: nat, b: Books, exports: Container)
    requires Consistent(g, b) && m in g.modules && m !in b.exports && m !in b.loading
    requires ImportsDone(g, m, b.exports) && BuildFrom(g, m, b.exports) == Some(exports)
    ensures var b' := b.(exports := b.exports[m := exports], built := b.built + [m]);
      Consistent(g, b') && Extends(b, b')
  {
    var b' := b.(exports := b.exports[m := exports], built := b.built + [m]);
    FiledOnce(b, m, exports);
    AllStayRight(g, m, b, b', exports);
  }

  lemma {:induction false} AllStayRight(g: Graph, m: nat, b: Books, b': Books, exports: Container)
    requires m in g.modules && m !in b.exports && b' == b.(exports := b.exports[m := exports], built := b.built + [m])
    requires ImportsDone(g, m, b.exports) && BuildFrom(g, m, b.exports) == Some(exports)
    requires Extends(b, b') && (forall x :: x in b.exports <==> x in b.built)
    requires forall i :: 0 <= i < |b.built| ==> BuiltRight(g, b, i)
    ensures forall i :: 0 <= i < |b'.built| ==> BuiltRight(g, b', i)
  {
    OldStayRight(g, b, b');
    LastIsBuiltRight(g, m, b, b', exports);
  }

  lemma {:induction false} OldStayRight(g: Graph, b: Books, b': Books)
    requires Extends(b, b') && forall i :: 0 <= i < |b.built| ==> BuiltRight(g, b, i)
    ensures forall i :: 0 <= i < |b.built| ==> BuiltRight(g, b', i)
  {
    forall i | 0 <= i < |b.built| ensures BuiltRight(g, b', i) {
      BuiltRightKeeps(g, b, b', i);
    }
  }

  lemma {:induction false} FiledOnce(b: Books, m: nat, exports: Container)
    requires forall x :: x in b.exports <==> x in b.built
    requires forall i, j :: 0 <= i < j < |b.built| ==> b.built[i] != b.built[j]
    requires m !in b.exports
    ensures var b' := b.(exports := b.exports[m := exports], built := b.built + [m]);
      && Extends(b, b')
      && (forall x :: x in b'.exports <==> x in b'.built)
      && forall i, j :: 0 <= i < j < |b'.built| ==> b'.built[i] != b'.built[j]
  {
    forall i | 0 <= i < |b.built| ensures b.built[i] != m {
      assert b.built[i] in b.built;
    }
  }

  lemma {:induction false} LastIsBuiltRight(g: Graph, m: nat, b: Books, b': Books, exports: Container)
    requires m in g.modules && m !in b.exports && b' == b.(exports := b.exports[m := exports], built := b.built + [m])
    requires ImportsDone(g, m, b.exports) && BuildFrom(g, m, b.exports) == Some(exports)
    requires forall x :: x in b.exports <==> x in b.built
    ensures BuiltRight(g, b', |b.built|)
  {
    var imports, n := g.modules[m].imports, |b.built|;
    forall k | 0 <= k < |imports| ensures BuiltBefore(b', imports[k], n) {
      assert imports[k] in b.exports;
      var j :| 0 <= j < n && b.built[j] == imports[k];
      assert b'.built[j] == imports[k];
    }
    OverlayKeeps(g.root, imports, |imports|, b.exports, b'.exports);
  }

  lemma {:induction false} SameBuilt(g: Graph, b: Books, loading: set<nat>)
    requires Consistent(g, b) && loading !! b.exports.Keys
    ensures Consistent(g, b.(loading := loading))
  {
    var b' := b.(loading := loading);
    forall i | 0 <= i < |b'.built| ensures BuiltRight(g, b', i) {
      assert BuiltRight(g, b, i);
      BuiltRightKeeps(g, b, b', i);
    }
  }

  lemma {:induction false} FinishKeeps(g: Graph, m: nat, b: Books, b1: Books, r: Loaded)
    requires m in g.modules && m !in b.loading
    requires b1.loading == b.loading + {m} && GoodImports(g, m, |g.modules[m].imports|, b, b1, r)
    ensures var (b', r') := Finish(g, m, b1.(loading := b.loading), r); GoodLoad(g, m, b, b', r')
  {
    var b2 := b1.(loading := b.loading);
    SameBuilt(g, b1, b.loading);
    if r.Loaded? && Build(g, g.modules[m], r.exports).Some? {
      FileKeeps(g, m, b2, Build(g, g.modules[m], r.exports).value);
    }
  }

  /** Every module being loaded leads to `x`, by one import or more. */
  ghost predicate AllReach(g: Graph, loading: set<nat>, x: nat) {
    forall l :: l in loading ==> Reaches(g, l, x)
  }

  ghost predicate AllWithin(g: Graph, loading: set<nat>, x: nat) {
    forall l :: l in loading ==> Within(g, l, x)
  }

  lemma {:induction false} LoadIsGood(g: Graph, m: nat, b: Books)
    requires Consistent(g, b) && AllReach(g, b.loading, m)
    ensures GoodLoad(g, m, b, Load(g, m, b).0, Load(g, m, b).1)
    decreases g.modules.Keys - b.loading, 1, 0
  {
    if m in g.modules && m !in b.exports && m !in b.loading {
      var imports := g.modules[m].imports;
      var b0 := b.(loading := b.loading + {m});
      SameBuilt(g, b, b0.loading);
      assert AllWithin(g, b0.loading, m);
      ImportsAreGood(g, m, |imports|, b0);
      FinishKeeps(g, m, b, LoadImports(g, imports, |imports|, b0).0, LoadImports(g, imports, |imports|, b0).1);
    }
  }

  lemma {:induction false} ExtendsFurther(b: Books, b1: Books, b2: Books)
    requires Extends(b, b1) && Extends(b1, b2)
    ensures Extends(b, b2)
  {
    assert b2.built[..|b.built|] == b2.built[..|b1.built|][..|b.built|];
  }

  lemma {:induction false} OverlayNext(g: Graph, imports: seq<nat>, n: nat, b1: Books, b2: Books)
    requires n < |imports| && imports[n] in b2.exports && Extends(b1, b2)
    requires forall k :: 0 <= k < n ==> imports[k] in b1.exports
    ensures forall k :: 0 <= k < n + 1 ==> imports[k] in b2.exports
    ensures Overlay(g.root, imports, n + 1, b2.exports) == Overlay(g.root, imports, n, b1.exports) +
        b2.exports[imports[n]]
  {
    OverlayKeeps(g.root, imports, n, b1.exports, b2.exports);
  }

  /** One more import, loaded or panicking. */
  lemma {:induction false} NextImport(g: Graph, m: nat, n: nat, b: Books, b1: Books, c: Container, b2: Books, r: Loaded)
    requires m in g.modules && n < |g.modules[m].imports|
    requires GoodImports(g, m, n, b, b1, Loaded(c)) && GoodLoad(g, g.modules[m].imports[n], b1, b2, r)
    ensures GoodImports(g, m, n + 1, b, b2, if r.Loaded? then Loaded(c + r.exports) else r)
  {
    ExtendsFurther(b, b1, b2);
    if r.Panicked? {
      ExplainedAbove(g, m, n, b2, r.why);
    } else {
      OverlayNext(g, g.modules[m].imports, n, b1, b2);
    }
  }

  lemma {:induction false} LoadingReaches(g: Graph, m: nat, k: nat, loading: set<nat>)
    requires m in g.modules && k < |g.modules[m].imports| && AllWithin(g, loading, m)
    ensures AllReach(g, loading, g.modules[m].imports[k])
  {
    ReachesByImport(g, m, k);
    forall l | l in loading && l != m ensures Reaches(g, l, g.modules[m].imports[k]) {
      ReachesFurther(g, l, m, g.modules[m].imports[k]);
    }
  }

  lemma {:induction false} ImportsAreGood(g: Graph, m: nat, n: nat, b: Books)
    requires Consistent(g, b) && AllWithin(g, b.loading, m)
    requires m in g.modules && n <= |g.modules[m].imports|
    ensures GoodImports(g, m, n, b, LoadImports(g, g.modules[m].imports, n, b).0,
                        LoadImports(g, g.modules[m].imports, n, b).1)
    decreases g.modules.Keys - b.loading, 2, n
  {
    if n > 0 {
      var imports := g.modules[m].imports;
      ImportsAreGood(g, m, n - 1, b);
      var (b1, r) := LoadImports(g, imports, n - 1, b);
      if r.Loaded? {
        OneMoreImport(g, m, n - 1, b, b1, r.exports);
      } else {
        PanickedStep(g, m, n - 1, b, b1, r.why);
      }
    }
  }

  lemma {:induction false} OneMoreImport(g: Graph, m: nat, n: nat, b: Books, b1: Books, c: Container)
    requires m in g.modules && n < |g.modules[m].imports| && AllWithin(g, b1.loading, m)
    requires LoadImports(g, g.modules[m].imports, n, b) == (b1, Loaded(c)) && GoodImports(g, m, n, b, b1, Loaded(c))
    ensures GoodImports(g, m, n + 1, b, LoadImports(g, g.modules[m].imports, n + 1, b).0,
                        LoadImports(g, g.modules[m].imports, n + 1, b).1)
    decreases g.modules.Keys - b1.loading, 2, 0
  {
    LoadingReaches(g, m, n, b1.loading);
    LoadIsGood(g, g.modules[m].imports[n], b1);
    ImportsStep(g, m, n, b, b1, c);
  }

  lemma {:induction false} PanickedStep(g: Graph, m: nat, n: nat, b: Books, b1: Books, why: Reason)
    requires m in g.modules && n < |g.modules[m].imports|
    requires LoadImports(g, g.modules[m].imports, n, b) == (b1, Panicked(why))
    requires GoodImports(g, m, n, b, b1, Panicked(why))
    ensures GoodImports(g, m, n + 1, b, LoadImports(g, g.modules[m].imports, n + 1, b).0,
                        LoadImports(g, g.modules[m].imports, n + 1, b).1)
  {
  }

  lemma {:induction false} ImportsStep(g: Graph, m: nat, n: nat, b: Books, b1: Books, c: Container)
    requires m in g.modules && n < |g.modules[m].imports|
    requires LoadImports(g, g.modules[m].imports, n, b) == (b1, Loaded(c)) && GoodImports(g, m, n, b, b1, Loaded(c))
    requires var (b2, r) := Load(g, g.modules[m].imports[n], b1); GoodLoad(g, g.modules[m].imports[n], b1, b2, r)
    ensures GoodImports(g, m, n + 1, b, LoadImports(g, g.modules[m].imports, n + 1, b).0,
                        LoadImports(g, g.modules[m].imports, n + 1, b).1)
  {
    var (b2, r) := Load(g, g.modules[m].imports[n], b1);
    NextImport(g, m, n, b, b1, c, b2, r);
  }

  // ---------------------------------------------------------------- the main results

  /** A load from outside: the state stays consistent, nothing already built is built again,
      success means the whole graph below `m` is built and free of nil modules and cycles,
      and a panic is never spurious. */
  lemma {:induction false} LoadOutcome(g: Graph, m: nat, b: Books)
    requires Consistent(g, b) && b.loading == {}
    ensures var (b', r) := Load(g, m, b);
      && Consistent(g, b') && Extends(b, b') && b'.loading == {}
      && (r.Panicked? ==> Explained(g, m, b', r.why))
      && (r.Loaded? ==> forall x :: Within(g, m, x) ==> x in b'.exports && x in g.modules && !Reaches(g, x, x))
  {
    LoadIsGood(g, m, b);
    var (b', r) := Load(g, m, b);
    if r.Loaded? {
      forall x | Within(g, m, x) ensures x in b'.exports && x in g.modules && !Reaches(g, x, x) {
        BuiltMeansAcyclic(g, b', m, x);
      }
    }
  }

  /** No nil import, and every module below `m` can be built whenever its imports are. */
  ghost predicate NothingFails(g: Graph, m: nat) {
    && (forall x :: Within(g, m, x) ==> x in g.modules)
    && forall x, b :: Within(g, m, x) && Consistent(g, b) && ImportsDone(g, x, b.exports) ==>
        BuildFrom(g, x, b.exports).Some?
  }

  ghost predicate CycleBelow(g: Graph, m: nat) {
    exists x :: Within(g, m, x) && Reaches(g, x, x)
  }

  lemma {:induction false} PanicsIffCycle(g: Graph, m: nat, b: Books)
    requires Consistent(g, b) && b.loading == {} && NothingFails(g, m)
    ensures Load(g, m, b).1.Panicked? <==> CycleBelow(g, m)
  {
    LoadOutcome(g, m, b);
    var (b', r) := Load(g, m, b);
    assert r.Panicked? ==> r.why.Circular?;
  }

  /** Two consistent states agree on every module both have built: what a module exports does
      not depend on what was loaded before it, or on the memo. */
  lemma {:induction false} ExportsAgree(g: Graph, a: Books, b: Books, i: nat)
    requires Consistent(g, a) && Consistent(g, b) && i < |a.built| && a.built[i] in b.exports
    ensures a.exports[a.built[i]] == b.exports[a.built[i]]
    decreases i
  {
    var m := a.built[i];
    var j :| 0 <= j < |b.built| && b.built[j] == m;
    assert BuiltRight(g, a, i) && BuiltRight(g, b, j);
    var imports := g.modules[m].imports;
    forall k | 0 <= k < |imports| ensures a.exports[imports[k]] == b.exports[imports[k]] {
      assert BuiltBefore(a, imports[k], i);
      var h :| 0 <= h < i && a.built[h] == imports[k];
      ExportsAgree(g, a, b, h);
    }
    SameOverlay(g.root, imports, |imports|, a.exports, b.exports);
  }

  lemma {:induction false} SameOverlay(root: Container, imports: seq<nat>, n: nat, a: map<nat, Container>,
                                       b: map<nat, Container>)
    requires n <= |imports|
    requires forall k :: 0 <= k < n ==> imports[k] in a && imports[k] in b && a[imports[k]] == b[imports[k]]
    ensures Overlay(root, imports, n, a) == Overlay(root, imports, n, b)
  {
    if n > 0 {
      SameOverlay(root, imports, n - 1, a, b);
    }
  }

  /** Loading `m` gives the same exports whatever was loaded before. */
  lemma {:induction false} LoadIsHistoryFree(g: Graph, m: nat, a: Books, b: Books)
    requires Consistent(g, a) && a.loading == {} && Consistent(g, b) && b.loading == {}
    requires Load(g, m, a).1.Loaded? && Load(g, m, b).1.Loaded?
    ensures Load(g, m, a).1 == Load(g, m, b).1
  {
    LoadIsGood(g, m, a);
    LoadIsGood(g, m, b);
    var (a', r) := Load(g, m, a);
    var i :| 0 <= i < |a'.built| && a'.built[i] == m;
    ExportsAgree(g, a', Load(g, m, b).0, i);
  }

  // ---------------------------------------------------------------- what a load shows to whom

  /** What a module finds when its providers are registered: the root snapshot and its imports' exports. */
  ghost function Seen(g: Graph, m: nat, done: map<nat, Container>): Container
    requires ImportsDone(g, m, done)
  {
    Overlay(g.root, g.modules[m].imports, |g.modules[m].imports|, done)
  }

  /** `i` is the instance of the last of the providers that supplies `t`, each made after the ones before it; or,
      where none supplies it, what was seen under `t` before. */
  ghost predicate ComesFrom(g: Graph, ps: seq<Provider>, seen: Container, t: Type, i: Instance) {
    exists cs, insts :: Chain(g, ps, |ps|, seen, cs, insts) && Shows(ps, insts, |ps|, seen, t, Some(i))
  }

  lemma {:induction false} ListedOnly(listed: seq<Option<Type>>, own: Container, exports: Container, t: Type)
    requires ExportsExactly(listed, own, exports)
    ensures t in exports <==> Some(t) in listed
    ensures t in exports ==> Lookup(own, t) == Some(exports[t])
  {
    assert t in exports <==> Lookup(exports, t).Some?;
    if Some(t) in listed {
      assert Some(t).value in own;
    }
  }

  /** What is built shows exactly the listed types, and under each what it should. */
  lemma {:induction false} BuildsShow(g: Graph, m: Module, seen: Container, exports: Container, t: Type)
    requires Builds(g, m, seen, exports)
    ensures t in exports <==> Some(t) in m.exports
    ensures t in exports ==> ComesFrom(g, m.providers, seen, t, exports[t])
  {
    var ps := m.providers;
    var own :| Provides(g, ps, seen, own) && ExportsExactly(m.exports, own, exports);
    var cs, insts :| Chain(g, ps, |ps|, seen, cs, insts) && cs[|ps|] == own;
    ListedOnly(m.exports, own, exports, t);
    assert Shows(ps, insts, |ps|, seen, t, Lookup(cs[|ps|], t));
  }

  /** A module that has been built was built from what its imports show. */
  lemma {:induction false} BuiltFromSeen(g: Graph, b: Books, m: nat)
    requires Consistent(g, b) && m in b.exports
    ensures ImportsDone(g, m, b.exports) && Builds(g, g.modules[m], Seen(g, m, b.exports), b.exports[m])
  {
    var i :| 0 <= i < |b.built| && b.built[i] == m;
    assert BuiltRight(g, b, i);
    BuildIff(g, g.modules[m], Seen(g, m, b.exports), b.exports[m]);
  }

  /** A load that succeeds returns exactly the listed types. Under each it returns the instance of the module's last
      provider that supplies it, and, where none does, what the last import that exports it shows, else the root. */
  lemma {:induction false} LoadedShows(g: Graph, m: nat, b: Books, t: Type)
    requires Consistent(g, b) && b.loading == {} && Load(g, m, b).1.Loaded?
    ensures var (b', r) := Load(g, m, b);
      && ImportsDone(g, m, b'.exports)
      && (t in r.exports <==> Some(t) in g.modules[m].exports)
      && (t in r.exports ==> ComesFrom(g, g.modules[m].providers, Seen(g, m, b'.exports), t, r.exports[t]))
  {
    LoadIsGood(g, m, b);
    var (b', r) := Load(g, m, b);
    BuiltFromSeen(g, b', m);
    BuildsShow(g, g.modules[m], Seen(g, m, b'.exports), r.exports, t);
  }

  /** Private providers stay private: a type that is not in the root container, and that no import of `m` lists among
      its exports, is not there when `m` is built, whatever its imports provide or import themselves. */
  lemma {:induction false} PrivateIsHidden(g: Graph, m: nat, b: Books, t: Type)
    requires Consistent(g, b) && b.loading == {} && Load(g, m, b).1.Loaded? && m in g.modules && t !in g.root
    requires forall k :: 0 <= k < |g.modules[m].imports| && g.modules[m].imports[k] in g.modules ==>
               Some(t) !in g.modules[g.modules[m].imports[k]].exports
    ensures var (b', r) := Load(g, m, b);
      ImportsDone(g, m, b'.exports) && t !in Seen(g, m, b'.exports)
  {
    LoadIsGood(g, m, b);
    var b' := Load(g, m, b).0;
    BuiltFromSeen(g, b', m);
    var imports := g.modules[m].imports;
    forall k | 0 <= k < |imports| ensures t !in b'.exports[imports[k]] {
      BuiltFromSeen(g, b', imports[k]);
      BuildsShow(g, g.modules[imports[k]], Seen(g, imports[k], b'.exports), b'.exports[imports[k]], t);
    }
    OverlayIsLastExport(g.root, imports, |imports|, b'.exports, t);
  }

  /** Any sequence of `LoadModule` calls on a new application, whatever panics on the way. */
  ghost function LoadRun(g: Graph, ms: seq<nat>): Books {
    if ms == [] then Books(map[], {}, [])
    else Load(g, ms[|ms| - 1], LoadRun(g, ms[..|ms| - 1])).0
  }

  lemma {:induction false} RunsStayConsistent(g: Graph, ms: seq<nat>)
    ensures Consistent(g, LoadRun(g, ms)) && LoadRun(g, ms).loading == {}
  {
    if ms != [] {
      RunsStayConsistent(g, ms[..|ms| - 1]);
      LoadOutcome(g, ms[|ms| - 1], LoadRun(g, ms[..|ms| - 1]));
    }
  }
}
