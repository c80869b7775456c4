/** The Redis subscription plan: translating patterns to Redis globs, splitting them into
    SUBSCRIBE and PSUBSCRIBE sets, and collapsing the duplicate deliveries that follow. */
module RedisPlan {
  import opened Options
  import opened Patterns
  import opened Routers

  // ---------------------------------------------------------------- Redis's own glob language

  /** One pass over a character class, from just past `[` (and `^`): whether `c` is in it, and
      the pattern after the closing bracket. An unclosed class ends with the pattern. */
  ghost function ClassScan(g: string, c: char): (bool, string)
    decreases |g|
  {
    if g == "" then (false, "")
    else if g[0] == '\\' && |g| >= 2 then
      var (hit, rest) := ClassScan(g[2..], c);
      (hit || g[1] == c, rest)
    else if g[0] == ']' then (false, g[1..])
    else if |g| >= 3 && g[1] == '-' then
      var (hit, rest) := ClassScan(g[3..], c);
      (hit || g[0] <= c <= g[2] || g[2] <= c <= g[0], rest)
    else
      var (hit, rest) := ClassScan(g[1..], c);
      (hit || g[0] == c, rest)
  }

  /** What PSUBSCRIBE matches: `*`, `?`, classes, and `\` making the next character literal. */
  ghost predicate GlobMatches(g: string, s: string)
    decreases |s|, |g|
  {
    if g == "" then s == ""
    else if g[0] == '*' then GlobMatches(g[1..], s) || (s != "" && GlobMatches(g, s[1..]))
    else if s == "" then false
    else if g[0] == '?' then GlobMatches(g[1..], s[1..])
    else if g[0] == '[' then
      var negated := |g| >= 2 && g[1] == '^';
      var (hit, rest) := ClassScan(if negated then g[2..] else g[1..], s[0]);
      hit != negated && GlobMatches(rest, s[1..])
    else if g[0] == '\\' && |g| >= 2 then g[1] == s[0] && GlobMatches(g[2..], s[1..])
    else g[0] == s[0] && GlobMatches(g[1..], s[1..])
  }

  // ---------------------------------------------------------------- translation

  predicate IsBracketOrSlash(c: char) {
    c == '[' || c == ']' || c == '\\'
  }

  function Translated(p: string): string {
    if p == "" then ""
    else (if IsBracketOrSlash(p[0]) then ['\\', p[0]] else [p[0]]) + Translated(p[1..])
  }

  function Escaped(s: string): string {
    if s == "" then ""
    else (if IsBracketOrSlash(s[0]) || IsWildcardChar(s[0]) then ['\\', s[0]] else [s[0]]) + Escaped(s[1..])
  }

  lemma {:induction false} TranslatedAppend(p: string, c: char)
    ensures Translated(p + [c]) == Translated(p) + (if IsBracketOrSlash(c) then ['\\', c] else [c])
  {
    if p == "" {
      assert p + [c] == [c] && [c][1..] == "";
    } else {
      assert (p + [c])[1..] == p[1..] + [c];
      TranslatedAppend(p[1..], c);
    }
  }

  lemma {:induction false} EscapedAppend(s: string, c: char)
    ensures Escaped(s + [c]) == Escaped(s) + (if IsBracketOrSlash(c) || IsWildcardChar(c) then ['\\', c] else [c])
  {
    if s == "" {
      assert s + [c] == [c] && [c][1..] == "";
    } else {
      assert (s + [c])[1..] == s[1..] + [c];
      EscapedAppend(s[1..], c);
    }
  }

  method ToRedisPattern(pattern: string) returns (out: string)
    ensures out == Translated(pattern)
  {
    out := "";
    for i := 0 to |pattern|
      invariant out == Translated(pattern[..i])
    {
      var c := pattern[i];
      assert pattern[..i + 1] == pattern[..i] + [c];
      TranslatedAppend(pattern[..i], c);
      if IsBracketOrSlash(c) {
        out := out + ['\\'] + [c];
      } else {
        out := out + [c];
      }
    }
    assert pattern[..|pattern|] == pattern;
  }

  method EscapeGlob(s: string) returns (out: string)
    ensures out == Escaped(s)
  {
    out := "";
    for i := 0 to |s|
      invariant out == Escaped(s[..i])
    {
      var c := s[i];
      assert s[..i + 1] == s[..i] + [c];
      EscapedAppend(s[..i], c);
      if IsWildcardChar(c) || IsBracketOrSlash(c) {
        out := out + ['\\'] + [c];
      } else {
        out := out + [c];
      }
    }
    assert s[..|s|] == s;
  }

  /** A pattern means at the broker what it means to `Pattern.Match`. */
  lemma {:induction false} TranslationPreservesMeaning(p: string, s: string)
    ensures GlobMatches(Translated(p), s) <==> Matches(p, s)
    decreases |p|, |s|
  {
    if p != "" {
      var g, rest := Translated(p), Translated(p[1..]);
      if IsBracketOrSlash(p[0]) {
        assert g[2..] == rest;
      } else {
        assert g[1..] == rest;
      }
      if p[0] == '*' {
        TranslationPreservesMeaning(p[1..], s);
      }
      if s != "" {
        if p[0] == '*' {
          TranslationPreservesMeaning(p, s[1..]);
        } else {
          TranslationPreservesMeaning(p[1..], s[1..]);
        }
      }
    }
  }

  /** The first byte of an escaped prefix matches itself and nothing else. */
  lemma {:induction false} EscapedByteIsLiteral(prefix: string, g: string, s: string)
    requires prefix != ""
    ensures GlobMatches(Escaped(prefix) + g, s) <==>
            s != "" && s[0] == prefix[0] && GlobMatches(Escaped(prefix[1..]) + g, s[1..])
  {
    var whole, rest := Escaped(prefix) + g, Escaped(prefix[1..]) + g;
    if IsBracketOrSlash(prefix[0]) || IsWildcardChar(prefix[0]) {
      assert whole[2..] == rest;
    } else {
      assert whole[1..] == rest;
    }
  }

  /** An escaped prefix matches itself and nothing else. */
  lemma {:induction false} EscapedPrefixIsLiteral(prefix: string, g: string, s: string)
    ensures GlobMatches(Escaped(prefix) + g, s) <==> prefix <= s && GlobMatches(g, s[|prefix|..])
    decreases |prefix|
  {
    if prefix == "" {
      assert Escaped(prefix) + g == g && s[0..] == s;
    } else {
      EscapedByteIsLiteral(prefix, g, s);
      if s != "" {
        EscapedPrefixIsLiteral(prefix[1..], g, s[1..]);
        PrefixByHead(prefix, s);
      }
    }
  }

  lemma {:induction false} PrefixByHead(prefix: string, s: string)
    requires prefix != "" && s != ""
    ensures prefix <= s <==> prefix[0] == s[0] && prefix[1..] <= s[1..]
    ensures prefix <= s ==> s[1..][|prefix[1..]|..] == s[|prefix|..]
  {
    assert prefix == [prefix[0]] + prefix[1..] && s == [s[0]] + s[1..];
  }

  lemma {:induction false} TranslatedHead(p: string)
    requires p != ""
    ensures if IsBracketOrSlash(p[0]) then |Translated(p)| >= 2 && Translated(p)[0] == '\\' && Translated(p)[1] == p[0]
            else |Translated(p)| >= 1 && Translated(p)[0] == p[0]
  {
    assert IsBracketOrSlash(p[0]) ==> Translated(p) == ['\\', p[0]] + Translated(p[1..]);
  }

  lemma {:induction false} TranslationIsInjective(p: string, q: string)
    requires Translated(p) == Translated(q)
    ensures p == q
  {
    if p != "" && q != "" {
      var g := Translated(p);
      TranslatedHead(p);
      TranslatedHead(q);
      if IsBracketOrSlash(p[0]) {
        assert g[2..] == Translated(p[1..]) && g[2..] == Translated(q[1..]);
      } else {
        assert g[1..] == Translated(p[1..]) && g[1..] == Translated(q[1..]);
      }
      TranslationIsInjective(p[1..], q[1..]);
      assert p == [p[0]] + p[1..] && q == [q[0]] + q[1..];
    }
  }

  function Channel(prefix: string, subject: string): string {
    prefix + ":" + subject
  }

  function GlobFor(prefix: string, pattern: string): string {
    Escaped(prefix + ":") + Translated(pattern)
  }

  /** The subscription for a pattern receives a channel exactly when the channel is in the
      namespace and its subject matches the pattern. */
  lemma {:induction false} GlobForMatches(prefix: string, pattern: string, channel: string)
    ensures GlobMatches(GlobFor(prefix, pattern), channel) <==>
      prefix + ":" <= channel && Matches(pattern, channel[|prefix| + 1..])
  {
    EscapedPrefixIsLiteral(prefix + ":", Translated(pattern), channel);
    if prefix + ":" <= channel {
      TranslationPreservesMeaning(pattern, channel[|prefix| + 1..]);
    }
  }

  /** On the channel a subject is published to, that is plain matching of the subject. */
  lemma {:induction false} GlobMatchesSubject(prefix: string, pattern: string, subject: string)
    ensures GlobMatches(GlobFor(prefix, pattern), Channel(prefix, subject)) <==> Matches(pattern, subject)
  {
    GlobForMatches(prefix, pattern, Channel(prefix, subject));
    assert Channel(prefix, subject)[|prefix| + 1..] == subject;
  }

  lemma {:induction false} GlobForIsInjective(prefix: string, p: string, q: string)
    requires GlobFor(prefix, p) == GlobFor(prefix, q)
    ensures p == q
  {
    var n := |Escaped(prefix + ":")|;
    assert GlobFor(prefix, p)[n..] == Translated(p) && GlobFor(prefix, q)[n..] == Translated(q);
    TranslationIsInjective(p, q);
  }

  // ---------------------------------------------------------------- the plan

  const ReplyNamespace: string := "reply:"

  datatype GlobSub = GlobSub(glob: string, pattern: string)

  datatype Plan = Plan(prefix: string, channels: seq<string>, globs: seq<GlobSub>, literal: set<string>)

  datatype PlanResult =
    | Planned(plan: Plan) | EmptyPrefix | BadPattern(pattern: string) | Reserved(pattern: string) | NoPatterns

  predicate Usable(pattern: string) {
    ValidPattern(pattern) && !(ReplyNamespace <= pattern)
  }

  /** The wildcards (or the literals) of a list, each where it first occurs. */
  function FirstSeen(patterns: seq<string>, wildcard: bool): seq<string> {
    if patterns == [] then []
    else
      var before := FirstSeen(patterns[..|patterns| - 1], wildcard);
      var p := patterns[|patterns| - 1];
      if IsWildcard(p) == wildcard && p !in before then before + [p] else before
  }

  function Subs(prefix: string, patterns: seq<string>): seq<GlobSub> {
    seq(|patterns|, i requires 0 <= i < |patterns| => GlobSub(GlobFor(prefix, patterns[i]), patterns[i]))
  }

  function Channels(prefix: string, subjects: seq<string>): seq<string> {
    seq(|subjects|, i requires 0 <= i < |subjects| => Channel(prefix, subjects[i]))
  }

  ghost predicate IsPlanFor(plan: Plan, prefix: string, patterns: seq<string>) {
    && plan.prefix == prefix
    && plan.globs == Subs(prefix, FirstSeen(patterns, true))
    && plan.channels == Channels(prefix, FirstSeen(patterns, false))
    && plan.literal == set c | c in plan.channels
  }

  lemma {:induction false} ChannelIsInjective(prefix: string, a: string, b: string)
    requires Channel(prefix, a) == Channel(prefix, b)
    ensures a == b
  {
    assert Channel(prefix, a)[|prefix| + 1..] == a && Channel(prefix, b)[|prefix| + 1..] == b;
  }

  /** Deduplicating by glob text is deduplicating by pattern. */
  lemma {:induction false} SeenGlob(prefix: string, patterns: seq<string>, p: string)
    ensures GlobFor(prefix, p) in (set g | g in Subs(prefix, patterns) :: g.glob) <==> p in patterns
  {
    if GlobFor(prefix, p) in (set g | g in Subs(prefix, patterns) :: g.glob) {
      var i :| 0 <= i < |patterns| && Subs(prefix, patterns)[i].glob == GlobFor(prefix, p);
      GlobForIsInjective(prefix, patterns[i], p);
    }
    if p in patterns {
      var i :| 0 <= i < |patterns| && patterns[i] == p;
      assert Subs(prefix, patterns)[i].glob == GlobFor(prefix, p);
    }
  }

  lemma {:induction false} SeenChannel(prefix: string, subjects: seq<string>, s: string)
    ensures Channel(prefix, s) in Channels(prefix, subjects) <==> s in subjects
  {
    if Channel(prefix, s) in Channels(prefix, subjects) {
      var i :| 0 <= i < |subjects| && Channels(prefix, subjects)[i] == Channel(prefix, s);
      ChannelIsInjective(prefix, subjects[i], s);
    }
    if s in subjects {
      var i :| 0 <= i < |subjects| && subjects[i] == s;
      assert Channels(prefix, subjects)[i] == Channel(prefix, s);
    }
  }

  method NewPlan(prefix: string, patterns: seq<string>) returns (result: PlanResult)
    ensures result.Planned? <==> prefix != "" && patterns != [] && forall p :: p in patterns ==> Usable(p)
    ensures result.Planned? ==> IsPlanFor(result.plan, prefix, patterns)
  {
    if prefix == "" {
      return EmptyPrefix;
    }
    var channels, globs: seq<GlobSub> := [], [];
    var literal, seenGlob: set<string> := {}, {};
    var escapedPrefix := EscapeGlob(prefix + ":");

    for i := 0 to |patterns|
      invariant forall k :: 0 <= k < i ==> Usable(patterns[k])
      invariant globs == Subs(prefix, FirstSeen(patterns[..i], true))
      invariant channels == Channels(prefix, FirstSeen(patterns[..i], false))
      invariant seenGlob == set g | g in globs :: g.glob
      invariant literal == set c | c in channels
      invariant i > 0 ==> channels != [] || globs != []
    {
      var pattern := patterns[i];
      assert pattern in patterns;
      if !ValidPattern(pattern) {
        return BadPattern(pattern);
      }
      if ReplyNamespace <= pattern {
        return Reserved(pattern);
      }
      assert patterns[..i + 1][..i] == patterns[..i];
      if IsWildcard(pattern) {
        var translated := ToRedisPattern(pattern);
        var glob := escapedPrefix + translated;
        SeenGlob(prefix, FirstSeen(patterns[..i], true), pattern);
        if glob in seenGlob {
          continue;
        }
        seenGlob := seenGlob + {glob};
        globs := globs + [GlobSub(glob, pattern)];
        continue;
      }
      var channel := prefix + ":" + pattern;
      SeenChannel(prefix, FirstSeen(patterns[..i], false), pattern);
      if channel in literal {
        continue;
      }
      literal := literal + {channel};
      channels := channels + [channel];
    }
    assert patterns[..|patterns|] == patterns;
    if |channels| == 0 && |globs| == 0 {
      return NoPatterns;
    }
    result := Planned(Plan(prefix, channels, globs, literal));
  }

  /** `plan.subject`. */
  function Subject(plan: Plan, channel: string): Option<string> {
    if plan.prefix + ":" <= channel then Some(channel[|plan.prefix| + 1..]) else None
  }

  /** The glob of the first subscription, in plan order, whose pattern matches. */
  ghost function FirstGlob(globs: seq<GlobSub>, subject: string): Option<GlobSub> {
    if globs == [] then None
    else if Matches(globs[0].pattern, subject) then Some(globs[0])
    else FirstGlob(globs[1..], subject)
  }

  ghost predicate Accepts(plan: Plan, delivered: string, channel: string) {
    if channel in plan.literal then delivered == ""
    else if delivered == "" || Subject(plan, channel).None? then true
    else
      var first := FirstGlob(plan.globs, Subject(plan, channel).value);
      first.Some? ==> first.value.glob == delivered
  }

  method Accept(plan: Plan, delivered: string, channel: string) returns (ok: bool)
    ensures ok <==> Accepts(plan, delivered, channel)
  {
    if channel in plan.literal {
      return delivered == "";
    }
    if delivered == "" {
      return true;
    }
    var subject := Subject(plan, channel);
    if subject.None? {
      return true;
    }
    var globs := plan.globs;
    assert globs[0..] == globs;
    for i := 0 to |globs|
      invariant FirstGlob(globs, subject.value) == FirstGlob(globs[i..], subject.value)
    {
      var hit, _ := Match(globs[i].pattern, subject.value);
      assert globs[i..][1..] == globs[i + 1..];
      if hit {
        return globs[i].glob == delivered;
      }
    }
    return true;
  }

  // ---------------------------------------------------------------- one delivery per message

  /** What Redis sends for one published message: a plain delivery (attributed to "") if the
      channel is subscribed, and one per subscribed glob that matches. */
  ghost function Deliveries(plan: Plan, channel: string): set<string> {
    (if channel in plan.channels then {""} else {}) +
    set g | g in plan.globs && GlobMatches(g.glob, channel) :: g.glob
  }

  ghost function AcceptedDeliveries(plan: Plan, channel: string): set<string> {
    set d | d in Deliveries(plan, channel) && Accepts(plan, d, channel)
  }

  /** The delivery that belongs to a route. */
  function DeliveryOf(prefix: string, route: Route): string {
    if IsWildcard(route.pattern) then GlobFor(prefix, route.pattern) else ""
  }

  ghost predicate Ranked(ws: seq<string>) {
    forall i, j :: 0 <= i < j < |ws| ==> Beats(ws[i], ws[j])
  }

  /** In Router order, without repeats, the wildcards of a plan keep their order. */
  lemma {:induction false} FirstSeenInOrder(patterns: seq<string>, wildcard: bool)
    requires forall i, j :: 0 <= i < j < |patterns| && IsWildcard(patterns[i]) ==>
      IsWildcard(patterns[j]) && Beats(patterns[i], patterns[j])
    ensures forall p :: p in FirstSeen(patterns, wildcard) <==> p in patterns && IsWildcard(p) == wildcard
    ensures Ranked(FirstSeen(patterns, true))
  {
    if patterns != [] {
      var n := |patterns| - 1;
      var before := patterns[..n];
      FirstSeenInOrder(before, wildcard);
      FirstSeenMembers(before, true);
      assert patterns == before + [patterns[n]];
      var ws := FirstSeen(before, true);
      forall i | 0 <= i < |ws| && IsWildcard(patterns[n]) && patterns[n] !in ws
        ensures Beats(ws[i], patterns[n])
      {
        assert ws[i] in ws;
        var k :| 0 <= k < n && patterns[k] == ws[i];
      }
    }
  }

  lemma {:induction false} FirstSeenMembers(patterns: seq<string>, wildcard: bool)
    ensures forall p :: p in FirstSeen(patterns, wildcard) <==> p in patterns && IsWildcard(p) == wildcard
  {
    if patterns != [] {
      var n := |patterns| - 1;
      FirstSeenMembers(patterns[..n], wildcard);
      assert patterns == patterns[..n] + [patterns[n]];
    }
  }

  ghost predicate IsBestGlob(prefix: string, ws: seq<string>, subject: string, found: Option<GlobSub>) {
    match found
    case None => forall p :: p in ws ==> !Matches(p, subject)
    case Some(g) =>
      && g.pattern in ws && g.glob == GlobFor(prefix, g.pattern) && Matches(g.pattern, subject)
      && forall p :: p in ws && p != g.pattern && Matches(p, subject) ==> Beats(g.pattern, p)
  }

  lemma {:induction false} RankedTail(ws: seq<string>)
    requires Ranked(ws) && ws != []
    ensures Ranked(ws[1..]) && forall p :: p in ws[1..] ==> Beats(ws[0], p)
  {
    assert forall i, j :: 0 <= i < j < |ws| - 1 ==> ws[1..][i] == ws[i + 1] && ws[1..][j] == ws[j + 1];
    forall p | p in ws[1..]
      ensures Beats(ws[0], p)
    {
      var k :| 0 <= k < |ws| - 1 && ws[1..][k] == p;
      assert ws[k + 1] == p;
    }
  }

  /** The first matching glob of a plan is the best matching wildcard. */
  lemma {:induction false} FirstGlobIsBest(prefix: string, ws: seq<string>, subject: string)
    requires Ranked(ws)
    ensures IsBestGlob(prefix, ws, subject, FirstGlob(Subs(prefix, ws), subject))
  {
    if ws != [] {
      assert Subs(prefix, ws)[1..] == Subs(prefix, ws[1..]);
      RankedTail(ws);
      FirstGlobIsBest(prefix, ws[1..], subject);
      assert forall p :: p in ws <==> p == ws[0] || p in ws[1..] by {
        assert ws == [ws[0]] + ws[1..];
      }
    }
  }

  /** Redis delivers something exactly when a registered pattern matches the subject. */
  lemma {:induction false} DeliveredIff(plan: Plan, prefix: string, patterns: seq<string>, channel: string, d: string)
    requires IsPlanFor(plan, prefix, patterns)
    ensures d in Deliveries(plan, channel) <==>
      && prefix + ":" <= channel
      && exists p :: p in patterns && Matches(p, channel[|prefix| + 1..]) &&
          d == if IsWildcard(p) then GlobFor(prefix, p) else ""
  {
    var ws, ls := FirstSeen(patterns, true), FirstSeen(patterns, false);
    FirstSeenMembers(patterns, true);
    FirstSeenMembers(patterns, false);
    if d in Deliveries(plan, channel) {
      if d == "" && channel in plan.channels {
        var i :| 0 <= i < |ls| && plan.channels[i] == channel;
        assert channel == Channel(prefix, ls[i]) && channel[|prefix| + 1..] == ls[i];
        assert ls[i] in ls;
        LiteralMatches(ls[i], ls[i]);
      } else {
        var g :| g in plan.globs && GlobMatches(g.glob, channel) && g.glob == d;
        var i :| 0 <= i < |ws| && Subs(prefix, ws)[i] == g;
        assert ws[i] in ws;
        GlobForMatches(prefix, ws[i], channel);
      }
    }
    if prefix + ":" <= channel {
      var subject := channel[|prefix| + 1..];
      assert channel == Channel(prefix, subject);
      forall p | p in patterns && Matches(p, subject) && d == (if IsWildcard(p) then GlobFor(prefix, p) else "")
        ensures d in Deliveries(plan, channel)
      {
        if IsWildcard(p) {
          GlobForMatches(prefix, p, channel);
          var i :| 0 <= i < |ws| && ws[i] == p;
          assert Subs(prefix, ws)[i] in plan.globs;
        } else {
          LiteralMatches(p, subject);
          SeenChannel(prefix, ls, p);
        }
      }
    }
  }

  /** Every published message is handled once, by the subscription of the route the router
      picks: of the deliveries Redis makes, `accept` lets exactly that one through; and it
      lets one through whenever there is one. */
  lemma {:induction false} ExactlyOneAccepted(plan: Plan, prefix: string, patterns: seq<string>, routes: set<Route>,
                                              subject: string,
                                              best: Option<Route>)
    requires InRouterOrder(routes, patterns) && IsPlanFor(plan, prefix, patterns)
    requires IsBest(routes, subject, best)
    ensures AcceptedDeliveries(plan, Channel(prefix, subject)) ==
            if best.Some? then {DeliveryOf(prefix, best.value)} else {}
    ensures Deliveries(plan, Channel(prefix, subject)) == {} <==> best.None?
  {
    var channel := Channel(prefix, subject);
    assert channel[|prefix| + 1..] == subject;
    forall d
      ensures d in Deliveries(plan, channel) <==>
        exists p :: p in patterns && Matches(p, subject) && d == if IsWildcard(p) then GlobFor(prefix, p) else ""
    {
      DeliveredIff(plan, prefix, patterns, channel, d);
    }
    match best
    case None =>
      forall p | p in patterns
        ensures !Matches(p, subject)
      {
        var r :| r in routes && r.pattern == p;
      }
    case Some(r) =>
      assert r.pattern in patterns;
      var mine := DeliveryOf(prefix, r);
      assert mine in Deliveries(plan, channel);
      OnlyBestAccepted(plan, prefix, patterns, routes, subject, r);
  }

  lemma {:induction false} OnlyBestAccepted(plan: Plan, prefix: string, patterns: seq<string>, routes: set<Route>,
                                            subject: string,
                                            best: Route)
    requires InRouterOrder(routes, patterns) && IsPlanFor(plan, prefix, patterns)
    requires IsBest(routes, subject, Some(best)) && best.pattern in patterns
    ensures forall d :: d in Deliveries(plan, Channel(prefix, subject)) ==>
      (Accepts(plan, d, Channel(prefix, subject)) <==> d == DeliveryOf(prefix, best))
  {
    var channel := Channel(prefix, subject);
    var ws, ls := FirstSeen(patterns, true), FirstSeen(patterns, false);
    FirstSeenInOrder(patterns, true);
    FirstSeenMembers(patterns, false);
    SeenChannel(prefix, ls, subject);
    assert Subject(plan, channel) == Some(subject);
    if subject in ls {
      LiteralMatches(subject, subject);
      var r :| r in routes && r.pattern == subject;
      if r != best {
        BeatsIsTotal(best.pattern, subject);
        LiteralMatches(best.pattern, subject);
      }
    } else {
      LiteralBest(best.pattern, subject, ls);
      FirstGlobIsBest(prefix, ws, subject);
      var first := FirstGlob(plan.globs, subject);
      assert best.pattern in ws;
      if first.value.pattern != best.pattern {
        var r :| r in routes && r.pattern == first.value.pattern;
        BeatsIsTotal(best.pattern, first.value.pattern);
      }
    }
  }

  lemma {:induction false} LiteralBest(p: string, subject: string, ls: seq<string>)
    requires Matches(p, subject) && subject !in ls
    ensures p in ls ==> IsWildcard(p)
  {
    if !IsWildcard(p) {
      LiteralMatches(p, subject);
    }
  }

  /** Outside the namespace nothing is delivered. */
  lemma {:induction false} ForeignChannel(plan: Plan, prefix: string, patterns: seq<string>, channel: string)
    requires IsPlanFor(plan, prefix, patterns) && !(prefix + ":" <= channel)
    ensures Deliveries(plan, channel) == {}
  {
    forall d
      ensures d !in Deliveries(plan, channel)
    {
      DeliveredIff(plan, prefix, patterns, channel, d);
    }
  }

  // ---------------------------------------------------------------- reply inboxes

  /** The pattern's characters up to its first `*` are compatible with the reserved segment. */
  predicate ReachesInto(p: string, reserved: string) {
    reserved == "" || (p != "" &&
                       (p[0] == '*' || ((p[0] == '?' || p[0] == reserved[0]) && ReachesInto(p[1..], reserved[1..]))))
  }

  /** Some subject matches any given pattern. */
  lemma {:induction false} Satisfiable(p: string) returns (s: string)
    ensures Matches(p, s)
  {
    if p == "" {
      s := "";
    } else {
      var rest := Satisfiable(p[1..]);
      s := if p[0] == '*' then rest else [p[0]] + rest;
      assert p[0] != '*' ==> s[1..] == rest;
    }
  }

  lemma {:induction false} ReachesIntoIff(p: string, reserved: string)
    ensures ReachesInto(p, reserved) <==> exists id :: Matches(p, reserved + id)
  {
    if reserved == "" {
      var s := Satisfiable(p);
      assert reserved + s == s;
    } else if p != "" && p[0] == '*' {
      var s := Satisfiable(p[1..]);
      assert (reserved + s)[|reserved|..] == s;
      StarSwallows(p, reserved + s, |reserved|);
    } else if p != "" {
      ReachesIntoIff(p[1..], reserved[1..]);
      if ReachesInto(p, reserved) {
        var id :| Matches(p[1..], reserved[1..] + id);
        assert (reserved + id)[1..] == reserved[1..] + id;
        assert Matches(p, reserved + id);
      }
      if id :| Matches(p, reserved + id) {
        assert (reserved + id)[1..] == reserved[1..] + id;
        assert Matches(p[1..], reserved[1..] + id);
      }
    }
  }

  /** A subscription receives some client's reply inbox (`prefix:reply:<id>`) exactly when its
      pattern reaches into the reserved segment. Rejecting patterns that start with the
      segment rules this out for literals only. */
  lemma {:induction false} StraddlesInboxIff(prefix: string, p: string)
    requires Usable(p) && IsWildcard(p)
    ensures (exists id :: GlobMatches(GlobFor(prefix, p), Channel(prefix, ReplyNamespace + id))) <==>
      ReachesInto(p, ReplyNamespace)
  {
    ReachesIntoIff(p, ReplyNamespace);
    forall id
      ensures GlobMatches(GlobFor(prefix, p), Channel(prefix, ReplyNamespace + id)) <==> Matches(p, ReplyNamespace + id)
    {
      GlobMatchesSubject(prefix, p, ReplyNamespace + id);
    }
  }

  /** `*` is an accepted pattern and does receive every reply inbox; a literal never does. */
  lemma {:induction false} FirehoseStraddlesInbox(prefix: string, literal: string, id: string)
    requires Usable(literal) && !IsWildcard(literal)
    ensures Usable("*") && IsWildcard("*")
    ensures GlobMatches(GlobFor(prefix, "*"), Channel(prefix, ReplyNamespace + id))
    ensures Channel(prefix, literal) != Channel(prefix, ReplyNamespace + id)
  {
    assert IsWildcardChar("*"[0]);
    var inbox := ReplyNamespace + id;
    StarSwallows("*", inbox, |inbox|);
    GlobMatchesSubject(prefix, "*", inbox);
    if Channel(prefix, literal) == Channel(prefix, ReplyNamespace + id) {
      ChannelIsInjective(prefix, literal, ReplyNamespace + id);
    }
  }
}
