/** The `guard` struct tag: its parser, a printer, and what the two have in common. */
module GuardTag {
  import opened Options
  import opened Patterns

  datatype GuardSpec = GuardSpec(name: string, args: seq<string>)

  datatype Error = NoGuardName | Unterminated | UnmatchedParen | NothingFound

  datatype Parsed = Guards(specs: seq<GuardSpec>) | Invalid(error: Error)

  /** `strings.TrimSpace`, for ASCII white space. */
  function Trim(s: string): string {
    TrimAt(s, 0, |s|)
  }

  function TrimAt(s: string, i: nat, j: nat): string
    requires i <= j <= |s|
    decreases j - i
  {
    if i == j then ""
    else if IsSpace(s[i]) then TrimAt(s, i + 1, j)
    else if IsSpace(s[j - 1]) then TrimAt(s, i, j - 1)
    else s[i..j]
  }

  ghost predicate Blank(s: string) {
    BlankAt(s, 0, |s|)
  }

  ghost predicate BlankAt(s: string, i: nat, j: nat)
    requires j <= |s|
  {
    forall k :: i <= k < j ==> IsSpace(s[k])
  }

  /** `s` is blank but for `r`, which stands from `i` to `j` and has no blank at either end. */
  ghost predicate CutOut(s: string, r: string, i: nat, j: nat) {
    i <= j <= |s| && r == s[i..j] && IsTrimmed(r) && BlankAt(s, 0, i) && BlankAt(s, j, |s|)
  }

  lemma {:induction false} TrimAtCuts(s: string, a: nat, b: nat) returns (i: nat, j: nat)
    requires a <= b <= |s| && BlankAt(s, 0, a) && BlankAt(s, b, |s|)
    ensures CutOut(s, TrimAt(s, a, b), i, j)
    decreases b - a
  {
    if a == b {
      i, j := a, b;
    } else if IsSpace(s[a]) {
      i, j := TrimAtCuts(s, a + 1, b);
    } else if IsSpace(s[b - 1]) {
      i, j := TrimAtCuts(s, a, b - 1);
    } else {
      i, j := a, b;
    }
  }

  /** Trimming cuts blanks off either end and nothing else. */
  lemma {:induction false} TrimCuts(s: string) returns (i: nat, j: nat)
    ensures CutOut(s, Trim(s), i, j)
  {
    i, j := TrimAtCuts(s, 0, |s|);
  }

  lemma {:induction false} OneCut(s: string, r: string, i: nat, j: nat, r': string, i': nat, j': nat)
    requires CutOut(s, r, i, j) && CutOut(s, r', i', j')
    ensures r == r'
  {
    assert i < j ==> !IsSpace(s[i]) && !IsSpace(s[j - 1]);
    assert i' < j' ==> !IsSpace(s[i']) && !IsSpace(s[j' - 1]);
  }

  lemma {:induction false} TrimIs(s: string, r: string, i: nat, j: nat)
    requires CutOut(s, r, i, j)
    ensures Trim(s) == r
  {
    var i', j' := TrimCuts(s);
    OneCut(s, r, i, j, Trim(s), i', j');
  }

  lemma {:induction false} TrimIsTrimmed(s: string)
    ensures IsTrimmed(Trim(s))
  {
    var i, j := TrimCuts(s);
  }

  lemma {:induction false} TrimKeeps(s: string)
    requires IsTrimmed(s)
    ensures Trim(s) == s
  {
    assert s[0..|s|] == s;
    TrimIs(s, s, 0, |s|);
  }

  /** A blank before a text is trimmed away. */
  lemma {:induction false} TrimSkips(c: char, s: string)
    requires IsSpace(c)
    ensures Trim([c] + s) == Trim(s)
  {
    var i, j := TrimCuts(s);
    assert ([c] + s)[i + 1..j + 1] == s[i..j];
    TrimIs([c] + s, Trim(s), i + 1, j + 1);
  }

  // ---------------------------------------------------------------- the two loops, as functions

  /** The end of an argument: kept when it is not blank, or was quoted. It is always trimmed. */
  function AppendArg(args: seq<string>, current: string, hasArg: bool): seq<string> {
    if Trim(current) != "" || hasArg then args + [Trim(current)] else args
  }

  /** The variables of the argument loop. */
  datatype ArgState = ArgState(current: string, quote: Option<char>, hasArg: bool, args: seq<string>)

  function NewArg(args: seq<string>): ArgState {
    ArgState("", None, false, args)
  }

  function ArgStep(c: char, st: ArgState): ArgState {
    if st.quote.Some? then
      if c == st.quote.value then st.(quote := None, hasArg := true) else st.(current := st.current + [c])
    else if c == '\'' || c == '"' then st.(quote := Some(c))
    else if c == ',' then NewArg(Appended(st))
    else st.(current := st.current + [c])
  }

  function Appended(st: ArgState): seq<string> {
    AppendArg(st.args, st.current, st.hasArg)
  }

  /** A parenthesis ends the list, unless it is in quotes. */
  predicate Ends(c: char, st: ArgState) {
    st.quote.None? && c == ')'
  }

  /** The argument list from index `i`: the arguments and the index of the closing parenthesis. */
  function ArgsFrom(tag: string, i: nat, st: ArgState): (r: Option<(seq<string>, nat)>)
    requires i <= |tag|
    ensures r.Some? ==> i <= r.value.1 < |tag|
    decreases |tag| - i
  {
    if i == |tag| then None
    else if Ends(tag[i], st) then Some((Appended(st), i))
    else ArgsFrom(tag, i + 1, ArgStep(tag[i], st))
  }

  predicate IsSeparator(c: char) {
    c == ',' || c == ' ' || c == '\t'
  }

  function Flush(specs: seq<GuardSpec>, name: string): seq<GuardSpec> {
    if Trim(name) != "" then specs + [GuardSpec(Trim(name), [])] else specs
  }

  /** The rest of a tag from index `i`, with a name in the making. */
  function TagFrom(tag: string, i: nat, name: string, specs: seq<GuardSpec>): Parsed
    requires i <= |tag|
    decreases |tag| - i
  {
    if i == |tag| then
      var all := Flush(specs, name);
      if all == [] then Invalid(NothingFound) else Guards(all)
    else if tag[i] == '(' then
      if Trim(name) == "" then Invalid(NoGuardName)
      else match ArgsFrom(tag, i + 1, NewArg([]))
        case None => Invalid(Unterminated)
        case Some((args, close)) => TagFrom(tag, close + 1, "", specs + [GuardSpec(Trim(name), args)])
    else if tag[i] == ')' then Invalid(UnmatchedParen)
    else
      var (name', specs') := TagStep(tag[i], name, specs);
      TagFrom(tag, i + 1, name', specs')
  }

  /** A character that is no parenthesis. */
  function TagStep(c: char, name: string, specs: seq<GuardSpec>): (string, seq<GuardSpec>) {
    if IsSeparator(c) then ("", Flush(specs, name)) else (name + [c], specs)
  }

  function Parse(tag: string): Parsed {
    if Trim(tag) == "" then Guards([]) else TagFrom(Trim(tag), 0, "", [])
  }

  // ---------------------------------------------------------------- the code

  method ParseGuardArgs(tag: string, start: nat) returns (r: Option<(seq<string>, nat)>)
    requires start <= |tag|
    ensures r == ArgsFrom(tag, start, NewArg([]))
  {
    var current, quote: Option<char>, hasArg, args: seq<string> := "", None, false, [];
    for i := start to |tag|
      invariant ArgsFrom(tag, start, NewArg([])) == ArgsFrom(tag, i, ArgState(current, quote, hasArg, args))
    {
      var c := tag[i];
      if quote.Some? {
        if c == quote.value {
          quote, hasArg := None, true;
          continue;
        }
        current := current + [c];
        continue;
      }
      if c == '\'' || c == '"' {
        quote := Some(c);
      } else if c == ',' {
        args := AppendArg(args, current, hasArg);
        current, hasArg := "", false;
      } else if c == ')' {
        if Trim(current) != "" || hasArg || |args| > 0 {
          args := AppendArg(args, current, hasArg);
        }
        return Some((args, i));
      } else {
        current := current + [c];
      }
    }
    r := None;
  }

  method ParseGuardTag(tag: string) returns (r: Parsed)
    ensures r == Parse(tag)
  {
    var t := Trim(tag);
    if t == "" {
      return Guards([]);
    }
    var specs: seq<GuardSpec>, name, i := [], "", 0;
    while i < |t|
      invariant 0 <= i <= |t| && TagFrom(t, 0, "", []) == TagFrom(t, i, name, specs)
    {
      var c := t[i];
      if c == '(' {
        var guardName := Trim(name);
        name := "";
        if guardName == "" {
          return Invalid(NoGuardName);
        }
        var args := ParseGuardArgs(t, i + 1);
        if args.None? {
          return Invalid(Unterminated);
        }
        specs := specs + [GuardSpec(guardName, args.value.0)];
        i := args.value.1;
      } else if c == ')' {
        return Invalid(UnmatchedParen);
      } else if IsSeparator(c) {
        specs := Flush(specs, name);
        name := "";
      } else {
        name := name + [c];
      }
      i := i + 1;
    }
    specs := Flush(specs, name);
    if specs == [] {
      return Invalid(NothingFound);
    }
    r := Guards(specs);
  }

  // ---------------------------------------------------------------- the grammar

  // What the loops accept, and what it means, stated without them.

  /** Part of an argument: plain text, or text in quotes of one kind. */
  datatype Piece = Plain(text: string) | InQuotes(q: char, text: string)

  /** What a tag is made of: a name (or none) before a separator, and a guard with an argument list. An
      argument is written in pieces. */
  datatype Item = Word(raw: string, gap: char) | Invoke(raw: string, segs: seq<seq<Piece>>)

  predicate IsQuote(c: char) {
    c == '\'' || c == '"'
  }

  ghost predicate PieceOk(p: Piece) {
    match p
    case Plain(text) => PlainChars(text)
    case InQuotes(q, text) => IsQuote(q) && q !in text
  }

  predicate IsPlainChar(c: char) {
    c != '\'' && c != '"' && c != ',' && c != ')'
  }

  predicate PlainChars(text: string) {
    text == "" || (IsPlainChar(text[0]) && PlainChars(text[1..]))
  }

  ghost predicate PiecesOk(ps: seq<Piece>) {
    ps == [] || (PieceOk(ps[0]) && PiecesOk(ps[1..]))
  }

  ghost predicate AllPiecesOk(segs: seq<seq<Piece>>) {
    segs == [] || (PiecesOk(segs[0]) && AllPiecesOk(segs[1..]))
  }

  ghost predicate SegsOk(segs: seq<seq<Piece>>) {
    segs != [] && AllPiecesOk(segs)
  }

  predicate IsNameChar(c: char) {
    c != '(' && c != ')' && c != ',' && c != ' ' && c != '\t'
  }

  ghost predicate NameChars(name: string) {
    forall i :: 0 <= i < |name| ==> IsNameChar(name[i])
  }

  ghost predicate ItemOk(x: Item) {
    match x
    case Word(raw, gap) => NameChars(raw) && (gap == ',' || gap == ' ' || gap == '\t')
    case Invoke(raw, segs) => NameChars(raw) && Trim(raw) != "" && SegsOk(segs)
  }

  ghost predicate ItemsOk(items: seq<Item>) {
    items == [] || (ItemOk(items[0]) && ItemsOk(items[1..]))
  }

  function PieceText(p: Piece): string {
    match p
    case Plain(text) => text
    case InQuotes(q, text) => [q] + (text + [q])
  }

  function PiecesText(ps: seq<Piece>): string {
    if ps == [] then "" else PieceText(ps[0]) + PiecesText(ps[1..])
  }

  /** Arguments with commas between them. */
  function Body(segs: seq<seq<Piece>>): string {
    if segs == [] then ""
    else PiecesText(segs[0]) + if |segs| == 1 then "" else "," + Body(segs[1..])
  }

  /** And the closing parenthesis. */
  function SegsText(segs: seq<seq<Piece>>): string {
    Body(segs) + ")"
  }

  function ItemText(x: Item): string {
    match x
    case Word(raw, gap) => raw + [gap]
    case Invoke(raw, segs) => raw + ("(" + SegsText(segs))
  }

  function ItemsText(items: seq<Item>): string {
    if items == [] then "" else ItemText(items[0]) + ItemsText(items[1..])
  }

  /** The text of an argument without its quotes. */
  function Content(ps: seq<Piece>): string {
    if ps == [] then "" else ps[0].text + Content(ps[1..])
  }

  predicate HasQuotes(ps: seq<Piece>) {
    ps != [] && (ps[0].InQuotes? || HasQuotes(ps[1..]))
  }

  /** The arguments of a list: each trimmed, and left out when it is blank and has no quotes. */
  function ArgsOf(segs: seq<seq<Piece>>): seq<string> {
    if segs == [] then []
    else (if Trim(Content(segs[0])) == "" && !HasQuotes(segs[0]) then [] else [Trim(Content(segs[0]))]) +
         ArgsOf(segs[1..])
  }

  /** A name is a guard without arguments, unless it is blank. */
  function Named(raw: string): seq<GuardSpec> {
    if Trim(raw) == "" then [] else [GuardSpec(Trim(raw), [])]
  }

  function ItemSpecs(x: Item): seq<GuardSpec> {
    match x
    case Word(raw, _) => Named(raw)
    case Invoke(raw, segs) => [GuardSpec(Trim(raw), ArgsOf(segs))]
  }

  function SpecsOf(items: seq<Item>): seq<GuardSpec> {
    if items == [] then [] else ItemSpecs(items[0]) + SpecsOf(items[1..])
  }

  // ---------------------------------------------------------------- reading what the grammar writes

  /** `piece` stands in `tag` at `i`. */
  ghost predicate At(tag: string, i: nat, piece: string) {
    i + |piece| <= |tag| && forall k :: 0 <= k < |piece| ==> CharAt(tag, i, piece, k)
  }

  ghost predicate CharAt(tag: string, i: nat, piece: string, k: nat)
    requires k < |piece| && i + k < |tag|
  {
    tag[i + k] == piece[k]
  }

  lemma {:induction false} AtSlice(tag: string, i: nat, piece: string)
    requires i + |piece| <= |tag| && tag[i..i + |piece|] == piece
    ensures At(tag, i, piece)
  {
    forall k | 0 <= k < |piece| ensures CharAt(tag, i, piece, k) {
      assert tag[i..i + |piece|][k] == tag[i + k];
    }
  }

  lemma {:induction false} SliceAt(tag: string, i: nat, piece: string)
    requires At(tag, i, piece)
    ensures piece <= tag[i..]
  {
    forall k | 0 <= k < |piece| ensures piece[k] == tag[i..][k] {
      assert CharAt(tag, i, piece, k);
    }
  }

  lemma {:induction false} AtSplit(tag: string, i: nat, a: string, b: string)
    requires At(tag, i, a + b)
    ensures At(tag, i, a) && At(tag, i + |a|, b)
  {
    forall k | 0 <= k < |a| ensures CharAt(tag, i, a, k) {
      assert CharAt(tag, i, a + b, k);
    }
    var j := i + |a|;
    forall k | 0 <= k < |b| ensures CharAt(tag, j, b, k) {
      assert CharAt(tag, i, a + b, |a| + k);
    }
  }

  lemma {:induction false} AtThree(tag: string, i: nat, a: string, sep: string, b: string, all: string)
    requires all == a + (sep + b) && At(tag, i, all)
    ensures At(tag, i, a) && At(tag, i + |a|, sep) && At(tag, i + |a| + |sep|, b)
    ensures |all| == |a| + |sep| + |b|
  {
    AtSplit(tag, i, a, sep + b);
    AtSplit(tag, i + |a|, sep, b);
  }

  lemma {:induction false} AtJoin(tag: string, i: nat, a: string, b: string)
    requires At(tag, i, a) && At(tag, i + |a|, b)
    ensures At(tag, i, a + b)
  {
    forall k | 0 <= k < |a + b| ensures CharAt(tag, i, a + b, k) {
      if k < |a| {
        assert CharAt(tag, i, a, k);
      } else {
        assert CharAt(tag, i + |a|, b, k - |a|);
      }
    }
  }

  lemma {:induction false} AtChar(tag: string, i: nat, c: char)
    requires At(tag, i, [c])
    ensures i < |tag| && tag[i] == c
  {
    assert CharAt(tag, i, [c], 0);
  }

  lemma {:induction false} HereAt(tag: string, i: nat, c: char)
    requires i < |tag| && tag[i] == c
    ensures At(tag, i, [c])
  {
  }

  lemma {:induction false} AtIndex(tag: string, i: nat, piece: string, k: nat)
    requires At(tag, i, piece) && k < |piece|
    ensures tag[i + k] == piece[k]
  {
    assert CharAt(tag, i, piece, k);
  }

  /** The state of the argument loop after a text, and that the list does not end within it. */
  function Steps(text: string, st: ArgState): ArgState
    decreases |text|
  {
    if text == "" then st else Steps(text[1..], ArgStep(text[0], st))
  }

  predicate StaysOpen(text: string, st: ArgState)
    decreases |text|
  {
    text == "" || (!Ends(text[0], st) && StaysOpen(text[1..], ArgStep(text[0], st)))
  }

  lemma {:induction false} StepsJoin(a: string, b: string, st: ArgState)
    ensures Steps(a + b, st) == Steps(b, Steps(a, st))
    ensures StaysOpen(a + b, st) <==> StaysOpen(a, st) && StaysOpen(b, Steps(a, st))
    decreases |a|
  {
    if a == "" {
      assert a + b == b;
    } else {
      assert (a + b)[1..] == a[1..] + b;
      StepsJoin(a[1..], b, ArgStep(a[0], st));
    }
  }

  // The argument loop on one tag, as any function of its state that does what the loop does.

  type ArgLoop = (nat, ArgState) -> Option<(seq<string>, nat)>

  ghost predicate IsArgLoop(tag: string, loop: ArgLoop) {
    forall i, st :: ArgTurn(tag, loop, i, st)
  }

  ghost predicate ArgTurn(tag: string, loop: ArgLoop, i: nat, st: ArgState) {
    && (i < |tag| ==>
          loop(i, st) == if Ends(tag[i], st) then Some((Appended(st), i)) else loop(i + 1, ArgStep(tag[i], st)))
    && (i == |tag| ==> loop(i, st).None?)
  }

  ghost function TheArgLoop(tag: string): ArgLoop {
    (i: nat, st: ArgState) => if i <= |tag| then ArgsFrom(tag, i, st) else None
  }

  lemma {:induction false} TheArgLoopIs(tag: string)
    ensures IsArgLoop(tag, TheArgLoop(tag))
  {
    forall i, st ensures ArgTurn(tag, TheArgLoop(tag), i, st) {
    }
  }

  lemma {:induction false} ReadText(tag: string, loop: ArgLoop, i: nat, text: string, st: ArgState)
    requires IsArgLoop(tag, loop) && At(tag, i, text) && StaysOpen(text, st)
    ensures loop(i, st) == loop(i + |text|, Steps(text, st))
    decreases |text|
  {
    if text != "" {
      AtIndex(tag, i, text, 0);
      AtTail(tag, i, text);
      assert ArgTurn(tag, loop, i, st);
      ReadText(tag, loop, i + 1, text[1..], ArgStep(text[0], st));
    }
  }

  lemma {:induction false} AtTail(tag: string, i: nat, text: string)
    requires text != "" && At(tag, i, text)
    ensures At(tag, i + 1, text[1..])
  {
    assert text == [text[0]] + text[1..];
    AtSplit(tag, i, [text[0]], text[1..]);
  }

  lemma {:induction false} TailOf(text: string)
    requires text != ""
    ensures forall c :: c in text[1..] ==> c in text
    ensures text == [text[0]] + text[1..]
  {
  }

  lemma {:induction false} PlainSteps(text: string, st: ArgState)
    requires PieceOk(Plain(text)) && st.quote.None?
    ensures StaysOpen(text, st) && Steps(text, st) == st.(current := st.current + text)
    decreases |text|
  {
    if text == "" {
      assert st.current + text == st.current;
    } else {
      TailOf(text);
      PlainSteps(text[1..], ArgStep(text[0], st));
      assert st.current + text == st.current + [text[0]] + text[1..];
    }
  }

  lemma {:induction false} InsideSteps(text: string, st: ArgState)
    requires st.quote.Some? && st.quote.value !in text
    ensures StaysOpen(text, st) && Steps(text, st) == st.(current := st.current + text)
    decreases |text|
  {
    if text == "" {
      assert st.current + text == st.current;
    } else {
      TailOf(text);
      assert text[0] in text;
      InsideSteps(text[1..], ArgStep(text[0], st));
      assert st.current + text == st.current + [text[0]] + text[1..];
    }
  }

  lemma {:induction false} OneStep(c: char, st: ArgState)
    ensures Steps([c], st) == ArgStep(c, st) && (StaysOpen([c], st) <==> !Ends(c, st))
  {
    assert [c][1..] == "";
  }

  lemma {:induction false} PieceSteps(p: Piece, st: ArgState)
    requires PieceOk(p) && st.quote.None?
    ensures StaysOpen(PieceText(p), st)
    ensures Steps(PieceText(p), st) == st.(current := st.current + p.text, hasArg := st.hasArg || p.InQuotes?)
  {
    match p {
      case Plain(text) => PlainSteps(text, st);
      case InQuotes(q, text) =>
        var st1 := st.(quote := Some(q));
        var st2 := st1.(current := st.current + text);
        OneStep(q, st);
        InsideSteps(text, st1);
        OneStep(q, st2);
        StepsJoin(text, [q], st1);
        StepsJoin([q], text + [q], st);
    }
  }

  lemma {:induction false} PiecesSteps(ps: seq<Piece>, st: ArgState)
    requires PiecesOk(ps) && st.quote.None?
    ensures StaysOpen(PiecesText(ps), st)
    ensures Steps(PiecesText(ps), st) ==
            st.(current := st.current + Content(ps), hasArg := st.hasArg || HasQuotes(ps))
    decreases |ps|
  {
    if ps == [] {
      assert st.current + Content(ps) == st.current;
    } else {
      var st' := st.(current := st.current + ps[0].text, hasArg := st.hasArg || ps[0].InQuotes?);
      PieceSteps(ps[0], st);
      PiecesSteps(ps[1..], st');
      StepsJoin(PieceText(ps[0]), PiecesText(ps[1..]), st);
      Associates(st.current, ps[0].text, Content(ps[1..]));
    }
  }

  lemma {:induction false} Associates<T>(a: seq<T>, b: seq<T>, c: seq<T>)
    ensures (a + b) + c == a + (b + c)
  {
  }

  /** After one argument its state holds what is appended at the comma or the parenthesis. */
  lemma {:induction false} ArgIsAppended(ps: seq<Piece>, args: seq<string>)
    requires PiecesOk(ps)
    ensures var st := Steps(PiecesText(ps), NewArg(args));
      StaysOpen(PiecesText(ps), NewArg(args)) && st.quote.None? && Appended(st) == args + ArgsOf([ps])
  {
    PiecesSteps(ps, NewArg(args));
    assert "" + Content(ps) == Content(ps) && [ps][1..] == [];
  }

  lemma {:induction false} ArgsOfFront(segs: seq<seq<Piece>>)
    requires segs != []
    ensures ArgsOf(segs) == ArgsOf([segs[0]]) + ArgsOf(segs[1..])
  {
    assert [segs[0]][1..] == [];
  }

  lemma {:induction false} BodySteps(segs: seq<seq<Piece>>, args: seq<string>)
    requires SegsOk(segs)
    ensures var st := Steps(Body(segs), NewArg(args));
      StaysOpen(Body(segs), NewArg(args)) && st.quote.None? && Appended(st) == args + ArgsOf(segs)
    decreases |segs|
  {
    var first, rest := PiecesText(segs[0]), segs[1..];
    ArgsOfFront(segs);
    ArgIsAppended(segs[0], args);
    if |segs| == 1 {
      assert first + "" == first && ArgsOf(segs) == ArgsOf([segs[0]]);
    } else {
      BodySteps(rest, args + ArgsOf([segs[0]]));
      CommaSteps(first, Body(rest), NewArg(args), args + ArgsOf([segs[0]]));
      Associates(args, ArgsOf([segs[0]]), ArgsOf(rest));
    }
  }

  lemma {:induction false} CommaSteps(first: string, rest: string, st: ArgState, args: seq<string>)
    requires StaysOpen(first, st) && Steps(first, st).quote.None? && Appended(Steps(first, st)) == args
    requires StaysOpen(rest, NewArg(args))
    ensures StaysOpen(first + ("," + rest), st) && Steps(first + ("," + rest), st) == Steps(rest, NewArg(args))
  {
    OneStep(',', Steps(first, st));
    StepsJoin(",", rest, Steps(first, st));
    StepsJoin(first, "," + rest, st);
  }

  lemma {:induction false} ReadToEnd(tag: string, loop: ArgLoop, i: nat, body: string, st: ArgState, args: seq<string>)
    requires IsArgLoop(tag, loop) && At(tag, i, body) && At(tag, i + |body|, ")") && StaysOpen(body, st)
    requires Steps(body, st).quote.None? && Appended(Steps(body, st)) == args
    ensures loop(i, st) == Some((args, i + |body|))
  {
    AtChar(tag, i + |body|, ')');
    ReadText(tag, loop, i, body, st);
    assert ArgTurn(tag, loop, i + |body|, Steps(body, st));
  }

  /** A whole argument list is read up to its parenthesis. */
  lemma {:induction false} ReadSegs(tag: string, loop: ArgLoop, i: nat, segs: seq<seq<Piece>>, body: string)
    requires IsArgLoop(tag, loop) && SegsOk(segs) && body == Body(segs) && At(tag, i, body + ")")
    ensures loop(i, NewArg([])) == Some((ArgsOf(segs), i + |body|))
  {
    BodySteps(segs, []);
    assert [] + ArgsOf(segs) == ArgsOf(segs);
    AtSplit(tag, i, body, ")");
    ReadToEnd(tag, loop, i, body, NewArg([]), ArgsOf(segs));
  }

  lemma {:induction false} SegsAreRead(tag: string, i: nat, segs: seq<seq<Piece>>)
    requires SegsOk(segs) && At(tag, i, SegsText(segs))
    ensures ArgsFrom(tag, i, NewArg([])) == Some((ArgsOf(segs), i + |SegsText(segs)| - 1))
  {
    TheArgLoopIs(tag);
    ReadSegs(tag, TheArgLoop(tag), i, segs, Body(segs));
  }

  // The tag loop likewise: a function of where it stands, the name in the making and the guards so far.

  datatype Pos = Pos(i: nat, name: string, specs: seq<GuardSpec>)

  type TagLoop = Pos -> Parsed

  ghost predicate IsTagLoop(tag: string, inner: ArgLoop, loop: TagLoop) {
    IsArgLoop(tag, inner) && forall p :: TagTurn(tag, inner, loop, p)
  }

  ghost predicate TagTurn(tag: string, inner: ArgLoop, loop: TagLoop, p: Pos) {
    if p.i > |tag| then true
    else if p.i == |tag| then loop(p) == AtEnd(p)
    else if tag[p.i] == '(' then loop(p) == AtParen(loop, p, inner(p.i + 1, NewArg([])))
    else if tag[p.i] == ')' then loop(p) == Invalid(UnmatchedParen)
    else loop(p) == loop(Moved(tag[p.i], p))
  }

  function AtEnd(p: Pos): Parsed {
    var all := Flush(p.specs, p.name);
    if all == [] then Invalid(NothingFound) else Guards(all)
  }

  function AtParen(loop: TagLoop, p: Pos, args: Option<(seq<string>, nat)>): Parsed {
    if Trim(p.name) == "" then Invalid(NoGuardName)
    else match args
      case None => Invalid(Unterminated)
      case Some((args, close)) => loop(Pos(close + 1, "", p.specs + [GuardSpec(Trim(p.name), args)]))
  }

  function Moved(c: char, p: Pos): Pos {
    var (name, specs) := TagStep(c, p.name, p.specs);
    Pos(p.i + 1, name, specs)
  }

  ghost function TheTagLoop(tag: string): TagLoop {
    (p: Pos) => if p.i <= |tag| then TagFrom(tag, p.i, p.name, p.specs) else Invalid(NothingFound)
  }

  lemma {:induction false} TheTagLoopIs(tag: string)
    ensures IsTagLoop(tag, TheArgLoop(tag), TheTagLoop(tag))
  {
    TheArgLoopIs(tag);
    forall p ensures TagTurn(tag, TheArgLoop(tag), TheTagLoop(tag), p) {
    }
  }

  lemma {:induction false} ReadName(tag: string, inner: ArgLoop, loop: TagLoop, i: nat, raw: string, name: string,
                                    specs: seq<GuardSpec>)
    requires IsTagLoop(tag, inner, loop) && At(tag, i, raw) && NameChars(raw)
    ensures loop(Pos(i, name, specs)) == loop(Pos(i + |raw|, name + raw, specs))
    decreases |raw|
  {
    if raw == "" {
      assert name + raw == name;
    } else {
      AtIndex(tag, i, raw, 0);
      AtTail(tag, i, raw);
      assert IsNameChar(raw[0]) && TagTurn(tag, inner, loop, Pos(i, name, specs));
      ReadName(tag, inner, loop, i + 1, raw[1..], name + [raw[0]], specs);
      TailOf(raw);
      Associates(name, [raw[0]], raw[1..]);
    }
  }

  lemma {:induction false} WholeName(tag: string, inner: ArgLoop, loop: TagLoop, i: nat, raw: string,
                                     specs: seq<GuardSpec>)
    requires IsTagLoop(tag, inner, loop) && At(tag, i, raw) && NameChars(raw)
    ensures loop(Pos(i, "", specs)) == loop(Pos(i + |raw|, raw, specs))
  {
    ReadName(tag, inner, loop, i, raw, "", specs);
    assert "" + raw == raw;
  }

  /** Wherever it stands, before whatever follows, `text` is read as these guards. */
  ghost predicate ReadsAs(text: string, specs: seq<GuardSpec>) {
    forall tag, inner, loop, i: nat, before :: IsTagLoop(tag, inner, loop) && At(tag, i, text) ==>
      ReadsHere(tag, inner, loop, i, text, before, specs)
  }

  ghost predicate ReadsHere(tag: string, inner: ArgLoop, loop: TagLoop, i: nat, text: string, before: seq<GuardSpec>,
                            specs: seq<GuardSpec>) {
    loop(Pos(i, "", before)) == loop(Pos(i + |text|, "", before + specs))
  }

  lemma {:induction false} WordReads(raw: string, gap: char)
    requires ItemOk(Word(raw, gap))
    ensures ReadsAs(raw + [gap], Named(raw))
  {
    forall tag, inner, loop, i: nat, before | IsTagLoop(tag, inner, loop) && At(tag, i, raw + [gap])
      ensures ReadsHere(tag, inner, loop, i, raw + [gap], before, Named(raw))
    {
      AtSplit(tag, i, raw, [gap]);
      AtChar(tag, i + |raw|, gap);
      WholeName(tag, inner, loop, i, raw, before);
      assert TagTurn(tag, inner, loop, Pos(i + |raw|, raw, before));
      assert Flush(before, raw) == before + Named(raw);
    }
  }

  lemma {:induction false} InvokeReads(raw: string, segs: seq<seq<Piece>>)
    requires ItemOk(Invoke(raw, segs))
    ensures ReadsAs(ItemText(Invoke(raw, segs)), [GuardSpec(Trim(raw), ArgsOf(segs))])
  {
    var all, g, body := ItemText(Invoke(raw, segs)), GuardSpec(Trim(raw), ArgsOf(segs)), Body(segs);
    forall tag, inner, loop, i: nat, before | IsTagLoop(tag, inner, loop) && At(tag, i, all)
      ensures ReadsHere(tag, inner, loop, i, all, before, [g])
    {
      CallReads(tag, inner, loop, i, raw, segs, body, all, before);
    }
  }

  lemma {:induction false} CallReads(tag: string, inner: ArgLoop, loop: TagLoop, i: nat, raw: string,
                                     segs: seq<seq<Piece>>,
                                     body: string, all: string, before: seq<GuardSpec>)
    requires IsTagLoop(tag, inner, loop) && ItemOk(Invoke(raw, segs)) && body == Body(segs)
    requires all == raw + ("(" + (body + ")")) && At(tag, i, all)
    ensures ReadsHere(tag, inner, loop, i, all, before, [GuardSpec(Trim(raw), ArgsOf(segs))])
  {
    AtThree(tag, i, raw, "(", body + ")", all);
    AtChar(tag, i + |raw|, '(');
    ReadSegs(tag, inner, i + |raw| + 1, segs, body);
    CallTurn(tag, inner, loop, i, raw, ArgsOf(segs), i + |raw| + 1 + |body|, before);
  }

  lemma {:induction false} CallTurn(tag: string, inner: ArgLoop, loop: TagLoop, i: nat, raw: string,
                                    args: seq<string>, close: nat,
                                    before: seq<GuardSpec>)
    requires IsTagLoop(tag, inner, loop) && At(tag, i, raw) && NameChars(raw) && Trim(raw) != ""
    requires i + |raw| < |tag| && tag[i + |raw|] == '(' && inner(i + |raw| + 1, NewArg([])) == Some((args, close))
    ensures loop(Pos(i, "", before)) == loop(Pos(close + 1, "", before + [GuardSpec(Trim(raw), args)]))
  {
    WholeName(tag, inner, loop, i, raw, before);
    assert TagTurn(tag, inner, loop, Pos(i + |raw|, raw, before));
  }

  lemma {:induction false} ItemReads(x: Item)
    requires ItemOk(x)
    ensures ReadsAs(ItemText(x), ItemSpecs(x))
  {
    match x {
      case Word(raw, gap) => WordReads(raw, gap);
      case Invoke(raw, segs) => InvokeReads(raw, segs);
    }
  }

  lemma {:induction false} BothRead(a: string, x: seq<GuardSpec>, b: string, y: seq<GuardSpec>)
    requires ReadsAs(a, x) && ReadsAs(b, y)
    ensures ReadsAs(a + b, x + y)
  {
    forall tag, inner, loop, i: nat, before | IsTagLoop(tag, inner, loop) && At(tag, i, a + b)
      ensures ReadsHere(tag, inner, loop, i, a + b, before, x + y)
    {
      AtSplit(tag, i, a, b);
      assert ReadsHere(tag, inner, loop, i, a, before, x);
      assert ReadsHere(tag, inner, loop, i + |a|, b, before + x, y);
      Associates(before, x, y);
    }
  }

  lemma {:induction false} NothingReads()
    ensures ReadsAs("", [])
  {
    forall tag, inner, loop, i: nat, before: seq<GuardSpec> | IsTagLoop(tag, inner, loop) && At(tag, i, "")
      ensures ReadsHere(tag, inner, loop, i, "", before, [])
    {
      assert before + [] == before;
    }
  }

  lemma {:induction false} ItemsRead(items: seq<Item>)
    requires ItemsOk(items)
    ensures ReadsAs(ItemsText(items), SpecsOf(items))
    decreases |items|
  {
    if items == [] {
      NothingReads();
    } else {
      ItemReads(items[0]);
      ItemsRead(items[1..]);
      BothRead(ItemText(items[0]), ItemSpecs(items[0]), ItemsText(items[1..]), SpecsOf(items[1..]));
    }
  }

  // ---------------------------------------------------------------- how a tag is taken apart

  /** The text goes on with an argument list that is closed. */
  ghost predicate Closes(s: string) {
    exists segs :: SegsOk(segs) && SegsText(segs) <= s
  }

  /** `t` is what the items say, then the name `raw`, then `rest`. */
  ghost predicate Split(t: string, items: seq<Item>, raw: string, rest: string) {
    ItemsOk(items) && NameChars(raw) && t == ItemsText(items) + (raw + rest)
  }

  /** Nothing is left, or what is left cannot be read on, and why. */
  ghost predicate Faulty(raw: string, rest: string, error: Error) {
    && rest != ""
    && match error
       case UnmatchedParen => rest[0] == ')'
       case NoGuardName => rest[0] == '(' && Trim(raw) == ""
       case Unterminated => rest[0] == '(' && Trim(raw) != "" && !Closes(rest[1..])
       case NothingFound => false
  }

  lemma {:induction false} QuoteCloses(tag: string, loop: ArgLoop, i: nat, q: char, st: ArgState)
    returns (text: string, st': ArgState)
    requires IsArgLoop(tag, loop) && i <= |tag| && st.quote == Some(q) && loop(i, st).Some?
    ensures q !in text && At(tag, i, text) && At(tag, i + |text|, [q])
    ensures st'.quote.None? && loop(i + |text| + 1, st').Some?
    decreases |tag| - i
  {
    assert ArgTurn(tag, loop, i, st);
    if tag[i] == q {
      text, st' := "", ArgStep(q, st);
    } else {
      var rest;
      rest, st' := QuoteCloses(tag, loop, i + 1, q, ArgStep(tag[i], st));
      text := [tag[i]] + rest;
      AtJoin(tag, i, [tag[i]], rest);
    }
  }

  /** A piece more at the front of the first argument. */
  function PieceInFront(p: Piece, segs: seq<seq<Piece>>): seq<seq<Piece>>
    requires segs != []
  {
    [[p] + segs[0]] + segs[1..]
  }

  lemma {:induction false} FrontPieceText(p: Piece, segs: seq<seq<Piece>>)
    requires SegsOk(segs) && PieceOk(p)
    ensures SegsOk(PieceInFront(p, segs)) && Body(PieceInFront(p, segs)) == PieceText(p) + Body(segs)
  {
    var more, tail := PieceInFront(p, segs), if |segs| == 1 then "" else "," + Body(segs[1..]);
    assert ([p] + segs[0])[1..] == segs[0] && more[1..] == segs[1..];
    Associates(PieceText(p), PiecesText(segs[0]), tail);
  }

  /** A closed argument list stands in `tag` at `i`. */
  ghost predicate HasForm(tag: string, i: nat) {
    exists segs :: SegsOk(segs) && At(tag, i, SegsText(segs))
  }

  lemma {:induction false} FrontPieceAt(tag: string, i: nat, p: Piece, text: string)
    requires PieceOk(p) && text == PieceText(p) && At(tag, i, text) && HasForm(tag, i + |text|)
    ensures HasForm(tag, i)
  {
    var segs, body := OpenForm(tag, i + |text|);
    FrontTextAt(tag, i, text, body, text + body);
    FrontForm(tag, i, p, text, segs, body, text + body);
  }

  lemma {:induction false} FrontForm(tag: string, i: nat, p: Piece, text: string, segs: seq<seq<Piece>>, body: string,
                                     all: string)
    requires PieceOk(p) && text == PieceText(p) && SegsOk(segs) && body == Body(segs) && all == text + body
    requires At(tag, i, all + ")")
    ensures HasForm(tag, i)
  {
    FrontPieceText(p, segs);
    MakeForm(tag, i, PieceInFront(p, segs), all);
  }

  lemma {:induction false} OpenForm(tag: string, i: nat) returns (segs: seq<seq<Piece>>, body: string)
    requires HasForm(tag, i)
    ensures SegsOk(segs) && body == Body(segs) && At(tag, i, body + ")")
  {
    segs :| SegsOk(segs) && At(tag, i, SegsText(segs));
    body := Body(segs);
  }

  lemma {:induction false} MakeForm(tag: string, i: nat, segs: seq<seq<Piece>>, body: string)
    requires SegsOk(segs) && body == Body(segs) && At(tag, i, body + ")")
    ensures HasForm(tag, i)
  {
  }

  lemma {:induction false} FrontTextAt(tag: string, i: nat, text: string, body: string, all: string)
    requires At(tag, i, text) && At(tag, i + |text|, body + ")") && all == text + body
    ensures At(tag, i, all + ")")
  {
    AtJoin(tag, i, text, body + ")");
    Associates(text, body, ")");
  }

  lemma {:induction false} FrontComma(tag: string, i: nat)
    requires i < |tag| && tag[i] == ',' && HasForm(tag, i + 1)
    ensures HasForm(tag, i)
  {
    var segs, body := OpenForm(tag, i + 1);
    HereAt(tag, i, ',');
    FrontCommaText(segs);
    FrontTextAt(tag, i, ",", body, "," + body);
    MakeForm(tag, i, [[]] + segs, "," + body);
  }

  lemma {:induction false} FrontCommaText(segs: seq<seq<Piece>>)
    requires SegsOk(segs)
    ensures SegsOk([[]] + segs) && Body([[]] + segs) == "," + Body(segs)
  {
    assert ([[]] + segs)[1..] == segs;
    assert "" + ("," + Body(segs)) == "," + Body(segs);
  }

  lemma {:induction false} FrontPlain(tag: string, i: nat, c: char)
    requires i < |tag| && tag[i] == c && IsPlainChar(c) && HasForm(tag, i + 1)
    ensures HasForm(tag, i)
  {
    HereAt(tag, i, c);
    assert [c][1..] == "" && PlainChars([c]);
    FrontPieceAt(tag, i, Plain([c]), [c]);
  }

  lemma {:induction false} FrontQuote(tag: string, i: nat, q: char, text: string)
    requires IsQuote(q) && q !in text && At(tag, i, [q]) && At(tag, i + 1, text) && At(tag, i + 1 + |text|, [q])
    requires HasForm(tag, i + |text| + 2)
    ensures HasForm(tag, i)
  {
    QuotesAt(tag, i, q, text, [q] + (text + [q]));
    FrontPieceAt(tag, i, InQuotes(q, text), [q] + (text + [q]));
  }

  lemma {:induction false} QuotesAt(tag: string, i: nat, q: char, text: string, all: string)
    requires At(tag, i, [q]) && At(tag, i + 1, text) && At(tag, i + 1 + |text|, [q]) && all == [q] + (text + [q])
    ensures At(tag, i, all) && |all| == |text| + 2
  {
    AtJoin(tag, i + 1, text, [q]);
    AtJoin(tag, i, [q], text + [q]);
  }

  lemma {:induction false} EndHasForm(tag: string, i: nat)
    requires i < |tag| && tag[i] == ')'
    ensures HasForm(tag, i)
  {
    var none: seq<seq<Piece>> := [[]];
    assert SegsText(none) == ")" && SegsOk(none) && At(tag, i, SegsText(none));
  }

  lemma {:induction false} GoesOn(tag: string, loop: ArgLoop, i: nat, st: ArgState)
    requires IsArgLoop(tag, loop) && i <= |tag| && loop(i, st).Some?
    ensures i < |tag| && (!Ends(tag[i], st) ==> loop(i + 1, ArgStep(tag[i], st)).Some?)
  {
    assert ArgTurn(tag, loop, i, st);
  }

  /** An argument list that the loop reads to its end has this form. */
  lemma {:induction false} ArgsHaveForm(tag: string, loop: ArgLoop, i: nat, st: ArgState)
    requires IsArgLoop(tag, loop) && i <= |tag| && st.quote.None? && loop(i, st).Some?
    ensures HasForm(tag, i)
    decreases |tag| - i
  {
    GoesOn(tag, loop, i, st);
    var c := tag[i];
    if c == ')' {
      EndHasForm(tag, i);
    } else if c == ',' {
      ArgsHaveForm(tag, loop, i + 1, ArgStep(c, st));
      FrontComma(tag, i);
    } else if c == '\'' || c == '"' {
      var text, st' := QuoteCloses(tag, loop, i + 1, c, ArgStep(c, st));
      ArgsHaveForm(tag, loop, i + |text| + 2, st');
      HereAt(tag, i, c);
      FrontQuote(tag, i, c, text);
    } else {
      ArgsHaveForm(tag, loop, i + 1, ArgStep(c, st));
      FrontPlain(tag, i, c);
    }
  }

  /** It is read to its end exactly when it is closed. */
  lemma {:induction false} ReadIffCloses(tag: string, i: nat)
    requires i <= |tag|
    ensures ArgsFrom(tag, i, NewArg([])).Some? <==> Closes(tag[i..])
  {
    if ArgsFrom(tag, i, NewArg([])).Some? {
      TheArgLoopIs(tag);
      ArgsHaveForm(tag, TheArgLoop(tag), i, NewArg([]));
      var segs :| SegsOk(segs) && At(tag, i, SegsText(segs));
      SliceAt(tag, i, SegsText(segs));
    }
    if Closes(tag[i..]) {
      var segs :| SegsOk(segs) && SegsText(segs) <= tag[i..];
      assert tag[i..i + |SegsText(segs)|] == tag[i..][..|SegsText(segs)|];
      AtSlice(tag, i, SegsText(segs));
      SegsAreRead(tag, i, segs);
    }
  }

  lemma {:induction false} NameEnds(s: string) returns (k: nat)
    ensures k <= |s| && NameChars(s[..k]) && (k < |s| ==> !IsNameChar(s[k]))
  {
    if s == "" || !IsNameChar(s[0]) {
      k := 0;
    } else {
      var k' := NameEnds(s[1..]);
      k := k' + 1;
      assert forall i :: 0 <= i < k ==> s[..k][i] == if i == 0 then s[0] else s[1..][..k'][i - 1];
    }
  }

  lemma {:induction false} OneItemMore(t: string, x: Item, text: string, after: string, items: seq<Item>, raw: string,
                                       rest: string)
    requires ItemOk(x) && text == ItemText(x) && t == text + after && Split(after, items, raw, rest)
    ensures Split(t, [x] + items, raw, rest)
  {
    assert ([x] + items)[1..] == items;
    Associates(text, ItemsText(items), raw + rest);
  }

  /** Every text comes apart into items and a last name, up to its end or to a fault. */
  lemma {:induction false} TakeApart(t: string) returns (items: seq<Item>, raw: string, rest: string)
    ensures Split(t, items, raw, rest) && (rest == "" || exists error :: Faulty(raw, rest, error))
    decreases |t|
  {
    var k := NameEnds(t);
    if k < |t| && t[k] != '(' && t[k] != ')' {
      items, raw, rest := TakeApart(t[k + 1..]);
      WordInFront(t, k, items, raw, rest);
      items := [Word(t[..k], t[k])] + items;
    } else if k < |t| && t[k] == '(' && Trim(t[..k]) != "" && Closes(t[k + 1..]) {
      var segs :| SegsOk(segs) && SegsText(segs) <= t[k + 1..];
      items, raw, rest := TakeApart(t[k + 1 + |SegsText(segs)|..]);
      CallInFront(t, k, segs, SegsText(segs), items, raw, rest);
      items := [Invoke(t[..k], segs)] + items;
    } else {
      items, raw, rest := [], t[..k], t[k..];
      StopsHere(t, k);
    }
  }

  lemma {:induction false} WordInFront(t: string, k: nat, items: seq<Item>, raw: string, rest: string)
    requires k < |t| && ItemOk(Word(t[..k], t[k])) && Split(t[k + 1..], items, raw, rest)
    ensures Split(t, [Word(t[..k], t[k])] + items, raw, rest)
  {
    assert t == (t[..k] + [t[k]]) + t[k + 1..];
    OneItemMore(t, Word(t[..k], t[k]), t[..k] + [t[k]], t[k + 1..], items, raw, rest);
  }

  lemma {:induction false} UpTo(t: string, k: nat, inner: string)
    requires k < |t| && t[k] == '(' && inner <= t[k + 1..]
    ensures t == (t[..k] + ("(" + inner)) + t[k + 1 + |inner|..]
  {
  }

  lemma {:induction false} CallInFront(t: string, k: nat, segs: seq<seq<Piece>>, inner: string, items: seq<Item>,
                                       raw: string, rest: string)
    requires k < |t| && t[k] == '(' && ItemOk(Invoke(t[..k], segs)) && inner == SegsText(segs) && inner <= t[k + 1..]
    requires Split(t[k + 1 + |inner|..], items, raw, rest)
    ensures Split(t, [Invoke(t[..k], segs)] + items, raw, rest)
  {
    UpTo(t, k, inner);
    OneItemMore(t, Invoke(t[..k], segs), t[..k] + ("(" + inner), t[k + 1 + |inner|..], items, raw, rest);
  }

  /** The text ends with this name, or cannot be read on after it. */
  lemma {:induction false} StopsHere(t: string, k: nat)
    requires k <= |t| && NameChars(t[..k]) && (k < |t| ==> !IsNameChar(t[k]))
    requires k < |t| ==> t[k] == ')' || (t[k] == '(' && (Trim(t[..k]) == "" || !Closes(t[k + 1..])))
    ensures Split(t, [], t[..k], t[k..]) && (t[k..] == "" || exists error :: Faulty(t[..k], t[k..], error))
  {
    assert t == ItemsText([]) + (t[..k] + t[k..]);
    if k < |t| {
      var error := if t[k] == ')' then UnmatchedParen else if Trim(t[..k]) == "" then NoGuardName else Unterminated;
      assert t[k..][1..] == t[k + 1..] && Faulty(t[..k], t[k..], error);
    }
  }

  // ---------------------------------------------------------------- what the parser does

  /** The guards that items and a last name say. */
  function AllSpecsOf(items: seq<Item>, last: string): seq<GuardSpec> {
    SpecsOf(items) + Named(last)
  }

  lemma {:induction false} PartsAt(t: string, a: string, b: string, c: string)
    requires t == a + (b + c)
    ensures |a| + |b| <= |t| && At(t, 0, a) && At(t, |a|, b)
  {
    assert At(t, 0, a + (b + c));
    AtSplit(t, 0, a, b + c);
    AtSplit(t, |a|, b, c);
  }

  lemma {:induction false} RestOf(t: string, a: string, b: string, c: string)
    requires t == a + (b + c)
    ensures |a| + |b| <= |t| && t[|a| + |b|..] == c
  {
  }

  lemma {:induction false} LoopAtRest(t: string, inner: ArgLoop, loop: TagLoop, text: string, specs: seq<GuardSpec>,
                                      raw: string,
                                      rest: string)
    requires IsTagLoop(t, inner, loop) && ReadsAs(text, specs) && NameChars(raw) && t == text + (raw + rest)
    ensures loop(Pos(0, "", [])) == loop(Pos(|text| + |raw|, raw, specs))
  {
    PartsAt(t, text, raw, rest);
    assert ReadsHere(t, inner, loop, 0, text, [], specs) && [] + specs == specs;
    WholeName(t, inner, loop, |text|, raw, specs);
  }

  /** A text that comes apart to its end parses to what its items say. */
  lemma {:induction false} WholeParses(t: string, items: seq<Item>, last: string)
    requires Split(t, items, last, "")
    ensures TagFrom(t, 0, "", []) ==
            if AllSpecsOf(items, last) == [] then Invalid(NothingFound) else Guards(AllSpecsOf(items, last))
  {
    ItemsRead(items);
    TheTagLoopIs(t);
    LoopEnds(t, TheArgLoop(t), TheTagLoop(t), ItemsText(items), SpecsOf(items), last);
  }

  lemma {:induction false} LoopEnds(t: string, inner: ArgLoop, loop: TagLoop, text: string, specs: seq<GuardSpec>,
                                    last: string)
    requires IsTagLoop(t, inner, loop) && ReadsAs(text, specs) && NameChars(last) && t == text + (last + "")
    ensures loop(Pos(0, "", [])) ==
            if specs + Named(last) == [] then Invalid(NothingFound) else Guards(specs + Named(last))
  {
    LoopAtRest(t, inner, loop, text, specs, last, "");
    assert TagTurn(t, inner, loop, Pos(|text| + |last|, last, specs));
    assert Flush(specs, last) == specs + Named(last);
  }

  /** A text that has a fault is refused for it. */
  lemma {:induction false} FaultIsRefused(t: string, items: seq<Item>, raw: string, rest: string, error: Error)
    requires Split(t, items, raw, rest) && Faulty(raw, rest, error)
    ensures TagFrom(t, 0, "", []) == Invalid(error)
  {
    ItemsRead(items);
    TheTagLoopIs(t);
    RestOf(t, ItemsText(items), raw, rest);
    if error == Unterminated {
      NotRead(t, |ItemsText(items)| + |raw|, rest);
    }
    LoopStops(t, TheArgLoop(t), TheTagLoop(t), ItemsText(items), SpecsOf(items), raw, rest, error);
  }

  lemma {:induction false} NotRead(t: string, n: nat, rest: string)
    requires n < |t| && t[n..] == rest && !Closes(rest[1..])
    ensures TheArgLoop(t)(n + 1, NewArg([])).None?
  {
    assert t[n + 1..] == rest[1..];
    ReadIffCloses(t, n + 1);
  }

  lemma {:induction false} LoopStops(t: string, inner: ArgLoop, loop: TagLoop, text: string, specs: seq<GuardSpec>,
                                     raw: string,
                                     rest: string, error: Error)
    requires IsTagLoop(t, inner, loop) && ReadsAs(text, specs) && NameChars(raw) && t == text + (raw + rest)
    requires Faulty(raw, rest, error)
    requires error == Unterminated ==> inner(|text| + |raw| + 1, NewArg([])).None?
    ensures loop(Pos(0, "", [])) == Invalid(error)
  {
    LoopAtRest(t, inner, loop, text, specs, raw, rest);
    assert t[|text| + |raw|] == rest[0];
    assert TagTurn(t, inner, loop, Pos(|text| + |raw|, raw, specs));
  }

  /** The guards a tag can be said to give, by the grammar. */
  ghost predicate Gives(tag: string, specs: seq<GuardSpec>) {
    || (Blank(tag) && specs == [])
    || (specs != [] && exists items, last :: Split(Trim(tag), items, last, "") && specs == AllSpecsOf(items, last))
  }

  /** And the errors. */
  ghost predicate Refused(tag: string, error: Error) {
    && !Blank(tag)
    && if error == NothingFound then
         exists items, last :: Split(Trim(tag), items, last, "") && AllSpecsOf(items, last) == []
       else exists items, raw, rest :: Split(Trim(tag), items, raw, rest) && Faulty(raw, rest, error)
  }

  lemma {:induction false} BlankIff(tag: string)
    ensures Blank(tag) <==> Trim(tag) == ""
  {
    var i, j := TrimCuts(tag);
    if i == j {
      assert forall k :: 0 <= k < |tag| ==> tag[k] == if k < i then tag[..i][k] else tag[j..][k - j];
    } else {
      assert Trim(tag)[0] == tag[i];
    }
  }

  lemma {:induction false} WholeAnswers(tag: string, items: seq<Item>, last: string)
    requires !Blank(tag) && Split(Trim(tag), items, last, "")
    ensures Parse(tag) == if AllSpecsOf(items, last) == [] then Invalid(NothingFound)
                          else Guards(AllSpecsOf(items, last))
  {
    BlankIff(tag);
    WholeParses(Trim(tag), items, last);
  }

  lemma {:induction false} FaultOfTag(tag: string, items: seq<Item>, raw: string, rest: string, error: Error)
    requires !Blank(tag) && Split(Trim(tag), items, raw, rest) && Faulty(raw, rest, error)
    ensures Parse(tag) == Invalid(error)
  {
    BlankIff(tag);
    FaultIsRefused(Trim(tag), items, raw, rest, error);
  }

  /** By the grammar a tag gives guards or is refused. */
  lemma {:induction false} SomeAnswer(tag: string)
    ensures (exists specs :: Gives(tag, specs)) || exists error :: Refused(tag, error)
  {
    if Blank(tag) {
      assert Gives(tag, []);
    } else {
      var items, raw, rest := TakeApart(Trim(tag));
      if rest == "" {
        var specs := AllSpecsOf(items, raw);
        assert if specs == [] then Refused(tag, NothingFound) else Gives(tag, specs);
      } else {
        var error :| Faulty(raw, rest, error);
        assert Refused(tag, error);
      }
    }
  }

  lemma {:induction false} GivesParses(tag: string, specs: seq<GuardSpec>)
    requires Gives(tag, specs)
    ensures Parse(tag) == Guards(specs)
  {
    BlankIff(tag);
    if !Blank(tag) {
      var items, last :| Split(Trim(tag), items, last, "") && specs == AllSpecsOf(items, last);
      WholeAnswers(tag, items, last);
    } else if specs != [] {
      var items, last :| Split(Trim(tag), items, last, "") && specs == AllSpecsOf(items, last);
      BlankSaysNothing(items, last);
    }
  }

  lemma {:induction false} BlankSaysNothing(items: seq<Item>, last: string)
    requires Split("", items, last, "")
    ensures AllSpecsOf(items, last) == []
  {
    WholeParses("", items, last);
    assert TagFrom("", 0, "", []) == Invalid(NothingFound);
  }

  lemma {:induction false} RefusedParses(tag: string, error: Error)
    requires Refused(tag, error)
    ensures Parse(tag) == Invalid(error)
  {
    if error == NothingFound {
      var items, last :| Split(Trim(tag), items, last, "") && AllSpecsOf(items, last) == [];
      WholeAnswers(tag, items, last);
    } else {
      var items, raw, rest :| Split(Trim(tag), items, raw, rest) && Faulty(raw, rest, error);
      FaultOfTag(tag, items, raw, rest, error);
    }
  }

  /** The parser answers exactly what the grammar says, on every tag: these guards, or this error. */
  lemma {:induction false} ParseIff(tag: string)
    ensures forall specs :: Parse(tag) == Guards(specs) <==> Gives(tag, specs)
    ensures forall error :: Parse(tag) == Invalid(error) <==> Refused(tag, error)
  {
    SomeAnswer(tag);
    forall specs | Gives(tag, specs) ensures Parse(tag) == Guards(specs) {
      GivesParses(tag, specs);
    }
    forall error | Refused(tag, error) ensures Parse(tag) == Invalid(error) {
      RefusedParses(tag, error);
    }
  }

  // ---------------------------------------------------------------- what can come out

  ghost predicate IsName(name: string) {
    name != "" && IsTrimmed(name) && NameChars(name)
  }

  ghost predicate IsSpec(g: GuardSpec) {
    IsName(g.name) && forall k :: 0 <= k < |g.args| ==> IsTrimmed(g.args[k])
  }

  ghost predicate AllSpecs(specs: seq<GuardSpec>) {
    forall k :: 0 <= k < |specs| ==> IsSpec(specs[k])
  }

  lemma {:induction false} TrimmedName(raw: string)
    requires NameChars(raw)
    ensures NameChars(Trim(raw))
  {
    var i, j := TrimCuts(raw);
    assert forall k :: 0 <= k < j - i ==> raw[i..j][k] == raw[i + k];
  }

  lemma {:induction false} ArgsAreTrimmed(segs: seq<seq<Piece>>)
    ensures forall k :: 0 <= k < |ArgsOf(segs)| ==> IsTrimmed(ArgsOf(segs)[k])
  {
    if segs != [] {
      TrimIsTrimmed(Content(segs[0]));
      ArgsAreTrimmed(segs[1..]);
    }
  }

  lemma {:induction false} ItemsGiveSpecs(items: seq<Item>)
    requires ItemsOk(items)
    ensures AllSpecs(SpecsOf(items))
  {
    if items != [] {
      ItemGivesSpecs(items[0]);
      ItemsGiveSpecs(items[1..]);
    }
  }

  lemma {:induction false} ItemGivesSpecs(x: Item)
    requires ItemOk(x)
    ensures AllSpecs(ItemSpecs(x))
  {
    TrimmedName(x.raw);
    TrimIsTrimmed(x.raw);
    if x.Invoke? {
      ArgsAreTrimmed(x.segs);
    }
  }

  lemma {:induction false} GivesSpecs(tag: string, specs: seq<GuardSpec>)
    requires Gives(tag, specs)
    ensures AllSpecs(specs)
  {
    if specs != [] {
      var items, last :| Split(Trim(tag), items, last, "") && specs == AllSpecsOf(items, last);
      ItemsGiveSpecs(items);
      NamedGives(last);
    }
  }

  lemma {:induction false} NamedGives(raw: string)
    requires NameChars(raw)
    ensures AllSpecs(Named(raw))
  {
    TrimmedName(raw);
    TrimIsTrimmed(raw);
  }

  lemma {:induction false} ParseGivesSpecs(tag: string)
    ensures Parse(tag).Guards? ==> AllSpecs(Parse(tag).specs)
  {
    if Parse(tag).Guards? {
      ParseIff(tag);
      GivesSpecs(tag, Parse(tag).specs);
    }
  }

  // ---------------------------------------------------------------- a printer

  /** How an argument is written. Bare is for those that need no quotes; any other is then in single ones. */
  datatype Form = Bare | Single | Double

  /** How a guard is written: each of its arguments, whether a space stands before each, whether it has a pair of
      parentheses when it has none, and what parts it from the next guard. */
  datatype Style = Style(form: nat -> Form, spaced: nat -> bool, parens: bool, gap: Gap)

  datatype Gap = Comma | Space | Tab

  function GapChar(gap: Gap): char {
    match gap
    case Comma => ','
    case Space => ' '
    case Tab => '\t'
  }

  /** How each guard of a list is written. */
  type Styles = nat -> Style

  predicate CanBeBare(a: string) {
    a != "" && IsTrimmed(a) && '\'' !in a && '"' !in a && ',' !in a && ')' !in a
  }

  function OtherQuote(q: char): char {
    if q == '"' then '\'' else '"'
  }

  /** In quotes of one kind; a quote of that kind inside is put in quotes of the other. */
  function Quoted(a: string, q: char): (ps: seq<Piece>)
    ensures ps != [] && ps[0].InQuotes? && ps[0].q == q
  {
    if a == "" then [InQuotes(q, "")]
    else
      var rest := Quoted(a[1..], q);
      if a[0] == q then [InQuotes(q, ""), InQuotes(OtherQuote(q), [q])] + rest
      else [InQuotes(q, [a[0]] + rest[0].text)] + rest[1..]
  }

  function Unspaced(a: string, form: Form): seq<Piece> {
    if form.Bare? && CanBeBare(a) then [Plain(a)] else Quoted(a, if form.Double? then '"' else '\'')
  }

  function ArgPieces(a: string, form: Form, spaced: bool): seq<Piece> {
    if spaced then [Plain(" ")] + Unspaced(a, form) else Unspaced(a, form)
  }

  function ArgsPieces(args: seq<string>, style: Style): (segs: seq<seq<Piece>>)
    ensures |segs| == |args|
  {
    seq(|args|, i requires 0 <= i < |args| => ArgPieces(args[i], style.form(i), style.spaced(i)))
  }

  /** A guard as an item of its own, if it is written with parentheses. */
  function CallOf(g: GuardSpec, style: Style): Option<Item> {
    if g.args != [] then Some(Invoke(g.name, ArgsPieces(g.args, style)))
    else if style.parens then Some(Invoke(g.name, [[]]))
    else None
  }

  /** The guards from `k`, as items and a last name. */
  function Written(specs: seq<GuardSpec>, k: nat, styles: Styles): (seq<Item>, string)
    requires k < |specs|
    decreases |specs| - k
  {
    if k + 1 == |specs| then LastWritten(specs[k], styles(k))
    else
      var (items, last) := Written(specs, k + 1, styles);
      (Front(specs[k], styles(k)) + items, last)
  }

  /** A guard before others, and the last one. */
  function Front(g: GuardSpec, style: Style): seq<Item> {
    match CallOf(g, style)
    case Some(call) => [call, Word("", GapChar(style.gap))]
    case None => [Word(g.name, GapChar(style.gap))]
  }

  function LastWritten(g: GuardSpec, style: Style): (seq<Item>, string) {
    match CallOf(g, style)
    case Some(call) => ([call], "")
    case None => ([], g.name)
  }

  function Print(specs: seq<GuardSpec>, styles: Styles): string {
    if specs == [] then ""
    else var (items, last) := Written(specs, 0, styles); ItemsText(items) + last
  }

  // ---------------------------------------------------------------- reading what was printed

  lemma {:induction false} ContentFront(p: Piece, ps: seq<Piece>)
    ensures Content([p] + ps) == p.text + Content(ps) && HasQuotes([p] + ps) == (p.InQuotes? || HasQuotes(ps))
    ensures PiecesOk([p] + ps) <==> PieceOk(p) && PiecesOk(ps)
  {
    assert ([p] + ps)[1..] == ps;
  }

  /** A quote at the front, in quotes of the other kind. */
  lemma {:induction false} QuoteInFront(q: char, rest: seq<Piece>)
    requires IsQuote(q) && PiecesOk(rest)
    ensures var ps := [InQuotes(q, ""), InQuotes(OtherQuote(q), [q])] + rest;
      PiecesOk(ps) && Content(ps) == [q] + Content(rest) && HasQuotes(ps)
  {
    var one := [InQuotes(OtherQuote(q), [q])] + rest;
    ContentFront(InQuotes(OtherQuote(q), [q]), rest);
    ContentFront(InQuotes(q, ""), one);
    assert [InQuotes(q, ""), InQuotes(OtherQuote(q), [q])] + rest == [InQuotes(q, "")] + one;
  }

  /** Any other character goes into the first pair. */
  lemma {:induction false} CharInFront(c: char, q: char, rest: seq<Piece>)
    requires IsQuote(q) && c != q && rest != [] && rest[0].InQuotes? && rest[0].q == q && PiecesOk(rest)
    ensures var ps := [InQuotes(q, [c] + rest[0].text)] + rest[1..];
      PiecesOk(ps) && Content(ps) == [c] + Content(rest) && HasQuotes(ps)
  {
    ContentFront(InQuotes(q, [c] + rest[0].text), rest[1..]);
    Associates([c], rest[0].text, Content(rest[1..]));
  }

  lemma {:induction false} QuotedIs(a: string, q: char)
    requires IsQuote(q)
    ensures PiecesOk(Quoted(a, q)) && Content(Quoted(a, q)) == a && HasQuotes(Quoted(a, q))
    decreases |a|
  {
    if a == "" {
      OnePiece(InQuotes(q, ""));
    } else {
      QuotedIs(a[1..], q);
      TailOf(a);
      if a[0] == q {
        QuoteInFront(q, Quoted(a[1..], q));
      } else {
        CharInFront(a[0], q, Quoted(a[1..], q));
      }
    }
  }

  lemma {:induction false} OnePiece(p: Piece)
    ensures Content([p]) == p.text && HasQuotes([p]) == p.InQuotes?
  {
    assert [p][1..] == [] && p.text + "" == p.text;
  }

  /** A space before an argument is trimmed away. */
  lemma {:induction false} SpaceInFront(ps: seq<Piece>)
    requires PiecesOk(ps)
    ensures var more := [Plain(" ")] + ps;
      PiecesOk(more) && Trim(Content(more)) == Trim(Content(ps)) && HasQuotes(more) == HasQuotes(ps)
  {
    var more := [Plain(" ")] + ps;
    assert more[1..] == ps && Content(more) == " " + Content(ps);
    TrimSkips(' ', Content(ps));
  }

  lemma {:induction false} BareIsPlain(a: string)
    requires '\'' !in a && '"' !in a && ',' !in a && ')' !in a
    ensures PlainChars(a)
  {
    if a != "" {
      TailOf(a);
      BareIsPlain(a[1..]);
    }
  }

  lemma {:induction false} ArgPiecesAre(a: string, form: Form, spaced: bool)
    ensures PiecesOk(ArgPieces(a, form, spaced)) && Trim(Content(ArgPieces(a, form, spaced))) == Trim(a)
    ensures HasQuotes(ArgPieces(a, form, spaced)) || Trim(a) != ""
  {
    var ps := Unspaced(a, form);
    if form.Bare? && CanBeBare(a) {
      OnePiece(Plain(a));
      BareIsPlain(a);
      TrimKeeps(a);
    } else {
      QuotedIs(a, if form.Double? then '"' else '\'');
    }
    SpaceInFront(ps);
  }

  function TrimAll(args: seq<string>): (r: seq<string>)
    ensures |r| == |args|
  {
    seq(|args|, i requires 0 <= i < |args| => Trim(args[i]))
  }

  lemma {:induction false} ArgsOfWritten(args: seq<string>, segs: seq<seq<Piece>>, n: nat)
    requires n <= |args| == |segs|
    requires forall i :: 0 <= i < |args| ==>
               Trim(Content(segs[i])) == Trim(args[i]) && (HasQuotes(segs[i]) || Trim(args[i]) != "")
    ensures ArgsOf(segs[n..]) == TrimAll(args)[n..]
    decreases |args| - n
  {
    if n < |args| {
      ArgsOfWritten(args, segs, n + 1);
      assert segs[n..][1..] == segs[n + 1..];
      assert TrimAll(args)[n..] == [Trim(args[n])] + TrimAll(args)[n + 1..];
    }
  }

  lemma {:induction false} AllOkFrom(segs: seq<seq<Piece>>, n: nat)
    requires n <= |segs| && forall i :: 0 <= i < |segs| ==> PiecesOk(segs[i])
    ensures AllPiecesOk(segs[n..])
    decreases |segs| - n
  {
    if n < |segs| {
      AllOkFrom(segs, n + 1);
      assert segs[n..][1..] == segs[n + 1..];
    }
  }

  lemma {:induction false} ArgsPiecesAre(args: seq<string>, style: Style)
    requires args != []
    ensures SegsOk(ArgsPieces(args, style)) && ArgsOf(ArgsPieces(args, style)) == TrimAll(args)
  {
    var segs := ArgsPieces(args, style);
    forall i | 0 <= i < |args|
      ensures PiecesOk(segs[i]) && Trim(Content(segs[i])) == Trim(args[i])
      ensures HasQuotes(segs[i]) || Trim(args[i]) != ""
    {
      ArgPiecesAre(args[i], style.form(i), style.spaced(i));
    }
    ArgsOfWritten(args, segs, 0);
    AllOkFrom(segs, 0);
    assert segs[0..] == segs && TrimAll(args)[0..] == TrimAll(args);
  }

  /** A guard with its arguments trimmed. */
  function TrimSpec(g: GuardSpec): GuardSpec {
    GuardSpec(g.name, TrimAll(g.args))
  }

  function TrimSpecs(specs: seq<GuardSpec>): (r: seq<GuardSpec>)
    ensures |r| == |specs|
  {
    seq(|specs|, i requires 0 <= i < |specs| => TrimSpec(specs[i]))
  }

  /** Names as the parser can give them, whatever the arguments. */
  ghost predicate ProperNames(specs: seq<GuardSpec>) {
    forall k :: 0 <= k < |specs| ==> IsName(specs[k].name)
  }

  lemma {:induction false} CallIs(g: GuardSpec, style: Style)
    requires IsName(g.name)
    ensures var call := CallOf(g, style);
      if call.Some? then ItemOk(call.value) && ItemSpecs(call.value) == [TrimSpec(g)]
      else Named(g.name) == [TrimSpec(g)]
  {
    TrimKeeps(g.name);
    if g.args != [] {
      ArgsPiecesAre(g.args, style);
    } else if style.parens {
      var none: seq<seq<Piece>> := [[]];
      assert none[1..] == [] && Trim("") == "";
      assert ArgsOf(none) == [];
    }
  }

  lemma {:induction false} SpecsOfFront(x: Item, items: seq<Item>)
    ensures SpecsOf([x] + items) == ItemSpecs(x) + SpecsOf(items)
  {
    assert ([x] + items)[1..] == items;
  }

  lemma {:induction false} WordFront(name: string, g: GuardSpec, gap: char, items: seq<Item>)
    requires ItemOk(Word(name, gap)) && Named(name) == [g] && ItemsOk(items)
    ensures ItemsOk([Word(name, gap)] + items) && SpecsOf([Word(name, gap)] + items) == [g] + SpecsOf(items)
  {
    SpecsOfFront(Word(name, gap), items);
    assert ([Word(name, gap)] + items)[1..] == items;
  }

  lemma {:induction false} CallFront(call: Item, g: GuardSpec, gap: char, items: seq<Item>)
    requires ItemOk(call) && ItemSpecs(call) == [g] && ItemsOk(items) && (gap == ',' || gap == ' ' || gap == '\t')
    ensures ItemsOk([call, Word("", gap)] + items) && SpecsOf([call, Word("", gap)] + items) == [g] + SpecsOf(items)
  {
    var rest := [Word("", gap)] + items;
    SpecsOfFront(Word("", gap), items);
    SpecsOfFront(call, rest);
    assert [call, Word("", gap)] + items == [call] + rest && rest[1..] == items && ([call] + rest)[1..] == rest;
    assert Named("") == [];
  }

  /** What is written for one guard, before what is written for the rest. */
  lemma {:induction false} FrontIs(g: GuardSpec, style: Style, items: seq<Item>)
    requires IsName(g.name) && ItemsOk(items)
    ensures ItemsOk(Front(g, style) + items) && SpecsOf(Front(g, style) + items) == [TrimSpec(g)] + SpecsOf(items)
  {
    CallIs(g, style);
    match CallOf(g, style) {
      case Some(call) => CallFront(call, TrimSpec(g), GapChar(style.gap), items);
      case None => WordFront(g.name, TrimSpec(g), GapChar(style.gap), items);
    }
  }

  lemma {:induction false} LastIs(g: GuardSpec, style: Style)
    requires IsName(g.name)
    ensures var (items, last) := LastWritten(g, style);
      ItemsOk(items) && NameChars(last) && AllSpecsOf(items, last) == [TrimSpec(g)]
  {
    CallIs(g, style);
    match CallOf(g, style) {
      case Some(call) =>
        SpecsOfFront(call, []);
        assert [call] + [] == [call] && Named("") == [];
      case None =>
    }
  }

  lemma {:induction false} WrittenIs(specs: seq<GuardSpec>, k: nat, styles: Styles)
    requires k < |specs| && ProperNames(specs)
    ensures var (items, last) := Written(specs, k, styles);
      ItemsOk(items) && NameChars(last) && AllSpecsOf(items, last) == TrimSpecs(specs)[k..]
    decreases |specs| - k
  {
    assert TrimSpecs(specs)[k..] == [TrimSpec(specs[k])] + TrimSpecs(specs)[k + 1..];
    if k + 1 == |specs| {
      LastIs(specs[k], styles(k));
    } else {
      var (items, last) := Written(specs, k + 1, styles);
      WrittenIs(specs, k + 1, styles);
      FrontIs(specs[k], styles(k), items);
      Associates([TrimSpec(specs[k])], SpecsOf(items), Named(last));
    }
  }

  // ---------------------------------------------------------------- the main results

  /** It begins with this name, and ends with no white space. */
  ghost predicate Framed(s: string, name: string) {
    s != "" && !IsSpace(s[|s| - 1]) && name <= s
  }

  lemma {:induction false} LastIsFramed(g: GuardSpec, style: Style)
    requires IsName(g.name)
    ensures var (items, last) := LastWritten(g, style); Framed(ItemsText(items) + last, g.name)
  {
    match CallOf(g, style) {
      case Some(call) =>
        PrintOfOne(call, []);
        assert [call] + [] == [call];
        EndsLike(g.name, "(", SegsText(call.segs), ItemsText([call]) + "");
      case None =>
        assert ItemsText([]) + g.name == g.name;
    }
  }

  lemma {:induction false} EndsLike(name: string, mid: string, end: string, s: string)
    requires s == name + (mid + end) && end != "" && !IsSpace(end[|end| - 1])
    ensures Framed(s, name)
  {
    assert s[|s| - 1] == end[|end| - 1];
  }

  lemma {:induction false} CallText(name: string, inner: string, gap: string, rest: string, call: string)
    requires call == name + ("(" + inner)
    ensures call + (gap + rest) == name + ((("(" + inner) + gap) + rest)
  {
  }

  lemma {:induction false} FrontText(g: GuardSpec, style: Style, items: seq<Item>, rest: string) returns (mid: string)
    requires rest == ItemsText(items)
    ensures ItemsText(Front(g, style) + items) == g.name + (mid + rest)
  {
    var gap := GapChar(style.gap);
    match CallOf(g, style) {
      case Some(call) =>
        PrintOfTwo(call, Word("", gap), items);
        mid := ("(" + SegsText(call.segs)) + [gap];
        assert ItemText(Word("", gap)) == [gap];
        CallText(g.name, SegsText(call.segs), [gap], rest, ItemText(call));
      case None =>
        PrintOfOne(Word(g.name, gap), items);
        mid := [gap];
        Associates(g.name, [gap], rest);
    }
  }

  lemma {:induction false} FramedFront(name: string, mid: string, rest: string, last: string, text: string)
    requires text == name + (mid + rest) && rest + last != "" && !IsSpace((rest + last)[|rest + last| - 1])
    ensures Framed(text + last, name)
  {
    assert text + last == name + (mid + (rest + last));
    EndsLike(name, mid, rest + last, text + last);
  }

  /** What is printed begins with the first name, and ends with a name or a parenthesis. */
  lemma {:induction false} PrintIsTrimmed(specs: seq<GuardSpec>, k: nat, styles: Styles)
    requires k < |specs| && ProperNames(specs)
    ensures var (items, last) := Written(specs, k, styles); Framed(ItemsText(items) + last, specs[k].name)
    decreases |specs| - k
  {
    if k + 1 == |specs| {
      LastIsFramed(specs[k], styles(k));
    } else {
      var (items, last) := Written(specs, k + 1, styles);
      PrintIsTrimmed(specs, k + 1, styles);
      FramedBefore(specs[k], styles(k), items, ItemsText(items), last, specs[k + 1].name);
    }
  }

  lemma {:induction false} FramedBefore(g: GuardSpec, style: Style, items: seq<Item>, rest: string, last: string,
                                        next: string)
    requires rest == ItemsText(items) && Framed(rest + last, next)
    ensures Framed(ItemsText(Front(g, style) + items) + last, g.name)
  {
    var mid := FrontText(g, style, items, rest);
    FramedFront(g.name, mid, rest, last, ItemsText(Front(g, style) + items));
  }

  lemma {:induction false} PrintOfOne(x: Item, items: seq<Item>)
    ensures ItemsText([x] + items) == ItemText(x) + ItemsText(items)
  {
    assert ([x] + items)[1..] == items;
  }

  lemma {:induction false} PrintOfTwo(x: Item, y: Item, items: seq<Item>)
    ensures ItemsText([x, y] + items) == ItemText(x) + (ItemText(y) + ItemsText(items))
  {
    assert [x, y] + items == [x] + ([y] + items);
    PrintOfOne(y, items);
    PrintOfOne(x, [y] + items);
  }

  /** Whatever the arguments and however each guard is written, parsing gives the list back with every argument
      trimmed. */
  lemma {:induction false} PrintedIsTrimmed(specs: seq<GuardSpec>, styles: Styles)
    requires ProperNames(specs)
    ensures Parse(Print(specs, styles)) == Guards(TrimSpecs(specs))
  {
    if specs != [] {
      var (items, last) := Written(specs, 0, styles);
      var t := Print(specs, styles);
      WrittenIs(specs, 0, styles);
      PrintIsTrimmed(specs, 0, styles);
      assert t[0] == specs[0].name[0] && Trim(t) == t;
      assert t == ItemsText(items) + (last + "");
      WholeParses(t, items, last);
      assert TrimSpecs(specs)[0..] == TrimSpecs(specs);
    }
  }

  lemma {:induction false} KeepsAll(args: seq<string>)
    requires forall k :: 0 <= k < |args| ==> IsTrimmed(args[k])
    ensures TrimAll(args) == args
  {
    forall k | 0 <= k < |args| ensures TrimAll(args)[k] == args[k] {
      TrimKeeps(args[k]);
    }
  }

  lemma {:induction false} TrimmedIff(specs: seq<GuardSpec>)
    requires ProperNames(specs)
    ensures TrimSpecs(specs) == specs <==> AllSpecs(specs)
  {
    if TrimSpecs(specs) == specs {
      forall k | 0 <= k < |specs| ensures IsSpec(specs[k]) {
        assert TrimSpecs(specs)[k] == specs[k];
        forall j | 0 <= j < |specs[k].args| ensures IsTrimmed(specs[k].args[j]) {
          assert TrimAll(specs[k].args)[j] == specs[k].args[j];
          TrimIsTrimmed(specs[k].args[j]);
        }
      }
    }
    if AllSpecs(specs) {
      forall k | 0 <= k < |specs| ensures TrimSpec(specs[k]) == specs[k] {
        assert IsSpec(specs[k]);
        KeepsAll(specs[k].args);
      }
    }
  }

  /** Quoting keeps commas and inner spaces; but a list survives it exactly when none of its arguments begins or
      ends with white space. */
  lemma {:induction false} QuotedArgumentsKeptIff(specs: seq<GuardSpec>, styles: Styles)
    requires ProperNames(specs)
    ensures Parse(Print(specs, styles)) == Guards(specs) <==> AllSpecs(specs)
  {
    PrintedIsTrimmed(specs, styles);
    TrimmedIff(specs);
  }

  lemma {:induction false} ParseUndoesPrint(specs: seq<GuardSpec>, styles: Styles)
    requires AllSpecs(specs)
    ensures Parse(Print(specs, styles)) == Guards(specs)
  {
    QuotedArgumentsKeptIff(specs, styles);
  }

  const PlainStyle: Style := Style(_ => Bare, _ => false, false, Space)

  /** Exactly the well-formed lists come out of the parser. */
  lemma {:induction false} ComesOutIff(specs: seq<GuardSpec>)
    ensures (exists tag :: Parse(tag) == Guards(specs)) <==> AllSpecs(specs)
  {
    if AllSpecs(specs) {
      ParseUndoesPrint(specs, _ => PlainStyle);
    }
    if tag :| Parse(tag) == Guards(specs) {
      ParseGivesSpecs(tag);
    }
  }

  /** A tag and the normal form of it say the same. */
  lemma {:induction false} NormalForm(tag: string, styles: Styles)
    requires Parse(tag).Guards?
    ensures Parse(Print(Parse(tag).specs, styles)) == Parse(tag)
  {
    ParseGivesSpecs(tag);
    ParseUndoesPrint(Parse(tag).specs, styles);
  }

  /** An argument without the quote it stands in is printed between two of them as it is; a bare one just as it is. */
  lemma {:induction false} PrintedVerbatim(a: string, q: char)
    ensures q !in a ==> PiecesText(Quoted(a, q)) == [q] + (a + [q])
    ensures CanBeBare(a) ==> PiecesText(ArgPieces(a, Bare, false)) == a
  {
    if q !in a {
      QuotedOnce(a, q);
      assert PiecesText([InQuotes(q, a)]) == PieceText(InQuotes(q, a)) + PiecesText([]);
    }
    assert PiecesText([Plain(a)]) == a + PiecesText([]);
  }

  lemma {:induction false} QuotedOnce(a: string, q: char)
    requires q !in a
    ensures Quoted(a, q) == [InQuotes(q, a)]
  {
    if a != "" {
      TailOf(a);
      QuotedOnce(a[1..], q);
    }
  }
}
