/** One autoload rule of `Autoload.php`: a class template such as
    `App_[Model|Child|?]_[]` turned into an anchored regular expression, and a
    path template such as `app/[1|case:lower]/[2].php` whose placeholders are
    filled from that expression's captures. */
module AutoloadRules {
  import opened Wrappers
  import opened PhpStrings
  import opened Pcre
  import opened Filters

  /** `Rule::CLASS_PATTERN_REGEX` without its extended-mode layout: a `[...]`
      group of `|`-separated alternatives (a word, a backslash or nothing),
      then an optional `?`. Group 1 is the alternatives, group 2 the `?`. */
  const ClassPattern: string := "%\\[((?:\\w*|\\\\)(?:\\|(?:\\w*|\\\\))*)(\\??)\\]%x"

  /** `Rule::PATH_PLACEHOLDER_REGEX` without its layout: `[left N right|filters]`.
      Groups: 1 left context, 2 the number, 3 right context, 4 filters. */
  const PathPattern: string := "%\\[([^\\d\\]]*)([1-9]\\d*)([^\\d\\]\\|]*)((?:\\|\\w+(?::[^|\\]:]+)*)*)\\]%x"

  /** What an empty alternative becomes: any word. */
  const AnyWord: string := "\\w+"

  /** What a lone backslash alternative becomes: any namespaced name. */
  const AnyQualified: string := "[\\w\\\\]+"

  // ---------------------------------------------------------------------
  // The class-name regex

  /** The rewriting of one alternative of a template group. An empty
      alternative matches any word, a lone backslash any namespaced name,
      anything else stands for itself. */
  function Alternative(alt: string): string {
    if alt == "" then AnyWord else if alt == "\\" then AnyQualified else alt
  }

  /** The same rewriting with the source's own test, `empty($alt)`, which
      also holds for the alternative "0". */
  function AlternativeAsWritten(alt: string): (r: string)
    ensures alt != "0" ==> r == Alternative(alt)
  {
    if PhpEmpty(alt) then AnyWord else if alt == "\\" then AnyQualified else alt
  }

  /** The discrepancy: the alternative "0" is a word of its own, yet as
      written it turns into `\w+`, so `[0|1]` also matches `Foo`. */
  lemma ZeroAlternative()
    ensures AlternativeAsWritten("0") == AnyWord
    ensures Alternative("0") == "0"
  {
  }

  /** Every rewritten alternative of the list. */
  function Rewrite(parts: seq<string>): (r: seq<string>)
    ensures |r| == |parts|
    ensures forall i :: 0 <= i < |parts| ==> r[i] == Alternative(parts[i])
  {
    seq(|parts|, i requires 0 <= i < |parts| => Alternative(parts[i]))
  }

  /** The capture group a template group becomes: the rewritten
      alternatives joined by `|`, with an empty alternative added when the
      group ends in `?`. */
  function GroupRegex(alternatives: string, optional: bool): string {
    var subex := Implode('|', Rewrite(Explode('|', alternatives)));
    "(" + (if optional then subex + "|" else subex) + ")"
  }

  lemma {:induction false} ImplodeAppendEmpty(sep: char, parts: seq<string>)
    requires |parts| >= 1
    ensures Implode(sep, parts + [""]) == Implode(sep, parts) + [sep]
  {
    if |parts| == 1 {
      assert Implode(sep, parts + [""]) == parts[0] + [sep] + Implode(sep, [""]);
    } else {
      assert (parts + [""])[1..] == parts[1..] + [""];
      ImplodeAppendEmpty(sep, parts[1..]);
    }
  }

  /** The alternatives of the generated group, read back by splitting on
      `|`, are exactly the rewritten alternatives of the template group,
      plus an empty one when the group is optional; alternatives other
      than "" and `\` come through unchanged. */
  lemma GroupAlternatives(alternatives: string, optional: bool)
    ensures var g := GroupRegex(alternatives, optional);
      |g| >= 2 && g[0] == '(' && g[|g| - 1] == ')' &&
      Explode('|', g[1..|g| - 1]) ==
        Rewrite(Explode('|', alternatives)) + (if optional then [""] else [])
    ensures var parts := Explode('|', alternatives);
      (forall i :: 0 <= i < |parts| ==> parts[i] != "" && parts[i] != "\\") ==>
        Rewrite(parts) == parts
  {
    var parts := Explode('|', alternatives);
    var alts := Rewrite(parts);
    forall i | 0 <= i < |alts|
      ensures '|' !in alts[i]
    {
      assert '|' !in parts[i];
    }
    var subex := Implode('|', alts);
    var inner := if optional then subex + "|" else subex;
    var g := GroupRegex(alternatives, optional);
    assert g == "(" + inner + ")";
    assert g[1..|g| - 1] == inner;
    if optional {
      ImplodeAppendEmpty('|', alts);
      forall i | 0 <= i < |alts + [""]|
        ensures '|' !in (alts + [""])[i]
      {
        if i < |alts| {
          assert (alts + [""])[i] == alts[i];
        }
      }
      ExplodeImplode('|', alts + [""]);
    } else {
      ExplodeImplode('|', alts);
    }
  }

  /** The regex text one piece of the split class template contributes:
      quoted literal text, or the group a `[...]` becomes. */
  function PieceRegex(e: Engine, p: Piece): string {
    match p
    case Text(t) => e.quote(t)
    case Match(g) => GroupRegex(Group(g, 1), !PhpEmpty(Group(g, 2)))
  }

  function RegexBody(e: Engine, pieces: seq<Piece>): string {
    if pieces == [] then "" else PieceRegex(e, pieces[0]) + RegexBody(e, pieces[1..])
  }

  lemma {:induction false} RegexBodyConcat(e: Engine, a: seq<Piece>, b: seq<Piece>)
    ensures RegexBody(e, a + b) == RegexBody(e, a) + RegexBody(e, b)
  {
    if a == [] {
      assert a + b == b;
    } else {
      assert (a + b)[0] == a[0] && (a + b)[1..] == a[1..] + b;
      RegexBodyConcat(e, a[1..], b);
    }
  }

  /** The pieces the class template splits into, empty gaps dropped. */
  function ClassPieces(e: Engine, classTemplate: string): seq<Piece>
    requires Sound(e, ClassPattern)
  {
    SplitFrom(e, ClassPattern, classTemplate, 0, true)
  }

  /** The whole class-name regex: the pieces' regex text in template order,
      anchored at both ends and case-insensitive. */
  function ClassRegex(e: Engine, classTemplate: string): string
    requires Sound(e, ClassPattern)
  {
    "%^" + RegexBody(e, ClassPieces(e, classTemplate)) + "$%i"
  }

  /** The regex is anchored and case-insensitive, and never empty (so the
      cache test `! $this->classnameRegex` sees it once it is built). A
      template without groups is matched as its quoted text, and the empty
      template only matches the empty name. */
  lemma ClassRegexShape(e: Engine, classTemplate: string)
    requires Sound(e, ClassPattern)
    ensures var r := ClassRegex(e, classTemplate);
      |r| >= 5 && r[..2] == "%^" && r[|r| - 3..] == "$%i"
    ensures classTemplate == "" ==> ClassRegex(e, classTemplate) == "%^$%i"
    ensures classTemplate != "" && e.search(ClassPattern, classTemplate, 0).None? ==>
      ClassRegex(e, classTemplate) == "%^" + e.quote(classTemplate) + "$%i"
  {
    if classTemplate != "" && e.search(ClassPattern, classTemplate, 0).None? {
      var pieces := ClassPieces(e, classTemplate);
      assert pieces == [Text(classTemplate[0..])];
      assert classTemplate[0..] == classTemplate;
      assert RegexBody(e, pieces) == e.quote(classTemplate) + RegexBody(e, []);
    }
  }

  /** The loop inside `prepareClassnameRegex` that builds one group. */
  method BuildGroup(alternatives: string, optional: bool) returns (group: string)
    ensures group == GroupRegex(alternatives, optional)
  {
    var parts := Explode('|', alternatives);
    var alts: seq<string> := [];
    var j := 0;
    while j < |parts|
      invariant 0 <= j <= |parts|
      invariant |alts| == j
      invariant forall k :: 0 <= k < j ==> alts[k] == Alternative(parts[k])
    {
      var alt := parts[j];
      if alt == "" {
        alts := alts + [AnyWord];
      } else if alt == "\\" {
        alts := alts + [AnyQualified];
      } else {
        alts := alts + [alt];
      }
      j := j + 1;
    }
    assert alts == Rewrite(parts);
    var subex := Implode('|', alts);
    if optional {
      subex := subex + "|";
    }
    group := "(" + subex + ")";
  }

  // ---------------------------------------------------------------------
  // Path tokens

  datatype RuleError =
    | /** `PathPlaceholderException::ZERO_IS_NOT_ALLOWED`. */
      ZeroIsNotAllowed(number: string)
    | /** The placeholder's filter expression did not parse. */
      FilterFailed(cause: FilterError)

  /** A `PathPlaceholder`: the context around the capture, the capture's
      number, and the stages of its filter chain. */
  datatype Placeholder = Placeholder(left: string, number: nat, right: string, stages: seq<Stage>)

  /** A path token: literal text, or a placeholder. */
  datatype Token = Literal(text: string) | Slot(placeholder: Placeholder)

  predicate TokenOk(t: Token) {
    t.Slot? ==> t.placeholder.number >= 1 && AllAccepted(t.placeholder.stages)
  }

  predicate TokensOk(tokens: seq<Token>) {
    forall i :: 0 <= i < |tokens| ==> TokenOk(tokens[i])
  }

  /** `PathPlaceholder::__construct`: a number whose `intval` is 0 is
      rejected; otherwise the filter expression is parsed into a chain. */
  function MakePlaceholder(left: string, number: string, right: string, filters: string): (r: Result<Placeholder, RuleError>)
    ensures r == Failure(ZeroIsNotAllowed(number)) <==> IntVal(number) == 0
    ensures r.Success? <==> IntVal(number) > 0 && ParseStages(ToNextBar, filters).Success?
    ensures r.Success? ==>
      r.value.number == IntVal(number) && TokenOk(Slot(r.value)) &&
      r.value.stages == ParseStages(ToNextBar, filters).value
  {
    var n := IntVal(number);
    if n == 0 then Failure(ZeroIsNotAllowed(number))
    else match ParseStages(ToNextBar, filters)
      case Failure(err) => Failure(FilterFailed(err))
      case Success(stages) => Success(Placeholder(left, n, right, stages))
  }

  /** Every number the path pattern can capture starts with a digit 1-9, so
      ZERO_IS_NOT_ALLOWED never fires for it, and a placeholder without
      filters has the identity chain. */
  lemma PatternNumbersAccepted(left: string, number: string, right: string)
    requires |number| > 0 && '1' <= number[0] <= '9'
    ensures MakePlaceholder(left, number, right, "") ==
      Success(Placeholder(left, IntVal(number), right, [Identity]))
  {
    IntValPositive(number);
  }

  /** The token a piece of the split path template becomes. */
  function TokenOf(p: Piece): (r: Result<Token, RuleError>)
    ensures r.Success? ==> TokenOk(r.value)
  {
    match p
    case Text(t) => Success(Literal(t))
    case Match(g) =>
      var placeholder :- MakePlaceholder(Group(g, 1), Group(g, 2), Group(g, 3), Group(g, 4));
      Success(Slot(placeholder))
  }

  /** The tokens of a list of pieces, in order; the first placeholder that
      fails to build is the error. */
  function TokensOf(pieces: seq<Piece>): (r: Result<seq<Token>, RuleError>)
    ensures r.Success? ==> |r.value| == |pieces| && TokensOk(r.value)
  {
    if pieces == [] then Success([])
    else
      var init :- TokensOf(pieces[..|pieces| - 1]);
      var last :- TokenOf(pieces[|pieces| - 1]);
      Success(init + [last])
  }

  /** Tokens that failed for a prefix fail the same way for the whole. */
  lemma {:induction false} TokensOfFailure(a: seq<Piece>, b: seq<Piece>)
    requires TokensOf(a).Failure?
    ensures TokensOf(a + b) == TokensOf(a)
    decreases |b|
  {
    if b == [] {
      assert a + b == a;
    } else {
      var init := b[..|b| - 1];
      assert (a + b)[..|a + b| - 1] == a + init;
      TokensOfFailure(a, init);
    }
  }

  /** One more piece: its token is appended, or its failure is the
      failure of the longer prefix. */
  lemma TokensOfSnoc(pieces: seq<Piece>, i: nat)
    requires i < |pieces| && TokensOf(pieces[..i]).Success?
    ensures TokenOf(pieces[i]).Success? ==>
      TokensOf(pieces[..i + 1]) == Success(TokensOf(pieces[..i]).value + [TokenOf(pieces[i]).value])
    ensures TokenOf(pieces[i]).Failure? ==>
      TokensOf(pieces[..i + 1]) == Failure(TokenOf(pieces[i]).error)
  {
    var p := pieces[..i + 1];
    assert p[..|p| - 1] == pieces[..i];
    assert p[|p| - 1] == pieces[i];
  }

  /** A prefix whose tokens fail makes the whole list fail the same way. */
  lemma TokensOfPrefixFails(pieces: seq<Piece>, k: nat)
    requires k <= |pieces| && TokensOf(pieces[..k]).Failure?
    ensures TokensOf(pieces) == TokensOf(pieces[..k])
  {
    TokensOfFailure(pieces[..k], pieces[k..]);
    assert pieces[..k] + pieces[k..] == pieces;
  }

  /** The literal texts and placeholders of a path template, in order. */
  function PathTokens(e: Engine, pathTemplate: string): Result<seq<Token>, RuleError>
    requires Sound(e, PathPattern)
  {
    TokensOf(SplitFrom(e, PathPattern, pathTemplate, 0, true))
  }

  // ---------------------------------------------------------------------
  // Paths

  /** What one token adds to the path, given the captures of the class
      name: a literal its text; a placeholder nothing when its capture is
      missing or empty, else its filters applied to the left context, the
      capture with `\` turned into `/`, and the right context. */
  function Contribution(t: Token, captures: seq<string>): string
    requires TokenOk(t)
  {
    match t
    case Literal(text) => text
    case Slot(p) =>
      var capture := Group(captures, p.number);
      if capture == "" then "" else ApplyAll(p.stages, p.left + Slashed(capture) + p.right)
  }

  function PathOf(tokens: seq<Token>, captures: seq<string>): string
    requires TokensOk(tokens)
  {
    if tokens == [] then "" else Contribution(tokens[0], captures) + PathOf(tokens[1..], captures)
  }

  lemma TokensOkConcat(a: seq<Token>, b: seq<Token>)
    requires TokensOk(a) && TokensOk(b)
    ensures TokensOk(a + b)
  {
    forall i | 0 <= i < |a + b|
      ensures TokenOk((a + b)[i])
    {
      if i < |a| {
        assert (a + b)[i] == a[i];
      } else {
        assert (a + b)[i] == b[i - |a|];
      }
    }
  }

  lemma ConcatAssoc(x: string, y: string, z: string)
    ensures x + (y + z) == (x + y) + z
  {
  }

  lemma {:induction false} PathOfConcat(a: seq<Token>, b: seq<Token>, captures: seq<string>)
    requires TokensOk(a) && TokensOk(b)
    ensures TokensOk(a + b)
    ensures PathOf(a + b, captures) == PathOf(a, captures) + PathOf(b, captures)
  {
    TokensOkConcat(a, b);
    if a == [] {
      assert a + b == b;
    } else {
      var rest := a[1..];
      assert (a + b)[0] == a[0] && (a + b)[1..] == rest + b;
      PathOfConcat(rest, b, captures);
      var c := Contribution(a[0], captures);
      assert PathOf(a + b, captures) == c + PathOf(rest + b, captures);
      assert PathOf(a, captures) == c + PathOf(rest, captures);
      ConcatAssoc(c, PathOf(rest, captures), PathOf(b, captures));
    }
  }

  /** One more token adds its contribution at the end. */
  lemma PathOfSnoc(tokens: seq<Token>, i: nat, captures: seq<string>)
    requires TokensOk(tokens) && i < |tokens|
    ensures TokensOk(tokens[..i]) && TokensOk(tokens[..i + 1])
    ensures PathOf(tokens[..i + 1], captures) == PathOf(tokens[..i], captures) + Contribution(tokens[i], captures)
  {
    assert TokensOk(tokens[..i]);
    PathOfConcat(tokens[..i], [tokens[i]], captures);
    assert tokens[..i + 1] == tokens[..i] + [tokens[i]];
    assert PathOf([tokens[i]], captures) == Contribution(tokens[i], captures) + PathOf([], captures);
  }

  /** A placeholder whose capture is missing or empty drops out of the path
      entirely, its left and right context included. */
  lemma EmptyCaptureDropsPlaceholder(a: seq<Token>, p: Placeholder, b: seq<Token>, captures: seq<string>)
    requires TokensOk(a) && TokenOk(Slot(p)) && TokensOk(b)
    requires Group(captures, p.number) == ""
    ensures TokensOk(a + [Slot(p)] + b) && TokensOk(a + b)
    ensures PathOf(a + [Slot(p)] + b, captures) == PathOf(a + b, captures)
  {
    var slot := [Slot(p)];
    PathOfConcat(a, slot, captures);
    PathOfConcat(a + slot, b, captures);
    PathOfConcat(a, b, captures);
    assert PathOf(slot, captures) == "" + PathOf([], captures);
    assert PathOf(a + slot, captures) == PathOf(a, captures);
  }

  /** Case filters never produce a backslash that was not there. */
  lemma {:induction false} ApplyAllKeepsSlashes(stages: seq<Stage>, v: string)
    requires AllAccepted(stages) && '\\' !in v
    ensures '\\' !in ApplyAll(stages, v)
    decreases |stages|
  {
    if stages != [] {
      var w := Implement(stages[0], v).value;
      forall i | 0 <= i < |w|
        ensures w[i] != '\\'
      {
        assert v[i] != '\\';
        if stages[0].kind == Case {
          assert w[i] == UpperChar(v[i]) || w[i] == LowerChar(v[i]);
        }
      }
      ApplyAllKeepsSlashes(stages[1..], w);
    }
  }

  /** When neither the literal text nor any placeholder context holds a
      backslash, the path holds none: every backslash of a captured
      namespace has become a directory separator. */
  lemma {:induction false} PathHasNoBackslash(tokens: seq<Token>, captures: seq<string>)
    requires TokensOk(tokens)
    requires forall i :: 0 <= i < |tokens| && tokens[i].Literal? ==> '\\' !in tokens[i].text
    requires forall i :: 0 <= i < |tokens| && tokens[i].Slot? ==>
      '\\' !in tokens[i].placeholder.left && '\\' !in tokens[i].placeholder.right
    ensures '\\' !in PathOf(tokens, captures)
  {
    if tokens != [] {
      var t := tokens[0];
      if t.Slot? {
        var p := t.placeholder;
        var capture := Group(captures, p.number);
        if capture != "" {
          var v := p.left + Slashed(capture) + p.right;
          forall i | 0 <= i < |v|
            ensures v[i] != '\\'
          {
            if i < |p.left| {
              assert v[i] == p.left[i];
            } else if i < |p.left| + |capture| {
              assert v[i] == Slashed(capture)[i - |p.left|];
            } else {
              assert v[i] == p.right[i - |p.left| - |capture|];
            }
          }
          ApplyAllKeepsSlashes(p.stages, v);
        }
      }
      PathHasNoBackslash(tokens[1..], captures);
    }
  }

  /** `getPath` as a value: false (None) unless the last `match` stored a
      non-empty capture array; otherwise the path its tokens build. */
  function PathFor(e: Engine, pathTemplate: string, matches: Option<seq<string>>): (r: Result<Option<string>, RuleError>)
    requires Sound(e, PathPattern)
    ensures (matches.None? || matches.value == []) ==> r == Success(None)
    ensures r.Failure? ==> PathTokens(e, pathTemplate).Failure?
  {
    if matches.None? || matches.value == [] then Success(None)
    else
      var tokens :- PathTokens(e, pathTemplate);
      Success(Some(PathOf(tokens, matches.value)))
  }

  // ---------------------------------------------------------------------
  // The loops of the rule's methods

  /** The loop of `prepareClassnameRegex`: quoted text for each gap, a group
      for each `[...]`, between `^` and `$`. */
  method BuildClassRegex(e: Engine, classTemplate: string) returns (regex: string)
    requires Sound(e, ClassPattern)
    ensures regex == ClassRegex(e, classTemplate)
  {
    var pieces := Split(e, ClassPattern, classTemplate, true);
    var body := "";
    var i := 0;
    while i < |pieces|
      invariant 0 <= i <= |pieces|
      invariant body == RegexBody(e, pieces[..i])
    {
      var text := PieceText(e, pieces[i]);
      RegexBodySnoc(e, pieces, i);
      body := body + text;
      i := i + 1;
    }
    assert pieces[..i] == pieces;
    regex := "%^" + body + "$%i";
  }

  /** One iteration of that loop. */
  method PieceText(e: Engine, p: Piece) returns (text: string)
    ensures text == PieceRegex(e, p)
  {
    match p {
      case Text(t) =>
        text := e.quote(t);
      case Match(g) =>
        text := BuildGroup(Group(g, 1), !PhpEmpty(Group(g, 2)));
    }
  }

  lemma RegexBodySnoc(e: Engine, pieces: seq<Piece>, i: nat)
    requires i < |pieces|
    ensures RegexBody(e, pieces[..i + 1]) == RegexBody(e, pieces[..i]) + PieceRegex(e, pieces[i])
  {
    RegexBodyConcat(e, pieces[..i], [pieces[i]]);
    assert pieces[..i + 1] == pieces[..i] + [pieces[i]];
    assert RegexBody(e, [pieces[i]]) == PieceRegex(e, pieces[i]) + RegexBody(e, []);
  }

  /** The loop of `preparePathTokens`: literal text for each gap, a
      placeholder for each `[...]`, stopping at the first placeholder that
      cannot be built. */
  method BuildPathTokens(e: Engine, pathTemplate: string) returns (r: Result<seq<Token>, RuleError>)
    requires Sound(e, PathPattern)
    ensures r == PathTokens(e, pathTemplate)
  {
    var pieces := Split(e, PathPattern, pathTemplate, true);
    var tokens: seq<Token> := [];
    var i := 0;
    while i < |pieces|
      invariant 0 <= i <= |pieces|
      invariant TokensOf(pieces[..i]) == Success(tokens)
    {
      TokensOfSnoc(pieces, i);
      var token: Token;
      match pieces[i] {
        case Text(t) =>
          token := Literal(t);
        case Match(g) =>
          var made := MakePlaceholder(Group(g, 1), Group(g, 2), Group(g, 3), Group(g, 4));
          if made.Failure? {
            TokensOfPrefixFails(pieces, i + 1);
            return Failure(made.error);
          }
          token := Slot(made.value);
      }
      tokens := tokens + [token];
      i := i + 1;
    }
    assert pieces[..i] == pieces;
    return Success(tokens);
  }

  /** The loop of `getPath`: each token's contribution, appended in order. */
  method BuildPath(tokens: seq<Token>, captures: seq<string>) returns (path: string)
    requires TokensOk(tokens)
    ensures path == PathOf(tokens, captures)
  {
    path := "";
    var i := 0;
    while i < |tokens|
      invariant 0 <= i <= |tokens|
      invariant TokensOk(tokens[..i])
      invariant path == PathOf(tokens[..i], captures)
    {
      match tokens[i] {
        case Literal(text) =>
          path := path + text;
        case Slot(p) =>
          var capture := Group(captures, p.number);
          if capture != "" {
            var replace := p.left + Slashed(capture) + p.right;
            path := path + ApplyAll(p.stages, replace);
          }
      }
      PathOfSnoc(tokens, i, captures);
      i := i + 1;
    }
    assert tokens[..i] == tokens;
  }

  // ---------------------------------------------------------------------
  // The rule object

  /** `Autoload\Rule`: the two templates, the template length, the lazily
      built class-name regex and path tokens, and the captures of the last
      `match` (None standing for false). An empty regex or an empty token
      list means "not built yet", as PHP's falsy test reads them. */
  class Rule {
    const engine: Engine
    const classTemplate: string
    const pathTemplate: string
    const length: nat
    var classnameRegex: string
    var pathTokens: seq<Token>
    var matches: Option<seq<string>>

    /** The caches, when filled, hold what their templates determine. */
    ghost predicate Valid()
      reads this
    {
      Sound(engine, ClassPattern) && Sound(engine, PathPattern) &&
      length == |classTemplate| &&
      (classnameRegex == "" || classnameRegex == ClassRegex(engine, classTemplate)) &&
      (pathTokens == [] || PathTokens(engine, pathTemplate) == Success(pathTokens))
    }

    constructor (engine: Engine, classTemplate: string, pathTemplate: string)
      requires Sound(engine, ClassPattern) && Sound(engine, PathPattern)
      ensures Valid()
      ensures this.engine == engine && this.classTemplate == classTemplate && this.pathTemplate == pathTemplate
      ensures classnameRegex == "" && pathTokens == [] && matches == None
    {
      this.engine := engine;
      this.classTemplate := classTemplate;
      this.pathTemplate := pathTemplate;
      this.length := |classTemplate|;
      classnameRegex := "";
      pathTokens := [];
      matches := None;
    }

    /** `getLength`: the byte length of the class template. */
    function GetLength(): (r: nat)
      requires Valid()
      reads this
      ensures r == |classTemplate|
    {
      length
    }

    /** `prepareClassnameRegex`. */
    method PrepareClassnameRegex()
      requires Valid()
      modifies this
      ensures Valid() && classnameRegex == ClassRegex(engine, classTemplate)
      ensures pathTokens == old(pathTokens) && matches == old(matches)
    {
      classnameRegex := BuildClassRegex(engine, classTemplate);
    }

    /** `match`: build the regex once, then test the class name; the
        captures are kept on success and cleared on failure. */
    method Match(className: string) returns (matched: bool)
      requires Valid()
      modifies this
      ensures Valid() && classnameRegex == ClassRegex(engine, classTemplate)
      ensures matches == engine.test(ClassRegex(engine, classTemplate), className)
      ensures matched <==> matches.Some?
      ensures pathTokens == old(pathTokens)
    {
      if classnameRegex == "" {
        PrepareClassnameRegex();
      }
      var found := engine.test(classnameRegex, className);
      if found.Some? {
        matches := found;
        return true;
      }
      matches := None;
      return false;
    }

    /** `preparePathTokens`: the tokens are stored only when every
        placeholder was built. */
    method PreparePathTokens() returns (r: Result<seq<Token>, RuleError>)
      requires Valid()
      modifies this
      ensures r == PathTokens(engine, pathTemplate)
      ensures pathTokens == (if r.Success? then r.value else old(pathTokens))
      ensures Valid() && classnameRegex == old(classnameRegex) && matches == old(matches)
    {
      r := BuildPathTokens(engine, pathTemplate);
      if r.Success? {
        pathTokens := r.value;
      }
    }

    /** `getPath`: false when the last `match` failed; otherwise the
        contributions of the tokens, in order. */
    method GetPath() returns (r: Result<Option<string>, RuleError>)
      requires Valid()
      modifies this
      ensures r == PathFor(engine, pathTemplate, matches)
      ensures Valid() && classnameRegex == old(classnameRegex) && matches == old(matches)
      ensures pathTokens == old(pathTokens) || PathTokens(engine, pathTemplate) == Success(pathTokens)
    {
      if matches.None? || matches.value == [] {
        return Success(None);
      }
      if pathTokens == [] {
        var prepared := PreparePathTokens();
        if prepared.Failure? {
          return Failure(prepared.error);
        }
      }
      assert PathTokens(engine, pathTemplate) == Success(pathTokens);
      var path := BuildPath(pathTokens, matches.value);
      return Success(Some(path));
    }
  }
}
