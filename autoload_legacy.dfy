/** The older autoloader, `Autoload.class.php`: the same rule table and the
    same class-name regex, but `AutoloadRule::getPath` rewrites the path
    template in place, one placeholder at a time, and gives up after 100
    rounds. */
module LegacyAutoload {
  import opened Wrappers
  import opened PhpStrings
  import opened Pcre
  import opened AutoloadRules
  import Autoloading
  import RuleOrder
  import Filters

  /** `AutoloadRule::PATH_PLACEHOLDER_REGEX` without its layout. Groups: 1
      left context, 2 the number, 3 right context, 4 the last filter. The
      right context may hold `|`, so a filter expression without digits,
      such as `|case:lower`, is read as right context and copied into the
      path; group 4 takes part only when a filter holds a digit, and its
      capture is never used. */
  const LegacyPathPattern: string := "%\\[([^\\d\\]]*)([1-9]\\d*)([^\\d\\]]*)(\\|\\w+(?::[^|\\]:]+)*)*\\]%x"

  /** The round after which `getPath` gives up. */
  const MaxIterations: nat := 100

  /** `AutoloadRuleException::INFINITE_LOOP`. */
  datatype LegacyError = InfiniteLoop

  // ---------------------------------------------------------------------
  // Substitution

  /** The text that replaces a placeholder: the context around the
      capture with `\` turned into `/`, or nothing when the capture is
      empty or missing. */
  function Replacement(left: string, capture: string, right: string): string {
    if capture == "" then "" else left + Slashed(capture) + right
  }

  /** The same with the source's own test, `! empty($this->matches[$n])`,
      which also drops a capture of "0". */
  function ReplacementAsWritten(left: string, capture: string, right: string): (r: string)
    ensures capture != "0" ==> r == Replacement(left, capture, right)
  {
    if PhpEmpty(capture) then "" else left + Slashed(capture) + right
  }

  /** The discrepancy: a class name part "0" (as in `Model_0`) is captured,
      yet as written the placeholder and its context vanish from the path. */
  lemma ZeroCaptureDropped(left: string, right: string)
    ensures ReplacementAsWritten(left, "0", right) == ""
    ensures Replacement(left, "0", right) == left + "0" + right
  {
    assert Slashed("0") == "0";
  }

  /** The corrected replacement is what the newer rule's `getPath` adds for
      a placeholder without filters: a placeholder drops out only when its
      capture is missing or empty, and "0" is kept. */
  lemma ReplacementMatchesNewRule(left: string, right: string, captures: seq<string>, n: nat)
    requires n >= 1
    ensures TokenOk(Slot(Placeholder(left, n, right, [Filters.Identity])))
    ensures Replacement(left, Group(captures, n), right) ==
      Contribution(Slot(Placeholder(left, n, right, [Filters.Identity])), captures)
  {
    var capture := Group(captures, n);
    if capture != "" {
      Filters.PlainChainIsIdentity([Filters.Identity], left + Slashed(capture) + right);
    }
  }

  /** One round of the loop after a hit `h`: the new path and the new
      scan position. A hit whose number reads as 0 is skipped; any other
      is replaced, and scanning resumes right after the replacement. */
  function Step(path: string, h: Hit, captures: seq<string>): (r: (string, nat))
    requires |h.groups| >= 1 && h.start + |h.groups[0]| <= |path|
    ensures h.start <= r.1 <= |r.0|
    ensures |r.0| - r.1 == |path| - (h.start + |h.groups[0]|)
    ensures r.0[..h.start] == path[..h.start]
  {
    var end := h.start + |h.groups[0]|;
    var n := IntVal(Group(h.groups, 2));
    if n == 0 then (path, end)
    else
      var replace := Replacement(Group(h.groups, 1), Group(captures, n), Group(h.groups, 3));
      (path[..h.start] + replace + path[end..], h.start + |replace|)
  }

  /** The substitution walk without the round limit: the final path and
      the number of placeholder hits. */
  function Walk(e: Engine, path: string, offset: nat, captures: seq<string>): (r: (string, nat))
    requires Sound(e, LegacyPathPattern) && offset <= |path|
    decreases |path| - offset
  {
    match e.search(LegacyPathPattern, path, offset)
    case None => (path, 0)
    case Some(h) =>
      assert HitFits(e, LegacyPathPattern, path, offset);
      var next := Step(path, h, captures);
      var w := Walk(e, next.0, next.1, captures);
      (w.0, w.1 + 1)
  }

  /** The loop of `getPath` as the source runs it, `iteration` rounds
      already done. */
  function Substitute(e: Engine, path: string, offset: nat, iteration: nat, captures: seq<string>): Result<string, LegacyError>
    requires Sound(e, LegacyPathPattern) && offset <= |path|
    decreases |path| - offset
  {
    match e.search(LegacyPathPattern, path, offset)
    case None => Success(path)
    case Some(h) =>
      assert HitFits(e, LegacyPathPattern, path, offset);
      if iteration + 1 > MaxIterations then Failure(InfiniteLoop)
      else
        var next := Step(path, h, captures);
        Substitute(e, next.0, next.1, iteration + 1, captures)
  }

  /** One round of `Substitute` after a hit: the limit, or the rest of
      the walk from the next position. */
  lemma SubstituteHit(e: Engine, path: string, offset: nat, iteration: nat, captures: seq<string>, h: Hit)
    requires Sound(e, LegacyPathPattern) && offset <= |path|
    requires e.search(LegacyPathPattern, path, offset) == Some(h)
    ensures Fits(h, path, offset)
    ensures iteration + 1 > MaxIterations ==> Substitute(e, path, offset, iteration, captures) == Failure(InfiniteLoop)
    ensures var next := Step(path, h, captures);
      iteration + 1 <= MaxIterations ==>
      Substitute(e, path, offset, iteration, captures) == Substitute(e, next.0, next.1, iteration + 1, captures)
  {
    assert HitFits(e, LegacyPathPattern, path, offset);
  }

  /** The round limit changes nothing but the outcome of long walks: the
      loop fails with INFINITE_LOOP exactly when the walk has more hits
      than rounds are left, and otherwise yields the walk's path. Since
      every walk ends, the limit only ever fires on a template with more
      than 100 placeholders. */
  lemma {:induction false} LimitOnlyCounts(e: Engine, path: string, offset: nat, iteration: nat, captures: seq<string>)
    requires Sound(e, LegacyPathPattern) && offset <= |path| && iteration <= MaxIterations
    ensures var w := Walk(e, path, offset, captures);
      Substitute(e, path, offset, iteration, captures) ==
        if iteration + w.1 > MaxIterations then Failure(InfiniteLoop) else Success(w.0)
    decreases |path| - offset
  {
    match e.search(LegacyPathPattern, path, offset)
    case None =>
    case Some(h) =>
      assert HitFits(e, LegacyPathPattern, path, offset);
      if iteration + 1 <= MaxIterations {
        var next := Step(path, h, captures);
        LimitOnlyCounts(e, next.0, next.1, iteration + 1, captures);
      }
  }

  /** One round of `Walk` after a hit. */
  lemma WalkHit(e: Engine, path: string, offset: nat, captures: seq<string>, h: Hit)
    requires Sound(e, LegacyPathPattern) && offset <= |path|
    requires e.search(LegacyPathPattern, path, offset) == Some(h)
    ensures Fits(h, path, offset)
    ensures var next := Step(path, h, captures);
      Walk(e, path, offset, captures).0 == Walk(e, next.0, next.1, captures).0
  {
    assert HitFits(e, LegacyPathPattern, path, offset);
  }

  /** Text before the scan position is never touched again. */
  lemma {:induction false} WalkKeepsPrefix(e: Engine, path: string, offset: nat, captures: seq<string>)
    requires Sound(e, LegacyPathPattern) && offset <= |path|
    ensures var p := Walk(e, path, offset, captures).0; offset <= |p| && p[..offset] == path[..offset]
    decreases |path| - offset
  {
    var found := e.search(LegacyPathPattern, path, offset);
    if found.Some? {
      var h := found.value;
      WalkHit(e, path, offset, captures, h);
      var next := Step(path, h, captures);
      WalkKeepsPrefix(e, next.0, next.1, captures);
      var p := Walk(e, next.0, next.1, captures).0;
      assert p[..offset] == p[..next.1][..offset];
      assert next.0[..next.1][..offset] == next.0[..h.start][..offset];
    }
  }

  /** A replacement is never rescanned: the final path starts with the
      text before the first placeholder followed by its replacement, and
      the walk goes on from right after it. */
  lemma NoRescan(e: Engine, path: string, offset: nat, captures: seq<string>, h: Hit)
    requires Sound(e, LegacyPathPattern) && offset <= |path|
    requires e.search(LegacyPathPattern, path, offset) == Some(h)
    requires IntVal(Group(h.groups, 2)) != 0
    ensures var replace := Replacement(Group(h.groups, 1), Group(captures, IntVal(Group(h.groups, 2))), Group(h.groups, 3));
      var p := Walk(e, path, offset, captures).0;
      h.start + |replace| <= |p| && p[..h.start + |replace|] == path[..h.start] + replace
  {
    var replace := Replacement(Group(h.groups, 1), Group(captures, IntVal(Group(h.groups, 2))), Group(h.groups, 3));
    WalkHit(e, path, offset, captures, h);
    var next := Step(path, h, captures);
    assert next.1 == h.start + |replace|;
    WalkKeepsPrefix(e, next.0, next.1, captures);
    assert next.0[..next.1] == path[..h.start] + replace;
  }

  /** `getPath` as a value: false (None) unless the last `match` stored a
      non-empty capture array. */
  function LegacyPathFor(e: Engine, pathTemplate: string, matches: Option<seq<string>>): (r: Result<Option<string>, LegacyError>)
    requires Sound(e, LegacyPathPattern)
    ensures (matches.None? || matches.value == []) ==> r == Success(None)
  {
    if matches.None? || matches.value == [] then Success(None)
    else
      var path :- Substitute(e, pathTemplate, 0, 0, matches.value);
      Success(Some(path))
  }

  /** The loop of `getPath`. */
  method SubstituteAll(e: Engine, pathTemplate: string, captures: seq<string>) returns (r: Result<string, LegacyError>)
    requires Sound(e, LegacyPathPattern)
    ensures r == Substitute(e, pathTemplate, 0, 0, captures)
  {
    var iteration: nat := 0;
    var offset: nat := 0;
    var path := pathTemplate;
    var found := e.search(LegacyPathPattern, path, offset);
    while found.Some?
      invariant offset <= |path|
      invariant found == e.search(LegacyPathPattern, path, offset)
      invariant Substitute(e, path, offset, iteration, captures) == Substitute(e, pathTemplate, 0, 0, captures)
      decreases |path| - offset
    {
      var h := found.value;
      SubstituteHit(e, path, offset, iteration, captures, h);
      ghost var next := Step(path, h, captures);
      iteration := iteration + 1;
      if iteration > MaxIterations {
        return Failure(InfiniteLoop);
      }
      var n := IntVal(Group(h.groups, 2));
      if n == 0 {
        offset := h.start + |h.groups[0]|;
      } else {
        var replace := Replacement(Group(h.groups, 1), Group(captures, n), Group(h.groups, 3));
        var before := path[..h.start];
        var after := path[h.start + |h.groups[0]|..];
        path := before + replace + after;
        offset := h.start + |replace|;
      }
      assert (path, offset) == next;
      found := e.search(LegacyPathPattern, path, offset);
    }
    return Success(path);
  }

  // ---------------------------------------------------------------------
  // The class-name expression

  /** The number of `[...]` groups in the class template. */
  function PatternCount(e: Engine, classTemplate: string): nat
    requires Sound(e, ClassPattern)
  {
    MatchCount(ClassPieces(e, classTemplate))
  }

  lemma {:induction false} MatchCountSnoc(pieces: seq<Piece>, i: nat)
    requires i < |pieces|
    ensures MatchCount(pieces[..i + 1]) == MatchCount(pieces[..i]) + (if pieces[i].Match? then 1 else 0)
    decreases i
  {
    if i > 0 {
      MatchCountSnoc(pieces[1..], i - 1);
      assert pieces[1..][..i] == pieces[..i + 1][1..];
      assert pieces[1..][..i - 1] == pieces[..i][1..];
    }
  }

  /** The loop of `prepareExpression`: the same regex as the newer rule
      builds, and the number of groups. */
  method BuildExpression(e: Engine, classTemplate: string) returns (expression: string, patternCount: nat)
    requires Sound(e, ClassPattern)
    ensures expression == ClassRegex(e, classTemplate)
    ensures patternCount == PatternCount(e, classTemplate)
  {
    var pieces := Split(e, ClassPattern, classTemplate, true);
    var body := "";
    patternCount := 0;
    var i := 0;
    while i < |pieces|
      invariant 0 <= i <= |pieces|
      invariant body == RegexBody(e, pieces[..i])
      invariant patternCount == MatchCount(pieces[..i])
    {
      var text := PieceText(e, pieces[i]);
      if pieces[i].Match? {
        patternCount := patternCount + 1;
      }
      RegexBodySnoc(e, pieces, i);
      MatchCountSnoc(pieces, i);
      body := body + text;
      i := i + 1;
    }
    assert pieces[..i] == pieces;
    expression := "%^" + body + "$%i";
  }

  // ---------------------------------------------------------------------
  // The rule object

  /** `AutoloadRule`: the two templates, the template length, the lazily
      built expression with its group count, and the captures of the last
      `match` (None standing for false). */
  class AutoloadRule {
    const engine: Engine
    const classTemplate: string
    const pathTemplate: string
    const length: nat
    var expression: string
    var patternCount: nat
    var matches: Option<seq<string>>

    ghost predicate Valid()
      reads this
    {
      Sound(engine, ClassPattern) && Sound(engine, LegacyPathPattern) &&
      length == |classTemplate| &&
      (expression == "" ||
       (expression == ClassRegex(engine, classTemplate) && patternCount == PatternCount(engine, classTemplate)))
    }

    constructor (engine: Engine, classTemplate: string, pathTemplate: string)
      requires Sound(engine, ClassPattern) && Sound(engine, LegacyPathPattern)
      ensures Valid()
      ensures this.engine == engine && this.classTemplate == classTemplate && this.pathTemplate == pathTemplate
      ensures expression == "" && matches == None
    {
      this.engine := engine;
      this.classTemplate := classTemplate;
      this.pathTemplate := pathTemplate;
      this.length := |classTemplate|;
      expression := "";
      patternCount := 0;
      matches := None;
    }

    /** `getLength`: the byte length of the class template. */
    function GetLength(): (r: nat)
      requires Valid()
      reads this
      ensures r == |classTemplate|
    {
      length
    }

    /** `prepareExpression`. */
    method PrepareExpression()
      requires Valid()
      modifies this
      ensures Valid() && expression == ClassRegex(engine, classTemplate)
      ensures patternCount == PatternCount(engine, classTemplate)
      ensures matches == old(matches)
    {
      expression, patternCount := BuildExpression(engine, classTemplate);
    }

    /** `match`: build the expression once, then test the class name; the
        captures are kept on success and cleared on failure. */
    method Match(className: string) returns (matched: bool)
      requires Valid()
      modifies this
      ensures Valid() && expression == ClassRegex(engine, classTemplate)
      ensures matches == engine.test(ClassRegex(engine, classTemplate), className)
      ensures matched <==> matches.Some?
    {
      if expression == "" {
        PrepareExpression();
      }
      var found := engine.test(expression, className);
      if found.Some? {
        matches := found;
        return true;
      }
      matches := None;
      return false;
    }

    /** `getPath`: false when the last `match` failed; otherwise the
        template with its placeholders substituted. */
    method GetPath() returns (r: Result<Option<string>, LegacyError>)
      requires Valid()
      ensures r == LegacyPathFor(engine, pathTemplate, matches)
    {
      if matches.None? || matches.value == [] {
        return Success(None);
      }
      var path :- SubstituteAll(engine, pathTemplate, matches.value);
      return Success(Some(path));
    }
  }

  // ---------------------------------------------------------------------
  // The rule table

  /** The path a matching rule gives `load`, a falsy one read as None. */
  function RulePath(e: Engine, classTemplate: string, pathTemplate: string, className: string): (r: Result<Option<string>, LegacyError>)
    requires Sound(e, ClassPattern) && Sound(e, LegacyPathPattern)
    ensures r.Success? && r.value.Some? ==> !PhpEmpty(r.value.value)
  {
    var path :- LegacyPathFor(e, pathTemplate, e.test(ClassRegex(e, classTemplate), className));
    Success(if path.None? || PhpEmpty(path.value) then None else path)
  }

  /** What `load` resolves a class name to: the path of the first matching
      rule, or None when no rule matches or the path is falsy. */
  function Resolve(e: Engine, classTemplates: seq<string>, pathTemplates: seq<string>, className: string): (r: Result<Option<string>, LegacyError>)
    requires Sound(e, ClassPattern) && Sound(e, LegacyPathPattern)
    requires |classTemplates| == |pathTemplates|
    ensures Autoloading.FirstMatch(e, classTemplates, className).None? ==> r == Success(None)
    ensures r.Success? && r.value.Some? ==> !PhpEmpty(r.value.value)
  {
    match Autoloading.FirstMatch(e, classTemplates, className)
    case None => Success(None)
    case Some(k) => RulePath(e, classTemplates[k], pathTemplates[k], className)
  }

  /** Every rule of the list is consistent and uses the engine `e`. */
  ghost predicate AllValid(rs: seq<AutoloadRule>, e: Engine)
    reads set r | r in rs
  {
    forall i :: 0 <= i < |rs| ==> rs[i].Valid() && rs[i].engine == e
  }

  /** Splicing a consistent rule into a consistent list. */
  lemma AllValidSplice(rs: seq<AutoloadRule>, k: nat, rule: AutoloadRule, e: Engine)
    requires k <= |rs| && AllValid(rs, e) && rule.Valid() && rule.engine == e
    ensures AllValid(rs[..k] + [rule] + rs[k..], e)
  {
    var t := rs[..k] + [rule] + rs[k..];
    forall i | 0 <= i < |t|
      ensures t[i].Valid() && t[i].engine == e
    {
      if i < k {
        assert t[i] == rs[i];
      } else if k < i {
        assert t[i] == rs[i - 1];
      }
    }
  }

  /** `Ba7\Framework\Autoload` of the older file. */
  class Autoload {
    const engine: Engine
    var rules: seq<AutoloadRule>

    function Lengths(): (r: seq<int>)
      reads this
      ensures |r| == |rules| && forall i :: 0 <= i < |rules| ==> r[i] == rules[i].length
    {
      var rs := rules;
      seq(|rs|, i requires 0 <= i < |rs| => rs[i].length)
    }

    function ClassTemplates(): (r: seq<string>)
      reads this
      ensures |r| == |rules| && forall i :: 0 <= i < |rules| ==> r[i] == rules[i].classTemplate
    {
      var rs := rules;
      seq(|rs|, i requires 0 <= i < |rs| => rs[i].classTemplate)
    }

    function PathTemplates(): (r: seq<string>)
      reads this
      ensures |r| == |rules| && forall i :: 0 <= i < |rules| ==> r[i] == rules[i].pathTemplate
    {
      var rs := rules;
      seq(|rs|, i requires 0 <= i < |rs| => rs[i].pathTemplate)
    }

    ghost predicate Valid()
      reads this, rules
    {
      Sound(engine, ClassPattern) && Sound(engine, LegacyPathPattern) &&
      AllValid(rules, engine) && RuleOrder.Sorted(Lengths())
    }

    constructor (engine: Engine)
      requires Sound(engine, ClassPattern) && Sound(engine, LegacyPathPattern)
      ensures Valid() && this.engine == engine && rules == []
    {
      this.engine := engine;
      rules := [];
    }

    /** `register`: a new rule, placed where the stable sort puts it. */
    method Register(classTemplate: string, pathTemplate: string)
      requires Valid()
      modifies this
      ensures Valid()
      ensures var k := RuleOrder.InsertionPoint(old(Lengths()), |classTemplate|);
        k < |rules| && rules == old(rules)[..k] + [rules[k]] + old(rules)[k..] &&
        fresh(rules[k]) && rules[k].classTemplate == classTemplate && rules[k].pathTemplate == pathTemplate
    {
      var rule := new AutoloadRule(engine, classTemplate, pathTemplate);
      var lengths := Lengths();
      var k := RuleOrder.FindInsertionPoint(lengths, rule.GetLength());
      RuleOrder.InsertSorted(lengths, |classTemplate|);
      var before := rules;
      rules := rules[..k] + [rule] + rules[k..];
      assert Lengths() == lengths[..k] + [|classTemplate|] + lengths[k..];
      AllValidSplice(before, k, rule, engine);
    }

    /** The body of `load`'s loop for rule `i`. */
    method TryRule(i: nat, className: string) returns (matched: bool, r: Result<Option<string>, LegacyError>)
      requires Valid() && i < |rules|
      modifies rules[i]
      ensures Valid()
      ensures matched <==> Autoloading.Matches(engine, rules[i].classTemplate, className)
      ensures matched ==> r == RulePath(engine, rules[i].classTemplate, rules[i].pathTemplate, className)
    {
      var rule := rules[i];
      matched := rule.Match(className);
      r := Success(None);
      if matched {
        var path := rule.GetPath();
        if path.Failure? {
          r := Failure(path.error);
        } else if path.value.None? || PhpEmpty(path.value.value) {
          r := Success(None);
        } else {
          r := path;
        }
      }
      forall j | 0 <= j < |rules|
        ensures rules[j].Valid() && rules[j].engine == engine
      {
        if rules[j] != rule {
          assert old(rules[j].Valid());
        }
      }
    }

    /** `load`: the first matching rule gives the path. */
    method Load(className: string) returns (r: Result<Option<string>, LegacyError>)
      requires Valid()
      modifies rules
      ensures Valid()
      ensures r == Resolve(engine, ClassTemplates(), PathTemplates(), className)
    {
      ghost var templates := ClassTemplates();
      var i := 0;
      while i < |rules|
        invariant 0 <= i <= |rules|
        invariant Valid()
        invariant forall j :: 0 <= j < i ==> !Autoloading.Matches(engine, templates[j], className)
      {
        var matched, path := TryRule(i, className);
        if matched {
          Autoloading.FirstMatchAt(engine, templates, className, i);
          return path;
        }
        i := i + 1;
      }
      Autoloading.NoMatch(engine, templates, className);
      return Success(None);
    }
  }
}
