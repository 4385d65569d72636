/** The rule table of `Autoload.php`: rules kept longest class template
    first, and `load` resolving a class name through the first rule that
    matches it. */
module Autoloading {
  import opened Wrappers
  import opened PhpStrings
  import opened Pcre
  import opened AutoloadRules
  import RuleOrder

  /** Whether a rule with this class template matches the class name. */
  predicate Matches(e: Engine, classTemplate: string, className: string)
    requires Sound(e, ClassPattern)
  {
    e.test(ClassRegex(e, classTemplate), className).Some?
  }

  /** The index of the first class template from `from` on that matches,
      if any. */
  function FirstMatchFrom(e: Engine, classTemplates: seq<string>, className: string, from: nat): (r: Option<nat>)
    requires Sound(e, ClassPattern) && from <= |classTemplates|
    ensures r.Some? ==>
      from <= r.value < |classTemplates| && Matches(e, classTemplates[r.value], className) &&
      forall i :: from <= i < r.value ==> !Matches(e, classTemplates[i], className)
    ensures r.None? ==> forall i :: from <= i < |classTemplates| ==> !Matches(e, classTemplates[i], className)
    decreases |classTemplates| - from
  {
    if from == |classTemplates| then None
    else if Matches(e, classTemplates[from], className) then Some(from)
    else FirstMatchFrom(e, classTemplates, className, from + 1)
  }

  /** The index of the first class template that matches, if any. */
  function FirstMatch(e: Engine, classTemplates: seq<string>, className: string): (r: Option<nat>)
    requires Sound(e, ClassPattern)
    ensures r.Some? ==>
      r.value < |classTemplates| && Matches(e, classTemplates[r.value], className) &&
      forall i :: 0 <= i < r.value ==> !Matches(e, classTemplates[i], className)
    ensures r.None? ==> forall i :: 0 <= i < |classTemplates| ==> !Matches(e, classTemplates[i], className)
  {
    FirstMatchFrom(e, classTemplates, className, 0)
  }

  lemma FirstMatchAt(e: Engine, classTemplates: seq<string>, className: string, i: nat)
    requires Sound(e, ClassPattern)
    requires i < |classTemplates| && Matches(e, classTemplates[i], className)
    requires forall j :: 0 <= j < i ==> !Matches(e, classTemplates[j], className)
    ensures FirstMatch(e, classTemplates, className) == Some(i)
  {
  }

  lemma NoMatch(e: Engine, classTemplates: seq<string>, className: string)
    requires Sound(e, ClassPattern)
    requires forall j :: 0 <= j < |classTemplates| ==> !Matches(e, classTemplates[j], className)
    ensures FirstMatch(e, classTemplates, className) == None
  {
  }

  /** What `load` resolves a class name to: the path of the first matching
      rule, or None when no rule matches or the path is falsy (PHP's
      `! $path`), in which case `load` leaves the class to other loaders. */
  function Resolve(e: Engine, classTemplates: seq<string>, pathTemplates: seq<string>, className: string): (r: Result<Option<string>, RuleError>)
    requires Sound(e, ClassPattern) && Sound(e, PathPattern)
    requires |classTemplates| == |pathTemplates|
    ensures FirstMatch(e, classTemplates, className).None? ==> r == Success(None)
    ensures r.Success? && r.value.Some? ==> !PhpEmpty(r.value.value)
  {
    match FirstMatch(e, classTemplates, className)
    case None => Success(None)
    case Some(k) => RulePath(e, classTemplates[k], pathTemplates[k], className)
  }

  /** The path a matching rule gives `load`, a falsy one read as None. */
  function RulePath(e: Engine, classTemplate: string, pathTemplate: string, className: string): (r: Result<Option<string>, RuleError>)
    requires Sound(e, ClassPattern) && Sound(e, PathPattern)
    ensures r.Success? && r.value.Some? ==> !PhpEmpty(r.value.value)
  {
    var path :- PathFor(e, pathTemplate, e.test(ClassRegex(e, classTemplate), className));
    Success(if path.None? || PhpEmpty(path.value) then None else path)
  }

  /** With the table sorted, the rule `load` picks has the longest class
      template of all the rules that match. */
  lemma LongestTemplateWins(e: Engine, classTemplates: seq<string>, className: string, j: nat)
    requires Sound(e, ClassPattern)
    requires RuleOrder.Sorted(seq(|classTemplates|, i requires 0 <= i < |classTemplates| => |classTemplates[i]|))
    requires j < |classTemplates| && Matches(e, classTemplates[j], className)
    ensures FirstMatch(e, classTemplates, className).Some?
    ensures var k := FirstMatch(e, classTemplates, className).value;
      k <= j && |classTemplates[k]| >= |classTemplates[j]|
  {
    var lengths := seq(|classTemplates|, i requires 0 <= i < |classTemplates| => |classTemplates[i]|);
    var k := FirstMatch(e, classTemplates, className).value;
    RuleOrder.FirstIsLongest(lengths, k, j);
  }

  /** Every rule of the list is consistent and uses the engine `e`. */
  ghost predicate AllValid(rs: seq<Rule>, e: Engine)
    reads set r | r in rs
  {
    forall i :: 0 <= i < |rs| ==> rs[i].Valid() && rs[i].engine == e
  }

  /** Splicing a consistent rule into a consistent list. */
  lemma AllValidSplice(rs: seq<Rule>, k: nat, rule: Rule, e: Engine)
    requires k <= |rs| && AllValid(rs, e) && rule.Valid() && rule.engine == e
    ensures AllValid(rs[..k] + [rule] + rs[k..], e)
  {
    var t := rs[..k] + [rule] + rs[k..];
    forall i | 0 <= i < |t|
      ensures t[i].Valid() && t[i].engine == e
    {
      if i < k {
        assert t[i] == rs[i];
      } else if k < i {
        assert t[i] == rs[i - 1];
      }
    }
  }

  /** `Ba7\Framework\Autoload`: its static rule list as the field of a
      single registry object. */
  class Autoload {
    const engine: Engine
    var rules: seq<Rule>

    function Lengths(): (r: seq<int>)
      reads this
      ensures |r| == |rules| && forall i :: 0 <= i < |rules| ==> r[i] == rules[i].length
    {
      var rs := rules;
      seq(|rs|, i requires 0 <= i < |rs| => rs[i].length)
    }

    function ClassTemplates(): (r: seq<string>)
      reads this
      ensures |r| == |rules| && forall i :: 0 <= i < |rules| ==> r[i] == rules[i].classTemplate
    {
      var rs := rules;
      seq(|rs|, i requires 0 <= i < |rs| => rs[i].classTemplate)
    }

    function PathTemplates(): (r: seq<string>)
      reads this
      ensures |r| == |rules| && forall i :: 0 <= i < |rules| ==> r[i] == rules[i].pathTemplate
    {
      var rs := rules;
      seq(|rs|, i requires 0 <= i < |rs| => rs[i].pathTemplate)
    }

    /** Every rule is consistent and shares the engine, and the list is
        sorted by `sortLengthDesc`. */
    ghost predicate Valid()
      reads this, rules
    {
      Sound(engine, ClassPattern) && Sound(engine, PathPattern) &&
      AllValid(rules, engine) && RuleOrder.Sorted(Lengths())
    }

    constructor (engine: Engine)
      requires Sound(engine, ClassPattern) && Sound(engine, PathPattern)
      ensures Valid() && this.engine == engine && rules == []
    {
      this.engine := engine;
      rules := [];
    }

    /** `register`: a new rule, placed where the stable sort puts it, after
        every rule whose class template is at least as long. */
    method Register(classTemplate: string, pathTemplate: string)
      requires Valid()
      modifies this
      ensures Valid()
      ensures var k := RuleOrder.InsertionPoint(old(Lengths()), |classTemplate|);
        k < |rules| && rules == old(rules)[..k] + [rules[k]] + old(rules)[k..] &&
        fresh(rules[k]) && rules[k].classTemplate == classTemplate && rules[k].pathTemplate == pathTemplate
    {
      var rule := new Rule(engine, classTemplate, pathTemplate);
      var lengths := Lengths();
      var k := RuleOrder.FindInsertionPoint(lengths, rule.GetLength());
      RuleOrder.InsertSorted(lengths, |classTemplate|);
      var before := rules;
      rules := rules[..k] + [rule] + rules[k..];
      assert Lengths() == lengths[..k] + [|classTemplate|] + lengths[k..];
      AllValidSplice(before, k, rule, engine);
    }

    /** The body of `load`'s loop for rule `i`: `match`, then on success
        `getPath`, with a falsy path read as None. */
    method TryRule(i: nat, className: string) returns (matched: bool, r: Result<Option<string>, RuleError>)
      requires Valid() && i < |rules|
      modifies rules[i]
      ensures Valid()
      ensures matched <==> Matches(engine, rules[i].classTemplate, className)
      ensures matched ==> r == RulePath(engine, rules[i].classTemplate, rules[i].pathTemplate, className)
    {
      var rule := rules[i];
      matched := rule.Match(className);
      r := Success(None);
      if matched {
        var path := rule.GetPath();
        if path.Failure? {
          r := Failure(path.error);
        } else if path.value.None? || PhpEmpty(path.value.value) {
          r := Success(None);
        } else {
          r := path;
        }
      }
      forall j | 0 <= j < |rules|
        ensures rules[j].Valid() && rules[j].engine == engine
      {
        if rules[j] != rule {
          assert old(rules[j].Valid());
        }
      }
    }

    /** `load`: try the rules in order; the first that matches gives the
        path, and a falsy path (or no match) leaves the class alone. */
    method Load(className: string) returns (r: Result<Option<string>, RuleError>)
      requires Valid()
      modifies rules
      ensures Valid()
      ensures r == Resolve(engine, ClassTemplates(), PathTemplates(), className)
    {
      ghost var templates := ClassTemplates();
      var i := 0;
      while i < |rules|
        invariant 0 <= i <= |rules|
        invariant Valid()
        invariant forall j :: 0 <= j < i ==> !Matches(engine, templates[j], className)
      {
        var matched, path := TryRule(i, className);
        if matched {
          FirstMatchAt(engine, templates, className, i);
          return path;
        }
        i := i + 1;
      }
      NoMatch(engine, templates, className);
      return Success(None);
    }
  }
}
