/** Filters: the singly linked chain of value transformers that a path
    placeholder applies, the factory that builds a chain from an expression
    such as `|case:lower`, and the one concrete filter, `case`. */
module Filters {
  import opened Wrappers
  import opened PhpStrings

  /** The errors raised while building a filter. The first four are the
      `FilterException` codes; `UnknownFilter` is the PHP error raised when
      `FilterFactory::get` names a class that does not exist. */
  datatype FilterError =
    | ArgumentsNotValid
    | ArgumentValuesUnknown(given: string)
    | NotEnoughArguments
    | UnreachableCode
    | UnknownFilter(name: string)

  /** The exception code of each error; a PHP `Error` carries code 0. */
  function Code(e: FilterError): int {
    match e
    case ArgumentsNotValid => 18
    case ArgumentValuesUnknown(_) => 19
    case NotEnoughArguments => 20
    case UnreachableCode => 21
    case UnknownFilter(_) => 0
  }

  /** The class of a filter object: the base `Filter` or `Filter\_case`. */
  datatype Kind = Plain | Case

  /** What one filter object holds: its class and its argument list. */
  datatype Stage = Stage(kind: Kind, arguments: seq<string>)

  /** The base filter with no arguments, as `new Filter` builds it. */
  const Identity := Stage(Plain, [])

  /** `validate`: the base class accepts everything; `case` throws unless
      its first argument is `upper` or `lower`. Neither ever answers false. */
  function Validate(kind: Kind, arguments: seq<string>): (r: Result<bool, FilterError>)
    ensures r != Success(false)
    ensures r == Success(true) <==> kind == Plain || (|arguments| >= 1 && arguments[0] in ["upper", "lower"])
    ensures r.Failure? ==> (r.error == NotEnoughArguments <==> |arguments| == 0)
    ensures kind == Case && |arguments| >= 1 && arguments[0] !in ["upper", "lower"] ==>
              r == Failure(ArgumentValuesUnknown(arguments[0]))
  {
    match kind
    case Plain => Success(true)
    case Case =>
      if |arguments| < 1 then Failure(NotEnoughArguments)
      else if arguments[0] != "upper" && arguments[0] != "lower" then Failure(ArgumentValuesUnknown(arguments[0]))
      else Success(true)
  }

  predicate Accepts(st: Stage) {
    Validate(st.kind, st.arguments) == Success(true)
  }

  predicate AllAccepted(stages: seq<Stage>) {
    forall i :: 0 <= i < |stages| ==> Accepts(stages[i])
  }

  /** `new <kind>($arguments)`: the constructor throws ARGUMENTS_NOT_VALID
      when `validate` answers false, and lets `validate`'s own exceptions
      through. Since no `validate` answers false, that code is never seen. */
  function Construct(kind: Kind, arguments: seq<string>): (r: Result<Stage, FilterError>)
    ensures r.Success? <==> Accepts(Stage(kind, arguments))
    ensures r.Success? ==> r.value == Stage(kind, arguments)
    ensures r.Failure? ==> r.error != ArgumentsNotValid && Validate(kind, arguments) == Failure(r.error)
  {
    var valid :- Validate(kind, arguments);
    if !valid then Failure(ArgumentsNotValid) else Success(Stage(kind, arguments))
  }

  /** `implement`: the base filter is the identity; `case` upper- or
      lower-cases, and throws UNREACHABLE_CODE for any other argument. */
  function Implement(st: Stage, v: string): (r: Result<string, FilterError>)
    ensures Accepts(st) ==> r.Success?
    ensures st.kind == Plain ==> r == Success(v)
    ensures r.Success? ==> |r.value| == |v|
  {
    match st.kind
    case Plain => Success(v)
    case Case =>
      if |st.arguments| > 0 && st.arguments[0] == "upper" then Success(ToUpper(v))
      else if |st.arguments| > 0 && st.arguments[0] == "lower" then Success(ToLower(v))
      else Failure(UnreachableCode)
  }

  /** The value a chain with these stages produces: each stage's
      `implement`, in list order. */
  function ApplyAll(stages: seq<Stage>, v: string): string
    requires AllAccepted(stages)
  {
    if stages == [] then v else ApplyAll(stages[1..], Implement(stages[0], v).value)
  }

  lemma AcceptedSplit(a: seq<Stage>, b: seq<Stage>)
    ensures AllAccepted(a + b) <==> AllAccepted(a) && AllAccepted(b)
  {
    if AllAccepted(a + b) {
      forall i | 0 <= i < |a|
        ensures Accepts(a[i])
      {
        assert a[i] == (a + b)[i];
      }
      forall i | 0 <= i < |b|
        ensures Accepts(b[i])
      {
        assert b[i] == (a + b)[|a| + i];
      }
    }
    if AllAccepted(a) && AllAccepted(b) {
      forall i | 0 <= i < |a + b|
        ensures Accepts((a + b)[i])
      {
        if i >= |a| {
          assert (a + b)[i] == b[i - |a|];
        }
      }
    }
  }

  /** Running two chains one after the other is running their concatenation. */
  lemma {:induction false} ApplyAllConcat(a: seq<Stage>, b: seq<Stage>, v: string)
    requires AllAccepted(a) && AllAccepted(b)
    ensures AllAccepted(a + b)
    ensures ApplyAll(a + b, v) == ApplyAll(b, ApplyAll(a, v))
  {
    AcceptedSplit(a, b);
    if a == [] {
      assert a + b == b;
    } else {
      assert (a + b)[0] == a[0] && (a + b)[1..] == a[1..] + b;
      ApplyAllConcat(a[1..], b, Implement(a[0], v).value);
    }
  }

  /** A chain of base filters maps every value to itself. */
  lemma {:induction false} PlainChainIsIdentity(stages: seq<Stage>, v: string)
    requires forall i :: 0 <= i < |stages| ==> stages[i].kind == Plain
    ensures AllAccepted(stages) && ApplyAll(stages, v) == v
  {
    if stages != [] {
      PlainChainIsIdentity(stages[1..], v);
    }
  }

  /** Upper-casing then lower-casing is lower-casing, and a `case` filter
      repeated is the same filter once. */
  lemma CaseChains(v: string)
    ensures AllAccepted([Stage(Case, ["upper"]), Stage(Case, ["lower"])])
    ensures ApplyAll([Stage(Case, ["upper"]), Stage(Case, ["lower"])], v) == ToLower(v)
    ensures ApplyAll([Stage(Case, ["upper"]), Stage(Case, ["upper"])], v) == ToUpper(v)
  {
    var up, low := Stage(Case, ["upper"]), Stage(Case, ["lower"]);
    CaseMappings(v);
    assert [up, low][1..] == [low] && [low][1..] == [];
    assert ApplyAll([low], ToUpper(v)) == ToLower(ToUpper(v));
    assert [up, up][1..] == [up] && [up][1..] == [];
    assert ApplyAll([up], ToUpper(v)) == ToUpper(ToUpper(v));
  }

  // ---------------------------------------------------------------------
  // The chain object.

  class Filter {
    const kind: Kind
    var arguments: seq<string>
    var next: Filter?
    /** The objects of this chain, from this one to the tail. */
    ghost var Repr: set<object>
    /** The stages of this chain, from this one to the tail. */
    ghost var Stages: seq<Stage>

    /** A well-formed, acyclic chain: `Stages` lists the filters from this
        one to the tail, and `Repr` holds exactly their objects. */
    ghost predicate Linked()
      reads this, Repr
      decreases Repr
      ensures Linked() ==> this in Repr && |Stages| >= 1 && Stages[0] == Stage(kind, arguments)
    {
      this in Repr && |Stages| >= 1 && Stages[0] == Stage(kind, arguments) &&
      if next == null then
        Stages == [Stages[0]] && Repr == {this}
      else
        next in Repr && next.Repr <= Repr && this !in next.Repr && next.Linked() &&
        Stages == [Stages[0]] + next.Stages && Repr == {this} + next.Repr
    }

    /** A chain whose filters were all validated by their constructors. */
    ghost predicate Valid()
      reads this, Repr
    {
      Linked() && AllAccepted(Stages)
    }

    /** The storing half of `__construct`, once the arguments are accepted. */
    constructor (kind: Kind, arguments: seq<string>)
      requires Accepts(Stage(kind, arguments))
      ensures Valid() && fresh(Repr)
      ensures Stages == [Stage(kind, arguments)] && next == null
    {
      this.kind := kind;
      this.arguments := arguments;
      next := null;
      Repr := {this};
      Stages := [Stage(kind, arguments)];
    }

    /** `__construct` as a whole: validate, then store. */
    static method Create(kind: Kind, arguments: seq<string>) returns (r: Result<Filter, FilterError>)
      ensures r.Failure? ==> Construct(kind, arguments) == Failure(r.error)
      ensures r.Success? ==> r.value.Valid() && fresh(r.value.Repr) && |r.value.Stages| == 1
      ensures r.Success? ==> Construct(kind, arguments) == Success(r.value.Stages[0])
    {
      var valid :- Validate(kind, arguments);
      if !valid {
        return Failure(ArgumentsNotValid);
      }
      var f := new Filter(kind, arguments);
      r := Success(f);
    }

    /** `apply`: this filter's `implement`, then the rest of the chain. */
    function Apply(v: string): (r: string)
      requires Valid()
      reads Repr
      decreases Repr
      ensures r == ApplyAll(Stages, v)
    {
      var w := Implement(Stage(kind, arguments), v).value;
      if next == null then w
      else
        AcceptedSplit([Stages[0]], next.Stages);
        next.Apply(w)
    }

    /** `append`: walk to the tail and hang `f` there. The chain keeps its
        own filters in order and gains those of `f` after them. */
    method Append(f: Filter)
      requires Valid() && f.Valid() && Repr !! f.Repr
      modifies Repr
      decreases Repr
      ensures Valid()
      ensures Stages == old(Stages) + old(f.Stages)
      ensures |Stages| == |old(Stages)| + |old(f.Stages)|
      ensures Repr == old(Repr) + old(f.Repr)
    {
      ghost var added, addedRepr := f.Stages, f.Repr;
      AcceptedSplit(Stages, added);
      if next == null {
        next := f;
        Repr := Repr + addedRepr;
        Stages := Stages + added;
      } else {
        ghost var first, rest := Stages[0], next.Stages;
        AcceptedSplit([first], rest);
        next.Append(f);
        Repr := Repr + addedRepr;
        Stages := [first] + next.Stages;
        assert Stages == ([first] + rest) + added;
      }
    }
  }

  // ---------------------------------------------------------------------
  // The factory.

  /** `FilterFactory::get`'s class lookup as a table. PHP class names are
      case-insensitive, so `Case` and `CASE` name `_case` too. */
  function KindNamed(name: string): (r: Result<Kind, FilterError>)
    ensures r.Success? <==> ToLower(name) == "case"
  {
    if ToLower(name) == "case" then Success(Case) else Failure(UnknownFilter(name))
  }

  /** `FilterFactory::get($name, $arguments)` on values. */
  function GetStage(name: string, arguments: seq<string>): (r: Result<Stage, FilterError>)
    ensures r.Success? <==> ToLower(name) == "case" && Accepts(Stage(Case, arguments))
    ensures r.Success? ==> r.value == Stage(Case, arguments)
    ensures ToLower(name) != "case" ==> r == Failure(UnknownFilter(name))
    ensures ToLower(name) == "case" && r.Failure? ==> Validate(Case, arguments) == Failure(r.error)
  {
    var kind :- KindNamed(name);
    Construct(kind, arguments)
  }

  /** What the head pattern of `parse` yields: the text after the leading
      `|` that is split into name and arguments, and how many characters of
      the expression the whole match covers. */
  datatype Head = Head(body: string, consumed: nat)

  /** How the head of an expression is found. `Greedy` is the pattern
      `%^\|(.*)(?:\||$)%` as written; `ToNextBar` stops the head at the next
      `|`, so that `|a|b` is two filters. */
  datatype Scan = Greedy | ToNextBar

  /** The first `c` at or after `i`, or the end of `s`: where `.` stops
      for `c` a newline, and where the next filter starts for `c` a `|`. */
  function NextChar(s: string, i: nat, c: char): (p: nat)
    requires i <= |s|
    ensures i <= p <= |s| && (p < |s| ==> s[p] == c)
    ensures forall j :: i <= j < p ==> s[j] != c
    decreases |s| - i
  {
    if i == |s| || s[i] == c then i else NextChar(s, i + 1, c)
  }

  /** The last `|` in `s[lo..hi]`, if any. */
  function LastBar(s: string, lo: nat, hi: nat): (r: Option<nat>)
    requires lo <= hi <= |s|
    ensures r.Some? ==> lo <= r.value < hi && s[r.value] == '|'
    ensures r.Some? ==> forall j :: r.value < j < hi ==> s[j] != '|'
    ensures r.None? ==> forall j :: lo <= j < hi ==> s[j] != '|'
    decreases hi
  {
    if hi == lo then None
    else if s[hi - 1] == '|' then Some(hi - 1)
    else LastBar(s, lo, hi - 1)
  }

  /** The head match. For `Greedy`: `.` stops at the first newline, and the
      group gives back characters until a `|` follows it or `$` holds
      (at the end, or before a newline that ends the text). For `ToNextBar`:
      the same `.` and `$`, but the group ends at the first `|`, which is
      left in place for the next filter. */
  function HeadOf(scan: Scan, s: string): (h: Option<Head>)
    ensures (|s| == 0 || s[0] != '|') ==> h.None?
    ensures h.Some? ==> 1 + |h.value.body| <= h.value.consumed <= |s|
    ensures h.Some? ==> h.value.body == s[1..1 + |h.value.body|]
    ensures h.Some? ==> '\n' !in h.value.body
  {
    if |s| == 0 || s[0] != '|' then None
    else match scan
      case ToNextBar =>
        var b := NextChar(s, 1, '|');
        var p := NextChar(s, 1, '\n');
        if b < p then Some(Head(s[1..b], b))
        else if p + 1 >= |s| then Some(Head(s[1..p], p))
        else None
      case Greedy =>
        var p := NextChar(s, 1, '\n');
        if p + 1 >= |s| then Some(Head(s[1..p], p))
        else match LastBar(s, 1, p)
          case None => None
          case Some(q) => Some(Head(s[1..q], q + 1))
  }

  /** `FilterFactory::parse` on values: the stages of the chain it builds.
      Without a head match it is a single identity filter; otherwise the
      head's filter comes first and the chain parsed from the rest of the
      expression is appended after it. */
  function ParseStages(scan: Scan, expression: string): (r: Result<seq<Stage>, FilterError>)
    ensures (|expression| == 0 || expression[0] != '|') ==> r == Success([Identity])
    ensures r.Success? ==> |r.value| >= 1 && r.value[|r.value| - 1] == Identity && AllAccepted(r.value)
    decreases |expression|
  {
    match HeadOf(scan, expression)
    case None => Success([Identity])
    case Some(h) =>
      var arguments := Explode(':', h.body);
      var first :- GetStage(arguments[0], arguments[1..]);
      var rest :- ParseStages(scan, expression[h.consumed..]);
      Success([first] + rest)
  }

  /** The expression built from filter segments: `|seg1|seg2...`. */
  function Chain(segments: seq<string>): string {
    if segments == [] then "" else "|" + segments[0] + Chain(segments[1..])
  }

  /** The stages that one filter per segment would give, in order, ending
      with the identity filter. */
  function SegmentStages(segments: seq<string>): Result<seq<Stage>, FilterError> {
    if segments == [] then Success([Identity])
    else
      var arguments := Explode(':', segments[0]);
      var first :- GetStage(arguments[0], arguments[1..]);
      var rest :- SegmentStages(segments[1..]);
      Success([first] + rest)
  }

  /** The greedy head on a one-line expression takes everything after the
      leading `|`. */
  lemma GreedyHeadOneLine(body: string)
    requires '\n' !in body
    ensures HeadOf(Greedy, "|" + body) == Some(Head(body, |body| + 1))
  {
    var s := "|" + body;
    forall j | 1 <= j < |s|
      ensures s[j] != '\n'
    {
      assert s[j] == body[j - 1];
    }
    var p := NextChar(s, 1, '\n');
    assert p == |s| && s[0] == '|';
    assert s[1..p] == body;
  }

  /** As written: on a one-line expression the whole remainder after the
      leading `|` is split on `:`, so further `|name` segments end up inside
      the arguments, and the chain is that one filter plus the identity. */
  lemma GreedyOneLine(body: string)
    requires '\n' !in body
    ensures ParseStages(Greedy, "|" + body) ==
      var arguments := Explode(':', body);
      match GetStage(arguments[0], arguments[1..])
      case Failure(e) => Failure(e)
      case Success(st) => Success([st, Identity])
  {
    GreedyHeadOneLine(body);
    var s := "|" + body;
    var arguments := Explode(':', body);
    assert s[|body| + 1..] == "";
    assert ParseStages(Greedy, "") == Success([Identity]);
    match GetStage(arguments[0], arguments[1..]) {
      case Failure(e) =>
        assert ParseStages(Greedy, s) == Failure(e);
      case Success(st) =>
        assert ParseStages(Greedy, s) == Success([st] + [Identity]);
        assert [st] + [Identity] == [st, Identity];
    }
  }

  /** As written, two `case` filters in a row, such as `|case:lower|case:upper`,
      do not build two filters: the first one receives `lower|case` as its
      argument and rejects it. */
  lemma GreedySwallowsNextFilter(a: string, b: string)
    requires ':' !in a && '|' !in a && '\n' !in a
    requires ':' !in b && '|' !in b && '\n' !in b
    ensures ParseStages(Greedy, Chain(["case:" + a, "case:" + b])) == Failure(ArgumentValuesUnknown(a + "|case"))
  {
    var first := a + "|case";
    var segA, segB := "case:" + a, "case:" + b;
    var body := "case" + [':'] + (first + [':'] + b);
    assert Chain([segA, segB]) == "|" + body by {
      assert [segA, segB][1..] == [segB] && [segB][1..] == [];
      assert Chain([segB]) == "|" + segB + Chain([]);
      assert Chain([segA, segB]) == "|" + segA + Chain([segB]);
      LiteralSplit(a);
      LiteralSplit(b);
      assert "|" + segB + "" == "|case" + [':'] + b;
    }
    assert ':' !in first && '\n' !in body;
    assert GetStage("case", [first, b]) == Failure(ArgumentValuesUnknown(first)) by {
      assert first[|a|] == '|';
      assert first != "upper" && first != "lower";
    }
    assert Explode(':', body) == ["case", first, b] by {
      ExplodeThree(':', "case", first, b);
    }
    GreedyOneLine(body);
  }

  /** Corrected: the same two filters parse into two `case` stages. */
  lemma IntendedTwoCaseFilters(a: string, b: string)
    requires ':' !in a && '|' !in a && ':' !in b && '|' !in b
    requires Accepts(Stage(Case, [a])) && Accepts(Stage(Case, [b]))
    ensures ParseStages(ToNextBar, Chain(["case:" + a, "case:" + b])) ==
      Success([Stage(Case, [a]), Stage(Case, [b]), Identity])
  {
    var segments := ["case:" + a, "case:" + b];
    var tail := [Stage(Case, [b]), Identity];
    assert SegmentStages(segments[1..]) == Success(tail) by {
      CaseSegment(b);
      assert segments[1..] == ["case:" + b] && segments[1..][1..] == [];
      assert [Stage(Case, [b])] + [Identity] == tail;
    }
    assert SegmentStages(segments) == Success([Stage(Case, [a])] + tail) by {
      CaseSegment(a);
    }
    assert [Stage(Case, [a])] + tail == [Stage(Case, [a]), Stage(Case, [b]), Identity];
    CaseSegment(a);
    CaseSegment(b);
    AcceptedCaseOneLine(a);
    AcceptedCaseOneLine(b);
    assert segments[0] == "case:" + a && segments[1] == "case:" + b;
    ParseSegments(segments);
  }

  /** An accepted `case` argument is `upper` or `lower`, so it holds no newline. */
  lemma AcceptedCaseOneLine(x: string)
    requires Accepts(Stage(Case, [x]))
    ensures '\n' !in x
  {
    assert x == "upper" || x == "lower";
  }

  /** The segment `case:x` is one `case` filter with argument `x`. */
  lemma CaseSegment(x: string)
    requires ':' !in x && '|' !in x
    ensures '|' !in "case:" + x
    ensures '\n' !in x ==> '\n' !in "case:" + x
    ensures Explode(':', "case:" + x)[0] == "case" && Explode(':', "case:" + x)[1..] == [x]
    ensures GetStage("case", [x]) == Construct(Case, [x])
  {
    assert Explode(':', "case:" + x) == ["case", x] by {
      ExplodeNoSep(':', x);
      ExplodeConcat(':', "case", x);
      LiteralSplit(x);
    }
    assert ["case", x][1..] == [x];
    assert KindNamed("case") == Success(Case) by {
      assert ToLower("case") == "case";
    }
    assert '|' !in "case:" + x && ('\n' !in x ==> '\n' !in "case:" + x) by {
      LiteralSplit(x);
    }
  }

  lemma LiteralSplit(x: string)
    ensures "case:" + x == "case" + [':'] + x
    ensures "|" + ("case:" + x) == "|case" + [':'] + x
  {
  }

  lemma ExplodeThree(sep: char, a: string, b: string, c: string)
    requires sep !in a && sep !in b && sep !in c
    ensures Explode(sep, a + [sep] + (b + [sep] + c)) == [a, b, c]
  {
    ExplodeNoSep(sep, c);
    ExplodeConcat(sep, b, c);
    ExplodeConcat(sep, a, b + [sep] + c);
  }

  lemma NextBarAt(s: string, t: string)
    requires '|' !in s
    ensures NextChar("|" + s + t, 1, '|') >= |s| + 1
  {
    var e := "|" + s + t;
    forall j | 1 <= j < |s| + 1
      ensures e[j] != '|'
    {
      assert e[j] == s[j - 1];
    }
  }

  /** The first newline of a one-line text is its end. */
  lemma NoNewlineAtEnd(e: string)
    requires '\n' !in e && |e| >= 1
    ensures NextChar(e, 1, '\n') == |e|
  {
  }

  lemma ChainNoNewline(segments: seq<string>)
    requires forall i :: 0 <= i < |segments| ==> '\n' !in segments[i]
    ensures '\n' !in Chain(segments)
  {
    if segments != [] {
      ChainNoNewline(segments[1..]);
      assert Chain(segments) == "|" + segments[0] + Chain(segments[1..]);
    }
  }

  /** Corrected: with the head stopping at the next `|`, an expression of
      `|`-separated one-line segments builds one filter per segment, in
      order, followed by the identity filter. */
  lemma {:induction false} ParseSegments(segments: seq<string>)
    requires forall i :: 0 <= i < |segments| ==> '|' !in segments[i] && '\n' !in segments[i]
    ensures ParseStages(ToNextBar, Chain(segments)) == SegmentStages(segments)
  {
    if segments != [] {
      var e := Chain(segments);
      var rest := Chain(segments[1..]);
      assert e == "|" + segments[0] + rest;
      ChainNoNewline(segments);
      NoNewlineAtEnd(e);
      NextBarAt(segments[0], rest);
      var j := NextChar(e, 1, '|');
      if rest != "" {
        assert rest[0] == '|';
        assert e[|segments[0]| + 1] == '|';
      }
      assert j == |segments[0]| + 1;
      assert e[1..j] == segments[0];
      assert e[j..] == rest;
      ParseSegments(segments[1..]);
    }
  }

  /** For a single filter the two scans find the same head, whatever
      newlines the segment holds. */
  lemma OneSegmentHeads(segment: string)
    requires '|' !in segment
    ensures HeadOf(Greedy, "|" + segment) == HeadOf(ToNextBar, "|" + segment)
  {
    var s := "|" + segment;
    var p := NextChar(s, 1, '\n');
    NextBarAt(segment, "");
    assert s + "" == s;
    assert NextChar(s, 1, '|') == |s|;
    if p + 1 < |s| {
      assert LastBar(s, 1, p).None? by {
        forall j | 1 <= j < p
          ensures s[j] != '|'
        {
          assert s[j] == segment[j - 1];
        }
      }
    }
  }

  /** For a single filter the two scans agree, so the correction changes
      nothing for expressions such as `|case:lower`, with or without a
      final newline. */
  lemma OneSegmentScansAgree(segment: string)
    requires '|' !in segment
    ensures ParseStages(Greedy, Chain([segment])) == ParseStages(ToNextBar, Chain([segment]))
  {
    var s := "|" + segment;
    assert Chain([segment]) == s by {
      assert Chain([segment][1..]) == "";
    }
    OneSegmentHeads(segment);
    match HeadOf(ToNextBar, s) {
      case None =>
      case Some(h) =>
        var rest := s[h.consumed..];
        assert rest == [] || rest[0] == '\n' by {
          var p := NextChar(s, 1, '\n');
          assert h.consumed == p;
        }
        assert ParseStages(Greedy, rest) == ParseStages(ToNextBar, rest);
    }
  }

  /** A newline inside the head, not at the end, stops both scans: no head
      matches and the chain is the identity filter alone. */
  lemma NewlineInsideHead(scan: Scan, a: string, b: string)
    requires '|' !in a && '\n' !in a && b != []
    ensures ParseStages(scan, "|" + a + "\n" + b) == Success([Identity])
  {
    var s := "|" + a + "\n" + b;
    assert s == "|" + a + ("\n" + b);
    NextBarAt(a, "\n" + b);
    forall j | 1 <= j < |a| + 1
      ensures s[j] != '\n' && s[j] != '|'
    {
      assert s[j] == a[j - 1];
    }
    assert s[|a| + 1] == '\n';
    assert NextChar(s, 1, '\n') == |a| + 1;
  }

  /** The static factory. `Parse` uses the corrected head scan. */
  class FilterFactory {
    /** `FilterFactory::get`. */
    static method Get(name: string, arguments: seq<string>) returns (r: Result<Filter, FilterError>)
      ensures r.Failure? ==> GetStage(name, arguments) == Failure(r.error)
      ensures r.Success? ==> r.value.Valid() && fresh(r.value.Repr) && |r.value.Stages| == 1
      ensures r.Success? ==> GetStage(name, arguments) == Success(r.value.Stages[0])
    {
      var kind :- KindNamed(name);
      r := Filter.Create(kind, arguments);
    }

    /** `FilterFactory::parse`: the head filter, with the chain parsed from
        the rest of the expression appended to it. */
    static method Parse(expression: string) returns (r: Result<Filter, FilterError>)
      ensures r.Failure? ==> ParseStages(ToNextBar, expression) == Failure(r.error)
      ensures r.Success? ==> ParseStages(ToNextBar, expression) == Success(r.value.Stages)
      ensures r.Success? ==> r.value.Valid() && fresh(r.value.Repr)
      decreases |expression|
    {
      var head := HeadOf(ToNextBar, expression);
      if head.None? {
        var identity := new Filter(Plain, []);
        return Success(identity);
      }
      var arguments := Explode(':', head.value.body);
      var filter :- Get(arguments[0], arguments[1..]);
      var next :- Parse(expression[head.value.consumed..]);
      filter.Append(next);
      r := Success(filter);
    }
  }
}
