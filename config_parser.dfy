/** The line-driven state machine of `Config::parse`, as pure functions:
    what one line does to the parser's state, and the fold over all lines.
    The class in ConfigView runs the same machine imperatively and is
    proved to agree with `Parse` below. */
module ConfigParser {
  import opened Wrappers
  import opened PhpStrings
  import opened ConfigTree

  /** The exceptions `parse` throws, with the line number its messages
      carry and, for a duplicate key, the open-group path. The last one is
      thrown by the ArrayAccess setters, never by `parse`. */
  datatype ConfigError =
    | UnexpectedEndOfGroup(line: nat)
    | KeyNameExpected(line: nat)
    | DuplicateKey(path: seq<string>, key: string, line: nat)
    | UnexpectedEndOfFile
    | MutationNotAllowed

  /** The `ConfigException` code of each error. */
  function Code(e: ConfigError): int {
    match e
    case DuplicateKey(_, _, _) => 287
    case MutationNotAllowed => 288
    case UnexpectedEndOfGroup(_) => 289
    case KeyNameExpected(_) => 290
    case UnexpectedEndOfFile => 291
  }

  /** What a raw line of the text is, once trimmed. */
  datatype LineKind =
    | Blank                          // empty, or a `#` comment
    | Close                          // exactly `}`
    | BadKey                         // does not start with a word character
    | Leaf(key: string, text: string)  // a key with a string value
    | Open(key: string)              // a key whose value is `{`

  function Classify(raw: string): LineKind {
    ClassifyTrimmed(Trim(raw))
  }

  /** The classification of a line that has already been trimmed. */
  function ClassifyTrimmed(line: string): LineKind {
    if line == "" || line[0] == '#' then Blank
    else if line == "}" then Close
    else
      var key := WordPrefix(line);
      if key == "" then BadKey
      else AfterKey(key, Trim(line[|key|..]))
  }

  /** What the text after the key name makes of the line: nothing is an
      empty string; one leading `=` or `:` is dropped; `{` opens a group;
      anything else is the string value. */
  function AfterKey(key: string, rest: string): (k: LineKind)
    ensures (k.Leaf? || k.Open?) && k.key == key
  {
    if rest == "" then Leaf(key, "")
    else if rest[0] == '=' || rest[0] == ':' then
      var value := Trim(rest[1..]);
      if value != "{" then Leaf(key, value) else Open(key)
    else if rest != "{" then Leaf(key, rest)
    else Open(key)
  }

  /** The parser's working state: the tree written so far, the stack of
      open group names (which is also the path `$writeTo` points at), and
      the number of lines read. */
  datatype ParseState = ParseState(items: seq<Entry>, stack: seq<string>, lineNum: nat)

  /** The kind of every line, in order. */
  function Kinds(lines: seq<string>): (ks: seq<LineKind>)
    ensures |ks| == |lines|
    ensures forall i :: 0 <= i < |lines| ==> ks[i] == Classify(lines[i])
  {
    seq(|lines|, i requires 0 <= i < |lines| => Classify(lines[i]))
  }

  /** One iteration of the `foreach` over the lines, on a line of kind `k`. */
  function Step(st: ParseState, k: LineKind): Result<ParseState, ConfigError> {
    var n := st.lineNum + 1;
    match k
    case Blank => Success(st.(lineNum := n))
    case Close =>
      if |st.stack| < 1 then Failure(UnexpectedEndOfGroup(n))
      else Success(ParseState(st.items, st.stack[..|st.stack| - 1], n))
    case BadKey => Failure(KeyNameExpected(n))
    case Leaf(key, text) =>
      if Lookup(EntriesAt(st.items, st.stack), key).Some? then Failure(DuplicateKey(st.stack, key, n))
      else Success(ParseState(InsertAt(st.items, st.stack, key, Scalar(text)), st.stack, n))
    case Open(key) =>
      if Lookup(EntriesAt(st.items, st.stack), key).Some? then Failure(DuplicateKey(st.stack, key, n))
      else Success(ParseState(InsertAt(st.items, st.stack, key, Group([])), st.stack + [key], n))
  }

  /** The remaining iterations of the loop, from state `st`. */
  function RunFrom(st: ParseState, ks: seq<LineKind>): Result<ParseState, ConfigError>
    decreases |ks|
  {
    if ks == [] then Success(st)
    else match Step(st, ks[0])
      case Failure(e) => Failure(e)
      case Success(next) => RunFrom(next, ks[1..])
  }

  const Start := ParseState([], [], 0)

  /** `Config::parse($text)`: the tree it leaves in `$this->items`, or the exception it throws. */
  function Parse(text: string): Result<seq<Entry>, ConfigError> {
    match RunFrom(Start, Kinds(Explode('\n', text)))
    case Failure(e) => Failure(e)
    case Success(st) => if |st.stack| > 0 then Failure(UnexpectedEndOfFile) else Success(st.items)
  }

  /** The state the loop is in when it stops: after the last line, or just
      before the line that throws, since no line writes before it throws. */
  function Halt(st: ParseState, ks: seq<LineKind>): ParseState
    decreases |ks|
  {
    if ks == [] then st
    else match Step(st, ks[0])
      case Failure(_) => st
      case Success(next) => Halt(next, ks[1..])
  }

  /** A run that gets through every line ends in the state `Halt` names. */
  lemma {:induction false} HaltIsResult(st: ParseState, ks: seq<LineKind>)
    ensures RunFrom(st, ks).Success? ==> RunFrom(st, ks).value == Halt(st, ks)
    decreases |ks|
  {
    if ks != [] && Step(st, ks[0]).Success? {
      HaltIsResult(Step(st, ks[0]).value, ks[1..]);
    }
  }

  // ---------------------------------------------------------------------
  // Tree shape: no group ever holds the same key twice.

  ghost predicate Inv(st: ParseState) {
    WellFormed(st.items) && GroupAt(st.items, st.stack).Some?
  }

  lemma StepKeepsInv(st: ParseState, k: LineKind)
    requires Inv(st)
    ensures Step(st, k).Success? ==> Inv(Step(st, k).value)
  {
    match k
    case Blank =>
    case Close =>
      if |st.stack| >= 1 {
        GroupAtPrefix(st.items, st.stack, |st.stack| - 1);
      }
    case BadKey =>
    case Leaf(key, text) =>
      if Lookup(EntriesAt(st.items, st.stack), key).None? {
        InsertAtWellFormed(st.items, st.stack, key, Scalar(text));
        InsertAtAppends(st.items, st.stack, key, Scalar(text));
      }
    case Open(key) =>
      if Lookup(EntriesAt(st.items, st.stack), key).None? {
        var items' := InsertAt(st.items, st.stack, key, Group([]));
        InsertAtWellFormed(st.items, st.stack, key, Group([]));
        InsertAtAppends(st.items, st.stack, key, Group([]));
        OpenedGroupReachable(items', st.stack, EntriesAt(st.items, st.stack), key);
      }
  }

  lemma {:induction false} OpenedGroupReachable(items: seq<Entry>, path: seq<string>, before: seq<Entry>, key: string)
    requires GroupAt(items, path) == Some(before + [Entry(key, Group([]))])
    requires key !in Keys(before)
    ensures GroupAt(items, path + [key]) == Some([])
    decreases path
  {
    if path == [] {
      LookupLast(before, key, Group([]));
    } else {
      var sub := Lookup(items, path[0]).value.entries;
      assert (path + [key])[1..] == path[1..] + [key];
      OpenedGroupReachable(sub, path[1..], before, key);
    }
  }

  lemma {:induction false} LookupLast(before: seq<Entry>, key: string, v: Value)
    requires key !in Keys(before)
    ensures Lookup(before + [Entry(key, v)], key) == Some(v)
  {
    if before != [] {
      assert (before + [Entry(key, v)])[1..] == before[1..] + [Entry(key, v)];
      assert Keys(before) == [before[0].key] + Keys(before[1..]);
      LookupLast(before[1..], key, v);
    }
  }

  lemma {:induction false} RunKeepsInv(st: ParseState, ks: seq<LineKind>)
    requires Inv(st)
    ensures RunFrom(st, ks).Success? ==> Inv(RunFrom(st, ks).value)
    decreases |ks|
  {
    if ks != [] {
      StepKeepsInv(st, ks[0]);
      if Step(st, ks[0]).Success? {
        RunKeepsInv(Step(st, ks[0]).value, ks[1..]);
      }
    }
  }

  /** A successful parse never leaves two entries with the same key in any group. */
  lemma ParseWellFormed(text: string)
    requires Parse(text).Success?
    ensures WellFormed(Parse(text).value)
  {
    RunKeepsInv(Start, Kinds(Explode('\n', text)));
  }

  // ---------------------------------------------------------------------
  // Balanced nesting.

  /** How a line moves the nesting depth, read off the line alone. */
  function Delta(k: LineKind): int {
    match k
    case Open(_) => 1
    case Close => -1
    case _ => 0
  }

  /** The depth after the lines, starting at depth `d`. */
  function Depth(d: int, ks: seq<LineKind>): int
    decreases |ks|
  {
    if ks == [] then d else Depth(d + Delta(ks[0]), ks[1..])
  }

  /** No prefix of the lines takes the depth, starting at `d`, below 0. */
  predicate NeverBelowZero(d: int, ks: seq<LineKind>)
    decreases |ks|
  {
    ks == [] || (d + Delta(ks[0]) >= 0 && NeverBelowZero(d + Delta(ks[0]), ks[1..]))
  }

  /** Every `}` closes an earlier `{` and every `{` is closed. */
  predicate Balanced(ks: seq<LineKind>) {
    NeverBelowZero(0, ks) && Depth(0, ks) == 0
  }

  /** The parser's stack height tracks the depth counted from the lines,
      which therefore never drops below zero while it succeeds. */
  lemma {:induction false} RunDepth(st: ParseState, ks: seq<LineKind>)
    requires RunFrom(st, ks).Success?
    ensures NeverBelowZero(|st.stack|, ks)
    ensures |RunFrom(st, ks).value.stack| == Depth(|st.stack|, ks)
    decreases |ks|
  {
    if ks != [] {
      RunDepth(Step(st, ks[0]).value, ks[1..]);
    }
  }

  /** Every successful parse has balanced braces. */
  lemma ParseBalanced(text: string)
    requires Parse(text).Success?
    ensures Balanced(Kinds(Explode('\n', text)))
  {
    RunDepth(Start, Kinds(Explode('\n', text)));
  }

  /** UNEXPECTED_END_OF_FILE is thrown exactly when the loop gets through
      every line (so no `}` came too early) and some group is left open. */
  lemma ParseEndOfFile(text: string)
    ensures Parse(text) == Failure(UnexpectedEndOfFile) <==>
      (RunFrom(Start, Kinds(Explode('\n', text))).Success? && Depth(0, Kinds(Explode('\n', text))) > 0)
  {
    var ks := Kinds(Explode('\n', text));
    if RunFrom(Start, ks).Success? {
      RunDepth(Start, ks);
    } else {
      RunNeverEndOfFile(Start, ks);
    }
  }

  lemma {:induction false} RunNeverEndOfFile(st: ParseState, ks: seq<LineKind>)
    ensures RunFrom(st, ks) != Failure(UnexpectedEndOfFile)
    decreases |ks|
  {
    if ks != [] && Step(st, ks[0]).Success? {
      RunNeverEndOfFile(Step(st, ks[0]).value, ks[1..]);
    }
  }

  // ---------------------------------------------------------------------
  // Line numbers in errors.

  /** The line number an error reports, when it has one. */
  function ErrorLine(e: ConfigError): Option<nat> {
    match e
    case UnexpectedEndOfGroup(n) => Some(n)
    case KeyNameExpected(n) => Some(n)
    case DuplicateKey(_, _, n) => Some(n)
    case _ => None
  }

  /** The kind of line that raises each error. */
  predicate Offends(e: ConfigError, k: LineKind) {
    match e
    case UnexpectedEndOfGroup(_) => k == Close
    case KeyNameExpected(_) => k == BadKey
    case DuplicateKey(_, key, _) => k == Open(key) || (k.Leaf? && k.key == key)
    case _ => false
  }

  /** Every error the loop throws names, counting blank and comment lines,
      the 1-based number of a line that causes that error. */
  lemma {:induction false} ErrorNamesOffendingLine(st: ParseState, ks: seq<LineKind>)
    requires RunFrom(st, ks).Failure?
    ensures var e := RunFrom(st, ks).error;
      && ErrorLine(e).Some?
      && st.lineNum < ErrorLine(e).value <= st.lineNum + |ks|
      && Offends(e, ks[ErrorLine(e).value - st.lineNum - 1])
    decreases |ks|
  {
    var r := Step(st, ks[0]);
    StepOutcome(st, ks[0]);
    if r.Success? {
      var next := r.value;
      assert RunFrom(st, ks) == RunFrom(next, ks[1..]);
      ErrorNamesOffendingLine(next, ks[1..]);
      var e := RunFrom(st, ks).error;
      var j := ErrorLine(e).value - next.lineNum - 1;
      assert ks[1..][j] == ks[j + 1];
    } else {
      assert RunFrom(st, ks) == Failure(r.error);
    }
  }

  /** One step counts its line, and a failing step names that line and the
      kind of line that caused it. */
  lemma StepOutcome(st: ParseState, k: LineKind)
    ensures Step(st, k).Success? ==> Step(st, k).value.lineNum == st.lineNum + 1
    ensures Step(st, k).Failure? ==> ErrorLine(Step(st, k).error) == Some(st.lineNum + 1)
    ensures Step(st, k).Failure? ==> Offends(Step(st, k).error, k)
  {
  }

  /** A successful loop has counted every line, blank and comment lines included. */
  lemma {:induction false} RunCountsLines(st: ParseState, ks: seq<LineKind>)
    requires RunFrom(st, ks).Success?
    ensures RunFrom(st, ks).value.lineNum == st.lineNum + |ks|
    decreases |ks|
  {
    if ks != [] {
      RunCountsLines(Step(st, ks[0]).value, ks[1..]);
    }
  }

  // ---------------------------------------------------------------------
  // Blank and comment lines add nothing.

  /** The kinds of the lines that are not blank and not comments, in order. */
  function ContentLines(ks: seq<LineKind>): seq<LineKind>
    decreases |ks|
  {
    if ks == [] then []
    else if ks[0] == Blank then ContentLines(ks[1..])
    else [ks[0]] + ContentLines(ks[1..])
  }

  /** An error with its line number blanked out. */
  function WithoutLine(e: ConfigError): ConfigError {
    match e
    case UnexpectedEndOfGroup(_) => UnexpectedEndOfGroup(0)
    case KeyNameExpected(_) => KeyNameExpected(0)
    case DuplicateKey(p, k, _) => DuplicateKey(p, k, 0)
    case _ => e
  }

  /** What a run produces, forgetting line numbers. */
  function Shape(r: Result<ParseState, ConfigError>): Result<(seq<Entry>, seq<string>), ConfigError> {
    match r
    case Success(st) => Success((st.items, st.stack))
    case Failure(e) => Failure(WithoutLine(e))
  }

  lemma StepShape(st1: ParseState, st2: ParseState, k: LineKind)
    requires st1.items == st2.items && st1.stack == st2.stack
    ensures Shape(Step(st1, k)) == Shape(Step(st2, k))
  {
  }

  /** Running over all lines and over the content lines only gives the
      same tree, the same open groups and the same kind of error. */
  lemma {:induction false} BlankLinesAddNothing(st1: ParseState, st2: ParseState, ks: seq<LineKind>)
    requires st1.items == st2.items && st1.stack == st2.stack
    ensures Shape(RunFrom(st1, ks)) == Shape(RunFrom(st2, ContentLines(ks)))
    decreases |ks|
  {
    if ks != [] {
      if ks[0] == Blank {
        BlankLinesAddNothing(Step(st1, ks[0]).value, st2, ks[1..]);
      } else {
        StepShape(st1, st2, ks[0]);
        assert ContentLines(ks)[0] == ks[0];
        assert ContentLines(ks)[1..] == ContentLines(ks[1..]);
        if Step(st1, ks[0]).Success? {
          BlankLinesAddNothing(Step(st1, ks[0]).value, Step(st2, ks[0]).value, ks[1..]);
        }
      }
    }
  }

  // ---------------------------------------------------------------------
  // Where values go.

  /** A key line writes its entry at the end of the innermost open group;
      an opening line also makes the new, empty group the write position. */
  lemma StepAppends(st: ParseState, k: LineKind)
    requires Inv(st) && Step(st, k).Success?
    ensures var next := Step(st, k).value;
      match k
      case Leaf(key, text) =>
        next.stack == st.stack && EntriesAt(next.items, next.stack) == EntriesAt(st.items, st.stack) + [Entry(key, Scalar(text))]
      case Open(key) =>
        next.stack == st.stack + [key] && GroupAt(next.items, next.stack) == Some([])
        && EntriesAt(next.items, st.stack) == EntriesAt(st.items, st.stack) + [Entry(key, Group([]))]
      case Close => next.items == st.items && next.stack == st.stack[..|st.stack| - 1]
      case _ => next.items == st.items && next.stack == st.stack
  {
    match k
    case Leaf(key, text) =>
      InsertAtAppends(st.items, st.stack, key, Scalar(text));
    case Open(key) =>
      InsertAtAppends(st.items, st.stack, key, Group([]));
      OpenedGroupReachable(InsertAt(st.items, st.stack, key, Group([])), st.stack, EntriesAt(st.items, st.stack), key);
    case _ =>
  }

  // ---------------------------------------------------------------------
  // The value rules, on the shapes of line the format allows.

  lemma {:induction false} WordPrefixOf(key: string, rest: string)
    requires IsWord(key)
    requires rest == [] || !IsWordChar(rest[0])
    ensures WordPrefix(key + rest) == key
    decreases |key|
  {
    if |key| > 1 {
      assert (key + rest)[1..] == key[1..] + rest;
      WordPrefixOf(key[1..], rest);
    } else {
      assert (key + rest)[1..] == rest;
    }
  }

  /** A trimmed line that starts with a key name is classified by what follows the name. */
  lemma ClassifyKeyLine(key: string, after: string)
    requires IsWord(key)
    requires after == [] || !IsWordChar(after[0])
    requires after == [] || !IsSpace(after[|after| - 1])
    ensures Classify(key + after) == AfterKey(key, Trim(after))
  {
    KeyLineTrimmed(key, after);
    KeyLineClassified(key, after);
  }

  lemma KeyLineTrimmed(key: string, after: string)
    requires IsWord(key)
    requires after == [] || !IsSpace(after[|after| - 1])
    ensures Trim(key + after) == key + after
  {
    var line := key + after;
    assert line[0] == key[0] && line[|line| - 1] == (if after == [] then key[|key| - 1] else after[|after| - 1]);
    TrimOfTrimmed(line);
  }

  lemma KeyLineClassified(key: string, after: string)
    requires IsWord(key)
    requires after == [] || !IsWordChar(after[0])
    ensures ClassifyTrimmed(key + after) == AfterKey(key, Trim(after))
  {
    var line := key + after;
    WordPrefixOf(key, after);
    assert line != "" && IsWordChar(line[0]) && line[|key|..] == after;
    assert line != "}" && line[0] != '#';
  }

  /** A key name, blanks, then a text with no blanks at either end: the line
      is classified by that text. */
  lemma ClassifyPadded(line: string, key: string, pad: string, text: string)
    requires IsWord(key) && AllSpace(pad)
    requires text != "" && !IsSpace(text[0]) && !IsSpace(text[|text| - 1])
    requires pad != [] || !IsWordChar(text[0])
    requires line == key + pad + text
    ensures Classify(line) == AfterKey(key, text)
  {
    var after := pad + text;
    assert line == key + after;
    assert after[0] == (if pad == [] then text[0] else pad[0]);
    assert after[|after| - 1] == text[|text| - 1];
    ClassifyKeyLine(key, after);
    TrimAround(pad, text);
  }

  /** A line is classified by its trimmed text alone. */
  lemma ClassifySameTrim(a: string, b: string)
    requires Trim(a) == Trim(b)
    ensures Classify(a) == Classify(b)
  {
  }

  /** A key alone on its line stores the empty string. */
  lemma KeyAlone(left: string, key: string, right: string, line: string)
    requires IsWord(key) && AllSpace(left) && AllSpace(right)
    requires line == left + key + right
    ensures Classify(line) == Leaf(key, "")
  {
    assert Trim(line) == Trim(key) by {
      TrimPadding(left, key, right);
    }
    ClassifySameTrim(line, key);
    assert Classify(key) == AfterKey(key, Trim("")) by {
      assert key + "" == key;
      ClassifyKeyLine(key, "");
    }
  }

  /** Blanks around a trimmed text are trimmed away. */
  lemma TrimAround(pad: string, t: string)
    requires AllSpace(pad)
    requires t != [] && !IsSpace(t[0]) && !IsSpace(t[|t| - 1])
    ensures Trim(pad + t) == t
  {
    assert pad + t == pad + t + "";
    TrimPadding(pad, t, "");
    TrimOfTrimmed(t);
  }

  /** After a separator, the rest of the line, trimmed, is the value;
      a lone `{` opens a group instead. */
  lemma AfterSeparator(key: string, rest: string, value: string)
    requires rest != [] && (rest[0] == '=' || rest[0] == ':')
    requires Trim(rest[1..]) == value
    ensures AfterKey(key, rest) == (if value == "{" then Open(key) else Leaf(key, value))
  {
  }

  /** `key = value` and `key: value` store the value with the one separator
      and the surrounding blanks removed; anything after the separator, even
      a second `=` or `:`, is part of the value, and a lone `{` opens a group. */
  lemma KeySeparatorValue(key: string, pad1: string, sep: char, pad2: string, value: string, line: string)
    requires IsWord(key) && AllSpace(pad1) && AllSpace(pad2)
    requires sep == '=' || sep == ':'
    requires value != "" && !IsSpace(value[0]) && !IsSpace(value[|value| - 1])
    requires line == key + pad1 + ([sep] + pad2 + value)
    ensures Classify(line) == (if value == "{" then Open(key) else Leaf(key, value))
  {
    var rest := [sep] + pad2 + value;
    assert rest[0] == sep && rest[|rest| - 1] == value[|value| - 1];
    ClassifyPadded(line, key, pad1, rest);
    SeparatorText(key, sep, pad2, value, rest);
  }

  lemma SeparatorText(key: string, sep: char, pad: string, value: string, rest: string)
    requires sep == '=' || sep == ':'
    requires AllSpace(pad)
    requires value != "" && !IsSpace(value[0]) && !IsSpace(value[|value| - 1])
    requires rest == [sep] + pad + value
    ensures AfterKey(key, rest) == (if value == "{" then Open(key) else Leaf(key, value))
  {
    assert rest[1..] == pad + value;
    TrimAround(pad, value);
    AfterSeparator(key, rest, value);
  }

  /** Without a separator, the value is whatever follows the key name. */
  lemma KeyValue(key: string, pad: string, value: string, line: string)
    requires IsWord(key) && AllSpace(pad)
    requires value != "" && !IsSpace(value[0]) && !IsSpace(value[|value| - 1])
    requires pad != [] || !IsWordChar(value[0])
    requires value[0] != '=' && value[0] != ':' && value != "{"
    requires line == key + pad + value
    ensures Classify(line) == Leaf(key, value)
  {
    ClassifyPadded(line, key, pad, value);
  }

  /** `key {` opens a group named `key`. */
  lemma KeyOpensGroup(key: string, pad: string, line: string)
    requires IsWord(key) && AllSpace(pad)
    requires line == key + pad + "{"
    ensures Classify(line) == Open(key)
  {
    ClassifyPadded(line, key, pad, "{");
  }
}
