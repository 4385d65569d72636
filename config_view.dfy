/** The `Config` object itself: the nested items written in place by the
    `parse` loop, the key index that `rebuildIndex` derives from them, and
    the Iterator and ArrayAccess faces built on that index. */
module ConfigView {
  import opened Wrappers
  import opened PhpStrings
  import opened ConfigTree
  import opened ConfigParser

  /** What `Config::get` hands back: `false` for a missing key, the string
      for a leaf, a fresh `Config` over the sub-group for a group. */
  datatype Got = Missing | Text(text: string) | Sub(config: Config)

  /** One unfolding of the run and of its stopping state at position `i`. */
  lemma RunAt(st: ParseState, ks: seq<LineKind>, i: nat)
    requires i < |ks|
    ensures ks[i..][0] == ks[i] && ks[i..][1..] == ks[i + 1..]
    ensures RunFrom(st, ks[i..]) == match Step(st, ks[i])
      case Failure(e) => Failure(e)
      case Success(next) => RunFrom(next, ks[i + 1..])
    ensures Halt(st, ks[i..]) == match Step(st, ks[i])
      case Failure(_) => st
      case Success(next) => Halt(next, ks[i + 1..])
  {
    assert ks[i..][0] == ks[i] && ks[i..][1..] == ks[i + 1..];
  }

  class Config {
    var items: seq<Entry>
    var keys: seq<string>
    var index: nat
    var count: nat

    /** The index fields describe `items`, as `rebuildIndex` leaves them,
        and every group holds each key at most once. */
    ghost predicate Consistent()
      reads this
    {
      keys == Keys(items) && count == |items| && WellFormed(items)
    }

    /** `new Config()` without a file: no items. */
    constructor ()
      ensures items == [] && keys == [] && index == 0 && count == 0
      ensures Consistent()
    {
      items := [];
      keys := [];
      index := 0;
      count := 0;
    }

    /** `Iterator::current()`: the value at the cursor, or none past the end. */
    method Current() returns (v: Option<Value>)
      ensures Consistent() && index < count ==> v == Some(items[index].value)
      ensures index >= |keys| ==> v == None
    {
      if index < |keys| {
        v := Lookup(items, keys[index]);
        if Consistent() && index < count {
          LookupUnique(items, index);
        }
      } else {
        v := None;
      }
    }

    /** `Iterator::key()`: the key at the cursor, or none past the end. */
    method Key() returns (k: Option<string>)
      ensures Consistent() && index < count ==> k == Some(items[index].key)
      ensures index >= |keys| ==> k == None
    {
      k := if index < |keys| then Some(keys[index]) else None;
    }

    /** `Iterator::next()`. */
    method Next()
      modifies this
      ensures index == old(index) + 1
      ensures items == old(items) && keys == old(keys) && count == old(count)
    {
      index := index + 1;
    }

    /** `Iterator::rewind()`. */
    method Rewind()
      modifies this
      ensures index == 0
      ensures items == old(items) && keys == old(keys) && count == old(count)
    {
      index := 0;
    }

    /** `Iterator::valid()`: the cursor is on an item. */
    method Valid() returns (b: bool)
      ensures Consistent() ==> (b <==> index < |items|)
    {
      b := index < count;
    }

    /** `exists($name)` and `offsetExists($offset)`: whether the key is set. */
    method Exists(name: string) returns (b: bool)
      ensures b <==> name in Keys(items)
    {
      b := Lookup(items, name).Some?;
    }

    /** `get($name)`, and its aliases `__get` and `offsetGet`. */
    method Get(name: string) returns (r: Got)
      ensures r.Missing? <==> name !in Keys(items)
      ensures r.Text? ==> Lookup(items, name) == Some(Scalar(r.text))
      ensures r.Sub? ==> Lookup(items, name) == Some(Group(r.config.items))
      ensures r.Sub? ==> fresh(r.config) && r.config.index == 0
      ensures r.Sub? && Consistent() ==> r.config.Consistent()
    {
      var found := Lookup(items, name);
      match found {
        case None =>
          r := Missing;
        case Some(Scalar(s)) =>
          r := Text(s);
        case Some(Group(g)) =>
          var sub := new Config();
          sub.items := g;
          sub.RebuildIndex();
          if Consistent() {
            var i :| 0 <= i < |items| && items[i] == Entry(name, Group(g));
            assert WellFormedValue(items[i].value);
          }
          r := Sub(sub);
      }
    }

    /** `offsetSet`: configs are read-only. */
    method OffsetSet(offset: string, value: Value) returns (e: ConfigError)
      ensures e == MutationNotAllowed && Code(e) == 288
    {
      e := MutationNotAllowed;
    }

    /** `offsetUnset`: configs are read-only. */
    method OffsetUnset(offset: string) returns (e: ConfigError)
      ensures e == MutationNotAllowed && Code(e) == 288
    {
      e := MutationNotAllowed;
    }

    /** `rebuildIndex()`: the list of keys in item order, the count, and the
        cursor back at the start. */
    method RebuildIndex()
      modifies this
      ensures items == old(items)
      ensures keys == Keys(items) && count == |items| && index == 0
    {
      keys := [];
      index := 0;
      count := |items|;
      var i := 0;
      while i < |items|
        invariant 0 <= i <= |items|
        invariant items == old(items) && count == |items| && index == 0
        invariant keys == Keys(items[..i])
      {
        keys := keys + [items[i].key];
        i := i + 1;
        assert keys == Keys(items[..i]);
      }
      assert items[..|items|] == items;
    }

    /** `parse($text)`, run by the constructor on a fresh object. The items
        written are those of the run up to where it stops; on success the
        index is rebuilt, on an error it is left as it was. */
    method Parse(text: string) returns (err: Option<ConfigError>)
      requires items == [] && keys == [] && index == 0 && count == 0
      modifies this
      ensures items == Halt(Start, Kinds(Explode('\n', text))).items
      ensures err.Some? ==> ConfigParser.Parse(text) == Failure(err.value) && keys == [] && count == 0
      ensures err.None? ==> ConfigParser.Parse(text) == Success(items) && Consistent()
      ensures index == 0
    {
      var lines := Explode('\n', text);
      ghost var ks := Kinds(lines);
      var lineNum: nat := 0;
      var stack: seq<string> := [];
      var writeTo: seq<string> := [];
      var i := 0;
      while i < |lines|
        invariant 0 <= i <= |lines|
        invariant writeTo == stack
        invariant keys == [] && index == 0 && count == 0
        invariant RunFrom(Start, ks) == RunFrom(ParseState(items, stack, lineNum), ks[i..])
        invariant Halt(Start, ks) == Halt(ParseState(items, stack, lineNum), ks[i..])
      {
        ghost var st := ParseState(items, stack, lineNum);
        RunAt(st, ks, i);
        var e;
        e, stack, writeTo := ReadLine(lines[i], lineNum, stack, writeTo);
        if e.Some? {
          return e;
        }
        lineNum := lineNum + 1;
        i := i + 1;
      }
      assert ks[i..] == [];
      if |stack| > 0 {
        err := Some(UnexpectedEndOfFile);
        return;
      }
      ParseWellFormed(text);
      RebuildIndex();
      err := None;
    }

    /** One pass of `parse`'s loop over a raw line: it is trimmed, skipped
        when blank or a comment, closes a group (re-walking the write
        pointer down the shortened stack), or goes on to `WriteKey`. */
    method ReadLine(raw: string, lineNum: nat, stack: seq<string>, writeTo: seq<string>)
      returns (err: Option<ConfigError>, stack': seq<string>, writeTo': seq<string>)
      requires writeTo == stack
      modifies this
      ensures var r := Step(ParseState(old(items), stack, lineNum), Classify(raw));
        if r.Failure? then err == Some(r.error) && items == old(items)
        else err.None? && r.value == ParseState(items, stack', lineNum + 1) && writeTo' == stack'
      ensures keys == old(keys) && index == old(index) && count == old(count)
    {
      err, stack', writeTo' := None, stack, writeTo;
      var line := Trim(raw);
      assert Classify(raw) == ClassifyTrimmed(line);
      var n := lineNum + 1;
      if line == "" || line[0] == '#' {
        return;
      }
      if line == "}" {
        assert Classify(raw) == Close;
        if |stack| < 1 {
          err := Some(UnexpectedEndOfGroup(n));
          return;
        }
        stack' := stack[..|stack| - 1];
        writeTo' := [];
        var j := 0;
        while j < |stack'|
          invariant 0 <= j <= |stack'|
          invariant writeTo' == stack'[..j]
        {
          writeTo' := writeTo' + [stack'[j]];
          j := j + 1;
        }
        assert stack'[..|stack'|] == stack';
        return;
      }
      err, stack', writeTo' := WriteKey(line, lineNum, stack, writeTo);
    }

    /** The rest of the pass, on a trimmed line that is neither blank, a
        comment nor `}`: it must start with a key name not yet set in the
        current group; what follows the name is an empty value, one
        separator `=` or `:` and the value, or `{` opening a group, which
        pushes the name on the stack and moves the write pointer into it. */
    method WriteKey(line: string, lineNum: nat, stack: seq<string>, writeTo: seq<string>)
      returns (err: Option<ConfigError>, stack': seq<string>, writeTo': seq<string>)
      requires writeTo == stack
      requires line != "" && line[0] != '#' && line != "}"
      modifies this
      ensures var r := Step(ParseState(old(items), stack, lineNum), ClassifyTrimmed(line));
        if r.Failure? then err == Some(r.error) && items == old(items)
        else err.None? && r.value == ParseState(items, stack', lineNum + 1) && writeTo' == stack'
      ensures keys == old(keys) && index == old(index) && count == old(count)
    {
      err, stack', writeTo' := None, stack, writeTo;
      ghost var st := ParseState(items, stack, lineNum);
      ghost var k := ClassifyTrimmed(line);
      var n := lineNum + 1;
      var key := WordPrefix(line);
      if key == "" {
        assert k == BadKey;
        err := Some(KeyNameExpected(n));
        return;
      }
      var rest := Trim(line[|key|..]);
      assert k == AfterKey(key, rest);
      if Lookup(EntriesAt(items, writeTo), key).Some? {
        assert Step(st, k) == Failure(DuplicateKey(stack, key, n));
        err := Some(DuplicateKey(stack, key, n));
        return;
      }
      stack', writeTo' := StoreValue(key, rest, stack, writeTo);
      assert Step(st, k) == Success(ParseState(items, stack', n));
    }

    /** Writes `key` into the group at the write pointer, given the trimmed
        text after the key name. */
    method StoreValue(key: string, rest: string, stack: seq<string>, writeTo: seq<string>)
      returns (stack': seq<string>, writeTo': seq<string>)
      requires writeTo == stack
      modifies this
      ensures AfterKey(key, rest).Open? ==>
        items == InsertAt(old(items), stack, key, Group([])) && stack' == stack + [key]
      ensures AfterKey(key, rest).Leaf? ==>
        items == InsertAt(old(items), stack, key, Scalar(AfterKey(key, rest).text)) && stack' == stack
      ensures writeTo' == stack'
      ensures keys == old(keys) && index == old(index) && count == old(count)
    {
      stack', writeTo' := stack, writeTo;
      var value := rest;
      if value == "" {
        items := InsertAt(items, writeTo, key, Scalar(""));
        return;
      }
      if value[0] == '=' || value[0] == ':' {
        value := Trim(value[1..]);
      }
      if value != "{" {
        items := InsertAt(items, writeTo, key, Scalar(value));
        return;
      }
      stack' := stack + [key];
      items := InsertAt(items, writeTo, key, Group([]));
      writeTo' := writeTo + [key];
    }

    /** `foreach ($config as $key => $value)`: rewinding and stepping the
        cursor visits every item once, in order. */
    method Entries() returns (out: seq<Entry>)
      requires Consistent()
      modifies this
      ensures out == items
      ensures items == old(items) && keys == old(keys) && count == old(count)
    {
      Rewind();
      out := [];
      var more := Valid();
      while more
        invariant Consistent()
        invariant items == old(items) && keys == old(keys) && count == old(count)
        invariant index <= count && out == items[..index]
        invariant more <==> index < count
        decreases count - index
      {
        var k := Key();
        var v := Current();
        out := out + [Entry(k.value, v.value)];
        Next();
        more := Valid();
      }
      assert items[..count] == items;
    }
  }
}
