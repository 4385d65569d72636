/** The value a parsed configuration holds: PHP's nested `$items` array,
    an ordered map from key to either a string or a sub-group. The order
    of a group's entries is the order in which the parser wrote them. */
module ConfigTree {
  import opened Wrappers

  datatype Value = Scalar(text: string) | Group(entries: seq<Entry>)

  datatype Entry = Entry(key: string, value: Value)

  function Keys(entries: seq<Entry>): (ks: seq<string>)
    ensures |ks| == |entries|
    ensures forall i :: 0 <= i < |entries| ==> ks[i] == entries[i].key
  {
    seq(|entries|, i requires 0 <= i < |entries| => entries[i].key)
  }

  predicate UniqueKeys(entries: seq<Entry>) {
    forall i, j :: 0 <= i < j < |entries| ==> entries[i].key != entries[j].key
  }

  /** Every group of the tree, at every depth, holds each key at most once. */
  predicate WellFormed(entries: seq<Entry>)
    decreases entries
  {
    && UniqueKeys(entries)
    && forall i :: 0 <= i < |entries| ==> WellFormedValue(entries[i].value)
  }

  predicate WellFormedValue(v: Value)
    decreases v
  {
    v.Group? ==> WellFormed(v.entries)
  }

  /** PHP `$entries[$key]`: the value stored under `key`, if any. */
  function Lookup(entries: seq<Entry>, key: string): (r: Option<Value>)
    ensures r.Some? <==> key in Keys(entries)
    ensures r.Some? ==> exists i :: 0 <= i < |entries| && entries[i] == Entry(key, r.value)
  {
    if entries == [] then None
    else if entries[0].key == key then Some(entries[0].value)
    else
      var r := Lookup(entries[1..], key);
      assert Keys(entries) == [entries[0].key] + Keys(entries[1..]);
      r
  }

  /** In a group with unique keys, looking up the key of an entry finds that entry's value. */
  lemma {:induction false} LookupUnique(entries: seq<Entry>, i: nat)
    requires UniqueKeys(entries) && i < |entries|
    ensures Lookup(entries, entries[i].key) == Some(entries[i].value)
  {
    if i > 0 {
      assert entries[1..][i - 1] == entries[i];
      LookupUnique(entries[1..], i - 1);
    }
  }

  /** The group reached by following `path` from the root, as the parser's
      `$writeTo = &$writeTo[$level]` walk does; None when some step of the
      path is missing or is not a group. */
  function GroupAt(entries: seq<Entry>, path: seq<string>): Option<seq<Entry>>
    decreases path
  {
    if path == [] then Some(entries)
    else match Lookup(entries, path[0])
      case Some(Group(sub)) => GroupAt(sub, path[1..])
      case _ => None
  }

  /** The entries of the group at `path`, or none when the path leads nowhere. */
  function EntriesAt(entries: seq<Entry>, path: seq<string>): seq<Entry> {
    match GroupAt(entries, path)
    case Some(g) => g
    case None => []
  }

  /** Replaces, in place, the value of the first entry with key `key` by the group `sub`. */
  function ReplaceGroup(entries: seq<Entry>, key: string, sub: seq<Entry>): (r: seq<Entry>)
    ensures Keys(r) == Keys(entries)
  {
    if entries == [] then []
    else if entries[0].key == key then [Entry(key, Group(sub))] + entries[1..]
    else
      var r := [entries[0]] + ReplaceGroup(entries[1..], key, sub);
      assert Keys(r) == [entries[0].key] + Keys(ReplaceGroup(entries[1..], key, sub));
      assert Keys(entries) == [entries[0].key] + Keys(entries[1..]);
      r
  }

  /** PHP `$writeTo[$key] = $v` where `$writeTo` points at the group at
      `path`: the new entry goes at the end of that group, and every other
      entry keeps its place. A path that leads nowhere changes nothing. */
  function InsertAt(entries: seq<Entry>, path: seq<string>, key: string, v: Value): seq<Entry>
    decreases path
  {
    if path == [] then entries + [Entry(key, v)]
    else match Lookup(entries, path[0])
      case Some(Group(sub)) => ReplaceGroup(entries, path[0], InsertAt(sub, path[1..], key, v))
      case _ => entries
  }

  lemma {:induction false} LookupReplace(entries: seq<Entry>, key: string, sub: seq<Entry>)
    requires key in Keys(entries)
    ensures Lookup(ReplaceGroup(entries, key, sub), key) == Some(Group(sub))
  {
    if entries[0].key != key {
      assert Keys(entries) == [entries[0].key] + Keys(entries[1..]);
      LookupReplace(entries[1..], key, sub);
    }
  }

  /** Writing through `path` appends the entry at the end of the group at `path`. */
  lemma {:induction false} InsertAtAppends(entries: seq<Entry>, path: seq<string>, key: string, v: Value)
    requires GroupAt(entries, path).Some?
    ensures GroupAt(InsertAt(entries, path, key, v), path) == Some(EntriesAt(entries, path) + [Entry(key, v)])
    decreases path
  {
    if path != [] {
      var sub := Lookup(entries, path[0]).value.entries;
      InsertAtAppends(sub, path[1..], key, v);
      LookupReplace(entries, path[0], InsertAt(sub, path[1..], key, v));
    }
  }

  /** Writing through `path` keeps every group along that path reachable. */
  lemma {:induction false} InsertAtKeepsPrefixes(entries: seq<Entry>, path: seq<string>, key: string, v: Value, n: nat)
    requires GroupAt(entries, path).Some? && n <= |path|
    ensures GroupAt(InsertAt(entries, path, key, v), path[..n]).Some?
    decreases path
  {
    if n > 0 {
      var sub := Lookup(entries, path[0]).value.entries;
      var inner := InsertAt(sub, path[1..], key, v);
      var outer := ReplaceGroup(entries, path[0], inner);
      assert InsertAt(entries, path, key, v) == outer;
      InsertAtKeepsPrefixes(sub, path[1..], key, v, n - 1);
      LookupReplace(entries, path[0], inner);
      var p := path[..n];
      assert p[0] == path[0] && p[1..] == path[1..][..n - 1];
      assert GroupAt(outer, p) == GroupAt(inner, p[1..]);
    }
  }

  /** Every prefix of a path that reaches a group reaches a group too. */
  lemma {:induction false} GroupAtPrefix(entries: seq<Entry>, path: seq<string>, n: nat)
    requires GroupAt(entries, path).Some? && n <= |path|
    ensures GroupAt(entries, path[..n]).Some?
    decreases path
  {
    if n > 0 {
      GroupAtPrefix(Lookup(entries, path[0]).value.entries, path[1..], n - 1);
      assert path[..n][1..] == path[1..][..n - 1];
    }
  }

  /** A group reached inside a well-formed tree is itself well-formed. */
  lemma {:induction false} GroupAtWellFormed(entries: seq<Entry>, path: seq<string>)
    requires WellFormed(entries) && GroupAt(entries, path).Some?
    ensures WellFormed(GroupAt(entries, path).value)
    decreases path
  {
    if path != [] {
      var sub := Lookup(entries, path[0]).value;
      var i :| 0 <= i < |entries| && entries[i] == Entry(path[0], sub);
      assert WellFormedValue(entries[i].value);
      GroupAtWellFormed(sub.entries, path[1..]);
    }
  }

  lemma {:induction false} ReplaceGroupWellFormed(entries: seq<Entry>, key: string, sub: seq<Entry>)
    requires WellFormed(entries) && WellFormed(sub)
    ensures WellFormed(ReplaceGroup(entries, key, sub))
  {
    var r := ReplaceGroup(entries, key, sub);
    assert Keys(r) == Keys(entries);
    forall i, j | 0 <= i < j < |r| ensures r[i].key != r[j].key {
      assert Keys(r)[i] == Keys(entries)[i] && Keys(r)[j] == Keys(entries)[j];
    }
    forall i | 0 <= i < |r| ensures WellFormedValue(r[i].value) {
      ReplaceGroupValue(entries, key, sub, i);
    }
  }

  lemma {:induction false} ReplaceGroupValue(entries: seq<Entry>, key: string, sub: seq<Entry>, i: nat)
    requires i < |entries|
    ensures |ReplaceGroup(entries, key, sub)| == |entries|
    ensures ReplaceGroup(entries, key, sub)[i].value == entries[i].value
         || ReplaceGroup(entries, key, sub)[i].value == Group(sub)
  {
    if entries[0].key != key && i > 0 {
      ReplaceGroupValue(entries[1..], key, sub, i - 1);
    }
  }

  /** Adding a new key, with a string or an empty group, to the group at a
      reachable path keeps every group of the tree free of duplicate keys. */
  lemma {:induction false} InsertAtWellFormed(entries: seq<Entry>, path: seq<string>, key: string, v: Value)
    requires WellFormed(entries) && GroupAt(entries, path).Some?
    requires key !in Keys(EntriesAt(entries, path))
    requires v.Scalar? || v == Group([])
    ensures WellFormed(InsertAt(entries, path, key, v))
    decreases path
  {
    if path == [] {
      var r := entries + [Entry(key, v)];
      assert forall i :: 0 <= i < |entries| ==> Keys(entries)[i] == entries[i].key;
      assert forall i :: 0 <= i < |r| ==> WellFormedValue(r[i].value) by {
        forall i | 0 <= i < |r| ensures WellFormedValue(r[i].value) {
          if i < |entries| { assert r[i] == entries[i]; }
        }
      }
    } else {
      var sub := Lookup(entries, path[0]).value;
      var i :| 0 <= i < |entries| && entries[i] == Entry(path[0], sub);
      assert WellFormedValue(entries[i].value);
      InsertAtWellFormed(sub.entries, path[1..], key, v);
      ReplaceGroupWellFormed(entries, path[0], InsertAt(sub.entries, path[1..], key, v));
    }
  }
}
