/** The regular-expression engine as an oracle, and the `split` helper
    that both autoload rule classes build on it. Matching itself is not
    modelled: `search` and `test` stand for `preg_match`, `quote` for
    `preg_quote($s, '%')`, and only the facts every real match satisfies
    are assumed of them. */
module Pcre {
  import opened Wrappers

  /** A match found with PREG_OFFSET_CAPTURE: where the whole match starts,
      and the text of each group, `$0` first. */
  datatype Hit = Hit(start: nat, groups: seq<string>)

  datatype Engine = Engine(
    /** `preg_match($regex, $subject, $m, PREG_OFFSET_CAPTURE, $offset)`. */
    search: (string, string, nat) -> Option<Hit>,
    /** `preg_match($regex, $subject, $m)`: the groups on success. */
    test: (string, string) -> Option<seq<string>>,
    /** `preg_quote($text, '%')`. */
    quote: string -> string)

  /** Group `i` of a match as PHP reads it: a group past the end of the
      array reads as null, which every caller uses as an empty string. */
  function Group(groups: seq<string>, i: nat): string {
    if i < |groups| then groups[i] else ""
  }

  /** A hit that a real search from `offset` can return: it starts at or
      after `offset`, lies inside the subject, and `$0` is the text there.
      The patterns searched this way all begin with `[` and end with `]`,
      so their matches are never empty. */
  predicate Fits(h: Hit, s: string, offset: nat) {
    |h.groups| >= 1 && |h.groups[0]| > 0 &&
    offset <= h.start && h.start + |h.groups[0]| <= |s| &&
    s[h.start..h.start + |h.groups[0]|] == h.groups[0]
  }

  /** The hit the engine reports for `regex` on `s` from `offset`, if any,
      fits its subject. */
  predicate HitFits(e: Engine, regex: string, s: string, offset: nat) {
    e.search(regex, s, offset).Some? ==> Fits(e.search(regex, s, offset).value, s, offset)
  }

  /** Every hit the engine reports for `regex` fits its subject. */
  ghost predicate Sound(e: Engine, regex: string) {
    forall s: string, offset: nat :: HitFits(e, regex, s, offset)
  }

  /** An element of `split`'s result: an unmatched string, or the groups
      of a match. */
  datatype Piece = Text(text: string) | Match(groups: seq<string>)

  /** The input text a piece stands for: the string itself, or `$0`. */
  function Covered(p: Piece): string {
    match p
    case Text(t) => t
    case Match(g) => Group(g, 0)
  }

  function Joined(pieces: seq<Piece>): string {
    if pieces == [] then "" else Covered(pieces[0]) + Joined(pieces[1..])
  }

  /** `split($regex, $s, $flags)` from `offset` on, `noEmpty` standing for
      PREG_SPLIT_NO_EMPTY: the gap before each match (dropped when it is
      empty and `noEmpty` holds), the match, and what follows; when no
      match is left, the rest of the text as one final string. */
  function SplitFrom(e: Engine, regex: string, s: string, offset: nat, noEmpty: bool): seq<Piece>
    requires Sound(e, regex) && offset <= |s|
    decreases |s| - offset
  {
    if offset >= |s| then []
    else match e.search(regex, s, offset)
      case None => [Text(s[offset..])]
      case Some(h) =>
        assert HitFits(e, regex, s, offset);
        var gap := if h.start > offset || !noEmpty then [Text(s[offset..h.start])] else [];
        gap + [Match(h.groups)] + SplitFrom(e, regex, s, h.start + |h.groups[0]|, noEmpty)
  }

  /** One step of `SplitFrom` when a match is found. */
  lemma SplitFromHit(e: Engine, regex: string, s: string, offset: nat, noEmpty: bool, h: Hit)
    requires Sound(e, regex) && offset < |s| && e.search(regex, s, offset) == Some(h)
    ensures Fits(h, s, offset)
    ensures SplitFrom(e, regex, s, offset, noEmpty) ==
      (if h.start > offset || !noEmpty then [Text(s[offset..h.start])] else []) +
      [Match(h.groups)] + SplitFrom(e, regex, s, h.start + |h.groups[0]|, noEmpty)
  {
    assert HitFits(e, regex, s, offset);
  }

  /** The last step of `SplitFrom`, when no match is left. */
  lemma SplitFromNone(e: Engine, regex: string, s: string, offset: nat, noEmpty: bool)
    requires Sound(e, regex) && offset < |s| && e.search(regex, s, offset).None?
    ensures SplitFrom(e, regex, s, offset, noEmpty) == [Text(s[offset..])]
  {
  }

  /** The same step with the pieces already produced in front, one case
      for a gap kept and one for a gap dropped. */
  lemma SplitStep(e: Engine, regex: string, s: string, offset: nat, noEmpty: bool, h: Hit, before: seq<Piece>)
    requires Sound(e, regex) && offset < |s| && e.search(regex, s, offset) == Some(h)
    ensures Fits(h, s, offset)
    ensures h.start > offset || !noEmpty ==>
      before + SplitFrom(e, regex, s, offset, noEmpty) ==
      before + [Text(s[offset..h.start])] + [Match(h.groups)] + SplitFrom(e, regex, s, h.start + |h.groups[0]|, noEmpty)
    ensures !(h.start > offset || !noEmpty) ==>
      before + SplitFrom(e, regex, s, offset, noEmpty) ==
      before + [Match(h.groups)] + SplitFrom(e, regex, s, h.start + |h.groups[0]|, noEmpty)
  {
    SplitFromHit(e, regex, s, offset, noEmpty, h);
  }

  /** `split`, as the loop it is. */
  method Split(e: Engine, regex: string, s: string, noEmpty: bool) returns (pieces: seq<Piece>)
    requires Sound(e, regex)
    ensures pieces == SplitFrom(e, regex, s, 0, noEmpty)
  {
    pieces := [];
    var offset := 0;
    while offset < |s|
      invariant offset <= |s|
      invariant pieces + SplitFrom(e, regex, s, offset, noEmpty) == SplitFrom(e, regex, s, 0, noEmpty)
      decreases |s| - offset
    {
      var found := e.search(regex, s, offset);
      if found.None? {
        SplitFromNone(e, regex, s, offset, noEmpty);
        pieces := pieces + [Text(s[offset..])];
        break;
      }
      var h := found.value;
      SplitStep(e, regex, s, offset, noEmpty, h, pieces);
      var diff := h.start - offset;
      if 0 < diff || !(diff != 0 || noEmpty) {
        pieces := pieces + [Text(s[offset..h.start])];
      }
      pieces := pieces + [Match(h.groups)];
      offset := h.start + |h.groups[0]|;
    }
  }

  lemma {:induction false} JoinedConcat(a: seq<Piece>, b: seq<Piece>)
    ensures Joined(a + b) == Joined(a) + Joined(b)
  {
    if a == [] {
      assert a + b == b;
    } else {
      assert (a + b)[0] == a[0] && (a + b)[1..] == a[1..] + b;
      JoinedConcat(a[1..], b);
      assert Joined(a + b) == Covered(a[0]) + (Joined(a[1..]) + Joined(b));
    }
  }

  /** A gap and the match after it cover the text up to the match's end. */
  lemma JoinedGapMatch(s: string, offset: nat, h: Hit, gap: seq<Piece>)
    requires Fits(h, s, offset)
    requires gap == [] || gap == [Text(s[offset..h.start])]
    requires gap == [] ==> h.start == offset
    ensures Joined(gap + [Match(h.groups)]) == s[offset..h.start + |h.groups[0]|]
  {
    JoinedConcat(gap, [Match(h.groups)]);
    assert Joined([Match(h.groups)]) == h.groups[0] + Joined([]);
    if gap != [] {
      assert Joined(gap) == s[offset..h.start] + Joined([]);
    }
    assert s[offset..h.start + |h.groups[0]|] == s[offset..h.start] + s[h.start..h.start + |h.groups[0]|];
  }

  /** One step of `SplitFromHit`, joined: the pieces up to the first match
      cover the text up to the match's end. */
  lemma JoinedHit(e: Engine, regex: string, s: string, offset: nat, noEmpty: bool, h: Hit)
    requires Sound(e, regex) && offset < |s| && e.search(regex, s, offset) == Some(h)
    ensures Fits(h, s, offset)
    ensures Joined(SplitFrom(e, regex, s, offset, noEmpty)) ==
      s[offset..h.start + |h.groups[0]|] + Joined(SplitFrom(e, regex, s, h.start + |h.groups[0]|, noEmpty))
  {
    SplitFromHit(e, regex, s, offset, noEmpty, h);
    var gap := if h.start > offset || !noEmpty then [Text(s[offset..h.start])] else [];
    JoinedGapMatch(s, offset, h, gap);
    JoinedConcat(gap + [Match(h.groups)], SplitFrom(e, regex, s, h.start + |h.groups[0]|, noEmpty));
  }

  lemma SliceAt(s: string, i: nat, j: nat)
    requires i <= j <= |s|
    ensures s[i..] == s[i..j] + s[j..]
  {
  }

  /** Putting the gaps and each match's `$0` back together gives the input. */
  lemma {:induction false} SplitJoins(e: Engine, regex: string, s: string, offset: nat, noEmpty: bool)
    requires Sound(e, regex) && offset <= |s|
    ensures Joined(SplitFrom(e, regex, s, offset, noEmpty)) == s[offset..]
    decreases |s| - offset
  {
    if offset < |s| {
      var found := e.search(regex, s, offset);
      if found.None? {
        SplitFromNone(e, regex, s, offset, noEmpty);
        assert Joined([Text(s[offset..])]) == s[offset..] + Joined([]);
      } else {
        var h := found.value;
        JoinedHit(e, regex, s, offset, noEmpty, h);
        var next := h.start + |h.groups[0]|;
        SplitJoins(e, regex, s, next, noEmpty);
        SliceAt(s, offset, next);
      }
    }
  }

  /** No string piece is empty when `noEmpty` holds, and a string piece is
      always followed by a match unless it is the last piece. */
  predicate Alternates(p: seq<Piece>, noEmpty: bool) {
    forall i :: 0 <= i < |p| && p[i].Text? ==>
      (noEmpty ==> p[i].text != "") && (i < |p| - 1 ==> p[i + 1].Match?)
  }

  lemma AlternatesPrepend(gap: seq<Piece>, groups: seq<string>, rest: seq<Piece>, noEmpty: bool)
    requires |gap| <= 1 && (forall t :: t in gap ==> t.Text? && (noEmpty ==> t.text != ""))
    requires Alternates(rest, noEmpty)
    ensures Alternates(gap + [Match(groups)] + rest, noEmpty)
  {
    var p := gap + [Match(groups)] + rest;
    forall i | 0 <= i < |p| && p[i].Text?
      ensures (noEmpty ==> p[i].text != "") && (i < |p| - 1 ==> p[i + 1].Match?)
    {
      if i < |gap| {
        assert p[i] in gap;
      } else {
        assert p[i] == rest[i - |gap| - 1];
        if i < |p| - 1 {
          assert p[i + 1] == rest[i - |gap|];
        }
      }
    }
  }

  /** With PREG_SPLIT_NO_EMPTY no piece is an empty string, and two strings
      are never adjacent: between two gaps there is always a match. */
  lemma {:induction false} SplitShape(e: Engine, regex: string, s: string, offset: nat, noEmpty: bool)
    requires Sound(e, regex) && offset <= |s|
    ensures Alternates(SplitFrom(e, regex, s, offset, noEmpty), noEmpty)
    decreases |s| - offset
  {
    if offset < |s| {
      match e.search(regex, s, offset)
      case None =>
      case Some(h) =>
        SplitFromHit(e, regex, s, offset, noEmpty, h);
        var next := h.start + |h.groups[0]|;
        SplitShape(e, regex, s, next, noEmpty);
        var gap := if h.start > offset || !noEmpty then [Text(s[offset..h.start])] else [];
        AlternatesPrepend(gap, h.groups, SplitFrom(e, regex, s, next, noEmpty), noEmpty);
    }
  }

  /** The number of matches among the pieces. */
  function MatchCount(pieces: seq<Piece>): nat {
    if pieces == [] then 0 else (if pieces[0].Match? then 1 else 0) + MatchCount(pieces[1..])
  }
}
