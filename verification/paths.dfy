/** The string handling the worker does on paths: `split("/")`, `join("/")`,
    the "directory" of a path obtained from them, and `startsWith`. */
module Paths {

  const Slash: char := '/'

  /** No character of `s` is a slash. */
  predicate NoSlash(s: string)
  {
    forall j :: 0 <= j < |s| ==> s[j] != Slash
  }

  /** `s.split("/")`: the pieces between slashes, in order. As in JavaScript,
      a string without a slash (including "") splits into itself alone, and
      every slash adds one piece. Defined one character at a time. */
  function Split(s: string): (parts: seq<string>)
    ensures |parts| >= 1
    decreases |s|
  {
    if |s| == 0 then [""]
    else
      var rest := Split(s[1..]);
      if s[0] == Slash then [""] + rest
      else [[s[0]] + rest[0]] + rest[1..]
  }

  /** `parts.join("/")`: the pieces in order with one slash between each two;
      the empty array joins to "". */
  function Join(parts: seq<string>): (s: string)
    ensures |parts| == 0 ==> s == ""
    ensures |parts| >= 1 ==> |s| >= |parts[0]| + |parts| - 1
  {
    if |parts| == 0 then ""
    else if |parts| == 1 then parts[0]
    else parts[0] + [Slash] + Join(parts[1..])
  }

  /** `parts.slice(0, -1)`: every piece but the last; nothing left of an empty array. */
  function AllButLast(parts: seq<string>): seq<string>
  {
    if |parts| == 0 then [] else parts[..|parts| - 1]
  }

  /** `path.split("/").slice(0, -1).join("/")`, the directory of a path: the
      text before its last slash, and "" when it has no slash at all. */
  function Dirname(path: string): (dir: string)
    ensures dir == UpToLastSlash(path)
  {
    SplitSliceJoinIsBeforeLastSlash(path);
    Join(AllButLast(Split(path)))
  }

  /** Position of the last slash in `s`, or -1 when there is none
      (`lastIndexOf("/")`), found by scanning from the end. */
  function LastSlash(s: string): (i: int)
    ensures -1 <= i < |s|
    ensures i >= 0 ==> s[i] == Slash
    ensures forall j :: i < j < |s| ==> s[j] != Slash
  {
    if |s| == 0 then -1
    else if s[|s| - 1] == Slash then |s| - 1
    else LastSlash(s[..|s| - 1])
  }

  /** The text before the last slash, or "" when there is no slash: the
      reference the split-based `Dirname` is proved against. */
  function UpToLastSlash(s: string): string
  {
    var k := LastSlash(s);
    if k < 0 then "" else s[..k]
  }

  /** `s.startsWith(prefix)`: a character-wise prefix test, blind to segments. */
  function StartsWith(s: string, prefix: string): (b: bool)
    ensures b <==> |prefix| <= |s| && s[..|prefix|] == prefix
    // Follows from the clause above; stated for readers: the empty prefix always matches.
    ensures |prefix| == 0 ==> b
  {
    |prefix| <= |s| && forall i :: 0 <= i < |prefix| ==> s[i] == prefix[i]
  }

  /** Joining a first piece onto a non-empty rest puts one slash between them. */
  lemma JoinCons(head: string, rest: seq<string>)
    requires |rest| >= 1
    ensures Join([head] + rest) == head + [Slash] + Join(rest)
  {
  }

  /** A character put in front of the first piece comes out in front of the join. */
  lemma JoinExtendFirst(c: char, parts: seq<string>)
    requires |parts| >= 1
    ensures Join([[c] + parts[0]] + parts[1..]) == [c] + Join(parts)
  {
    if |parts| > 1 {
      JoinCons([c] + parts[0], parts[1..]);
    }
  }

  /** The last slash is characterised by its two defining facts. */
  lemma LastSlashUnique(s: string, k: int)
    requires -1 <= k < |s|
    requires k >= 0 ==> s[k] == Slash
    requires forall j :: k < j < |s| ==> s[j] != Slash
    ensures LastSlash(s) == k
  {
  }

  /** Splitting then joining gives the original string back. */
  lemma {:induction false} JoinSplit(s: string)
    ensures Join(Split(s)) == s
    decreases |s|
  {
    if |s| > 0 {
      var rest := Split(s[1..]);
      JoinSplit(s[1..]);
      if s[0] == Slash {
        JoinCons("", rest);
      } else {
        JoinExtendFirst(s[0], rest);
      }
      assert s == [s[0]] + s[1..];
    }
  }

  /** No piece produced by `Split` contains a slash. */
  lemma {:induction false} SplitPiecesHaveNoSlash(s: string)
    ensures forall k :: 0 <= k < |Split(s)| ==> NoSlash(Split(s)[k])
    decreases |s|
  {
    if |s| > 0 {
      SplitPiecesHaveNoSlash(s[1..]);
      var rest := Split(s[1..]);
      if s[0] != Slash {
        assert NoSlash(rest[0]);
        var first := [s[0]] + rest[0];
        assert forall j :: 1 <= j < |first| ==> first[j] == rest[0][j - 1];
      }
    }
  }

  /** A slash-free string splits into itself alone. */
  lemma {:induction false} SplitNoSlash(p: string)
    requires NoSlash(p)
    ensures Split(p) == [p]
    decreases |p|
  {
    if |p| > 0 {
      SplitNoSlash(p[1..]);
      assert p == [p[0]] + p[1..];
    }
  }

  /** A slash-free piece followed by a slash splits off as the first piece. */
  lemma {:induction false} SplitAtFirstSlash(p: string, tail: string)
    requires NoSlash(p)
    ensures Split(p + [Slash] + tail) == [p] + Split(tail)
    decreases |p|
  {
    var s := p + [Slash] + tail;
    if |p| == 0 {
      assert s[1..] == tail;
    } else {
      SplitAtFirstSlash(p[1..], tail);
      assert s[1..] == p[1..] + [Slash] + tail;
      assert p == [p[0]] + p[1..];
    }
  }

  /** Joining slash-free pieces then splitting gives the pieces back. */
  lemma {:induction false} SplitJoin(parts: seq<string>)
    requires |parts| >= 1
    requires forall k :: 0 <= k < |parts| ==> NoSlash(parts[k])
    ensures Split(Join(parts)) == parts
  {
    if |parts| == 1 {
      SplitNoSlash(parts[0]);
    } else {
      var rest := parts[1..];
      SplitJoin(rest);
      JoinCons(parts[0], rest);
      assert parts == [parts[0]] + rest;
      SplitAtFirstSlash(parts[0], Join(rest));
    }
  }

  /** Putting a character in front of a path moves its last slash one place,
      or makes that character the last slash when the rest has none. */
  lemma LastSlashCons(c: char, t: string)
    ensures var k := LastSlash(t);
      LastSlash([c] + t) ==
        if k >= 0 then k + 1 else if c == Slash then 0 else -1
  {
    var s := [c] + t;
    var k := LastSlash(t);
    assert forall j :: 0 < j < |s| ==> s[j] == t[j - 1];
    if k >= 0 {
      LastSlashUnique(s, k + 1);
    } else if c == Slash {
      LastSlashUnique(s, 0);
    } else {
      LastSlashUnique(s, -1);
    }
  }

  /** A path splits into a single piece exactly when it has no slash. */
  lemma {:induction false} SplitSingleIffNoSlash(s: string)
    ensures |Split(s)| == 1 <==> LastSlash(s) < 0
    decreases |s|
  {
    if |s| > 0 {
      SplitSingleIffNoSlash(s[1..]);
      LastSlashCons(s[0], s[1..]);
      assert s == [s[0]] + s[1..];
    }
  }

  /** How `Split` sees a character put in front of a string. */
  lemma SplitCons(c: char, t: string)
    ensures var rest := Split(t);
      Split([c] + t) == if c == Slash then [""] + rest else [[c] + rest[0]] + rest[1..]
  {
  }

  /** Dropping the last piece of a split that starts with an extra empty piece. */
  lemma JoinDropLastSlash(rest: seq<string>)
    requires |rest| >= 1
    ensures Join(AllButLast([""] + rest)) ==
      if |rest| == 1 then "" else [Slash] + Join(AllButLast(rest))
  {
    var whole := [""] + rest;
    var dropped := rest[..|rest| - 1];
    assert whole[..|whole| - 1] == [""] + dropped;
    if |rest| > 1 {
      JoinCons("", dropped);
    }
  }

  /** Dropping the last piece of a split whose first piece gained a character. */
  lemma JoinDropLastOther(c: char, rest: seq<string>)
    requires |rest| >= 1
    ensures Join(AllButLast([[c] + rest[0]] + rest[1..])) ==
      if |rest| == 1 then "" else [c] + Join(AllButLast(rest))
  {
    var whole := [[c] + rest[0]] + rest[1..];
    var dropped := rest[..|rest| - 1];
    if |rest| > 1 {
      assert whole[..|whole| - 1] == [[c] + dropped[0]] + dropped[1..];
      JoinExtendFirst(c, dropped);
    }
  }

  /** Putting a character in front of a path: split, slice and join gives ""
      when the rest is a single piece, and otherwise gains that character in front. */
  lemma SplitSliceJoinCons(c: char, t: string)
    ensures Join(AllButLast(Split([c] + t))) ==
      if |Split(t)| == 1 then "" else [c] + Join(AllButLast(Split(t)))
  {
    SplitCons(c, t);
    if c == Slash {
      JoinDropLastSlash(Split(t));
    } else {
      JoinDropLastOther(c, Split(t));
    }
  }

  /** Splitting on "/", dropping the last piece and joining with "/" leaves the
      path up to, not including, its last slash, and "" when it has no slash. */
  lemma {:induction false} SplitSliceJoinIsBeforeLastSlash(path: string)
    ensures Join(AllButLast(Split(path))) == UpToLastSlash(path)
    decreases |path|
  {
    if |path| > 0 {
      var c := path[0];
      var t := path[1..];
      assert path == [c] + t;
      SplitSliceJoinIsBeforeLastSlash(t);
      LastSlashCons(c, t);
      SplitSingleIffNoSlash(t);
      SplitSliceJoinCons(c, t);
    }
  }

  /** A path whose last slash is at `k` has the text before `k` as its directory. */
  lemma DirnameAtLastSlash(path: string, k: nat)
    requires k < |path| && path[k] == Slash
    requires forall j :: k < j < |path| ==> path[j] != Slash
    ensures Dirname(path) == path[..k]
  {
    LastSlashUnique(path, k);
  }

  /** The directory is a prefix of the path. */
  lemma DirnameIsPrefix(path: string)
    ensures |Dirname(path)| <= |path|
    ensures StartsWith(path, Dirname(path))
  {
  }
}
