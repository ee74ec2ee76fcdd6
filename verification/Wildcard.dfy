/**
  `_wildcard_regex` of `scripts/sigma/eql_eval.py`: a pattern with `*` and `?` becomes a regular
  expression, part by part, and the whole value must match it.
*/
module Wildcards {
  /** When a literal pattern character matches a value character: equality, or the library's case folding. */
  type SameChar = (char, char) -> bool

  datatype Part = AnyRun | AnyOne | Exactly(c: char)

  function PartOf(c: char): Part { if c == '*' then AnyRun else if c == '?' then AnyOne else Exactly(c) }

  function Translate(pattern: string): seq<Part> {
    seq(|pattern|, i requires 0 <= i < |pattern| => PartOf(pattern[i]))
  }

  method BuildParts(pattern: string) returns (parts: seq<Part>)
    ensures parts == Translate(pattern)
  {
    parts := [];
    for n := 0 to |pattern|
      invariant parts == Translate(pattern[..n])
    {
      parts := parts + [if pattern[n] == '*' then AnyRun else if pattern[n] == '?' then AnyOne else Exactly(pattern[n])];
    }
    assert pattern[..|pattern|] == pattern;
  }

  /** The language of one part; a dot also matches a newline. */
  predicate PartMatches(same: SameChar, p: Part, s: string) {
    match p
    case AnyRun => true
    case AnyOne => |s| == 1
    case Exactly(c) => |s| == 1 && same(c, s[0])
  }

  /** `fullmatch` of a concatenation: some split of the value gives each part its own piece. */
  predicate FullMatch(same: SameChar, parts: seq<Part>, s: string)
    decreases |parts|
  {
    if parts == [] then s == ""
    else exists k :: 0 <= k <= |s| && PartMatches(same, parts[0], s[..k]) && FullMatch(same, parts[1..], s[k..])
  }

  /** The recursive matcher one would write for `*` and `?`. */
  predicate Glob(same: SameChar, pattern: string, s: string)
    decreases |pattern| + |s|
  {
    if pattern == "" then s == ""
    else if pattern[0] == '*' then Glob(same, pattern[1..], s) || (s != "" && Glob(same, pattern, s[1..]))
    else s != "" && (pattern[0] == '?' || same(pattern[0], s[0])) && Glob(same, pattern[1..], s[1..])
  }

  /** A star matches some prefix and leaves the rest of the pattern a suffix. */
  lemma {:induction false} StarSplits(same: SameChar, pattern: string, s: string)
    requires pattern != "" && pattern[0] == '*'
    ensures Glob(same, pattern, s) <==> exists k :: 0 <= k <= |s| && Glob(same, pattern[1..], s[k..])
    decreases |s|
  {
    assert s[0..] == s;
    if s != "" {
      StarSplits(same, pattern, s[1..]);
      if k :| 0 <= k <= |s[1..]| && Glob(same, pattern[1..], s[1..][k..]) {
        assert s[1..][k..] == s[k + 1..];
      }
      if k :| 0 <= k <= |s| && Glob(same, pattern[1..], s[k..]) {
        if k > 0 { assert s[k..] == s[1..][k - 1..]; }
      }
    }
  }

  /** The generated expression accepts exactly what the recursive matcher accepts. */
  lemma {:induction false} RegexIsGlob(same: SameChar, pattern: string, s: string)
    ensures FullMatch(same, Translate(pattern), s) <==> Glob(same, pattern, s)
    decreases |pattern|
  {
    if pattern != "" {
      var parts := Translate(pattern);
      assert parts[1..] == Translate(pattern[1..]);
      forall k | 0 <= k <= |s| ensures FullMatch(same, parts[1..], s[k..]) <==> Glob(same, pattern[1..], s[k..]) {
        RegexIsGlob(same, pattern[1..], s[k..]);
      }
      if pattern[0] == '*' {
        StarSplits(same, pattern, s);
        assert forall k :: 0 <= k <= |s| ==> PartMatches(same, parts[0], s[..k]);
      } else {
        assert forall k :: 0 <= k <= |s| && PartMatches(same, parts[0], s[..k]) ==> k == 1;
        assert s != "" ==> s[..1][0] == s[0];
      }
    }
  }
}
