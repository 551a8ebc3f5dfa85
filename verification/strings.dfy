/**
  String primitives the converter relies on, written as the JavaScript
  built-ins behave on them: `String.prototype.repeat`, `split` on a single
  character, `Array.prototype.join`, `includes`, a global `replace` of a
  literal pattern, and `trim`.
 */
module Strings {

  /** The characters JavaScript's `trim` removes: the WhiteSpace and
      LineTerminator productions of ECMAScript (tab, vertical tab, form feed,
      space, no-break space, byte order mark, every space separator of the
      Unicode category Zs, line feed, carriage return, line and paragraph
      separators). */
  predicate IsSpace(ch: char) {
    || ch == ' ' || ch == '\t' || ch == '\n' || ch == '\r'
    || ch == '\U{000B}' || ch == '\U{000C}' || ch == '\U{00A0}' || ch == '\U{FEFF}'
    || ch == '\U{1680}' || ('\U{2000}' <= ch <= '\U{200A}') || ch == '\U{202F}'
    || ch == '\U{205F}' || ch == '\U{3000}' || ch == '\U{2028}' || ch == '\U{2029}'
  }

  predicate AllSpace(s: string) {
    forall i :: 0 <= i < |s| ==> IsSpace(s[i])
  }

  /** A string that `trim` leaves alone: empty, or bounded by non-space characters. */
  predicate IsTrimmed(s: string) {
    |s| == 0 || (!IsSpace(s[0]) && !IsSpace(s[|s| - 1]))
  }

  /** `c.repeat(n)`; a negative count (a RangeError in JavaScript) yields "". */
  function Repeat(c: char, n: int): (r: string)
    ensures |r| == if n <= 0 then 0 else n
    ensures forall i :: 0 <= i < |r| ==> r[i] == c
  {
    if n <= 0 then "" else [c] + Repeat(c, n - 1)
  }

  /** `s.split(c)` for a one-character separator: the maximal separator-free
      pieces, always at least one (`"".split(c)` is `[""]`). */
  function Split(s: string, c: char): (parts: seq<string>)
    ensures |parts| >= 1
    ensures forall i :: 0 <= i < |parts| ==> c !in parts[i]
    ensures c !in s ==> parts == [s]
  {
    if |s| == 0 then [""]
    else
      var rest := Split(s[1..], c);
      assert s == [s[0]] + s[1..];
      if s[0] == c then [""] + rest
      else [[s[0]] + rest[0]] + rest[1..]
  }

  /** `parts.join(sep)`. */
  function Join(parts: seq<string>, sep: string): string {
    if |parts| == 0 then ""
    else if |parts| == 1 then parts[0]
    else parts[0] + sep + Join(parts[1..], sep)
  }

  /** Replaces every occurrence of the character `c` by `rep`: the reference
      meaning of `s.split(c).join(rep)`, see `JoinSplit`. */
  function ReplaceChar(s: string, c: char, rep: string): (r: string)
    ensures c !in s ==> r == s
    ensures c !in rep ==> c !in r
  {
    if |s| == 0 then ""
    else (if s[0] == c then rep else [s[0]]) + ReplaceChar(s[1..], c, rep)
  }

  /** `s.startsWith(p)`. */
  predicate StartsWith(s: string, p: string) {
    |s| >= |p| && s[..|p|] == p
  }

  /** `s.includes(p)`. */
  predicate Contains(s: string, p: string) {
    StartsWith(s, p) || (|s| > 0 && Contains(s[1..], p))
  }

  /** `s.replace(/p/g, rep)` for a literal pattern: a left-to-right scan that
      replaces non-overlapping occurrences. */
  function ReplaceAll(s: string, p: string, rep: string): (r: string)
    requires |p| > 0
    ensures !Contains(s, p) ==> r == s
    decreases |s|
  {
    if StartsWith(s, p) then rep + ReplaceAll(s[|p|..], p, rep)
    else if |s| == 0 then ""
    else [s[0]] + ReplaceAll(s[1..], p, rep)
  }

  /** The number of leading characters `trimStart` drops. */
  function LeadingSpace(s: string): (k: nat)
    ensures k <= |s|
    ensures forall i :: 0 <= i < k ==> IsSpace(s[i])
    ensures k < |s| ==> !IsSpace(s[k])
  {
    if |s| > 0 && IsSpace(s[0]) then 1 + LeadingSpace(s[1..]) else 0
  }

  /** The length of what `trimEnd` keeps. */
  function KeptByTrimEnd(s: string): (k: nat)
    ensures k <= |s|
    ensures forall i :: k <= i < |s| ==> IsSpace(s[i])
    ensures k > 0 ==> !IsSpace(s[k - 1])
  {
    if |s| > 0 && IsSpace(s[|s| - 1]) then KeptByTrimEnd(s[..|s| - 1]) else |s|
  }

  /** `s.trim()`: the infix left after removing leading and trailing
      whitespace. */
  function Trim(s: string): (r: string)
    ensures IsTrimmed(r)
  {
    var t := s[LeadingSpace(s)..];
    t[..KeptByTrimEnd(t)]
  }

  // ---------------------------------------------------------------------
  // Lemmas
  // ---------------------------------------------------------------------

  /** Joining the pieces of a split with `rep` replaces each separator by `rep`. */
  lemma {:induction false} JoinSplit(s: string, c: char, rep: string)
    ensures Join(Split(s, c), rep) == ReplaceChar(s, c, rep)
    decreases |s|
  {
    if |s| > 0 {
      var rest := Split(s[1..], c);
      JoinSplit(s[1..], c, rep);
      if s[0] == c {
        assert Split(s, c) == [""] + rest;
        assert Join([""] + rest, rep) == "" + rep + Join(rest, rep);
      } else {
        var parts := Split(s, c);
        assert parts == [[s[0]] + rest[0]] + rest[1..];
        if |rest| == 1 {
          assert Join(parts, rep) == [s[0]] + rest[0];
        } else {
          assert Join(rest, rep) == rest[0] + rep + Join(rest[1..], rep);
          assert parts[1..] == rest[1..];
          assert Join(parts, rep) == [s[0]] + rest[0] + rep + Join(rest[1..], rep);
        }
      }
    }
  }

  /** Replacing a character by itself changes nothing. */
  lemma {:induction false} ReplaceCharBySelf(s: string, c: char)
    ensures ReplaceChar(s, c, [c]) == s
    decreases |s|
  {
    if |s| > 0 {
      ReplaceCharBySelf(s[1..], c);
      assert ReplaceChar(s, c, [c]) == [s[0]] + ReplaceChar(s[1..], c, [c]);
      assert s == [s[0]] + s[1..];
    }
  }

  /** Split/join identity: `s.split(c).join(c) === s`. */
  lemma SplitJoinIdentity(s: string, c: char)
    ensures Join(Split(s, c), [c]) == s
  {
    JoinSplit(s, c, [c]);
    ReplaceCharBySelf(s, c);
  }

  /** The reassembly `head + c + rest.join(c)` of a split gives back the
      string when it contained the separator, and the string followed by one
      separator when it did not. */
  lemma HeadThenRest(s: string, c: char)
    ensures var parts := Split(s, c);
      parts[0] + [c] + Join(parts[1..], [c]) == if c in s then s else s + [c]
  {
    var parts := Split(s, c);
    SplitJoinIdentity(s, c);
  }

  /** `LeadingSpace` is the position of the first non-space character. */
  lemma LeadingSpaceIs(s: string, i: nat)
    requires i <= |s|
    requires forall k :: 0 <= k < i ==> IsSpace(s[k])
    requires i < |s| ==> !IsSpace(s[i])
    ensures LeadingSpace(s) == i
  {
  }

  /** `KeptByTrimEnd` is the position after the last non-space character. */
  lemma KeptIs(t: string, j: nat)
    requires j <= |t|
    requires forall k :: j <= k < |t| ==> IsSpace(t[k])
    requires j > 0 ==> !IsSpace(t[j - 1])
    ensures KeptByTrimEnd(t) == j
  {
  }

  /** A string bounded by the given all-space margins trims to its middle:
      `Trim` is the unique trimmed infix with whitespace around it. */
  lemma TrimUnique(s: string, i: nat, j: nat)
    requires i <= j <= |s|
    requires AllSpace(s[..i]) && AllSpace(s[j..])
    requires IsTrimmed(s[i..j])
    ensures Trim(s) == s[i..j]
  {
    assert forall k :: 0 <= k < i ==> IsSpace(s[..i][k]);
    assert forall k :: 0 <= k < |s| - j ==> IsSpace(s[j..][k]);
    assert forall k :: j <= k < |s| ==> IsSpace(s[k]);
    if i < j {
      assert s[i..j][0] == s[i] && s[i..j][j - i - 1] == s[j - 1];
      LeadingSpaceIs(s, i);
      SpaceAfter(s, i, j);
      assert s[i..][j - i - 1] == s[j - 1];
      KeptIs(s[i..], j - i);
      TrimFrom(s, i, j);
    } else {
      LeadingSpaceIs(s, |s|);
      KeptIs(s[|s|..], 0);
    }
  }

  /** Trimming keeps what lies between the leading whitespace and the
      trailing whitespace. */
  lemma TrimFrom(s: string, i: nat, j: nat)
    requires i <= j <= |s| && LeadingSpace(s) == i && KeptByTrimEnd(s[i..]) == j - i
    ensures Trim(s) == s[i..j]
  {
    assert s[i..][..j - i] == s[i..j];
  }

  lemma SpaceAfter(s: string, i: nat, j: nat)
    requires i < j <= |s|
    requires forall k :: j <= k < |s| ==> IsSpace(s[k])
    ensures forall k :: j - i <= k < |s| - i ==> IsSpace(s[i..][k])
  {
    forall k | j - i <= k < |s| - i
      ensures IsSpace(s[i..][k])
    {
      assert s[i..][k] == s[k + i];
    }
  }

  /** Trailing whitespace after a trimmed string is exactly what `trim` removes. */
  lemma TrimDropsTrailingSpace(s: string, w: string)
    requires IsTrimmed(s) && AllSpace(w)
    ensures Trim(s + w) == s
  {
    var t := s + w;
    assert t[..0] == [];
    assert t[|s|..] == w;
    assert t[0..|s|] == s;
    TrimUnique(t, 0, |s|);
  }

  /** Replacing a character that occurs by a longer string lengthens the
      string; the first and last characters survive when they are not the
      replaced one. */
  lemma {:induction false} ReplaceCharShape(s: string, c: char, rep: string)
    requires |rep| >= 1
    ensures |ReplaceChar(s, c, rep)| >= |s|
    ensures c in s && |rep| > 1 ==> |ReplaceChar(s, c, rep)| > |s|
    ensures |s| > 0 && s[0] != c ==> ReplaceChar(s, c, rep)[0] == s[0]
    ensures |s| > 0 && s[|s| - 1] != c ==> ReplaceChar(s, c, rep)[|ReplaceChar(s, c, rep)| - 1] == s[|s| - 1]
    decreases |s|
  {
    if |s| > 0 {
      ReplaceCharShape(s[1..], c, rep);
      if c in s && s[0] != c {
        assert c in s[1..] by {
          var i :| 0 <= i < |s| && s[i] == c;
          assert s[1..][i - 1] == c;
        }
      }
      if |s| > 1 {
        assert s[1..][|s| - 2] == s[|s| - 1];
      }
    }
  }

  /** Replacing line feeds by a token makes the token appear whenever there
      was a line feed. */
  lemma {:induction false} ReplacedCharShowsToken(s: string, rep: string)
    requires '\n' in s
    ensures Contains(ReplaceChar(s, '\n', rep), rep)
    decreases |s|
  {
    var r := ReplaceChar(s, '\n', rep);
    if s[0] == '\n' {
      assert r == rep + ReplaceChar(s[1..], '\n', rep);
      assert r[..|rep|] == rep;
    } else {
      assert '\n' in s[1..] by {
        var i :| 0 <= i < |s| && s[i] == '\n';
        assert s[1..][i - 1] == '\n';
      }
      ReplacedCharShowsToken(s[1..], rep);
      assert r[1..] == ReplaceChar(s[1..], '\n', rep);
    }
  }

  /** Undoing the line-break token: a string without the token, whose line
      feeds were replaced by the token, is restored by replacing the token
      back with line feeds. */
  lemma {:induction false} BreakTokenRoundTrip(s: string, token: string)
    requires |token| > 0 && '\n' !in token
    requires forall k :: 1 <= k < |token| ==> token[k] != token[0]
    requires !Contains(s, token)
    ensures ReplaceAll(ReplaceChar(s, '\n', token), token, "\n") == s
    decreases |s|
  {
    if |s| > 0 {
      var rest := ReplaceChar(s[1..], '\n', token);
      assert !Contains(s[1..], token);
      BreakTokenRoundTrip(s[1..], token);
      if s[0] == '\n' {
        var t := token + rest;
        assert ReplaceChar(s, '\n', token) == t;
        assert t[..|token|] == token;
        assert t[|token|..] == rest;
      } else {
        var t := [s[0]] + rest;
        assert ReplaceChar(s, '\n', token) == t;
        TokenNotCreated(s, token);
        assert !StartsWith(s, token);
        assert !StartsWith(t, token);
        assert t[1..] == rest;
      }
    }
  }

  /** Replacing line feeds by the token never makes a token appear at a
      position where the original had an ordinary character and no token. */
  lemma TokenNotCreated(s: string, token: string)
    requires |s| > 0 && |token| > 0 && '\n' !in token
    requires forall k :: 1 <= k < |token| ==> token[k] != token[0]
    ensures s[0] != '\n' && StartsWith(ReplaceChar(s, '\n', token), token) ==> StartsWith(s, token)
  {
    var rest := ReplaceChar(s[1..], '\n', token);
    if s[0] != '\n' && StartsWith(ReplaceChar(s, '\n', token), token) {
      var t := [s[0]] + rest;
      assert ReplaceChar(s, '\n', token) == t;
      assert StartsWith(rest, token[1..]) by {
        assert rest == t[1..];
        assert t[1..][..|token| - 1] == t[..|token|][1..];
      }
      PrefixSurvivesReplace(s[1..], token, token[1..]);
      assert s[..|token|] == [s[0]] + s[1..][..|token| - 1];
    }
  }

  /** If replacing line feeds by `token` yields a string starting with `q`, and
      `q` contains neither a line feed nor the token's first character, the
      original already started with `q`. */
  lemma {:induction false} PrefixSurvivesReplace(u: string, token: string, q: string)
    requires |token| > 0 && '\n' !in q
    requires forall k :: 0 <= k < |q| ==> q[k] != token[0]
    ensures StartsWith(ReplaceChar(u, '\n', token), q) ==> StartsWith(u, q)
    decreases |q|
  {
    var r := ReplaceChar(u, '\n', token);
    if |q| > 0 && StartsWith(r, q) {
      assert |u| > 0;
      var rest := ReplaceChar(u[1..], '\n', token);
      assert r == (if u[0] == '\n' then token else [u[0]]) + rest;
      assert r[0] == q[0];
      assert u[0] != '\n';
      assert rest == r[1..];
      assert StartsWith(rest, q[1..]) by {
        assert r[1..][..|q| - 1] == r[..|q|][1..];
      }
      PrefixSurvivesReplace(u[1..], token, q[1..]);
      assert u[..|q|] == [u[0]] + u[1..][..|q| - 1];
    }
  }
}
