/**
  Escaping of literal text runs. The converter runs four global regular
  expression replacements in a row, one per wiki-significant pair (`||`,
  `%%`, `[[`, `]]`), each inserting a backslash before both characters of
  every non-overlapping occurrence found scanning left to right.
 */
module Escape {
  import opened Strings

  /** The characters whose doubling is significant to the wiki renderer. */
  predicate IsSpecial(ch: char) {
    ch == '|' || ch == '%' || ch == '[' || ch == ']'
  }

  /** One `replace(/cc/g, '\c\c')` pass for the doubled character `c`. */
  function EscapePair(s: string, c: char): (r: string)
    ensures c !in s ==> r == s
    decreases |s|
  {
    if |s| >= 2 && s[0] == c && s[1] == c then ['\\', c, '\\', c] + EscapePair(s[2..], c)
    else if |s| == 0 then ""
    else [s[0]] + EscapePair(s[1..], c)
  }

  /** `escapeText`: the four passes in the order the converter applies them. */
  function EscapeText(s: string): string {
    EscapePair(EscapePair(EscapePair(EscapePair(s, '|'), '%'), '['), ']')
  }

  /** Reference definition: one left-to-right scan that escapes every doubled
      special character it meets. */
  function EscapeScan(s: string): string
    decreases |s|
  {
    if |s| >= 2 && IsSpecial(s[0]) && s[1] == s[0] then ['\\', s[0], '\\', s[0]] + EscapeScan(s[2..])
    else if |s| == 0 then ""
    else [s[0]] + EscapeScan(s[1..])
  }

  /** Whether `s` holds a doubled special character anywhere. */
  predicate HasSpecialPair(s: string) {
    exists i :: 0 <= i < |s| - 1 && IsSpecial(s[i]) && s[i + 1] == s[i]
  }

  /** Removes the backslashes `EscapeScan` inserted. */
  function Unescape(t: string): string
    decreases |t|
  {
    if |t| >= 4 && t[0] == '\\' && IsSpecial(t[1]) && t[2] == '\\' && t[3] == t[1] then [t[1], t[1]] + Unescape(t[4..])
    else if |t| == 0 then ""
    else [t[0]] + Unescape(t[1..])
  }

  // ---------------------------------------------------------------------
  // The four passes equal the single scan
  // ---------------------------------------------------------------------

  /** A pass leaves alone a prefix that does not contain its character. */
  lemma {:induction false} PassSkipsPrefix(p: string, u: string, d: char)
    requires d !in p
    ensures EscapePair(p + u, d) == p + EscapePair(u, d)
    decreases |p|
  {
    if |p| > 0 {
      assert p[0] in p;
      assert (p + u)[0] == p[0];
      assert (p + u)[1..] == p[1..] + u;
      assert EscapePair(p + u, d) == [p[0]] + EscapePair(p[1..] + u, d);
      PassSkipsPrefix(p[1..], u, d);
      assert p == [p[0]] + p[1..];
    } else {
      assert p + u == u;
    }
  }

  /** A lone occurrence of the pass's character is copied. */
  lemma PassLoneChar(d: char, u: string)
    requires |u| == 0 || u[0] != d
    ensures EscapePair([d] + u, d) == [d] + EscapePair(u, d)
  {
    assert ([d] + u)[1..] == u;
  }

  /** A pass starts its output with the input's first character or with a
      backslash. */
  lemma PassFirstChar(u: string, d: char)
    ensures |EscapePair(u, d)| == 0 <==> |u| == 0
    ensures |u| > 0 ==> EscapePair(u, d)[0] == u[0] || EscapePair(u, d)[0] == '\\'
  {
  }

  /** All four passes leave alone a leading character that does not start
      a special pair. */
  lemma PassesPlainChar(x: char, t: string)
    requires !(IsSpecial(x) && |t| > 0 && t[0] == x)
    ensures EscapeText([x] + t) == [x] + EscapeText(t)
  {
    var s1 := EscapePair(t, '|');
    if x == '|' { PassLoneChar('|', t); } else { PassSkipsPrefix([x], t, '|'); }
    PassFirstChar(t, '|');
    var s2 := EscapePair(s1, '%');
    if x == '%' { PassLoneChar('%', s1); } else { PassSkipsPrefix([x], s1, '%'); }
    PassFirstChar(s1, '%');
    var s3 := EscapePair(s2, '[');
    if x == '[' { PassLoneChar('[', s2); } else { PassSkipsPrefix([x], s2, '['); }
    PassFirstChar(s2, '[');
    if x == ']' { PassLoneChar(']', s3); } else { PassSkipsPrefix([x], s3, ']'); }
  }

  /** One pass over a leading pair `cc`, escaped or not yet: the pass for
      `c` escapes the bare pair, every other pass copies what it finds. */
  lemma PassOverPair(c: char, d: char, pre: string, u: string)
    requires IsSpecial(c) && IsSpecial(d)
    requires pre == [c, c] || (pre == ['\\', c, '\\', c] && c != d)
    ensures EscapePair(pre + u, d) ==
      (if pre == [c, c] && c == d then ['\\', c, '\\', c] else pre) + EscapePair(u, d)
  {
    if pre == [c, c] && c == d {
      assert (pre + u)[2..] == u;
    } else {
      PassSkipsPrefix(pre, u, d);
    }
  }

  /** All four passes escape a leading special pair exactly once. */
  lemma PassesPair(c: char, t: string)
    requires IsSpecial(c)
    ensures EscapeText([c, c] + t) == ['\\', c, '\\', c] + EscapeText(t)
  {
    var e := ['\\', c, '\\', c];
    var s1 := EscapePair(t, '|');
    var s2 := EscapePair(s1, '%');
    var s3 := EscapePair(s2, '[');
    var p1 := if c == '|' then e else [c, c];
    var p2 := if c == '|' || c == '%' then e else [c, c];
    var p3 := if c != ']' then e else [c, c];
    PassOverPair(c, '|', [c, c], t);
    PassOverPair(c, '%', p1, s1);
    PassOverPair(c, '[', p2, s2);
    PassOverPair(c, ']', p3, s3);
  }

  /** Running the four replacements one after another is the same as one
      scan escaping every special pair: no pass sees the backslashes another
      pass inserted as part of a pair. */
  lemma {:induction false} EscapeTextIsScan(s: string)
    ensures EscapeText(s) == EscapeScan(s)
    decreases |s|
  {
    if |s| >= 2 && IsSpecial(s[0]) && s[1] == s[0] {
      assert s == [s[0], s[0]] + s[2..];
      PassesPair(s[0], s[2..]);
      EscapeTextIsScan(s[2..]);
    } else if |s| > 0 {
      assert s == [s[0]] + s[1..];
      PassesPlainChar(s[0], s[1..]);
      EscapeTextIsScan(s[1..]);
    }
  }

  // ---------------------------------------------------------------------
  // Properties of the scan
  // ---------------------------------------------------------------------

  /** Escaping changes a string exactly when it holds a special pair. */
  lemma {:induction false} ScanUnchangedIff(s: string)
    ensures EscapeScan(s) == s <==> !HasSpecialPair(s)
    ensures |EscapeScan(s)| >= |s|
    decreases |s|
  {
    if |s| >= 2 && IsSpecial(s[0]) && s[1] == s[0] {
      ScanUnchangedIff(s[2..]);
      assert HasSpecialPair(s) by { assert IsSpecial(s[0]) && s[1] == s[0]; }
    } else if |s| > 0 {
      ScanUnchangedIff(s[1..]);
      var t := s[1..];
      if HasSpecialPair(s) {
        var i :| 0 <= i < |s| - 1 && IsSpecial(s[i]) && s[i + 1] == s[i];
        assert i > 0;
        assert IsSpecial(t[i - 1]) && t[i] == t[i - 1];
        assert HasSpecialPair(t);
      }
      if HasSpecialPair(t) {
        var i :| 0 <= i < |t| - 1 && IsSpecial(t[i]) && t[i + 1] == t[i];
        assert IsSpecial(s[i + 1]) && s[i + 2] == s[i + 1];
        assert HasSpecialPair(s);
      }
      assert s == [s[0]] + t;
    }
  }

  /** Escaping is undone by `Unescape` on text without backslashes. */
  lemma {:induction false} UnescapeScan(s: string)
    requires '\\' !in s
    ensures Unescape(EscapeScan(s)) == s
    decreases |s|
  {
    if |s| >= 2 && IsSpecial(s[0]) && s[1] == s[0] {
      var e := EscapeScan(s[2..]);
      UnescapeScan(s[2..]);
      var t := ['\\', s[0], '\\', s[0]] + e;
      assert t[4..] == e;
      assert s == [s[0], s[0]] + s[2..];
    } else if |s| > 0 {
      var e := EscapeScan(s[1..]);
      UnescapeScan(s[1..]);
      var t := [s[0]] + e;
      assert t[1..] == e;
      assert s == [s[0]] + s[1..];
    }
  }

  /** Escaping is not injective once backslashes occur: for each special
      character `c`, the text `\c\c` and the text `cc` render alike. */
  lemma EscapeLosesBackslashes(c: char)
    requires IsSpecial(c)
    ensures EscapeText(['\\', c, '\\', c]) == EscapeText([c, c]) == ['\\', c, '\\', c]
  {
    EscapedStays(c);
    PassesPair(c, []);
    assert [c, c] + [] == [c, c];
    assert EscapeText([]) == [];
  }

  lemma EscapedStays(c: char)
    requires IsSpecial(c)
    ensures EscapeText(['\\', c, '\\', c]) == ['\\', c, '\\', c]
  {
    var t1: string := [c];
    var t2: string := ['\\'] + t1;
    var t3: string := [c] + t2;
    var t4: string := ['\\'] + t3;
    assert EscapeText([]) == [];
    PassesPlainChar(c, []);
    assert [c] + [] == t1;
    PassesPlainChar('\\', t1);
    PassesPlainChar(c, t2);
    PassesPlainChar('\\', t3);
    assert t4 == ['\\', c, '\\', c];
  }

  /** The scan copies a prefix without special characters. */
  lemma {:induction false} ScanSkipsPlain(p: string, w: string)
    requires forall i :: 0 <= i < |p| ==> !IsSpecial(p[i])
    ensures EscapeScan(p + w) == p + EscapeScan(w)
    decreases |p|
  {
    if |p| > 0 {
      assert (p + w)[0] == p[0];
      assert (p + w)[1..] == p[1..] + w;
      ScanSkipsPlain(p[1..], w);
      assert p == [p[0]] + p[1..];
    } else {
      assert p + w == w;
    }
  }

  /** The scan copies a special character that does not start a pair. */
  lemma ScanLoneSpecial(x: char, rest: string)
    requires |rest| == 0 || rest[0] != x
    ensures EscapeScan([x] + rest) == [x] + EscapeScan(rest)
  {
    assert ([x] + rest)[1..] == rest;
  }

  /** A special pair in the tail is one in the whole. */
  lemma PairInTail(v: string)
    requires |v| > 0
    ensures HasSpecialPair(v[1..]) ==> HasSpecialPair(v)
  {
    if HasSpecialPair(v[1..]) {
      var i :| 0 <= i < |v[1..]| - 1 && IsSpecial(v[1..][i]) && v[1..][i + 1] == v[1..][i];
      assert IsSpecial(v[i + 1]) && v[i + 2] == v[i + 1];
    }
  }

  /** After a special character that does not start a pair, the text with
      line feeds replaced does not start with that character either. */
  lemma NextAfterLoneSpecial(v: string)
    requires |v| > 1 && IsSpecial(v[0]) && v[1] != v[0]
    ensures var rest := ReplaceChar(v[1..], '\n', "&br;");
      |rest| > 0 && rest[0] != v[0]
  {
    var t := v[1..];
    assert t[0] == v[1];
    assert ReplaceChar(t, '\n', "&br;") == (if t[0] == '\n' then "&br;" else [t[0]]) + ReplaceChar(t[1..], '\n', "&br;");
  }

  /** Replacing line feeds by `&br;` creates no special pair: text that needs
      no escaping still needs none once its line feeds are replaced. */
  lemma {:induction false} BreaksNeedNoEscape(v: string)
    requires !HasSpecialPair(v)
    ensures EscapeScan(ReplaceChar(v, '\n', "&br;")) == ReplaceChar(v, '\n', "&br;")
    decreases |v|
  {
    if |v| > 0 {
      var rest := ReplaceChar(v[1..], '\n', "&br;");
      PairInTail(v);
      BreaksNeedNoEscape(v[1..]);
      var x := v[0];
      if x == '\n' {
        assert ReplaceChar(v, '\n', "&br;") == "&br;" + rest;
        ScanSkipsPlain("&br;", rest);
      } else if IsSpecial(x) {
        assert ReplaceChar(v, '\n', "&br;") == [x] + rest;
        if |v| > 1 {
          assert !(IsSpecial(v[0]) && v[1] == v[0]);
          NextAfterLoneSpecial(v);
        }
        ScanLoneSpecial(x, rest);
      } else {
        assert ReplaceChar(v, '\n', "&br;") == [x] + rest;
        ScanSkipsPlain([x], rest);
      }
    }
  }
}
