/** Text helpers with the JavaScript semantics the application relies on:
    `trim`, the `\s` class, `includes`, `startsWith`, `endsWith`,
    `toLowerCase` (ASCII letters only) and `join`. */
module Strings {

  /** ECMAScript WhiteSpace and LineTerminator code points, the set matched
      by `\s` and removed by `String.prototype.trim`. */
  predicate IsWhitespace(c: char) {
    c == '\t' || c == '\n' || c == '\U{000B}' || c == '\U{000C}' || c == '\r'
    || c == ' ' || c == '\U{00A0}' || c == '\U{1680}'
    || ('\U{2000}' <= c <= '\U{200A}')
    || c == '\U{2028}' || c == '\U{2029}' || c == '\U{202F}' || c == '\U{205F}'
    || c == '\U{3000}' || c == '\U{FEFF}'
  }

  /** A string whose `trim()` is empty, i.e. JavaScript-falsy after trimming. */
  predicate IsBlank(s: string) {
    forall i | 0 <= i < |s| :: IsWhitespace(s[i])
  }

  /** Text is blank exactly when both of its pieces are. */
  lemma BlankAppend(a: string, b: string)
    ensures IsBlank(a + b) <==> IsBlank(a) && IsBlank(b)
  {
    if IsBlank(a + b) {
      forall i | 0 <= i < |a| ensures IsWhitespace(a[i]) {
        assert a[i] == (a + b)[i];
      }
      forall i | 0 <= i < |b| ensures IsWhitespace(b[i]) {
        assert b[i] == (a + b)[|a| + i];
      }
    }
    if IsBlank(a) && IsBlank(b) {
      forall i | 0 <= i < |a + b| ensures IsWhitespace((a + b)[i]) {
        if i < |a| {
          assert (a + b)[i] == a[i];
        } else {
          assert (a + b)[i] == b[i - |a|];
        }
      }
    }
  }

  lemma BlankCons(c: char, s: string)
    requires IsWhitespace(c) && IsBlank(s)
    ensures IsBlank([c] + s)
  {
  }

  /** `trimStart`: drops the leading white space and nothing else. */
  function TrimStart(s: string): (r: string)
    ensures |r| <= |s| && r == s[|s| - |r|..]
    ensures IsBlank(s[..|s| - |r|])
    ensures r == [] || !IsWhitespace(r[0])
  {
    if |s| > 0 && IsWhitespace(s[0]) then
      var r := TrimStart(s[1..]);
      assert s[1..][|s| - 1 - |r|..] == s[|s| - |r|..];
      BlankCons(s[0], s[1..][..|s| - 1 - |r|]);
      assert [s[0]] + s[1..][..|s| - 1 - |r|] == s[..|s| - |r|];
      r
    else
      s
  }

  /** `trimEnd`: drops the trailing white space and nothing else. */
  function TrimEnd(s: string): (r: string)
    ensures |r| <= |s| && r == s[..|r|]
    ensures IsBlank(s[|r|..])
    ensures r == [] || !IsWhitespace(r[|r| - 1])
  {
    if |s| > 0 && IsWhitespace(s[|s| - 1]) then TrimEnd(s[..|s| - 1]) else s
  }

  /** `trimEnd` keeps every character up to the last non-white-space one. */
  lemma TrimEndKeeps(s: string, j: int)
    requires 0 <= j < |s| && !IsWhitespace(s[j])
    ensures |TrimEnd(s)| > j
  {
  }

  /** Trimming a text made of one white-space character, a label that
      begins and ends with non-white-space characters, and anything else
      keeps the label at the start. */
  lemma TrimKeepsLabel(ws: string, lbl: string, tail: string)
    requires |ws| == 1 && IsWhitespace(ws[0])
    requires |lbl| > 0 && !IsWhitespace(lbl[0]) && !IsWhitespace(lbl[|lbl| - 1])
    ensures StartsWith(Trim(ws + lbl + tail), lbl)
  {
    var s := ws + lbl + tail;
    var rest := lbl + tail;
    assert s[1..] == rest;
    assert TrimStart(s) == TrimStart(rest) == rest;
    TrimEndKeeps(rest, |lbl| - 1);
    assert TrimEnd(rest)[..|lbl|] == rest[..|lbl|] == lbl;
  }

  function Trim(s: string): string {
    TrimEnd(TrimStart(s))
  }

  /** `s.trim()` is the empty string exactly when `s` is all white space,
      which is when a `if (!s.trim())` guard rejects it. */
  lemma TrimEmptyIffBlank(s: string)
    ensures Trim(s) == "" <==> IsBlank(s)
  {
    var t := TrimStart(s);
    if Trim(s) == "" {
      assert IsBlank(t) by { assert t[|TrimEnd(t)|..] == t; }
      assert s == s[..|s| - |t|] + t;
    }
  }

  /** Trimming keeps a non-blank string's content between its first and last
      non-white-space characters, so a trimmed non-blank string is non-blank. */
  lemma TrimIdempotent(s: string)
    ensures Trim(Trim(s)) == Trim(s)
  {
    var t := Trim(s);
    assert TrimStart(t) == t by {
      if |t| > 0 {
        var u := TrimStart(s);
        assert u != [] && t == u[..|t|];
        assert t[0] == u[0];
      }
    }
    assert TrimEnd(t) == t;
  }

  predicate OccursAt(s: string, sub: string, i: int) {
    0 <= i && i + |sub| <= |s| && s[i..i + |sub|] == sub
  }

  /** `s.includes(sub)`. */
  predicate Contains(s: string, sub: string) {
    exists i | 0 <= i <= |s| - |sub| :: OccursAt(s, sub, i)
  }

  /** `s.startsWith(p)`. */
  predicate StartsWith(s: string, p: string) {
    |p| <= |s| && s[..|p|] == p
  }

  /** `s.endsWith(p)`. */
  predicate EndsWith(s: string, p: string) {
    |p| <= |s| && s[|s| - |p|..] == p
  }

  /** A string contains itself and everything it begins with. */
  lemma StartsWithContains(s: string, p: string)
    requires StartsWith(s, p)
    ensures Contains(s, p)
  {
    assert OccursAt(s, p, 0);
  }

  /** A string cannot contain anything longer than itself. */
  lemma NotContainsLonger(s: string, sub: string)
    requires |sub| > |s|
    ensures !Contains(s, sub)
  {
  }

  /** Containment survives putting text on either side. */
  lemma ContainsInContext(a: string, s: string, b: string, sub: string)
    requires Contains(s, sub)
    ensures Contains(a + s + b, sub)
  {
    var i :| 0 <= i <= |s| - |sub| && OccursAt(s, sub, i);
    assert (a + s + b)[|a| + i..|a| + i + |sub|] == s[i..i + |sub|];
    assert OccursAt(a + s + b, sub, |a| + i);
  }

  /** Containment is transitive. */
  lemma ContainsTransitive(s: string, t: string, u: string)
    requires Contains(s, t) && Contains(t, u)
    ensures Contains(s, u)
  {
    var i :| 0 <= i <= |s| - |t| && OccursAt(s, t, i);
    var j :| 0 <= j <= |t| - |u| && OccursAt(t, u, j);
    forall k | 0 <= k < |u|
      ensures s[i + j + k] == u[k]
    {
      assert u[k] == t[j..j + |u|][k] == t[j + k];
      assert t[j + k] == s[i..i + |t|][j + k] == s[i + j + k];
    }
    assert s[i + j..i + j + |u|] == u;
    assert OccursAt(s, u, i + j);
  }

  /** `a` immediately followed by `b` somewhere in `s`. */
  predicate Gram2(s: string, a: char, b: char) {
    exists i | 0 <= i < |s| - 1 :: s[i] == a && s[i + 1] == b
  }

  predicate Gram3(s: string, a: char, b: char, c: char) {
    exists i | 0 <= i < |s| - 2 :: s[i] == a && s[i + 1] == b && s[i + 2] == c
  }

  predicate Gram4(s: string, a: char, b: char, c: char, d: char) {
    exists i | 0 <= i < |s| - 3 :: s[i] == a && s[i + 1] == b && s[i + 2] == c && s[i + 3] == d
  }

  /** Containment survives appending text on either side. */
  lemma ContainsAppend(s: string, t: string, sub: string)
    requires Contains(s, sub) || Contains(t, sub)
    ensures Contains(s + t, sub)
  {
    if Contains(s, sub) {
      var i :| 0 <= i <= |s| - |sub| && OccursAt(s, sub, i);
      assert (s + t)[i..i + |sub|] == s[i..i + |sub|];
      assert OccursAt(s + t, sub, i);
    } else {
      var i :| 0 <= i <= |t| - |sub| && OccursAt(t, sub, i);
      assert (s + t)[|s| + i..|s| + i + |sub|] == t[i..i + |sub|];
      assert OccursAt(s + t, sub, |s| + i);
    }
  }

  /** A text that never has the first two characters of `sub` side by side
      does not contain `sub`; likewise for three and four characters. */
  lemma NotContains2(s: string, sub: string)
    requires |sub| >= 2 && !Gram2(s, sub[0], sub[1])
    ensures !Contains(s, sub)
  {
    forall i | 0 <= i <= |s| - |sub|
      ensures !OccursAt(s, sub, i)
    {
      assert !(s[i] == sub[0] && s[i + 1] == sub[1]);
      var w := s[i..i + |sub|];
      assert w[0] == s[i] && w[1] == s[i + 1];
    }
  }

  lemma NotContains3(s: string, sub: string)
    requires |sub| >= 3 && !Gram3(s, sub[0], sub[1], sub[2])
    ensures !Contains(s, sub)
  {
    forall i | 0 <= i <= |s| - |sub|
      ensures !OccursAt(s, sub, i)
    {
      assert !(s[i] == sub[0] && s[i + 1] == sub[1] && s[i + 2] == sub[2]);
      var w := s[i..i + |sub|];
      assert w[0] == s[i] && w[1] == s[i + 1] && w[2] == s[i + 2];
    }
  }

  lemma NotContains4(s: string, sub: string)
    requires |sub| >= 4 && !Gram4(s, sub[0], sub[1], sub[2], sub[3])
    ensures !Contains(s, sub)
  {
    forall i | 0 <= i <= |s| - |sub|
      ensures !OccursAt(s, sub, i)
    {
      assert !(s[i] == sub[0] && s[i + 1] == sub[1] && s[i + 2] == sub[2] && s[i + 3] == sub[3]);
      var w := s[i..i + |sub|];
      assert w[0] == s[i] && w[1] == s[i + 1] && w[2] == s[i + 2] && w[3] == s[i + 3];
    }
  }

  /** JavaScript `toLowerCase` restricted to the ASCII letters. */
  function LowerChar(c: char): (r: char)
    ensures 'A' <= c <= 'Z' ==> r as int == c as int + 32
    ensures !('A' <= c <= 'Z') ==> r == c
    ensures !('A' <= r <= 'Z')
  {
    if 'A' <= c <= 'Z' then (c as int + 32) as char else c
  }

  function Lower(s: string): (r: string)
    ensures |r| == |s|
    ensures forall i | 0 <= i < |s| :: r[i] == LowerChar(s[i])
  {
    seq(|s|, i requires 0 <= i < |s| => LowerChar(s[i]))
  }

  /** Lower-casing twice is lower-casing once. */
  lemma LowerIdempotent(s: string)
    ensures Lower(Lower(s)) == Lower(s)
  {
  }

  /** Lower-casing works piece by piece. */
  lemma LowerAppend(a: string, b: string)
    ensures Lower(a + b) == Lower(a) + Lower(b)
  {
  }

  /** Lower-casing commutes with taking a slice. */
  lemma LowerSlice(s: string, i: int, j: int)
    requires 0 <= i <= j <= |s|
    ensures Lower(s)[i..j] == Lower(s[i..j])
  {
  }

  /** The summed length of the items. */
  function TotalLength(items: seq<string>): nat {
    if items == [] then 0 else TotalLength(items[..|items| - 1]) + |items[|items| - 1]|
  }

  /** `items.join(sep)`: the items in order with one separator between
      each two, so the text opens with the first item and closes with the
      last. */
  function Join(items: seq<string>, sep: string): (r: string)
    ensures |r| == TotalLength(items) + (if items == [] then 0 else (|items| - 1) * |sep|)
    ensures items != [] ==> StartsWith(r, items[0]) && EndsWith(r, items[|items| - 1])
  {
    if |items| == 0 then ""
    else if |items| == 1 then items[0]
    else Join(items[..|items| - 1], sep) + sep + items[|items| - 1]
  }

  /** Every joined item appears in the joined text. */
  lemma {:induction false} JoinContainsItems(items: seq<string>, sep: string, k: int)
    requires 0 <= k < |items|
    ensures Contains(Join(items, sep), items[k])
  {
    if |items| == 1 {
      assert OccursAt(items[0], items[0], 0);
      return;
    }
    var init := Join(items[..|items| - 1], sep);
    assert Join(items, sep) == init + sep + items[|items| - 1];
    if k == |items| - 1 {
      assert OccursAt(items[k], items[k], 0);
      ContainsInContext(init + sep, items[k], "", items[k]);
      assert init + sep + items[k] + "" == Join(items, sep);
    } else {
      JoinContainsItems(items[..|items| - 1], sep, k);
      ContainsInContext("", init, sep + items[|items| - 1], items[k]);
      assert "" + init + (sep + items[|items| - 1]) == Join(items, sep);
    }
  }

  function DigitChar(d: int): char
    requires 0 <= d < 10
  {
    "0123456789"[d]
  }

  /** The decimal rendering of a natural number, as `${n}` produces it. */
  function NatToString(n: nat): (r: string)
    ensures |r| >= 1
    ensures n >= 10 ==> |r| >= 2
    decreases n
  {
    if n < 10 then [DigitChar(n)] else NatToString(n / 10) + [DigitChar(n % 10)]
  }

  /** Different numbers render differently. */
  lemma {:induction false} NatToStringInjective(a: nat, b: nat)
    requires NatToString(a) == NatToString(b)
    ensures a == b
    decreases a
  {
    var s := NatToString(a);
    if a < 10 && b < 10 {
      assert DigitChar(a) == s[0] == DigitChar(b);
    } else if a >= 10 && b >= 10 {
      assert DigitChar(a % 10) == s[|s| - 1] == DigitChar(b % 10);
      assert NatToString(a / 10) == s[..|s| - 1] == NatToString(b / 10);
      NatToStringInjective(a / 10, b / 10);
    }
  }
}
