/**
 * String operations used by the extractors: prefix and substring tests,
 * ASCII case mapping, whitespace trimming in the JavaScript and the Python
 * sense, character removal, splitting, padding and substring replacement.
 */
module Text {

  predicate StartsWith(s: string, prefix: string) {
    |prefix| <= |s| && s[..|prefix|] == prefix
  }

  /** `sub` occurs somewhere in `s` (JavaScript `includes`, Python `in`). */
  predicate Contains(s: string, sub: string)
    decreases |s|
  {
    StartsWith(s, sub) || (|s| > 0 && Contains(s[1..], sub))
  }

  /** A string without the first character of `sub` does not contain `sub`. */
  lemma {:induction false} LacksFirst(s: string, sub: string)
    requires |sub| > 0 && sub[0] !in s
    ensures !Contains(s, sub)
    decreases |s|
  {
    if |sub| <= |s| {
      assert s[..|sub|][0] == s[0];
    }
    if |s| > 0 {
      LacksFirst(s[1..], sub);
    }
  }

  /** `sub` occurs in `s` at index `i`. */
  predicate OccursAt(s: string, sub: string, i: int) {
    0 <= i <= |s| - |sub| && s[i..i + |sub|] == sub
  }

  /** The recursive definition of Contains agrees with "some window of `s` equals `sub`". */
  lemma {:induction false} ContainsAt(s: string, sub: string)
    ensures Contains(s, sub) <==> exists i :: OccursAt(s, sub, i)
    decreases |s|
  {
    if |s| > 0 {
      ContainsAt(s[1..], sub);
      if Contains(s[1..], sub) && !StartsWith(s, sub) {
        var i :| OccursAt(s[1..], sub, i);
        assert OccursAt(s, sub, i + 1);
      }
      if StartsWith(s, sub) {
        assert OccursAt(s, sub, 0);
      }
      if exists i :: OccursAt(s, sub, i) {
        var i :| OccursAt(s, sub, i);
        if i > 0 {
          assert OccursAt(s[1..], sub, i - 1);
        }
      }
    } else if StartsWith(s, sub) {
      assert OccursAt(s, sub, 0);
    }
  }

  /** A string that occurs in `a` also occurs in any string containing `a`. */
  lemma ContainsInfix(pre: string, a: string, post: string, sub: string)
    requires Contains(a, sub)
    ensures Contains(pre + a + post, sub)
  {
    ContainsAt(a, sub);
    var i :| OccursAt(a, sub, i);
    var s := pre + a + post;
    assert s[|pre| + i..|pre| + i + |sub|] == a[i..i + |sub|];
    assert OccursAt(s, sub, |pre| + i);
    ContainsAt(s, sub);
  }

  // ---------------------------------------------------------------------
  // ASCII case mapping (toLowerCase/toUpperCase, lower()/upper())
  // ---------------------------------------------------------------------

  function LowerChar(c: char): char {
    if 'A' <= c <= 'Z' then (c as int + 32) as char else c
  }

  function UpperChar(c: char): char {
    if 'a' <= c <= 'z' then (c as int - 32) as char else c
  }

  function Lower(s: string): (r: string)
    ensures |r| == |s| && forall i :: 0 <= i < |s| ==> r[i] == LowerChar(s[i])
  {
    seq(|s|, i requires 0 <= i < |s| => LowerChar(s[i]))
  }

  function Upper(s: string): (r: string)
    ensures |r| == |s| && forall i :: 0 <= i < |s| ==> r[i] == UpperChar(s[i])
  {
    seq(|s|, i requires 0 <= i < |s| => UpperChar(s[i]))
  }

  lemma UpperAppend(a: string, b: string)
    ensures Upper(a + b) == Upper(a) + Upper(b)
  {
    assert forall i :: 0 <= i < |a + b| ==> Upper(a + b)[i] == (Upper(a) + Upper(b))[i];
  }

  lemma UpperZeros(k: nat)
    ensures Upper(Repeat('0', k)) == Repeat('0', k)
  {
  }

  // ---------------------------------------------------------------------
  // Whitespace
  // ---------------------------------------------------------------------

  /** ECMAScript WhiteSpace and LineTerminator code points (`trim`, `\s`, parseInt). */
  predicate IsJsSpace(c: char) {
    c == '\t' || c == '\n' || c == '\U{000B}' || c == '\U{000C}' || c == '\r' || c == ' '
    || c == '\U{00A0}' || c == '\U{1680}' || ('\U{2000}' <= c <= '\U{200A}')
    || c == '\U{2028}' || c == '\U{2029}' || c == '\U{202F}' || c == '\U{205F}'
    || c == '\U{3000}' || c == '\U{FEFF}'
  }

  /** Python `str.isspace` code points (`strip()`, and the padding `int()` accepts). */
  predicate IsPySpace(c: char) {
    c == '\t' || c == '\n' || c == '\U{000B}' || c == '\U{000C}' || c == '\r'
    || ('\U{001C}' <= c <= '\U{001F}') || c == ' ' || c == '\U{0085}' || c == '\U{00A0}'
    || c == '\U{1680}' || ('\U{2000}' <= c <= '\U{200A}') || c == '\U{2028}'
    || c == '\U{2029}' || c == '\U{202F}' || c == '\U{205F}' || c == '\U{3000}'
  }

  /** The two whitespace classes trimming is done with. */
  datatype Spaces = JsSpaces | PySpaces

  /** Membership in a whitespace class. */
  predicate IsSpace(k: Spaces, c: char) {
    match k
    case JsSpaces => IsJsSpace(c)
    case PySpaces => IsPySpace(c)
  }

  /** Drops the leading characters of class `k`. */
  function TrimStart(k: Spaces, s: string): (r: string)
    ensures |r| <= |s|
    ensures forall i :: 0 <= i < |s| - |r| ==> IsSpace(k, s[i])
    ensures r == [] || !IsSpace(k, r[0])
    decreases |s|
  {
    if |s| > 0 && IsSpace(k, s[0]) then TrimStart(k, s[1..]) else s
  }

  /** Drops the trailing characters of class `k`. */
  function TrimEnd(k: Spaces, s: string): (r: string)
    ensures |r| <= |s|
    ensures forall i :: |r| <= i < |s| ==> IsSpace(k, s[i])
    ensures r == [] || !IsSpace(k, r[|r| - 1])
    ensures r == [] || r[0] == s[0]
    decreases |s|
  {
    if |s| > 0 && IsSpace(k, s[|s| - 1]) then TrimEnd(k, s[..|s| - 1]) else s
  }

  /** Both ends: JavaScript `trim()` with JsSpaces, Python `strip()` with PySpaces. */
  function Trim(k: Spaces, s: string): (r: string)
    ensures r == [] || (!IsSpace(k, r[0]) && !IsSpace(k, r[|r| - 1]))
  {
    TrimEnd(k, TrimStart(k, s))
  }

  function JsTrim(s: string): string { Trim(JsSpaces, s) }

  function PyStrip(s: string): string { Trim(PySpaces, s) }

  /** TrimStart leaves a suffix of its input. */
  lemma {:induction false} TrimStartIsSuffix(k: Spaces, s: string)
    ensures TrimStart(k, s) == s[|s| - |TrimStart(k, s)|..]
    decreases |s|
  {
    if |s| > 0 && IsSpace(k, s[0]) {
      TrimStartIsSuffix(k, s[1..]);
      assert s[1..][|s| - 1 - |TrimStart(k, s[1..])|..] == s[|s| - |TrimStart(k, s)|..];
    }
  }

  /** TrimEnd leaves a prefix of its input. */
  lemma {:induction false} TrimEndIsPrefix(k: Spaces, s: string)
    ensures TrimEnd(k, s) == s[..|TrimEnd(k, s)|]
    decreases |s|
  {
    if |s| > 0 && IsSpace(k, s[|s| - 1]) {
      TrimEndIsPrefix(k, s[..|s| - 1]);
      assert s[..|s| - 1][..|TrimEnd(k, s)|] == s[..|TrimEnd(k, s)|];
    }
  }

  /** Trimming a string whose every character is whitespace gives "", and the converse. */
  lemma TrimEmptyIffAllSpace(k: Spaces, s: string)
    ensures Trim(k, s) == [] <==> forall c :: c in s ==> IsSpace(k, c)
  {
    var t := TrimStart(k, s);
    var n := |s| - |t|;
    TrimStartIsSuffix(k, s);
    assert t == s[n..];
    if Trim(k, s) == [] {
      forall c | c in s ensures IsSpace(k, c) {
        var i :| 0 <= i < |s| && s[i] == c;
        if i >= n {
          assert t[i - n] == s[i];
        }
      }
    }
  }

  // ---------------------------------------------------------------------
  // Character removal, splitting and joining
  // ---------------------------------------------------------------------

  /** `s` without the characters that satisfy `drop`, order kept. */
  function RemoveAll(s: string, drop: char -> bool): (r: string)
    ensures |r| <= |s|
    ensures forall i :: 0 <= i < |r| ==> !drop(r[i])
    decreases |s|
  {
    if s == [] then []
    else if drop(s[0]) then RemoveAll(s[1..], drop)
    else [s[0]] + RemoveAll(s[1..], drop)
  }

  /**
   * Removal works character by character, in order: on a concatenation it is
   * the removal from each part, a dropped character disappears and any other
   * character is kept.
   */
  lemma {:induction false} RemoveAllAppend(a: string, b: string, drop: char -> bool)
    ensures RemoveAll(a + b, drop) == RemoveAll(a, drop) + RemoveAll(b, drop)
    ensures forall c :: RemoveAll([c], drop) == if drop(c) then [] else [c]
    decreases |a|
  {
    if a != [] {
      assert (a + b)[1..] == a[1..] + b;
      RemoveAllAppend(a[1..], b, drop);
    } else {
      assert a + b == b;
    }
    forall c ensures RemoveAll([c], drop) == if drop(c) then [] else [c] {
      assert [c][1..] == [];
    }
  }

  /** Every character left was in the string. */
  lemma {:induction false} RemoveAllKeeps(s: string, drop: char -> bool)
    ensures forall c :: c in RemoveAll(s, drop) ==> c in s
    decreases |s|
  {
    if s != [] {
      RemoveAllKeeps(s[1..], drop);
      assert forall c :: c in s[1..] ==> c in s;
    }
  }

  /** Removing characters from a string that has none of them changes nothing. */
  lemma {:induction false} RemoveAllNoneDropped(s: string, drop: char -> bool)
    requires forall i :: 0 <= i < |s| ==> !drop(s[i])
    ensures RemoveAll(s, drop) == s
    decreases |s|
  {
    if s != [] {
      RemoveAllNoneDropped(s[1..], drop);
    }
  }

  /** JavaScript `split(sep)` / Python `split(sep)` on a one-character separator. */
  function Split(s: string, sep: char): (parts: seq<string>)
    ensures |parts| >= 1
    ensures forall k :: 0 <= k < |parts| ==> sep !in parts[k]
    decreases |s|
  {
    if s == [] then [""]
    else
      var rest := Split(s[1..], sep);
      if s[0] == sep then [""] + rest else [[s[0]] + rest[0]] + rest[1..]
  }

  /** JavaScript `parts.join(sep)` / Python `sep.join(parts)`. */
  function Join(parts: seq<string>, sep: char): string
    decreases |parts|
  {
    if parts == [] then "" else if |parts| == 1 then parts[0] else parts[0] + [sep] + Join(parts[1..], sep)
  }

  /** Joining the parts with the separator gives back the string that was split. */
  lemma {:induction false} SplitJoin(s: string, sep: char)
    ensures Join(Split(s, sep), sep) == s
    decreases |s|
  {
    if s != [] {
      var rest := Split(s[1..], sep);
      SplitJoin(s[1..], sep);
      if s[0] == sep {
        assert Split(s, sep) == [""] + rest;
        assert ([""] + rest)[1..] == rest;
        assert Join(Split(s, sep), sep) == "" + [sep] + Join(rest, sep);
        assert s == [s[0]] + s[1..];
      } else {
        var parts := [[s[0]] + rest[0]] + rest[1..];
        assert Split(s, sep) == parts;
        assert parts[1..] == rest[1..];
        if |rest| == 1 {
          assert Join(rest, sep) == rest[0];
        } else {
          assert Join(rest, sep) == rest[0] + [sep] + Join(rest[1..], sep);
        }
        assert s == [s[0]] + s[1..];
      }
    }
  }

  function Concat(parts: seq<string>): string
    decreases |parts|
  {
    if parts == [] then "" else parts[0] + Concat(parts[1..])
  }

  /** Concatenating strings that lack a character gives a string that lacks it. */
  lemma {:induction false} ConcatLacks(parts: seq<string>, c: char)
    requires forall k :: 0 <= k < |parts| ==> c !in parts[k]
    ensures c !in Concat(parts)
    decreases |parts|
  {
    if parts != [] {
      ConcatLacks(parts[1..], c);
    }
  }

  /** First character upper-cased, the rest lower-cased (ASCII). */
  function Capitalize(w: string): (r: string)
    ensures |r| == |w|
    ensures |w| > 0 ==> r[0] == UpperChar(w[0])
    ensures forall i :: 1 <= i < |w| ==> r[i] == LowerChar(w[i])
  {
    if w == [] then "" else [UpperChar(w[0])] + Lower(w[1..])
  }

  function CapitalizeAll(parts: seq<string>): (r: seq<string>)
    ensures |r| == |parts| && forall k :: 0 <= k < |parts| ==> r[k] == Capitalize(parts[k])
  {
    seq(|parts|, k requires 0 <= k < |parts| => Capitalize(parts[k]))
  }

  // ---------------------------------------------------------------------
  // Padding and replacement
  // ---------------------------------------------------------------------

  function Repeat(c: char, n: nat): (r: string)
    ensures |r| == n && forall i :: 0 <= i < n ==> r[i] == c
  {
    seq(n, _ => c)
  }

  /** JavaScript `padStart(width, c)`. */
  function PadStart(s: string, width: nat, c: char): (r: string)
    ensures |r| == if |s| >= width then |s| else width
    ensures r[|r| - |s|..] == s
    ensures forall i :: 0 <= i < |r| - |s| ==> r[i] == c
  {
    if |s| >= width then s else Repeat(c, width - |s|) + s
  }

  /** Python `str.replace(pat, rep)`: every non-overlapping occurrence, left to right. */
  function ReplaceAll(s: string, pat: string, rep: string): string
    requires pat != ""
    decreases |s|
  {
    if s == [] then []
    else if StartsWith(s, pat) then rep + ReplaceAll(s[|pat|..], pat, rep)
    else [s[0]] + ReplaceAll(s[1..], pat, rep)
  }

  /** Replacing a substring that does not occur leaves the string unchanged. */
  lemma {:induction false} ReplaceAllAbsent(s: string, pat: string, rep: string)
    requires pat != "" && !Contains(s, pat)
    ensures ReplaceAll(s, pat, rep) == s
    decreases |s|
  {
    if s != [] {
      ReplaceAllAbsent(s[1..], pat, rep);
    }
  }

  /** Prepending characters other than the first of `sub` cannot create an occurrence of `sub`. */
  lemma {:induction false} PrependLacking(pre: string, s: string, sub: string)
    requires |sub| > 0 && sub[0] !in pre && !Contains(s, sub)
    ensures !Contains(pre + s, sub)
    decreases |pre|
  {
    if pre != [] {
      assert pre[0] in pre;
      assert (pre + s)[1..] == pre[1..] + s;
      PrependLacking(pre[1..], s, sub);
      if |sub| <= |pre + s| {
        assert (pre + s)[..|sub|][0] == pre[0];
      }
    } else {
      assert pre + s == s;
    }
  }

  /** A string shorter than `sub` does not contain it. */
  lemma {:induction false} ShorterLacks(s: string, sub: string)
    requires |s| < |sub|
    ensures !Contains(s, sub)
    decreases |s|
  {
    if |s| > 0 {
      ShorterLacks(s[1..], sub);
    }
  }

  /** When the first occurrence of `pat` comes right after `a`, `a` is copied and that occurrence replaced. */
  lemma {:induction false} ReplaceAllFirst(a: string, pat: string, b: string, rep: string)
    requires pat != "" && !Contains(a + pat[..|pat| - 1], pat)
    ensures ReplaceAll(a + pat + b, pat, rep) == a + rep + ReplaceAll(b, pat, rep)
    decreases |a|
  {
    var s := a + pat + b;
    if a == [] {
      assert s == pat + b && s[|pat|..] == b;
      assert StartsWith(s, pat);
    } else {
      var w := a + pat[..|pat| - 1];
      assert s[..|w|] == w;
      assert s[..|pat|] == w[..|pat|];
      assert w[1..] == a[1..] + pat[..|pat| - 1];
      assert s[1..] == a[1..] + pat + b;
      ReplaceAllFirst(a[1..], pat, b, rep);
    }
  }

  /** A single occurrence of `pat`, right after `a`, is the only thing replaced. */
  lemma ReplaceOnce(a: string, pat: string, b: string, rep: string)
    requires pat != "" && !Contains(a + pat[..|pat| - 1], pat) && !Contains(b, pat)
    ensures ReplaceAll(a + pat + b, pat, rep) == a + rep + b
  {
    ReplaceAllFirst(a, pat, b, rep);
    ReplaceAllAbsent(b, pat, rep);
  }

  /** Prepending one character creates no occurrence when the following character cannot continue one. */
  lemma PrependCharLacking(c: char, s: string, sub: string)
    requires |sub| > 1 && |s| > 0 && s[0] != sub[1] && !Contains(s, sub)
    ensures !Contains([c] + s, sub)
  {
    var t := [c] + s;
    assert t[1..] == s;
    if |sub| <= |t| {
      assert t[..|sub|][1] == s[0];
    }
  }
}
