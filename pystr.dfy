/** Python `str` operations used by the modelled code, with the semantics of
    CPython: `str.isspace`, `strip`, `split` with a one-character separator,
    `join`, `rsplit(sep, 1)`, `replace`, `startswith` and `in`. */
module PyStr {
  import opened Wrappers

  /** `str.isspace()` for one character; also the class matched by `\s` in a
      `str` regular expression. */
  predicate IsSpace(c: char)
  {
    c == ' ' || ('\t' <= c <= '\r') || ('\U{1c}' <= c <= '\U{1f}')
    || c == '\U{85}' || c == '\U{a0}' || c == '\U{1680}'
    || ('\U{2000}' <= c <= '\U{200a}') || c == '\U{2028}' || c == '\U{2029}'
    || c == '\U{202f}' || c == '\U{205f}' || c == '\U{3000}'
  }

  predicate AllSpace(s: string)
  {
    forall i :: 0 <= i < |s| ==> IsSpace(s[i])
  }

  /** `s.lstrip()` */
  function StripLeft(s: string): (r: string)
    ensures |r| <= |s| && (r == [] || !IsSpace(r[0]))
  {
    if |s| > 0 && IsSpace(s[0]) then StripLeft(s[1..]) else s
  }

  /** `s.rstrip()` */
  function StripRight(s: string): (r: string)
    ensures |r| <= |s| && (r == [] || !IsSpace(r[|r| - 1]))
  {
    if |s| > 0 && IsSpace(s[|s| - 1]) then StripRight(s[..|s| - 1]) else s
  }

  /** `s.strip()` */
  function Strip(s: string): (r: string)
    ensures |r| <= |s| && (r == [] || (!IsSpace(r[0]) && !IsSpace(r[|r| - 1])))
  {
    var l := StripLeft(s);
    StripRightIsPrefix(l);
    StripRight(l)
  }

  /** `lstrip` removes exactly the leading whitespace. */
  lemma {:induction false} StripLeftIsSuffix(s: string)
    ensures StripLeft(s) == s[|s| - |StripLeft(s)|..]
    ensures AllSpace(s[..|s| - |StripLeft(s)|])
    decreases |s|
  {
    if |s| > 0 && IsSpace(s[0]) {
      StripLeftIsSuffix(s[1..]);
      assert s[1..][|s[1..]| - |StripLeft(s)|..] == s[|s| - |StripLeft(s)|..];
      assert s[..|s| - |StripLeft(s)|] == [s[0]] + s[1..][..|s[1..]| - |StripLeft(s)|];
    }
  }

  /** `rstrip` removes exactly the trailing whitespace. */
  lemma {:induction false} StripRightIsPrefix(s: string)
    ensures StripRight(s) == s[..|StripRight(s)|]
    ensures AllSpace(s[|StripRight(s)|..])
    decreases |s|
  {
    if |s| > 0 && IsSpace(s[|s| - 1]) {
      var f := s[..|s| - 1];
      StripRightIsPrefix(f);
      assert f[..|StripRight(s)|] == s[..|StripRight(s)|];
      assert s[|StripRight(s)|..] == f[|StripRight(s)|..] + [s[|s| - 1]];
    }
  }

  /** `strip` keeps the infix between the leading and the trailing
      whitespace. */
  lemma StripIsInfix(s: string)
    ensures |s| - |StripLeft(s)| + |Strip(s)| <= |s|
    ensures Strip(s) == s[|s| - |StripLeft(s)|..|s| - |StripLeft(s)| + |Strip(s)|]
    ensures AllSpace(s[..|s| - |StripLeft(s)|]) && AllSpace(s[|s| - |StripLeft(s)| + |Strip(s)|..])
  {
    StripLeftIsSuffix(s);
    StripRightIsPrefix(StripLeft(s));
    InfixOfSuffix(s, StripLeft(s), Strip(s));
  }

  lemma InfixOfSuffix(s: string, l: string, m: string)
    requires |l| <= |s| && l == s[|s| - |l|..]
    requires |m| <= |l| && m == l[..|m|] && AllSpace(l[|m|..])
    ensures m == s[|s| - |l|..|s| - |l| + |m|] && AllSpace(s[|s| - |l| + |m|..])
  {
    var a := |s| - |l|;
    assert l[..|m|] == s[a..a + |m|];
    assert l[|m|..] == s[a + |m|..];
  }

  lemma {:induction false} StripOfAllSpace(s: string)
    requires AllSpace(s)
    ensures StripLeft(s) == [] && Strip(s) == []
    decreases |s|
  {
    if |s| > 0 {
      StripOfAllSpace(s[1..]);
    }
  }

  /** A string with no whitespace at either end is its own strip. */
  lemma StripUnpadded(t: string)
    requires t == [] || (!IsSpace(t[0]) && !IsSpace(t[|t| - 1]))
    ensures StripLeft(t) == t && StripRight(t) == t && Strip(t) == t
  {
    assert StripLeft(t) == t;
    assert StripRight(t) == t;
  }

  /** `prefix in` position 0 of `s`: `s.startswith(prefix)`. */
  predicate StartsWith(s: string, prefix: string)
  {
    |prefix| <= |s| && s[..|prefix|] == prefix
  }

  /** `s.endswith(suffix)` */
  predicate EndsWith(s: string, suffix: string)
  {
    |suffix| <= |s| && s[|s| - |suffix|..] == suffix
  }

  /** `needle in hay` for strings. */
  predicate Contains(hay: string, needle: string)
    decreases |hay|
  {
    StartsWith(hay, needle) || (|hay| > 0 && Contains(hay[1..], needle))
  }

  /** A string contains whatever is written in its middle. */
  lemma {:induction false} ContainsInfix(a: string, b: string, c: string)
    ensures Contains(a + b + c, b)
    decreases |a|
  {
    if |a| == 0 {
      assert a + b + c == b + c;
      assert (b + c)[..|b|] == b;
    } else {
      assert (a + b + c)[1..] == a[1..] + b + c;
      ContainsInfix(a[1..], b, c);
    }
  }

  /** What a string contains, a longer string around it contains too. */
  lemma ContainsWithin(a: string, h: string, c: string, n: string)
    requires Contains(h, n)
    ensures Contains(a + h + c, n)
  {
    ContainsAppend(h, c, n);
    ContainsPrepend(a, h + c, n);
    assert a + h + c == a + (h + c);
  }

  lemma {:induction false} ContainsAppend(h: string, c: string, n: string)
    requires Contains(h, n)
    ensures Contains(h + c, n)
    decreases |h|
  {
    if StartsWith(h, n) {
      assert (h + c)[..|n|] == h[..|n|];
    } else {
      ContainsAppend(h[1..], c, n);
      assert (h + c)[1..] == h[1..] + c;
    }
  }

  lemma {:induction false} ContainsPrepend(a: string, h: string, n: string)
    requires Contains(h, n)
    ensures Contains(a + h, n)
    decreases |a|
  {
    if |a| == 0 {
      assert a + h == h;
    } else {
      ContainsPrepend(a[1..], h, n);
      assert (a + h)[1..] == a[1..] + h;
    }
  }

  /** Containment is transitive. */
  lemma {:induction false} ContainsTransitive(a: string, b: string, c: string)
    requires Contains(a, b) && Contains(b, c)
    ensures Contains(a, c)
    decreases |a|
  {
    if StartsWith(a, b) {
      ContainsAppend(b, a[|b|..], c);
      assert a == b + a[|b|..];
    } else {
      ContainsTransitive(a[1..], b, c);
    }
  }

  /** A joined string contains each of its parts. */
  lemma {:induction false} JoinContains(parts: seq<string>, sep: string, k: nat)
    requires k < |parts|
    ensures Contains(Join(parts, sep), parts[k])
  {
    if |parts| == 1 {
      ContainsInfix("", parts[0], "");
      assert "" + parts[0] + "" == parts[0];
    } else if k == 0 {
      ContainsInfix("", parts[0], sep + Join(parts[1..], sep));
      assert "" + parts[0] + (sep + Join(parts[1..], sep)) == Join(parts, sep);
    } else {
      JoinContains(parts[1..], sep, k - 1);
      ContainsWithin(parts[0] + sep, Join(parts[1..], sep), "", parts[k]);
      assert parts[0] + sep + Join(parts[1..], sep) + "" == Join(parts, sep);
    }
  }

  /** The first index of `c` in `s`, if any. */
  function Find(s: string, c: char): (r: Option<nat>)
    ensures r.None? <==> c !in s
    ensures r.Some? ==> r.value < |s| && s[r.value] == c && c !in s[..r.value]
  {
    if |s| == 0 then None
    else if s[0] == c then Some(0)
    else match Find(s[1..], c)
      case None => None
      case Some(i) => assert s[1..][..i] == s[1..i + 1]; Some(i + 1)
  }

  /** The last index of `c` in `s`, if any. */
  function RFind(s: string, c: char): (r: Option<nat>)
    ensures r.None? <==> c !in s
    ensures r.Some? ==> r.value < |s| && s[r.value] == c && c !in s[r.value + 1..]
  {
    if |s| == 0 then None
    else if s[|s| - 1] == c then Some(|s| - 1)
    else
      var r := RFind(s[..|s| - 1], c);
      if r.Some? then assert s[r.value + 1..] == s[..|s| - 1][r.value + 1..] + [s[|s| - 1]]; r
      else r
  }

  /** `s.split(sep)` for a one-character separator. */
  function Split(s: string, sep: char): (r: seq<string>)
    ensures |r| >= 1
    ensures forall i :: 0 <= i < |r| ==> sep !in r[i]
    decreases |s|
  {
    match Find(s, sep)
    case None => [s]
    case Some(i) => [s[..i]] + Split(s[i + 1..], sep)
  }

  /** `sep.join(parts)` */
  function Join(parts: seq<string>, sep: string): string
  {
    if |parts| == 0 then ""
    else if |parts| == 1 then parts[0]
    else parts[0] + sep + Join(parts[1..], sep)
  }

  lemma {:induction false} JoinSplit(s: string, sep: char)
    ensures Join(Split(s, sep), [sep]) == s
    decreases |s|
  {
    match Find(s, sep)
    case None =>
    case Some(i) =>
      var rest := Split(s[i + 1..], sep);
      JoinSplit(s[i + 1..], sep);
      assert ([s[..i]] + rest)[1..] == rest;
      assert Join([s[..i]] + rest, [sep]) == s[..i] + [sep] + Join(rest, [sep]);
      assert s == s[..i] + [sep] + s[i + 1..];
  }

  lemma {:induction false} SplitJoin(parts: seq<string>, sep: char)
    requires |parts| >= 1
    requires forall i :: 0 <= i < |parts| ==> sep !in parts[i]
    ensures Split(Join(parts, [sep]), sep) == parts
  {
    if |parts| > 1 {
      var tail := Join(parts[1..], [sep]);
      SplitJoin(parts[1..], sep);
      SplitCons(parts[0], tail, sep);
      assert parts == [parts[0]] + parts[1..];
    }
  }

  lemma SplitCons(a: string, t: string, sep: char)
    requires sep !in a
    ensures Split(a + [sep] + t, sep) == [a] + Split(t, sep)
  {
    var s := a + [sep] + t;
    FindAt(a, [sep] + t, sep);
    assert s[..|a|] == a;
    assert s[|a| + 1..] == t;
  }

  lemma {:induction false} FindAt(a: string, b: string, c: char)
    requires c !in a && |b| > 0 && b[0] == c
    ensures Find(a + b, c) == Some(|a|)
    decreases |a|
  {
    if |a| > 0 {
      assert (a + b)[1..] == a[1..] + b;
      FindAt(a[1..], b, c);
    }
  }

  /** `s.rsplit(sep, 1)` when `sep in s`: the parts before and after the last
      occurrence. */
  function RSplitOnce(s: string, sep: char): (r: (string, string))
    requires sep in s
    ensures r.0 + [sep] + r.1 == s && sep !in r.1
  {
    var i := RFind(s, sep).value;
    assert s == s[..i] + [sep] + s[i + 1..];
    (s[..i], s[i + 1..])
  }

  /** `s.split(sep, 1)` when `sep in s`: the parts before and after the first
      occurrence. */
  function SplitOnce(s: string, sep: char): (r: (string, string))
    requires sep in s
    ensures r.0 + [sep] + r.1 == s && sep !in r.0
  {
    var i := Find(s, sep).value;
    assert s == s[..i] + [sep] + s[i + 1..];
    (s[..i], s[i + 1..])
  }

  /** `rsplit` undoes joining at a separator the right part lacks. */
  lemma RSplitOnceOf(a: string, b: string, sep: char)
    requires sep !in b
    ensures RSplitOnce(a + [sep] + b, sep) == (a, b)
  {
    var s := a + [sep] + b;
    assert s[|a|] == sep;
    var i := RFind(s, sep).value;
    assert forall j :: |a| < j < |s| ==> s[j] == b[j - |a| - 1];
    assert s[..|a|] == a && s[|a| + 1..] == b;
  }

  /** `split(sep, 1)` undoes joining at a separator the left part lacks. */
  lemma SplitOnceOf(a: string, b: string, sep: char)
    requires sep !in a
    ensures SplitOnce(a + [sep] + b, sep) == (a, b)
  {
    var s := a + [sep] + b;
    FindAt(a, [sep] + b, sep);
    assert s == a + ([sep] + b);
    assert s[..|a|] == a && s[|a| + 1..] == b;
  }

  /** `s.replace(pat, repl)`: leftmost, non-overlapping occurrences. */
  function Replace(s: string, pat: string, repl: string): (r: string)
    requires |pat| > 0
    decreases |s|
  {
    if |s| < |pat| then s
    else if s[..|pat|] == pat then repl + Replace(s[|pat|..], pat, repl)
    else [s[0]] + Replace(s[1..], pat, repl)
  }

  lemma {:induction false} ReplaceAbsent(s: string, pat: string, repl: string)
    requires |pat| > 0 && !Contains(s, pat)
    ensures Replace(s, pat, repl) == s
    decreases |s|
  {
    if |s| >= |pat| {
      ReplaceAbsent(s[1..], pat, repl);
    }
  }

  /** A text that does not start with the pattern keeps its first
      character. */
  lemma ReplaceCons(s: string, pat: string, repl: string)
    requires |pat| > 0 && |s| > 0 && !StartsWith(s, pat)
    ensures Replace(s, pat, repl) == [s[0]] + Replace(s[1..], pat, repl)
  {
    if |s| < |pat| {
      assert s == [s[0]] + s[1..];
    }
  }

  /** An occurrence at the start is replaced. */
  lemma ReplaceAtStart(pat: string, rest: string, repl: string)
    requires |pat| > 0
    ensures Replace(pat + rest, pat, repl) == repl + Replace(rest, pat, repl)
  {
    var s := pat + rest;
    assert s[..|pat|] == pat && s[|pat|..] == rest;
  }

  /** A prefix none of whose characters starts the pattern is copied. */
  lemma {:induction false} ReplacePlain(p: string, t: string, pat: string, repl: string)
    requires |pat| > 0 && pat[0] !in p
    ensures Replace(p + t, pat, repl) == p + Replace(t, pat, repl)
    decreases |p|
  {
    if |p| > 0 {
      var s := p + t;
      assert s[0] == p[0] && s[1..] == p[1..] + t;
      ReplaceCons(s, pat, repl);
      ReplacePlain(p[1..], t, pat, repl);
      assert p == [p[0]] + p[1..];
    } else {
      assert p + t == t;
    }
  }

  /** `str.upper()` / `str.lower()` restricted to ASCII letters. */
  function UpperChar(c: char): char
  {
    if 'a' <= c <= 'z' then (c as int - 32) as char else c
  }

  function LowerChar(c: char): char
  {
    if 'A' <= c <= 'Z' then (c as int + 32) as char else c
  }

  function Upper(s: string): (r: string)
    ensures |r| == |s| && forall i :: 0 <= i < |s| ==> r[i] == UpperChar(s[i])
  {
    if |s| == 0 then "" else [UpperChar(s[0])] + Upper(s[1..])
  }

  function Lower(s: string): (r: string)
    ensures |r| == |s| && forall i :: 0 <= i < |s| ==> r[i] == LowerChar(s[i])
  {
    if |s| == 0 then "" else [LowerChar(s[0])] + Lower(s[1..])
  }

  /** Python's `str.isdigit()` on ASCII digits: true for a non-empty string of
      digits only. */
  predicate IsDigits(s: string)
  {
    |s| > 0 && forall i :: 0 <= i < |s| ==> '0' <= s[i] <= '9'
  }

  /** The decimal value of a string of ASCII digits. */
  function DigitsValue(s: string): nat
    requires forall i :: 0 <= i < |s| ==> '0' <= s[i] <= '9'
  {
    if |s| == 0 then 0 else DigitsValue(s[..|s| - 1]) * 10 + (s[|s| - 1] as int - '0' as int)
  }

  /** The decimal digits of `n`, without leading zeros ("0" for zero). */
  function NatToString(n: nat): (r: string)
    ensures IsDigits(r) && DigitsValue(r) == n
    ensures |r| > 1 ==> r[0] != '0'
  {
    if n < 10 then [('0' as int + n) as char]
    else
      var r := NatToString(n / 10) + [('0' as int + n % 10) as char];
      assert r[..|r| - 1] == NatToString(n / 10);
      r
  }

  /** Python's `str(n)` for an integer. */
  function IntToString(n: int): string
  {
    if n < 0 then "-" + NatToString(-n) else NatToString(n)
  }

  /** No character of `s` is whitespace. */
  predicate NoSpace(s: string)
  {
    forall i :: 0 <= i < |s| ==> !IsSpace(s[i])
  }

  /** The index of the first whitespace character of `s`, if any. */
  function FindSpace(s: string): Option<nat>
  {
    if |s| == 0 then None
    else if IsSpace(s[0]) then Some(0)
    else match FindSpace(s[1..])
      case None => None
      case Some(i) => Some(i + 1)
  }

  /** `FindSpace` finds the first whitespace character, or reports there is none. */
  lemma {:induction false} FindSpaceFacts(s: string)
    ensures FindSpace(s).None? ==> NoSpace(s)
    ensures FindSpace(s).Some? ==> FindSpace(s).value < |s| && IsSpace(s[FindSpace(s).value]) && NoSpace(s[..FindSpace(s).value])
  {
    if |s| > 0 && !IsSpace(s[0]) {
      FindSpaceFacts(s[1..]);
      if FindSpace(s[1..]).Some? {
        var i := FindSpace(s[1..]).value;
        assert s[..i + 1] == [s[0]] + s[1..][..i];
      }
    }
  }

  /** `re.split(r'\s+', s)`: the pieces between maximal runs of whitespace;
      leading or trailing whitespace gives an empty first or last piece. */
  function SplitOnWhitespace(s: string): seq<string>
    decreases |s|
  {
    FindSpaceFacts(s);
    match FindSpace(s)
    case None => [s]
    case Some(i) =>
      var rest := StripLeft(s[i..]);
      assert |rest| < |s[i..]|;
      [s[..i]] + SplitOnWhitespace(rest)
  }

  /** The split has at least one piece, no piece holds whitespace, and a
      string without whitespace is its own only piece. */
  lemma {:induction false} SplitOnWhitespaceFacts(s: string)
    ensures |SplitOnWhitespace(s)| >= 1
    ensures forall i :: 0 <= i < |SplitOnWhitespace(s)| ==> NoSpace(SplitOnWhitespace(s)[i])
    ensures NoSpace(s) ==> SplitOnWhitespace(s) == [s]
    decreases |s|
  {
    FindSpaceFacts(s);
    match FindSpace(s)
    case None =>
    case Some(i) =>
      var rest := StripLeft(s[i..]);
      assert |rest| < |s[i..]|;
      SplitOnWhitespaceFacts(rest);
      assert !NoSpace(s);
  }

  /** The pieces of the split hold exactly the non-whitespace characters of
      `s`, in order. */
  lemma {:induction false} SplitOnWhitespaceConcat(s: string)
    ensures Concat(SplitOnWhitespace(s)) == RemoveWhitespace(s)
    decreases |s|
  {
    FindSpaceFacts(s);
    match FindSpace(s)
    case None =>
      RemoveWhitespaceNoSpace(s);
    case Some(i) =>
      var rest := StripLeft(s[i..]);
      assert |rest| < |s[i..]|;
      SplitOnWhitespaceConcat(rest);
      var r := SplitOnWhitespace(rest);
      assert SplitOnWhitespace(s) == [s[..i]] + r;
      assert ([s[..i]] + r)[1..] == r;
      assert s == s[..i] + s[i..];
      RemoveWhitespaceAppend(s[..i], s[i..]);
      RemoveWhitespaceNoSpace(s[..i]);
      RemoveWhitespaceStripLeft(s[i..]);
  }

  lemma RemoveWhitespaceStripLeft(t: string)
    ensures RemoveWhitespace(t) == RemoveWhitespace(StripLeft(t))
  {
    var rest := StripLeft(t);
    var k := |t| - |rest|;
    StripLeftIsSuffix(t);
    assert t == t[..k] + rest;
    RemoveWhitespaceAppend(t[..k], rest);
    RemoveWhitespaceAllSpace(t[..k]);
  }

  function Concat(parts: seq<string>): string
  {
    if |parts| == 0 then "" else parts[0] + Concat(parts[1..])
  }

  /** `s` with its whitespace characters deleted. */
  function RemoveWhitespace(s: string): string
  {
    if |s| == 0 then "" else (if IsSpace(s[0]) then "" else [s[0]]) + RemoveWhitespace(s[1..])
  }

  lemma {:induction false} RemoveWhitespaceAppend(a: string, b: string)
    ensures RemoveWhitespace(a + b) == RemoveWhitespace(a) + RemoveWhitespace(b)
  {
    if |a| > 0 {
      assert (a + b)[1..] == a[1..] + b;
      RemoveWhitespaceAppend(a[1..], b);
    } else {
      assert a + b == b;
    }
  }

  lemma {:induction false} RemoveWhitespaceNoSpace(s: string)
    requires NoSpace(s)
    ensures RemoveWhitespace(s) == s
  {
    if |s| > 0 { RemoveWhitespaceNoSpace(s[1..]); }
  }

  lemma {:induction false} RemoveWhitespaceAllSpace(s: string)
    requires AllSpace(s)
    ensures RemoveWhitespace(s) == ""
  {
    if |s| > 0 { RemoveWhitespaceAllSpace(s[1..]); }
  }

  // ---------------------------------------------------------------------
  // pathlib

  /** `Path(name).suffix`: from the last '.' on, unless that '.' is the first
      or the last character. */
  function Suffix(name: string): string
  {
    match RFind(name, '.')
    case None => ""
    case Some(i) =>
      if 0 < i < |name| - 1 then name[i..] else ""
  }

  /** `Path(name).stem`: the name without its suffix. */
  function Stem(name: string): string
  {
    name[..|name| - |Suffix(name)|]
  }
}
