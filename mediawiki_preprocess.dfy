/** The string preprocessors the JPS 1917 MediaWiki processor runs over a
    page's wikitext before parsing it: the line break after `</noinclude>`,
    paragraph indicators, whitespace normalisation and the escaping of bare
    ampersands. Each regular expression is written out as the left-to-right
    scan that `re.sub` (or `re.split`) performs. */
module MediaWikiPreprocess {
  import opened Wrappers
  import PyStr

  // ---------------------------------------------------------------------
  // `_fix_noinclude_line_breaks`

  const NoincludeClose := "<" + NoincludeTail
  const NoincludeTail := "/noinclude>"

  lemma TailFacts()
    ensures |NoincludeTail| == 11 && |NoincludeClose| == 12 && '<' !in NoincludeTail
  {
  }

  /** The length of the whitespace run that starts `s`: what `\s*` takes. */
  function SpaceRun(s: string): (n: nat)
    ensures n <= |s| && PyStr.AllSpace(s[..n]) && (n < |s| ==> !PyStr.IsSpace(s[n]))
  {
    if |s| > 0 && PyStr.IsSpace(s[0]) then
      var n := 1 + SpaceRun(s[1..]);
      assert s[..n] == [s[0]] + s[1..][..n - 1];
      n
    else 0
  }

  /** `re.sub(r'(</noinclude>)\s*(\S)', r'\1\n\2', s)`: scanning from the
      left, a `</noinclude>` followed by whitespace and then a non-space
      character becomes the tag, one newline and that character; a tag with
      only whitespace after it is no match. */
  function FixNoincludeLineBreaks(s: string): string
    decreases |s|
  {
    if |s| == 0 then ""
    else if PyStr.StartsWith(s, NoincludeClose) && 12 + SpaceRun(s[12..]) < |s| then
      var k := 12 + SpaceRun(s[12..]);
      NoincludeClose + "\n" + [s[k]] + FixNoincludeLineBreaks(s[k + 1..])
    else [s[0]] + FixNoincludeLineBreaks(s[1..])
  }

  lemma SpaceRunOf(ws: string, t: string)
    requires PyStr.AllSpace(ws) && (t == [] || !PyStr.IsSpace(t[0]))
    ensures SpaceRun(ws + t) == |ws|
    decreases |ws|
  {
    if |ws| > 0 {
      assert (ws + t)[1..] == ws[1..] + t;
      SpaceRunOf(ws[1..], t);
    }
  }

  /** A tag followed by whitespace and a non-space character is followed by
      exactly one newline and that character afterwards. */
  lemma FixNoincludeAt(ws: string, c: char, rest: string)
    requires PyStr.AllSpace(ws) && !PyStr.IsSpace(c)
    ensures FixNoincludeLineBreaks(NoincludeClose + ws + [c] + rest)
      == NoincludeClose + "\n" + [c] + FixNoincludeLineBreaks(rest)
  {
    var s := NoincludeClose + ws + [c] + rest;
    assert s[..12] == NoincludeClose;
    assert s[12..] == ws + ([c] + rest);
    SpaceRunOf(ws, [c] + rest);
    assert s[12 + |ws|] == c;
    assert s[12 + |ws| + 1..] == rest;
  }

  /** A tag with only whitespace after it, to the end of the text, is left
      as it is. */
  lemma FixNoincludeAtEnd(ws: string)
    requires PyStr.AllSpace(ws)
    ensures FixNoincludeLineBreaks(NoincludeClose + ws) == NoincludeClose + ws
  {
    TailFacts();
    var s := NoincludeClose + ws;
    assert s[12..] == ws + [];
    SpaceRunOf(ws, []);
    assert s[1..] == NoincludeTail + ws;
    FixPlain(NoincludeTail, ws);
    FixPlain(ws, []);
    assert ws + [] == ws;
  }

  /** Text without a `<` is copied. */
  lemma {:induction false} FixPlain(p: string, t: string)
    requires '<' !in p
    ensures FixNoincludeLineBreaks(p + t) == p + FixNoincludeLineBreaks(t)
    decreases |p|
  {
    if |p| > 0 {
      assert p[0] != '<';
      assert (p + t)[1..] == p[1..] + t;
      FixPlain(p[1..], t);
      assert p == [p[0]] + p[1..];
    } else {
      assert p + t == t;
    }
  }

  /** Text without a `</noinclude>` is left as it is. */
  lemma {:induction false} FixNoincludeAbsent(s: string)
    requires !PyStr.Contains(s, NoincludeClose)
    ensures FixNoincludeLineBreaks(s) == s
    decreases |s|
  {
    if |s| > 0 {
      FixNoincludeAbsent(s[1..]);
    }
  }

  lemma FixHead(u: string)
    requires |u| > 0
    ensures |FixNoincludeLineBreaks(u)| > 0 && FixNoincludeLineBreaks(u)[0] == u[0]
  {
  }

  /** The rewrite starts with a `<`-free prefix exactly when the text does. */
  lemma {:induction false} FixStartsLike(u: string, p: string)
    requires '<' !in p
    ensures PyStr.StartsWith(FixNoincludeLineBreaks(u), p) <==> PyStr.StartsWith(u, p)
    decreases |p|
  {
    if |p| > 0 && |u| > 0 {
      FixHead(u);
      assert p[0] != '<';
      if u[0] != '<' {
        assert !PyStr.StartsWith(u, NoincludeClose);
        FixStartsLike(u[1..], p[1..]);
        var v := FixNoincludeLineBreaks(u[1..]);
        assert FixNoincludeLineBreaks(u) == [u[0]] + v;
        assert PyStr.StartsWith([u[0]] + v, p) <==> u[0] == p[0] && PyStr.StartsWith(v, p[1..]) by {
          if |p| <= |v| + 1 {
            assert ([u[0]] + v)[..|p|] == [u[0]] + v[..|p| - 1];
          }
        }
        assert PyStr.StartsWith(u, p) <==> u[0] == p[0] && PyStr.StartsWith(u[1..], p[1..]) by {
          if |p| <= |u| {
            assert u[..|p|] == [u[0]] + u[1..][..|p| - 1];
          }
        }
      }
    }
  }

  lemma StartsWithClose(s: string)
    ensures PyStr.StartsWith(s, NoincludeClose) <==> |s| > 0 && s[0] == '<' && PyStr.StartsWith(s[1..], NoincludeTail)
  {
    TailFacts();
    if |s| >= 12 {
      assert s[..12] == [s[0]] + s[1..][..11];
    }
  }

  /** Rewriting twice is rewriting once. */
  lemma {:induction false} FixNoincludeIdempotent(s: string)
    ensures FixNoincludeLineBreaks(FixNoincludeLineBreaks(s)) == FixNoincludeLineBreaks(s)
    decreases |s|
  {
    var r := FixNoincludeLineBreaks(s);
    if |s| == 0 {
    } else if PyStr.StartsWith(s, NoincludeClose) && 12 + SpaceRun(s[12..]) < |s| {
      var k := 12 + SpaceRun(s[12..]);
      var rest := s[k + 1..];
      FixNoincludeIdempotent(rest);
      FixNoincludeAt("\n", s[k], FixNoincludeLineBreaks(rest));
      assert NoincludeClose + "\n" + [s[k]] + FixNoincludeLineBreaks(rest) == r;
    } else if PyStr.StartsWith(s, NoincludeClose) {
      var ws := s[12..];
      assert PyStr.AllSpace(ws) by {
        assert ws[..SpaceRun(ws)] == ws;
      }
      assert s == NoincludeClose + ws;
      FixNoincludeAtEnd(ws);
    } else {
      var v := FixNoincludeLineBreaks(s[1..]);
      FixNoincludeIdempotent(s[1..]);
      assert r == [s[0]] + v;
      StartsWithClose(s);
      StartsWithClose(r);
      if s[0] == '<' {
        TailFacts();
        FixStartsLike(s[1..], NoincludeTail);
        assert r[1..] == v;
      }
      assert !PyStr.StartsWith(r, NoincludeClose);
      assert r[1..] == v;
    }
  }

  /** Only whitespace changes: the text without its whitespace is kept. */
  lemma {:induction false} FixNoincludeKeepsText(s: string)
    ensures PyStr.RemoveWhitespace(FixNoincludeLineBreaks(s)) == PyStr.RemoveWhitespace(s)
    decreases |s|
  {
    if |s| == 0 {
    } else if PyStr.StartsWith(s, NoincludeClose) && 12 + SpaceRun(s[12..]) < |s| {
      FixNoincludeKeepsText(s[12 + SpaceRun(s[12..]) + 1..]);
      CloseKeepsText(s);
    } else {
      FixNoincludeKeepsText(s[1..]);
      PlainKeepsText(s);
    }
  }

  /** The step of `FixNoincludeKeepsText` at a closing tag followed by
      whitespace and more text. */
  lemma CloseKeepsText(s: string)
    requires PyStr.StartsWith(s, NoincludeClose) && 12 + SpaceRun(s[12..]) < |s|
    requires var rest := s[12 + SpaceRun(s[12..]) + 1..];
      PyStr.RemoveWhitespace(FixNoincludeLineBreaks(rest)) == PyStr.RemoveWhitespace(rest)
    ensures PyStr.RemoveWhitespace(FixNoincludeLineBreaks(s)) == PyStr.RemoveWhitespace(s)
  {
    var k := 12 + SpaceRun(s[12..]);
    var ws := s[12..k];
    var rest := s[k + 1..];
    assert ws == s[12..][..SpaceRun(s[12..])];
    assert s == NoincludeClose + ws + [s[k]] + rest;
    FixNoincludeAt(ws, s[k], rest);
    KeepsTextStep(NoincludeClose, ws, s[k], rest, FixNoincludeLineBreaks(rest));
  }

  /** The step of `FixNoincludeKeepsText` anywhere else. */
  lemma PlainKeepsText(s: string)
    requires |s| > 0 && !(PyStr.StartsWith(s, NoincludeClose) && 12 + SpaceRun(s[12..]) < |s|)
    requires PyStr.RemoveWhitespace(FixNoincludeLineBreaks(s[1..])) == PyStr.RemoveWhitespace(s[1..])
    ensures PyStr.RemoveWhitespace(FixNoincludeLineBreaks(s)) == PyStr.RemoveWhitespace(s)
  {
    FixCons(s);
    ConsKeepsText(s, FixNoincludeLineBreaks(s[1..]));
  }

  /** Away from a closing tag followed by a non-space character, the first
      character is copied. */
  lemma FixCons(s: string)
    requires |s| > 0 && !(PyStr.StartsWith(s, NoincludeClose) && 12 + SpaceRun(s[12..]) < |s|)
    ensures FixNoincludeLineBreaks(s) == [s[0]] + FixNoincludeLineBreaks(s[1..])
  {
  }

  lemma ConsKeepsText(s: string, v: string)
    requires |s| > 0 && PyStr.RemoveWhitespace(v) == PyStr.RemoveWhitespace(s[1..])
    ensures PyStr.RemoveWhitespace([s[0]] + v) == PyStr.RemoveWhitespace(s)
  {
    PyStr.RemoveWhitespaceAppend([s[0]], v);
  }

  /** Replacing a run of whitespace after a prefix `t` by one newline
      keeps the text without its whitespace. */
  lemma KeepsTextStep(t: string, ws: string, c: char, rest: string, fr: string)
    requires PyStr.AllSpace(ws) && PyStr.RemoveWhitespace(fr) == PyStr.RemoveWhitespace(rest)
    ensures PyStr.RemoveWhitespace(t + "\n" + [c] + fr) == PyStr.RemoveWhitespace(t + ws + [c] + rest)
  {
    var tc := PyStr.RemoveWhitespace(t) + PyStr.RemoveWhitespace([c]);
    PyStr.RemoveWhitespaceAppend(t + ws + [c], rest);
    PyStr.RemoveWhitespaceAppend(t + ws, [c]);
    PyStr.RemoveWhitespaceAppend(t, ws);
    PyStr.RemoveWhitespaceAllSpace(ws);
    assert PyStr.RemoveWhitespace(t + ws + [c]) == tc;
    PyStr.RemoveWhitespaceAppend(t + "\n" + [c], fr);
    PyStr.RemoveWhitespaceAppend(t + "\n", [c]);
    PyStr.RemoveWhitespaceAppend(t, "\n");
    PyStr.RemoveWhitespaceAllSpace("\n");
    assert PyStr.RemoveWhitespace(t + "\n" + [c]) == tc;
  }

  // ---------------------------------------------------------------------
  // `_normalize_whitespace`

  /** `re.sub(c + '+', c, s)`: every run of `c` becomes a single `c`. */
  function Collapse(s: string, c: char): string
    decreases |s|
  {
    if |s| <= 1 then s
    else if s[0] == c && s[1] == c then Collapse(s[1..], c)
    else [s[0]] + Collapse(s[1..], c)
  }

  /** No two adjacent characters of `s` are both `c`. */
  predicate NoDouble(s: string, c: char)
  {
    forall i :: 0 <= i < |s| - 1 ==> !(s[i] == c && s[i + 1] == c)
  }

  /** `_normalize_whitespace`: runs of spaces, then runs of newlines, become
      one, and the ends are stripped. */
  function NormalizeWhitespace(s: string): string
  {
    PyStr.Strip(Collapse(Collapse(s, ' '), '\n'))
  }

  lemma {:induction false} CollapseHead(s: string, c: char)
    requires |s| > 0
    ensures |Collapse(s, c)| > 0 && Collapse(s, c)[0] == s[0]
    decreases |s|
  {
    if |s| > 1 && s[0] == c && s[1] == c {
      CollapseHead(s[1..], c);
    }
  }

  /** Collapsing leaves no two adjacent `c`, and creates no two adjacent
      `d` for any other character. */
  lemma {:induction false} CollapseNoDouble(s: string, c: char, d: char)
    requires c != d
    ensures NoDouble(Collapse(s, c), c)
    ensures NoDouble(s, d) ==> NoDouble(Collapse(s, c), d)
    decreases |s|
  {
    if |s| > 1 {
      CollapseNoDouble(s[1..], c, d);
      if !(s[0] == c && s[1] == c) {
        var x := Collapse(s[1..], c);
        CollapseHead(s[1..], c);
        var r := [s[0]] + x;
        assert forall i :: 1 <= i < |r| - 1 ==> r[i] == x[i - 1] && r[i + 1] == x[i];
        assert NoDouble(s, d) ==> NoDouble(s[1..], d) by {
          if NoDouble(s, d) {
            forall i | 0 <= i < |s[1..]| - 1
              ensures !(s[1..][i] == d && s[1..][i + 1] == d)
            {
              assert s[1..][i] == s[i + 1] && s[1..][i + 1] == s[i + 2];
            }
          }
        }
      } else {
        assert NoDouble(s, d) ==> NoDouble(s[1..], d) by {
          if NoDouble(s, d) {
            forall i | 0 <= i < |s[1..]| - 1
              ensures !(s[1..][i] == d && s[1..][i + 1] == d)
            {
              assert s[1..][i] == s[i + 1] && s[1..][i + 1] == s[i + 2];
            }
          }
        }
      }
    }
  }

  /** Collapsing a text without two adjacent `c` changes nothing. */
  lemma {:induction false} CollapseNoop(s: string, c: char)
    requires NoDouble(s, c)
    ensures Collapse(s, c) == s
    decreases |s|
  {
    if |s| > 1 {
      assert !(s[0] == c && s[1] == c);
      assert NoDouble(s[1..], c) by {
        forall i | 0 <= i < |s[1..]| - 1
          ensures !(s[1..][i] == c && s[1..][i + 1] == c)
        {
          assert s[1..][i] == s[i + 1] && s[1..][i + 1] == s[i + 2];
        }
      }
      CollapseNoop(s[1..], c);
    }
  }

  /** Collapsing only deletes `c` characters. */
  lemma {:induction false} CollapseKeepsText(s: string, c: char)
    requires PyStr.IsSpace(c)
    ensures PyStr.RemoveWhitespace(Collapse(s, c)) == PyStr.RemoveWhitespace(s)
    decreases |s|
  {
    if |s| > 1 {
      CollapseKeepsText(s[1..], c);
      if !(s[0] == c && s[1] == c) {
        PyStr.RemoveWhitespaceAppend([s[0]], Collapse(s[1..], c));
      }
    }
  }

  lemma NoDoubleInfix(s: string, c: char, a: nat, b: nat)
    requires NoDouble(s, c) && a <= b <= |s|
    ensures NoDouble(s[a..b], c)
  {
    forall i | 0 <= i < |s[a..b]| - 1
      ensures !(s[a..b][i] == c && s[a..b][i + 1] == c)
    {
      assert s[a..b][i] == s[a + i] && s[a..b][i + 1] == s[a + i + 1];
    }
  }

  /** The normalised text has no two adjacent spaces, no two adjacent
      newlines, and no whitespace at either end. */
  lemma NormalizeWhitespaceShape(s: string)
    ensures var r := NormalizeWhitespace(s);
      && NoDouble(r, ' ') && NoDouble(r, '\n')
      && (r == [] || (!PyStr.IsSpace(r[0]) && !PyStr.IsSpace(r[|r| - 1])))
  {
    var t := Collapse(Collapse(s, ' '), '\n');
    CollapseNoDouble(s, ' ', '\n');
    CollapseNoDouble(Collapse(s, ' '), '\n', ' ');
    PyStr.StripIsInfix(t);
    var a := |t| - |PyStr.StripLeft(t)|;
    NoDoubleInfix(t, ' ', a, a + |PyStr.Strip(t)|);
    NoDoubleInfix(t, '\n', a, a + |PyStr.Strip(t)|);
  }

  /** Normalising twice is normalising once. */
  lemma NormalizeWhitespaceIdempotent(s: string)
    ensures NormalizeWhitespace(NormalizeWhitespace(s)) == NormalizeWhitespace(s)
  {
    var r := NormalizeWhitespace(s);
    NormalizeWhitespaceShape(s);
    CollapseNoop(r, ' ');
    CollapseNoop(r, '\n');
    PyStr.StripUnpadded(r);
  }

  /** Normalising only removes whitespace. */
  lemma NormalizeWhitespaceKeepsText(s: string)
    ensures PyStr.RemoveWhitespace(NormalizeWhitespace(s)) == PyStr.RemoveWhitespace(s)
  {
    var t := Collapse(Collapse(s, ' '), '\n');
    CollapseKeepsText(s, ' ');
    CollapseKeepsText(Collapse(s, ' '), '\n');
    StripKeepsText(t);
  }

  lemma StripKeepsText(t: string)
    ensures PyStr.RemoveWhitespace(PyStr.Strip(t)) == PyStr.RemoveWhitespace(t)
  {
    var l := PyStr.StripLeft(t);
    PyStr.RemoveWhitespaceStripLeft(t);
    PyStr.StripRightIsPrefix(l);
    var r := PyStr.StripRight(l);
    assert l == r + l[|r|..];
    PyStr.RemoveWhitespaceAppend(r, l[|r|..]);
    PyStr.RemoveWhitespaceAllSpace(l[|r|..]);
  }

  // ---------------------------------------------------------------------
  // `_convert_paragraph_breaks`

  const Nop := "{{nop}}"
  const NopMarker := "___NOP_MARKER___"
  const Blank := "\n\n"
  const ParagraphMark := "<p/>\n"

  lemma MarkerFacts()
    ensures |Nop| == 7 && Nop[0] == '{' && '_' !in Nop
    ensures |NopMarker| == 16 && NopMarker[0] == '_' && NopMarker[15] == '_' && '\n' !in NopMarker
    ensures |Blank| == 2 && Blank[0] == '\n' && Blank[1] == '\n'
    ensures '_' !in ParagraphMark
  {
  }

  /** `content.replace('{{nop}}', '___NOP_MARKER___')` */
  function Protect(s: string): string
  {
    PyStr.Replace(s, Nop, NopMarker)
  }

  /** `content.replace('___NOP_MARKER___', '{{nop}}')` */
  function Restore(s: string): string
  {
    PyStr.Replace(s, NopMarker, Nop)
  }

  /** `re.sub(r'(?<!___NOP_MARKER___)\n\n(?!___NOP_MARKER___)', '<p/>\n', u)`
      where `before` is the part of the subject string already scanned:
      the look-behind inspects the original text, not the output. */
  function Breaks(before: string, u: string): string
    decreases |u|
  {
    if |u| == 0 then ""
    else if PyStr.StartsWith(u, Blank) && !PyStr.EndsWith(before, NopMarker) && !PyStr.StartsWith(u[2..], NopMarker) then
      ParagraphMark + Breaks(before + Blank, u[2..])
    else [u[0]] + Breaks(before + [u[0]], u[1..])
  }

  /** `_convert_paragraph_breaks`, as the three steps it performs. */
  function ConvertParagraphBreaks(s: string): string
  {
    Restore(Breaks("", Protect(s)))
  }

  /** What the method is for, stated directly on the text: every blank line
      (two newlines, scanning from the left) becomes a paragraph indicator
      unless a `{{nop}}` is directly before or after it, and everything else,
      `{{nop}}` included, is copied. `afterNop` says that a `{{nop}}` has
      just been copied. */
  function Paragraphs(afterNop: bool, s: string): string
    decreases |s|
  {
    if |s| == 0 then ""
    else if PyStr.StartsWith(s, Nop) then Nop + Paragraphs(true, s[7..])
    else if PyStr.StartsWith(s, Blank) && !afterNop && !PyStr.StartsWith(s[2..], Nop) then
      ParagraphMark + Paragraphs(false, s[2..])
    else [s[0]] + Paragraphs(false, s[1..])
  }

  /** Text without a newline is copied by the scan. */
  lemma {:induction false} BreaksPlain(before: string, p: string, x: string)
    requires '\n' !in p
    ensures Breaks(before, p + x) == p + Breaks(before + p, x)
    decreases |p|
  {
    if |p| > 0 {
      var u := p + x;
      assert u[0] == p[0] && u[1..] == p[1..] + x;
      assert Breaks(before, u) == [p[0]] + Breaks(before + [p[0]], u[1..]);
      BreaksPlain(before + [p[0]], p[1..], x);
      assert before + [p[0]] + p[1..] == before + p;
      assert p == [p[0]] + p[1..];
    } else {
      assert p + x == x;
      assert before + p == before;
    }
  }

  /** Only a text ending in `_` can end with the marker. */
  lemma NotAfterMarker(b: string, c: char)
    requires c != '_'
    ensures !PyStr.EndsWith(b + [c], NopMarker)
  {
    MarkerFacts();
  }

  lemma AfterMarker(b: string)
    ensures PyStr.EndsWith(b + NopMarker, NopMarker)
  {
    assert (b + NopMarker)[|b|..] == NopMarker;
  }

  /** The first character of the protected text. */
  lemma ProtectHead(w: string)
    requires |w| > 0 && '_' !in w
    ensures |Protect(w)| > 0 && (Protect(w)[0] == '_' <==> PyStr.StartsWith(w, Nop))
    ensures !PyStr.StartsWith(w, Nop) ==> Protect(w)[0] == w[0]
  {
    MarkerFacts();
    if PyStr.StartsWith(w, Nop) {
      assert w == Nop + w[7..];
      PyStr.ReplaceAtStart(Nop, w[7..], NopMarker);
    } else {
      PyStr.ReplaceCons(w, Nop, NopMarker);
    }
  }

  /** With no `_` in the text, the protected text starts with the marker
      exactly where the text starts with `{{nop}}`. */
  lemma ProtectStartsWithMarker(w: string)
    requires '_' !in w
    ensures PyStr.StartsWith(Protect(w), NopMarker) <==> PyStr.StartsWith(w, Nop)
  {
    MarkerFacts();
    if |w| > 0 {
      ProtectHead(w);
      if PyStr.StartsWith(w, Nop) {
        assert w == Nop + w[7..];
        PyStr.ReplaceAtStart(Nop, w[7..], NopMarker);
        assert Protect(w)[..16] == NopMarker;
      }
    } else {
      assert Protect(w) == w;
    }
  }

  /** The three steps of `_convert_paragraph_breaks` do what `Paragraphs`
      says, from any point of the scan. */
  lemma {:induction false} ParagraphsAgree(before: string, afterNop: bool, s: string)
    requires '_' !in s && (PyStr.EndsWith(before, NopMarker) <==> afterNop)
    ensures Restore(Breaks(before, Protect(s))) == Paragraphs(afterNop, s)
    decreases |s|
  {
    MarkerFacts();
    if |s| == 0 {
      assert Protect(s) == s;
    } else if PyStr.StartsWith(s, Nop) {
      AfterMarker(before);
      ParagraphsAgree(before + NopMarker, true, s[7..]);
      AgreeAtNop(before, afterNop, s);
    } else if PyStr.StartsWith(s, Blank) && !afterNop && !PyStr.StartsWith(s[2..], Nop) {
      NotAfterMarker(before + "\n", '\n');
      assert before + "\n" + ['\n'] == before + Blank;
      ParagraphsAgree(before + Blank, false, s[2..]);
      AgreeAtBlank(before, afterNop, s);
    } else {
      NotAfterMarker(before, s[0]);
      ParagraphsAgree(before + [s[0]], false, s[1..]);
      AgreeElsewhere(before, afterNop, s);
    }
  }

  lemma AgreeAtNop(before: string, afterNop: bool, s: string)
    requires '_' !in s && PyStr.StartsWith(s, Nop)
    requires Restore(Breaks(before + NopMarker, Protect(s[7..]))) == Paragraphs(true, s[7..])
    ensures Restore(Breaks(before, Protect(s))) == Paragraphs(afterNop, s)
  {
    MarkerFacts();
    assert s == Nop + s[7..];
    PyStr.ReplaceAtStart(Nop, s[7..], NopMarker);
    BreaksPlain(before, NopMarker, Protect(s[7..]));
    PyStr.ReplaceAtStart(NopMarker, Breaks(before + NopMarker, Protect(s[7..])), Nop);
  }

  lemma AgreeAtBlank(before: string, afterNop: bool, s: string)
    requires '_' !in s && PyStr.StartsWith(s, Blank) && !afterNop && !PyStr.StartsWith(s[2..], Nop)
    requires !PyStr.EndsWith(before, NopMarker)
    requires Restore(Breaks(before + Blank, Protect(s[2..]))) == Paragraphs(false, s[2..])
    ensures Restore(Breaks(before, Protect(s))) == Paragraphs(afterNop, s)
  {
    MarkerFacts();
    var u := BlankProtected(s);
    ProtectStartsWithMarker(s[2..]);
    assert u[2..] == Protect(s[2..]) && u[..2] == Blank;
    PyStr.ReplacePlain(ParagraphMark, Breaks(before + Blank, Protect(s[2..])), NopMarker, Nop);
  }

  /** A text starting with a blank line keeps it when protected. */
  lemma BlankProtected(s: string) returns (u: string)
    requires PyStr.StartsWith(s, Blank)
    ensures u == Protect(s) && u == Blank + Protect(s[2..])
  {
    MarkerFacts();
    PyStr.ReplaceCons(s, Nop, NopMarker);
    PyStr.ReplaceCons(s[1..], Nop, NopMarker);
    assert s[1..][1..] == s[2..];
    u := Protect(s);
  }

  lemma AgreeElsewhere(before: string, afterNop: bool, s: string)
    requires '_' !in s && |s| > 0 && !PyStr.StartsWith(s, Nop)
    requires !(PyStr.StartsWith(s, Blank) && !afterNop && !PyStr.StartsWith(s[2..], Nop))
    requires PyStr.EndsWith(before, NopMarker) <==> afterNop
    requires Restore(Breaks(before + [s[0]], Protect(s[1..]))) == Paragraphs(false, s[1..])
    ensures Restore(Breaks(before, Protect(s))) == Paragraphs(afterNop, s)
  {
    MarkerFacts();
    PyStr.ReplaceCons(s, Nop, NopMarker);
    var u := Protect(s);
    assert u == [s[0]] + Protect(s[1..]);
    NoBreakHere(before, afterNop, s);
    assert Breaks(before, u) == [s[0]] + Breaks(before + [s[0]], Protect(s[1..]));
    PyStr.ReplacePlain([s[0]], Breaks(before + [s[0]], Protect(s[1..])), NopMarker, Nop);
  }

  /** Where the text has no blank line to convert, neither has the protected
      text. */
  lemma NoBreakHere(before: string, afterNop: bool, s: string)
    requires '_' !in s && |s| > 0 && !PyStr.StartsWith(s, Nop)
    requires !(PyStr.StartsWith(s, Blank) && !afterNop && !PyStr.StartsWith(s[2..], Nop))
    requires PyStr.EndsWith(before, NopMarker) <==> afterNop
    ensures var u := Protect(s);
      |u| > 0 && !(PyStr.StartsWith(u, Blank) && !PyStr.EndsWith(before, NopMarker) && !PyStr.StartsWith(u[2..], NopMarker))
  {
    MarkerFacts();
    PyStr.ReplaceCons(s, Nop, NopMarker);
    var u := Protect(s);
    if PyStr.StartsWith(u, Blank) {
      assert u[0] == s[0] == '\n';
      ProtectHead(s[1..]);
      assert u[1] == Protect(s[1..])[0];
      assert PyStr.StartsWith(s, Blank);
      var v := BlankProtected(s);
      ProtectStartsWithMarker(s[2..]);
    }
  }

  /** `_convert_paragraph_breaks` on a text without `_` (so without a
      literal marker in it) is `Paragraphs`. */
  lemma ConvertParagraphBreaksMeans(s: string)
    requires '_' !in s
    ensures ConvertParagraphBreaks(s) == Paragraphs(false, s)
  {
    ParagraphsAgree("", false, s);
  }

  /** A text without a blank line comes out unchanged. */
  lemma {:induction false} ParagraphsNoBlank(afterNop: bool, s: string)
    requires !PyStr.Contains(s, Blank)
    ensures Paragraphs(afterNop, s) == s
    decreases |s|
  {
    if |s| > 0 {
      assert !PyStr.StartsWith(s, Blank);
      if PyStr.StartsWith(s, Nop) {
        MarkerFacts();
        NoBlankSuffix(s, 7);
        ParagraphsNoBlank(true, s[7..]);
        assert s == Nop + s[7..];
      } else {
        NoBlankSuffix(s, 1);
        ParagraphsNoBlank(false, s[1..]);
        assert s == [s[0]] + s[1..];
      }
    }
  }

  lemma {:induction false} NoBlankSuffix(s: string, k: nat)
    requires k <= |s| && !PyStr.Contains(s, Blank)
    ensures !PyStr.Contains(s[k..], Blank)
    decreases k
  {
    if k > 0 {
      NoBlankSuffix(s[1..], k - 1);
      assert s[1..][k - 1..] == s[k..];
    }
  }

  // ---------------------------------------------------------------------
  // `_handle_special_characters`

  predicate IsAsciiLetter(c: char)
  {
    'a' <= c <= 'z' || 'A' <= c <= 'Z'
  }

  predicate IsAsciiDigit(c: char)
  {
    '0' <= c <= '9'
  }

  predicate IsAsciiAlnum(c: char)
  {
    IsAsciiLetter(c) || IsAsciiDigit(c)
  }

  predicate IsHexDigit(c: char)
  {
    IsAsciiDigit(c) || 'a' <= c <= 'f' || 'A' <= c <= 'F'
  }

  /** The length of the longest prefix of `s` whose characters all satisfy
      `p`: what a greedy character class with `*` takes. */
  function Run(s: string, p: char -> bool): (n: nat)
    ensures n <= |s| && (forall i :: 0 <= i < n ==> p(s[i])) && (n < |s| ==> !p(s[n]))
  {
    if |s| > 0 && p(s[0]) then 1 + Run(s[1..], p) else 0
  }

  /** The match of `<p>*;` from position `k` of `s`, where `<p>*` is a
      greedy character class: the end of the match, if there is one. */
  function Terminated(s: string, k: nat, p: char -> bool): (r: Option<nat>)
    requires k <= |s|
    ensures r.Some? ==> k < r.value <= |s| && s[r.value - 1] == ';'
    ensures r.Some? ==> forall i :: k <= i < r.value - 1 ==> p(s[i])
  {
    var m := k + Run(s[k..], p);
    if m < |s| && s[m] == ';' then Some(m + 1) else None
  }

  /** The length of the match of
      `&(?:[a-zA-Z][a-zA-Z0-9]*|#[0-9]+|#x[0-9a-fA-F]+);` at the start of
      `s`, if there is one. */
  function EntityAt(s: string): (r: Option<nat>)
    ensures r.Some? ==> 3 <= r.value <= |s| && s[0] == '&' && s[r.value - 1] == ';'
  {
    if |s| < 3 || s[0] != '&' then None
    else if IsAsciiLetter(s[1]) then Terminated(s, 2, IsAsciiAlnum)
    else if s[1] != '#' then None
    else if s[2] == 'x' then (if |s| > 3 && IsHexDigit(s[3]) then Terminated(s, 4, IsHexDigit) else None)
    else if IsAsciiDigit(s[2]) then Terminated(s, 3, IsAsciiDigit)
    else None
  }

  /** No `&` inside an entity. */
  lemma EntityInside(s: string)
    requires EntityAt(s).Some?
    ensures forall i :: 1 <= i < EntityAt(s).value ==> s[i] != '&'
  {
  }

  /** `_handle_special_characters`: the text is cut at its entities, which
      are kept, and every other `&` becomes `&amp;`. Splitting with
      `re.split` and joining again is the left-to-right scan below, since
      two entities never overlap. */
  function EscapeAmpersands(s: string): string
    decreases |s|
  {
    if |s| == 0 then ""
    else match EntityAt(s)
      case Some(n) => s[..n] + EscapeAmpersands(s[n..])
      case None => (if s[0] == '&' then "&amp;" else [s[0]]) + EscapeAmpersands(s[1..])
  }

  /** Every `&` in the text starts an entity. */
  predicate NoBareAmpersand(s: string)
  {
    forall i :: 0 <= i < |s| && s[i] == '&' ==> EntityAt(s[i..]).Some?
  }

  /** A run that stops before the end of `a` is not lengthened by what
      follows `a`. */
  lemma {:induction false} RunPrefix(a: string, rest: string, p: char -> bool)
    requires Run(a, p) < |a|
    ensures Run(a + rest, p) == Run(a, p)
    decreases |a|
  {
    if p(a[0]) {
      assert (a + rest)[1..] == a[1..] + rest;
      RunPrefix(a[1..], rest, p);
    }
  }

  /** Cutting a text after the end of a run keeps the run. */
  lemma {:induction false} RunTrim(a: string, k: nat, p: char -> bool)
    requires Run(a, p) < k <= |a|
    ensures Run(a[..k], p) == Run(a, p)
    decreases k
  {
    if p(a[0]) {
      assert a[..k][1..] == a[1..][..k - 1];
      RunTrim(a[1..], k - 1, p);
    }
  }

  lemma TerminatedPrefix(e: string, rest: string, k: nat, p: char -> bool)
    requires k <= |e| && Terminated(e, k, p) == Some(|e|)
    ensures Terminated(e + rest, k, p) == Some(|e|)
  {
    assert (e + rest)[k..] == e[k..] + rest;
    RunPrefix(e[k..], rest, p);
  }

  lemma TerminatedTrim(s: string, k: nat, p: char -> bool)
    requires k <= |s| && Terminated(s, k, p).Some?
    ensures var n := Terminated(s, k, p).value; Terminated(s[..n], k, p) == Some(n)
  {
    var n := Terminated(s, k, p).value;
    assert s[..n][k..] == s[k..][..n - k];
    RunTrim(s[k..], n - k, p);
  }

  /** An entity is recognised whatever follows it. */
  lemma EntityPrefix(e: string, rest: string)
    requires EntityAt(e) == Some(|e|)
    ensures EntityAt(e + rest) == Some(|e|)
  {
    var s := e + rest;
    assert s[0] == e[0] && s[1] == e[1] && s[2] == e[2];
    if IsAsciiLetter(e[1]) {
      TerminatedPrefix(e, rest, 2, IsAsciiAlnum);
    } else if e[2] == 'x' {
      assert s[3] == e[3];
      TerminatedPrefix(e, rest, 4, IsHexDigit);
    } else {
      TerminatedPrefix(e, rest, 3, IsAsciiDigit);
    }
  }

  /** An entity is still recognised once what follows it is cut off. */
  lemma EntityTrim(s: string)
    requires EntityAt(s).Some?
    ensures EntityAt(s[..EntityAt(s).value]) == EntityAt(s)
  {
    var n := EntityAt(s).value;
    var e := s[..n];
    assert e[0] == s[0] && e[1] == s[1] && e[2] == s[2];
    if IsAsciiLetter(s[1]) {
      TerminatedTrim(s, 2, IsAsciiAlnum);
    } else if s[2] == 'x' {
      assert e[3] == s[3];
      TerminatedTrim(s, 4, IsHexDigit);
    } else {
      TerminatedTrim(s, 3, IsAsciiDigit);
    }
  }

  lemma EscapedAmp()
    ensures EntityAt("&amp;") == Some(5)
  {
    var s := "&amp;";
    assert s[2..] == "mp;" && s[2..][1..] == "p;" && s[2..][1..][1..] == ";";
    assert Run(";", IsAsciiAlnum) == 0;
    assert Run("p;", IsAsciiAlnum) == 1;
    assert Run("mp;", IsAsciiAlnum) == 2;
  }

  /** A piece of output followed by text without bare ampersands has none
      either, when the piece's only `&` is its first character and starts an
      entity there. */
  lemma NoBareAppend(c: string, y: string)
    requires NoBareAmpersand(y)
    requires forall i :: 1 <= i < |c| ==> c[i] != '&'
    requires |c| > 0 && c[0] == '&' ==> EntityAt(c + y).Some?
    ensures NoBareAmpersand(c + y)
  {
    var t := c + y;
    forall i | 0 <= i < |t| && t[i] == '&'
      ensures EntityAt(t[i..]).Some?
    {
      if i < |c| {
        assert i == 0 && t[i..] == t;
      } else {
        assert t[i..] == y[i - |c|..];
      }
    }
  }

  /** What is left after a position of a text without bare ampersands has
      none either. */
  lemma NoBareSuffix(s: string, k: nat)
    requires NoBareAmpersand(s) && k <= |s|
    ensures NoBareAmpersand(s[k..])
  {
    var t := s[k..];
    forall i | 0 <= i < |t| && t[i] == '&'
      ensures EntityAt(t[i..]).Some?
    {
      assert t[i..] == s[k + i..];
    }
  }

  /** The result has no bare ampersand. */
  lemma {:induction false} EscapeAmpersandsNoBare(s: string)
    ensures NoBareAmpersand(EscapeAmpersands(s))
    decreases |s|
  {
    if |s| > 0 {
      match EntityAt(s)
      case Some(n) =>
        var y := EscapeAmpersands(s[n..]);
        EscapeAmpersandsNoBare(s[n..]);
        EntityNoBare(s, y);
      case None =>
        var y := EscapeAmpersands(s[1..]);
        EscapeAmpersandsNoBare(s[1..]);
        if s[0] == '&' {
          EscapedAmp();
          EntityPrefix("&amp;", y);
          NoBareAppend("&amp;", y);
        } else {
          NoBareAppend([s[0]], y);
        }
    }
  }

  /** An entity of `s` followed by text without bare ampersands has none. */
  lemma EntityNoBare(s: string, y: string)
    requires EntityAt(s).Some? && NoBareAmpersand(y)
    ensures NoBareAmpersand(s[..EntityAt(s).value] + y)
  {
    var n := EntityAt(s).value;
    EntityTrim(s);
    EntityPrefix(s[..n], y);
    EntityInside(s);
    NoBareAppend(s[..n], y);
  }

  /** A text without bare ampersands is left as it is. */
  lemma {:induction false} EscapeAmpersandsNoop(s: string)
    requires NoBareAmpersand(s)
    ensures EscapeAmpersands(s) == s
    decreases |s|
  {
    if |s| > 0 {
      match EntityAt(s)
      case Some(n) =>
        NoBareSuffix(s, n);
        EscapeAmpersandsNoop(s[n..]);
        assert s[..n] + s[n..] == s;
      case None =>
        assert s[0..] == s;
        assert s[0] != '&';
        NoBareSuffix(s, 1);
        EscapeAmpersandsNoop(s[1..]);
        assert [s[0]] + s[1..] == s;
    }
  }

  /** Escaping twice is escaping once. */
  lemma EscapeAmpersandsIdempotent(s: string)
    ensures EscapeAmpersands(EscapeAmpersands(s)) == EscapeAmpersands(s)
  {
    EscapeAmpersandsNoBare(s);
    EscapeAmpersandsNoop(EscapeAmpersands(s));
  }

  /** A text without `&` is left as it is. */
  lemma EscapeAmpersandsAbsent(s: string)
    requires '&' !in s
    ensures EscapeAmpersands(s) == s
  {
    EscapeAmpersandsNoop(s);
  }

  /** An entity at the start is copied whole. */
  lemma EscapeAmpersandsKeepsEntity(e: string, rest: string)
    requires EntityAt(e) == Some(|e|)
    ensures EscapeAmpersands(e + rest) == e + EscapeAmpersands(rest)
  {
    EntityPrefix(e, rest);
    var s := e + rest;
    assert s[..|e|] == e && s[|e|..] == rest;
  }
}
