/** Reading a page of the JPS 1917 sources and its credit lines: the page
    number (an `int` or a numeric `str`) names the file `NNNN.txt`, zero-padded
    to four digits, in the text or the credits directory. The directories are
    given as maps from file name to content. */
module Pages {
  import opened Wrappers
  import PyStr

  /** The argument of `get_page` and `get_credits`: `str | int`. */
  datatype PageNumber = IntNumber(n: int) | StrNumber(s: string)

  /** `Page(number, content)` */
  datatype Page = Page(number: int, content: string)

  /** The files of a directory, by name. */
  type Directory = map<string, string>

  /** The digits of a base-10 literal for `int()`: ASCII digits, with single
      underscores allowed between two of them (`\d(_?\d)*`). */
  predicate IsDigitGroups(s: string)
    decreases |s|
  {
    && |s| > 0 && '0' <= s[|s| - 1] <= '9'
    && (|s| == 1 || IsDigitGroups(s[..|s| - 1]) || (|s| >= 3 && s[|s| - 2] == '_' && IsDigitGroups(s[..|s| - 2])))
  }

  /** The value of such digits, underscores skipped. */
  function GroupsValue(s: string): nat
    requires IsDigitGroups(s)
    decreases |s|
  {
    var d := s[|s| - 1] as int - '0' as int;
    if |s| == 1 then d
    else if IsDigitGroups(s[..|s| - 1]) then GroupsValue(s[..|s| - 1]) * 10 + d
    else GroupsValue(s[..|s| - 2]) * 10 + d
  }

  /** Python's `int(s)` for a base-10 literal: optional surrounding
      whitespace, then an optional sign, then digits with single underscores
      between them. */
  function ParseInt(s: string): Result<int, PyError>
  {
    var t := PyStr.Strip(s);
    if |t| > 0 && (t[0] == '+' || t[0] == '-') && IsDigitGroups(t[1..]) then
      Ok(if t[0] == '-' then -(GroupsValue(t[1..]) as int) else GroupsValue(t[1..]))
    else if IsDigitGroups(t) then Ok(GroupsValue(t))
    else Err(ValueError("invalid literal for int() with base 10: '" + s + "'"))
  }

  /** `int(page_number)` */
  function PageNum(p: PageNumber): Result<int, PyError>
  {
    match p
    case IntNumber(n) => Ok(n)
    case StrNumber(s) => ParseInt(s)
  }

  function Zeros(k: nat): (r: string)
    ensures |r| == k && forall i :: 0 <= i < k ==> r[i] == '0'
  {
    if k == 0 then "" else Zeros(k - 1) + "0"
  }

  /** Left padding with zeros to at least `width` characters. */
  function ZeroPad(s: string, width: nat): (r: string)
    ensures |r| == if |s| >= width then |s| else width
  {
    if |s| >= width then s else Zeros(width - |s|) + s
  }

  /** `f"{n:04d}"`: the sign counts towards the width of four. */
  function Format04d(n: int): string
  {
    if n >= 0 then ZeroPad(PyStr.NatToString(n), 4) else "-" + ZeroPad(PyStr.NatToString(-n), 3)
  }

  /** `f"{page_num:04d}.txt"` */
  function PageFileName(n: int): string
  {
    Format04d(n) + ".txt"
  }

  /** `get_page`: the page's number and the whole content of its file, or
      None when the file does not exist; a string that is not an integer
      raises. */
  function GetPage(textDir: Directory, p: PageNumber): (r: Result<Option<Page>, PyError>)
    ensures r.Err? <==> PageNum(p).Err?
    ensures r.Ok? ==> (r.value.None? <==> PageFileName(PageNum(p).value) !in textDir)
    ensures r.Ok? && r.value.Some? ==>
      r.value.value == Page(PageNum(p).value, textDir[PageFileName(PageNum(p).value)])
  {
    match PageNum(p)
    case Err(x) => Err(x)
    case Ok(n) =>
      var name := PageFileName(n);
      if name in textDir then Ok(Some(Page(n, textDir[name]))) else Ok(None)
  }

  /** The comprehension `[line.strip() for line in lines if line.strip()]`. */
  function StrippedNonBlank(lines: seq<string>): (r: seq<string>)
    ensures |r| <= |lines|
    ensures forall i :: 0 <= i < |r| ==> r[i] != "" && PyStr.Strip(r[i]) == r[i]
  {
    if |lines| == 0 then []
    else
      var front := StrippedNonBlank(lines[..|lines| - 1]);
      var s := PyStr.Strip(lines[|lines| - 1]);
      StripIdempotent(lines[|lines| - 1]);
      if s != "" then front + [s] else front
  }

  /** Stripping twice is stripping once. */
  lemma StripIdempotent(s: string)
    ensures PyStr.Strip(PyStr.Strip(s)) == PyStr.Strip(s)
  {
    var t := PyStr.Strip(s);
    assert PyStr.StripLeft(t) == t;
    assert PyStr.StripRight(t) == t;
  }

  /** The credit lines of a file's content. */
  function CreditLines(content: string): seq<string>
  {
    StrippedNonBlank(PyStr.Split(content, '\n'))
  }

  /** `get_credits`: the stripped non-blank lines of the credits file, in
      order, or None when it does not exist. */
  function GetCredits(creditsDir: Directory, p: PageNumber): (r: Result<Option<seq<string>>, PyError>)
    ensures r.Err? <==> PageNum(p).Err?
    ensures r.Ok? ==> (r.value.None? <==> PageFileName(PageNum(p).value) !in creditsDir)
    ensures r.Ok? && r.value.Some? ==>
      forall i :: 0 <= i < |r.value.value| ==> r.value.value[i] != "" && PyStr.Strip(r.value.value[i]) == r.value.value[i]
  {
    match PageNum(p)
    case Err(x) => Err(x)
    case Ok(n) =>
      var name := PageFileName(n);
      if name in creditsDir then Ok(Some(CreditLines(creditsDir[name]))) else Ok(None)
  }

  // ---------------------------------------------------------------------
  // Properties

  lemma {:induction false} DigitsValueAfterZeros(k: nat, s: string)
    requires forall i :: 0 <= i < |s| ==> '0' <= s[i] <= '9'
    ensures forall i :: 0 <= i < |Zeros(k) + s| ==> '0' <= (Zeros(k) + s)[i] <= '9'
    ensures PyStr.DigitsValue(Zeros(k) + s) == PyStr.DigitsValue(s)
    decreases |s|, k
  {
    var z := Zeros(k);
    if |s| == 0 {
      assert z + s == z;
      if k > 0 {
        DigitsValueAfterZeros(k - 1, s);
        assert z[..|z| - 1] == Zeros(k - 1) + s;
      }
    } else {
      var front := s[..|s| - 1];
      DigitsValueAfterZeros(k, front);
      assert (z + s)[..|z + s| - 1] == z + front;
    }
  }

  /** The digits `ZeroPad` produces have the value of the unpadded ones. */
  lemma ZeroPadValue(n: nat, width: nat)
    ensures PyStr.IsDigits(ZeroPad(PyStr.NatToString(n), width))
    ensures PyStr.DigitsValue(ZeroPad(PyStr.NatToString(n), width)) == n
  {
    var s := PyStr.NatToString(n);
    if |s| < width {
      DigitsValueAfterZeros(width - |s|, s);
    }
  }

  /** A run of plain digits is digit groups with their own value. */
  lemma {:induction false} PlainDigitGroups(s: string)
    requires PyStr.IsDigits(s)
    ensures IsDigitGroups(s) && GroupsValue(s) == PyStr.DigitsValue(s)
  {
    if |s| > 1 {
      PlainDigitGroups(s[..|s| - 1]);
      assert PyStr.DigitsValue(s) == PyStr.DigitsValue(s[..|s| - 1]) * 10 + (s[|s| - 1] as int - '0' as int);
    } else {
      assert s[..0] == "";
    }
  }

  /** Underscores between digits are skipped. */
  lemma UnderscoresSkipped()
    ensures ParseInt("1_0") == Ok(10)
    ensures ParseInt(" -2_5 ") == Ok(-25)
  {
    PyStr.StripUnpadded("1_0");
    assert "1_0"[..2] == "1_" && "1_0"[..1] == "1";
    assert !IsDigitGroups("1_");
    assert GroupsValue("1_0") == 10;
    assert PyStr.Strip(" -2_5 ") == "-2_5" by {
      PyStr.StripUnpadded("-2_5");
      assert PyStr.StripLeft(" -2_5 ") == "-2_5 ";
    }
    assert "-2_5"[1..] == "2_5";
    assert "2_5"[..2] == "2_" && "2_5"[..1] == "2";
    assert !IsDigitGroups("2_");
    assert GroupsValue("2_5") == 25;
  }

  /** A doubled, leading or trailing underscore makes the literal invalid. */
  lemma MisplacedUnderscores()
    ensures ParseInt("1__0").Err? && ParseInt("_1").Err? && ParseInt("1_").Err? && ParseInt("-_1").Err?
  {
    PyStr.StripUnpadded("1__0");
    assert !IsDigitGroups("1__0") by {
      assert "1__0"[..3] == "1__" && "1__0"[..2] == "1_";
      assert !IsDigitGroups("1__") && !IsDigitGroups("1_");
    }
    PyStr.StripUnpadded("_1");
    assert !IsDigitGroups("_1") by {
      assert "_1"[..1] == "_";
    }
    PyStr.StripUnpadded("1_");
    PyStr.StripUnpadded("-_1");
    assert "-_1"[1..] == "_1";
    assert !IsDigitGroups("-_1") by {
      assert "-_1"[..2] == "-_" && "-_1"[..1] == "-";
    }
  }

  /** A signed run of digits with no whitespace at either end parses as its
      value. */
  lemma ParseSignedDigits(digits: string, negative: bool)
    requires PyStr.IsDigits(digits)
    ensures ParseInt(if negative then "-" + digits else digits)
      == Ok(if negative then -(PyStr.DigitsValue(digits) as int) else PyStr.DigitsValue(digits))
  {
    PlainDigitGroups(digits);
    var t := if negative then "-" + digits else digits;
    PyStr.StripUnpadded(t);
    if negative {
      assert t[1..] == digits;
      assert ParseInt(t) == Ok(-(GroupsValue(digits) as int));
    } else {
      assert !(t[0] == '+' || t[0] == '-');
      assert ParseInt(t) == Ok(GroupsValue(digits));
    }
  }

  /** The page file name is four or more digits (a leading '-' for a negative
      number) whose value is the page number, then ".txt"; the digits are
      the number's own when it has four or more of them. */
  lemma PageFileNameShape(n: int)
    ensures var name := PageFileName(n);
      && |name| >= 8 && name[|name| - 4..] == ".txt"
      && ParseInt(name[..|name| - 4]) == Ok(n)
      && (n >= 1000 ==> name[..|name| - 4] == PyStr.NatToString(n))
  {
    var name := PageFileName(n);
    assert name[..|name| - 4] == Format04d(n);
    if n >= 0 {
      ZeroPadValue(n, 4);
      ParseSignedDigits(ZeroPad(PyStr.NatToString(n), 4), false);
      if n >= 1000 {
        NatToStringWide(n);
      }
    } else {
      ZeroPadValue(-n, 3);
      ParseSignedDigits(ZeroPad(PyStr.NatToString(-n), 3), true);
    }
  }

  lemma NatToStringWide(n: nat)
    requires n >= 1000
    ensures |PyStr.NatToString(n)| >= 4
  {
    assert |PyStr.NatToString(n)| == |PyStr.NatToString(n / 10)| + 1;
    var m := n / 10;
    assert |PyStr.NatToString(m)| == |PyStr.NatToString(m / 10)| + 1;
    var k := m / 10;
    assert |PyStr.NatToString(k)| == |PyStr.NatToString(k / 10)| + 1;
  }

  /** `int` and numeric-string page numbers read the same files. */
  lemma IntAndStringAgree(textDir: Directory, creditsDir: Directory, n: int)
    ensures GetPage(textDir, IntNumber(n)) == GetPage(textDir, StrNumber(PyStr.IntToString(n)))
    ensures GetCredits(creditsDir, IntNumber(n)) == GetCredits(creditsDir, StrNumber(PyStr.IntToString(n)))
  {
    if n >= 0 {
      ParseSignedDigits(PyStr.NatToString(n), false);
    } else {
      ParseSignedDigits(PyStr.NatToString(-n), true);
    }
  }

  /** Credit lines written one per line, each already stripped and
      non-empty, are read back as they were written. */
  lemma {:induction false} CreditLinesRoundTrip(lines: seq<string>)
    requires |lines| > 0
    requires forall i :: 0 <= i < |lines| ==> lines[i] != "" && '\n' !in lines[i] && PyStr.Strip(lines[i]) == lines[i]
    ensures CreditLines(PyStr.Join(lines, "\n")) == lines
  {
    assert "\n" == ['\n'];
    PyStr.SplitJoin(lines, '\n');
    KeptAsIs(lines);
  }

  lemma {:induction false} KeptAsIs(lines: seq<string>)
    requires forall i :: 0 <= i < |lines| ==> lines[i] != "" && PyStr.Strip(lines[i]) == lines[i]
    ensures StrippedNonBlank(lines) == lines
  {
    if |lines| > 0 {
      var front := lines[..|lines| - 1];
      var last := lines[|lines| - 1];
      KeptAsIs(front);
      assert PyStr.Strip(last) == last;
      assert StrippedNonBlank(lines) == StrippedNonBlank(front) + [last];
      Snoc(lines);
    }
  }

  lemma Snoc<T>(s: seq<T>)
    requires |s| > 0
    ensures s[..|s| - 1] + [s[|s| - 1]] == s
  {
  }

  /** Blank lines are dropped and the others kept stripped, in order. */
  lemma StrippedNonBlankAppend(lines: seq<string>, line: string)
    ensures StrippedNonBlank(lines + [line])
      == StrippedNonBlank(lines) + (if PyStr.Strip(line) == "" then [] else [PyStr.Strip(line)])
  {
    assert (lines + [line])[..|lines|] == lines;
  }
}
