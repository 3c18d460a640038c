/** Title-page metadata of the JPS 1917 Wikisource text. Each regular
    expression `extract_title_page_info` searches for is written out as a
    matcher at one position (`MatchAt`) and `re.search` as the leftmost
    position where it matches; every field falls back on its default when its
    pattern does not match. Also the page-file listing helpers. */
module TitlePage {
  import opened Wrappers
  import PyStr
  import Ordering
  import Seqs

  /** `TitlePageInfo` */
  datatype TitlePageInfo = TitlePageInfo(
    mainTitle: string, hebrewTitle: string, englishSubtitle: string,
    publisher: string, place: string, year: int, additionalInfo: map<string, string>)

  /** A value of the dictionary `to_dict` returns. */
  datatype Value = Str(s: string) | Int(n: int) | Dict(d: map<string, string>)

  const Fields: set<string> :=
    {"main_title", "hebrew_title", "english_subtitle", "publisher", "place", "year", "additional_info"}

  /** `to_dict`: the seven fields under their Python names. */
  function ToDict(info: TitlePageInfo): (r: map<string, Value>)
    ensures r.Keys == Fields
  {
    map[
      "main_title" := Str(info.mainTitle),
      "hebrew_title" := Str(info.hebrewTitle),
      "english_subtitle" := Str(info.englishSubtitle),
      "publisher" := Str(info.publisher),
      "place" := Str(info.place),
      "year" := Int(info.year),
      "additional_info" := Dict(info.additionalInfo)
    ]
  }

  /** No field is lost: two records with the same dictionary are equal. */
  lemma ToDictInjective(a: TitlePageInfo, b: TitlePageInfo)
    requires ToDict(a) == ToDict(b)
    ensures a == b
  {
    assert ToDict(a)["main_title"] == ToDict(b)["main_title"];
    assert ToDict(a)["hebrew_title"] == ToDict(b)["hebrew_title"];
    assert ToDict(a)["english_subtitle"] == ToDict(b)["english_subtitle"];
    assert ToDict(a)["publisher"] == ToDict(b)["publisher"];
    assert ToDict(a)["place"] == ToDict(b)["place"];
    assert ToDict(a)["year"] == ToDict(b)["year"];
    assert ToDict(a)["additional_info"] == ToDict(b)["additional_info"];
  }

  /** The values the dictionary starts from. */
  const DefaultInfo: TitlePageInfo := TitlePageInfo(
    "THE HOLY SCRIPTURES", "\U{05EA}\U{05E0}\U{05F4}\U{05DA}", "ACCORDING TO THE MASORETIC TEXT",
    "The Jewish Publication Society of America", "Philadelphia", 1917, map[])

  // ---------------------------------------------------------------------
  // The patterns

  /** The eight searches, in the order they are made. */
  datatype Pattern = MainTitle | HebrewRun | Subtitle | Publisher | Place | Year | Edition | Copyright

  /** A character as compared: lower-cased under `re.IGNORECASE`. */
  function FoldChar(c: char, ignoreCase: bool): char
  {
    if ignoreCase then PyStr.LowerChar(c) else c
  }

  /** A string as compared. */
  function Fold(s: string, ignoreCase: bool): (r: string)
    ensures |r| == |s| && forall k {:trigger r[k]} :: 0 <= k < |s| ==> r[k] == FoldChar(s[k], ignoreCase)
  {
    if ignoreCase then PyStr.Lower(s) else s
  }

  /** The literal `lit` occurs at position `p`. A literal searched for
      under `re.IGNORECASE` is written here in lower case. */
  predicate LiteralAt(text: string, p: nat, lit: string, ignoreCase: bool)
  {
    p + |lit| <= |text| && forall k :: 0 <= k < |lit| ==> FoldChar(text[p + k], ignoreCase) == lit[k]
  }

  /** `lit` occurs at `p` exactly when the slice of `text` there, as
      compared, is `lit`. */
  lemma LiteralAtMeans(text: string, p: nat, lit: string, ignoreCase: bool)
    ensures LiteralAt(text, p, lit, ignoreCase) <==> p + |lit| <= |text| && Fold(text[p..p + |lit|], ignoreCase) == lit
  {
    if p + |lit| <= |text| {
      var s := text[p..p + |lit|];
      assert forall k :: 0 <= k < |lit| ==> s[k] == text[p + k];
      if forall k :: 0 <= k < |lit| ==> FoldChar(text[p + k], ignoreCase) == lit[k] {
        assert Fold(s, ignoreCase) == lit;
      }
    }
  }

  /** `[֐-׿יִ-ﭏ]` */
  predicate IsHebrew(c: char)
  {
    '\U{0590}' <= c <= '\U{05FF}' || '\U{FB1D}' <= c <= '\U{FB4F}'
  }

  /** `\d`: a decimal digit. Below U+0600 and in the Hebrew presentation
      forms the only ones are the ASCII digits. */
  predicate IsDigit(c: char)
  {
    '0' <= c <= '9'
  }

  /** `\w` on ASCII, Latin-1 and the two Hebrew blocks: `_` or a character
      `str.isalnum` accepts (letters, digits, and the superscripts and
      fractions of Latin-1). */
  predicate IsWordChar(c: char)
  {
    || 'a' <= c <= 'z' || 'A' <= c <= 'Z' || IsDigit(c) || c == '_'
    || c == '\U{00AA}' || c == '\U{00B2}' || c == '\U{00B3}' || c == '\U{00B5}' || c == '\U{00B9}' || c == '\U{00BA}'
    || '\U{00BC}' <= c <= '\U{00BE}'
    || ('\U{00C0}' <= c <= '\U{00FF}' && c != '\U{00D7}' && c != '\U{00F7}')
    || IsHebrewLetter(c)
  }

  /** The letters of the Hebrew block and of its presentation forms (not the
      points, accents and punctuation around them). */
  predicate IsHebrewLetter(c: char)
  {
    || '\U{05D0}' <= c <= '\U{05EA}' || '\U{05EF}' <= c <= '\U{05F2}'
    || c == '\U{FB1D}' || '\U{FB1F}' <= c <= '\U{FB28}' || '\U{FB2A}' <= c <= '\U{FB36}'
    || '\U{FB38}' <= c <= '\U{FB3C}' || c == '\U{FB3E}' || '\U{FB40}' <= c <= '\U{FB41}'
    || '\U{FB43}' <= c <= '\U{FB44}' || '\U{FB46}' <= c <= '\U{FB4F}'
  }

  /** The character classes a pattern repeats: `\s`, `\d` and the Hebrew
      block. */
  datatype CharClass = Space | Digit | Hebrew

  predicate InClass(cls: CharClass, c: char)
  {
    match cls
    case Space => PyStr.IsSpace(c)
    case Digit => IsDigit(c)
    case Hebrew => IsHebrew(c)
  }

  /** The end of the longest run of `text[p..]` in a character class. */
  function RunEnd(text: string, p: nat, cls: CharClass): (e: nat)
    requires p <= |text|
    ensures p <= e <= |text| && (e == |text| || !InClass(cls, text[e]))
    ensures forall k {:trigger InClass(cls, text[k])} :: p <= k < e ==> InClass(cls, text[k])
    decreases |text| - p
  {
    if p < |text| && InClass(cls, text[p]) then RunEnd(text, p + 1, cls) else p
  }

  const SubtitleLead := "ACCORDING TO THE MASORETIC TEXT"
  const PublisherLong := "the jewish publication society of america"
  const PublisherShort := "jewish publication society"
  const Ordinals: seq<string> :=
    ["first", "second", "third", "fourth", "fifth", "sixth", "seventh", "eighth", "ninth", "tenth"]
  const OrdinalSuffixes: seq<string> := ["st", "nd", "rd", "th"]
  const Kinds: seq<string> := ["edition", "printing", "impression"]

  /** `\s*\n` at `m`: a newline inside the whitespace run starting at `m`. */
  predicate NewlineInSpace(text: string, m: nat)
    decreases |text| - m
  {
    m < |text| && PyStr.IsSpace(text[m]) && (text[m] == '\n' || NewlineInSpace(text, m + 1))
  }

  /** The lookahead `(?=\n\s*\n)` at `j`. */
  predicate BlankLineAt(text: string, j: nat)
  {
    j < |text| && text[j] == '\n' && NewlineInSpace(text, j + 1)
  }

  /** The first position from `from` on where the lookahead holds. */
  function FirstBlankLine(text: string, from: nat): (r: Option<nat>)
    ensures r.Some? ==> (from <= r.value < |text| && BlankLineAt(text, r.value)
      && forall j :: from <= j < r.value ==> !BlankLineAt(text, j))
    ensures r.None? ==> forall j :: from <= j ==> !BlankLineAt(text, j)
    decreases |text| - from
  {
    if from >= |text| then None
    else if BlankLineAt(text, from) then Some(from)
    else FirstBlankLine(text, from + 1)
  }

  /** `\b19\d{2}\b` at `p`. */
  predicate YearAt(text: string, p: nat)
  {
    p + 4 <= |text| && text[p] == '1' && text[p + 1] == '9' && IsDigit(text[p + 2]) && IsDigit(text[p + 3])
    && (p == 0 || !IsWordChar(text[p - 1])) && (p + 4 == |text| || !IsWordChar(text[p + 4]))
  }

  /** `\d{4}` at `q`. */
  predicate FourDigitsAt(text: string, q: nat)
  {
    q + 4 <= |text| && IsDigit(text[q]) && IsDigit(text[q + 1]) && IsDigit(text[q + 2]) && IsDigit(text[q + 3])
  }

  /** The first position from `from` on where four digits start. */
  function FirstFourDigits(text: string, from: nat): (r: Option<nat>)
    ensures r.Some? ==> (from <= r.value && FourDigitsAt(text, r.value)
      && forall q :: from <= q < r.value ==> !FourDigitsAt(text, q))
    ensures r.None? ==> forall q :: from <= q ==> !FourDigitsAt(text, q)
    decreases |text| - from
  {
    if from + 4 > |text| then None
    else if FourDigitsAt(text, from) then Some(from)
    else FirstFourDigits(text, from + 1)
  }

  /** The first of the case-insensitive alternatives `alts[k..]` that
      occurs at `p`: the index of that alternative. */
  function FirstLiteral(text: string, p: nat, alts: seq<string>, k: nat): (r: Option<nat>)
    requires k <= |alts|
    ensures r.Some? ==> (k <= r.value < |alts| && LiteralAt(text, p, alts[r.value], true)
      && forall j {:trigger LiteralAt(text, p, alts[j], true)} :: k <= j < r.value ==> !LiteralAt(text, p, alts[j], true))
    ensures r.None? ==> forall j {:trigger LiteralAt(text, p, alts[j], true)} :: k <= j < |alts| ==> !LiteralAt(text, p, alts[j], true)
    decreases |alts| - k
  {
    if k == |alts| then None
    else if LiteralAt(text, p, alts[k], true) then Some(k)
    else FirstLiteral(text, p, alts, k + 1)
  }

  /** `\s+(Edition|Printing|Impression)` at `q`: where it ends. */
  function KindEnd(text: string, q: nat): (r: Option<nat>)
    requires q <= |text|
    ensures r.Some? ==> q < r.value <= |text|
  {
    var w := RunEnd(text, q, Space);
    if w == q then None
    else match FirstLiteral(text, w, Kinds, 0)
      case Some(k) => Some(w + |Kinds[k]|)
      case None => None
  }

  /** The ordinal-word alternatives `alts[k..]` of the edition pattern
      that occur at `p` and are followed by the rest of the pattern, tried in
      order. */
  function OrdinalWordEnd(text: string, p: nat, alts: seq<string>, k: nat): (r: Option<nat>)
    requires p <= |text| && k <= |alts|
    ensures r.Some? ==> p < r.value <= |text|
    decreases |alts| - k
  {
    if k == |alts| then None
    else if LiteralAt(text, p, alts[k], true) && KindEnd(text, p + |alts[k]|).Some? then KindEnd(text, p + |alts[k]|)
    else OrdinalWordEnd(text, p, alts, k + 1)
  }

  /** `(First|…|Tenth|\d+(?:st|nd|rd|th))\s+(Edition|Printing|Impression)`
      at `p`: where it ends. The alternatives are tried in order; `\d+` and
      `\s+` take their whole run, since giving a character back would leave a
      digit or a space where a letter is needed. */
  function EditionEnd(text: string, p: nat): (r: Option<nat>)
    requires p <= |text|
    ensures r.Some? ==> p < r.value <= |text|
  {
    match OrdinalWordEnd(text, p, Ordinals, 0)
    case Some(e) => Some(e)
    case None =>
      var d := RunEnd(text, p, Digit);
      if d == p then None
      else match FirstLiteral(text, d, OrdinalSuffixes, 0)
        case Some(k) => KindEnd(text, d + |OrdinalSuffixes[k]|)
        case None => None
  }

  const TitleWords := "the holy scriptures"
  const PlaceWord := "philadelphia"
  const CopyrightWord := "copyright"

  /** A case-insensitive literal at `p`: where it ends. */
  function LiteralEnd(text: string, p: nat, lit: string): (r: Option<nat>)
    ensures r.Some? ==> r.value == p + |lit| <= |text| && LiteralAt(text, p, lit, true)
    ensures r.None? ==> !LiteralAt(text, p, lit, true)
  {
    if LiteralAt(text, p, lit, true) then Some(p + |lit|) else None
  }

  /** `[֐-׿יִ-ﭏ]+` at `p`: the whole run. */
  function HebrewEnd(text: string, p: nat): (r: Option<nat>)
    requires p <= |text|
    ensures r.Some? <==> p < |text| && IsHebrew(text[p])
    ensures r.Some? ==> r.value == RunEnd(text, p, Hebrew)
  {
    if p < |text| && IsHebrew(text[p]) then Some(RunEnd(text, p, Hebrew)) else None
  }

  /** `ACCORDING TO THE MASORETIC TEXT[\s\S]*?(?=\n\s*\n)` at `p`: the lazy
      `[\s\S]*?` stops at the first position where the lookahead holds. */
  function SubtitleEnd(text: string, p: nat): (r: Option<nat>)
    ensures r.Some? ==> p + |SubtitleLead| <= r.value <= |text|
  {
    if LiteralAt(text, p, SubtitleLead, false) then FirstBlankLine(text, p + |SubtitleLead|)
    else None
  }

  /** The publisher alternation at `p`, the long name tried first. */
  function PublisherEnd(text: string, p: nat): (r: Option<nat>)
    ensures r.Some? ==> r.value <= |text|
  {
    if LiteralAt(text, p, PublisherLong, true) then Some(p + |PublisherLong|)
    else LiteralEnd(text, p, PublisherShort)
  }

  /** `copyright.*?\d{4}` at `p`, with IGNORECASE and DOTALL: the lazy
      `.*?` stops at the first four digits after the word. */
  function CopyrightEnd(text: string, p: nat): (r: Option<nat>)
    ensures r.Some? ==> p + 13 <= r.value <= |text|
  {
    if LiteralAt(text, p, CopyrightWord, true) then
      match FirstFourDigits(text, p + 9)
      case Some(q) => Some(q + 4)
      case None => None
    else None
  }

  /** Where the pattern's match starting at `p` ends, if it has one. */
  function MatchAt(pat: Pattern, text: string, p: nat): (r: Option<nat>)
    requires p <= |text|
    ensures r.Some? ==> p <= r.value <= |text|
  {
    match pat
    case MainTitle => LiteralEnd(text, p, TitleWords)
    case HebrewRun => HebrewEnd(text, p)
    case Subtitle => SubtitleEnd(text, p)
    case Publisher => PublisherEnd(text, p)
    case Place => LiteralEnd(text, p, PlaceWord)
    case Year => if YearAt(text, p) then Some(p + 4) else None
    case Edition => EditionEnd(text, p)
    case Copyright => CopyrightEnd(text, p)
  }

  /** The leftmost match at or after `from`: its start and its end. */
  function SearchFrom(pat: Pattern, text: string, from: nat): (r: Option<(nat, nat)>)
    ensures r.Some? ==> (from <= r.value.0 <= r.value.1 <= |text| && MatchAt(pat, text, r.value.0) == Some(r.value.1)
      && forall q :: from <= q < r.value.0 ==> MatchAt(pat, text, q).None?)
    ensures r.None? ==> forall q :: from <= q <= |text| ==> MatchAt(pat, text, q).None?
    decreases |text| + 1 - from
  {
    if from > |text| then None
    else match MatchAt(pat, text, from)
      case Some(e) => Some((from, e))
      case None => SearchFrom(pat, text, from + 1)
  }

  /** `re.search`: the leftmost position where the pattern matches, and the
      end of that match. */
  function Search(pat: Pattern, text: string): (r: Option<(nat, nat)>)
    ensures r.Some? ==> (r.value.0 <= r.value.1 <= |text| && MatchAt(pat, text, r.value.0) == Some(r.value.1)
      && forall q :: 0 <= q < r.value.0 ==> MatchAt(pat, text, q).None?)
    ensures r.None? ==> forall q :: 0 <= q <= |text| ==> MatchAt(pat, text, q).None?
  {
    SearchFrom(pat, text, 0)
  }

  /** A text field: the stripped match of its pattern, or its default. */
  function TextField(pat: Pattern, text: string, default: string): string
  {
    match Search(pat, text)
    case Some((i, e)) => PyStr.Strip(text[i..e])
    case None => default
  }

  /** `int(year_match.group(1))`, or 1917. */
  function YearOf(text: string): int
  {
    match Search(Year, text)
    case Some((i, e)) => PyStr.DigitsValue(text[i..i + 4])
    case None => 1917
  }

  /** The stripped match of an optional pattern, if it matches. */
  function Note(pat: Pattern, text: string): Option<string>
  {
    match Search(pat, text)
    case Some((i, e)) => Some(PyStr.Strip(text[i..e]))
    case None => None
  }

  /** The entry `key` for an optional note. */
  function Entry(key: string, note: Option<string>): map<string, string>
  {
    if note.Some? then map[key := note.value] else map[]
  }

  /** The `edition` and `copyright` entries, each only when matched. */
  function AdditionalInfo(text: string): map<string, string>
  {
    Entry("edition", Note(Edition, text)) + Entry("copyright", Note(Copyright, text))
  }

  /** The two pages joined by a newline. */
  function FullText(page7: string, page8: string): string
  {
    page7 + "\n" + page8
  }

  /** `extract_title_page_info` */
  function ExtractTitlePageInfo(page7: string, page8: string): TitlePageInfo
  {
    var t := FullText(page7, page8);
    TitlePageInfo(
      TextField(MainTitle, t, DefaultInfo.mainTitle),
      TextField(HebrewRun, t, DefaultInfo.hebrewTitle),
      TextField(Subtitle, t, DefaultInfo.englishSubtitle),
      TextField(Publisher, t, DefaultInfo.publisher),
      TextField(Place, t, DefaultInfo.place),
      YearOf(t),
      AdditionalInfo(t))
  }

  // ---------------------------------------------------------------------
  // Properties of the extraction, field by field, for any joined text

  /** When no pattern matches, every field keeps its default. */
  lemma NoMatchKeepsDefaults(page7: string, page8: string)
    requires forall pat: Pattern, q: nat :: q <= |FullText(page7, page8)| ==> MatchAt(pat, FullText(page7, page8), q).None?
    ensures ExtractTitlePageInfo(page7, page8) == DefaultInfo
  {
    var t := FullText(page7, page8);
    assert Search(MainTitle, t).None? && Search(HebrewRun, t).None? && Search(Subtitle, t).None?;
    assert Search(Publisher, t).None? && Search(Place, t).None? && Search(Year, t).None?;
    assert Search(Edition, t).None? && Search(Copyright, t).None?;
  }

  /** A literal matched case-insensitively leaves nothing to strip. */
  lemma CaseInsensitiveMatch(text: string, i: nat, lit: string)
    requires LiteralAt(text, i, lit, true) && |lit| > 0
    requires 'a' <= lit[0] <= 'z' && 'a' <= lit[|lit| - 1] <= 'z'
    ensures PyStr.Strip(text[i..i + |lit|]) == text[i..i + |lit|]
  {
    var m := text[i..i + |lit|];
    assert FoldChar(text[i + 0], true) == lit[0];
    assert FoldChar(text[i + (|lit| - 1)], true) == lit[|lit| - 1];
    assert m[0] == text[i + 0] && m[|m| - 1] == text[i + (|lit| - 1)];
    PyStr.StripUnpadded(m);
  }

  /** The main title and the place are found case-insensitively: the default
      when the literal does not occur, otherwise its first occurrence in the
      text's own case. */
  lemma LiteralField(t: string, pat: Pattern, lit: string, default: string)
    requires (pat == MainTitle && lit == TitleWords) || (pat == Place && lit == PlaceWord)
    ensures Search(pat, t).None? ==> TextField(pat, t, default) == default
    ensures Search(pat, t).Some? ==>
      var i := Search(pat, t).value.0;
      && LiteralAt(t, i, lit, true) && TextField(pat, t, default) == t[i..i + |lit|]
      && forall q :: 0 <= q < i ==> !LiteralAt(t, q, lit, true)
  {
    if Search(pat, t).Some? {
      var i := Search(pat, t).value.0;
      assert LiteralEnd(t, i, lit) == MatchAt(pat, t, i);
      CaseInsensitiveMatch(t, i, lit);
      forall q | 0 <= q < i ensures !LiteralAt(t, q, lit, true) {
        assert LiteralEnd(t, q, lit) == MatchAt(pat, t, q);
      }
    }
  }

  /** The publisher is the first occurrence of either name, the long one
      preferred where both start, in the text's own case. */
  lemma PublisherField(t: string)
    ensures Search(Publisher, t).None? ==> TextField(Publisher, t, DefaultInfo.publisher) == DefaultInfo.publisher
    ensures Search(Publisher, t).Some? ==>
      var i := Search(Publisher, t).value.0;
      var v := TextField(Publisher, t, DefaultInfo.publisher);
      if LiteralAt(t, i, PublisherLong, true) then v == t[i..i + |PublisherLong|]
      else LiteralAt(t, i, PublisherShort, true) && v == t[i..i + |PublisherShort|]
  {
    if Search(Publisher, t).Some? {
      var i := Search(Publisher, t).value.0;
      assert PublisherEnd(t, i).Some?;
      if LiteralAt(t, i, PublisherLong, true) {
        CaseInsensitiveMatch(t, i, PublisherLong);
      } else {
        assert LiteralEnd(t, i, PublisherShort).Some?;
        CaseInsensitiveMatch(t, i, PublisherShort);
      }
    }
  }

  /** The subtitle runs from the first "ACCORDING TO THE MASORETIC TEXT", in
      that case, that a blank line follows, up to the first blank line after
      it, with trailing whitespace removed. */
  lemma SubtitleField(t: string)
    ensures Search(Subtitle, t).None? ==> TextField(Subtitle, t, DefaultInfo.englishSubtitle) == DefaultInfo.englishSubtitle
    ensures Search(Subtitle, t).Some? ==>
      var i := Search(Subtitle, t).value.0;
      var e := Search(Subtitle, t).value.1;
      && LiteralAt(t, i, SubtitleLead, false) && FirstBlankLine(t, i + |SubtitleLead|) == Some(e)
      && TextField(Subtitle, t, DefaultInfo.englishSubtitle) == PyStr.StripRight(t[i..e])
  {
    if Search(Subtitle, t).Some? {
      var i := Search(Subtitle, t).value.0;
      var e := Search(Subtitle, t).value.1;
      assert SubtitleEnd(t, i) == Some(e);
      var m := t[i..e];
      assert m[0] == t[i + 0];
      assert FoldChar(t[i + 0], false) == SubtitleLead[0];
      assert PyStr.StripLeft(m) == m;
    }
  }

  /** `t[i..e]` is a maximal run of Hebrew characters. */
  predicate HebrewRunAt(t: string, i: nat, e: nat)
  {
    i < e <= |t| && (forall k :: i <= k < e ==> IsHebrew(t[k])) && (e == |t| || !IsHebrew(t[e]))
  }

  /** `t[i]` is the first Hebrew character of `t`. */
  predicate FirstHebrew(t: string, i: nat)
  {
    i < |t| && IsHebrew(t[i]) && forall k :: 0 <= k < i ==> !IsHebrew(t[k])
  }

  /** A Hebrew match is a maximal run, and stripping leaves it whole. */
  lemma HebrewMatch(t: string, i: nat, e: nat)
    requires i <= |t| && HebrewEnd(t, i) == Some(e)
    ensures HebrewRunAt(t, i, e) && PyStr.Strip(t[i..e]) == t[i..e]
  {
    assert InClass(Hebrew, t[i]) && InClass(Hebrew, t[e - 1]);
    PyStr.StripUnpadded(t[i..e]);
    forall k | i <= k < e ensures IsHebrew(t[k]) {
      assert InClass(Hebrew, t[k]);
    }
  }

  /** The Hebrew title is the first maximal run of Hebrew characters, or the
      default when the text has none. */
  lemma HebrewField(t: string)
    ensures (forall k :: 0 <= k < |t| ==> !IsHebrew(t[k])) ==>
      TextField(HebrewRun, t, DefaultInfo.hebrewTitle) == DefaultInfo.hebrewTitle
    ensures forall i: nat :: FirstHebrew(t, i) ==>
      exists e: nat :: HebrewRunAt(t, i, e) && TextField(HebrewRun, t, DefaultInfo.hebrewTitle) == t[i..e]
  {
    if Search(HebrewRun, t).Some? {
      var i0 := Search(HebrewRun, t).value.0;
      var e0 := Search(HebrewRun, t).value.1;
      assert HebrewEnd(t, i0) == Some(e0);
      HebrewMatch(t, i0, e0);
      forall j | 0 <= j < i0 ensures !IsHebrew(t[j]) {
        assert MatchAt(HebrewRun, t, j).None?;
      }
      assert FirstHebrew(t, i0);
      forall i: nat | FirstHebrew(t, i) ensures i == i0 {
        assert IsHebrew(t[i]) && IsHebrew(t[i0]);
      }
    } else {
      forall k | 0 <= k < |t| ensures !IsHebrew(t[k]) {
        assert MatchAt(HebrewRun, t, k).None?;
      }
    }
  }

  /** The value of four digits starting "19". */
  lemma NineteenHundreds(s: string)
    requires |s| == 4 && s[0] == '1' && s[1] == '9' && IsDigit(s[2]) && IsDigit(s[3])
    ensures 1900 <= PyStr.DigitsValue(s) <= 1999
  {
    assert s[..1][..0] == [];
    assert PyStr.DigitsValue(s[..1]) == 1;
    assert s[..2][..1] == s[..1];
    assert PyStr.DigitsValue(s[..2]) == 19;
    assert s[..3][..2] == s[..2];
    var h := PyStr.DigitsValue(s[..3]);
    assert h == 190 + (s[2] as int - '0' as int);
    assert PyStr.DigitsValue(s) == h * 10 + (s[3] as int - '0' as int);
  }

  /** The year is the first whole-word `19xx` number, or 1917 when there is
      none. */
  lemma YearField(t: string)
    ensures (forall i :: 0 <= i <= |t| ==> !YearAt(t, i)) ==> YearOf(t) == 1917
    ensures forall i :: 0 <= i <= |t| && YearAt(t, i) && (forall j :: 0 <= j < i ==> !YearAt(t, j)) ==>
      YearOf(t) == PyStr.DigitsValue(t[i..i + 4]) && 1900 <= YearOf(t) <= 1999
  {
    if Search(Year, t).Some? {
      var i := Search(Year, t).value.0;
      assert MatchAt(Year, t, i).Some?;
      NineteenHundreds(t[i..i + 4]);
      forall j | 0 <= j < i ensures !YearAt(t, j) {
        assert MatchAt(Year, t, j).None?;
      }
    } else {
      forall i | 0 <= i <= |t| ensures !YearAt(t, i) {
        assert MatchAt(Year, t, i).None?;
      }
    }
  }

  /** A Hebrew letter is a word character, so "ך1923" holds no whole-word
      year and the year stays 1917. */
  lemma HebrewLetterJoinsYear()
    ensures YearOf("\U{05DA}1923") == 1917
  {
    var t := "\U{05DA}1923";
    assert !YearAt(t, 0) && !YearAt(t, 1);
    forall i | 0 <= i <= |t| ensures !YearAt(t, i) {
    }
    YearField(t);
  }

  /** An optional note is present exactly when its pattern matches
      somewhere. */
  lemma NotePresent(pat: Pattern, t: string)
    ensures Note(pat, t).Some? <==> exists p :: 0 <= p <= |t| && MatchAt(pat, t, p).Some?
  {
    if Search(pat, t).Some? {
      assert MatchAt(pat, t, Search(pat, t).value.0).Some?;
    }
  }

  /** `additional_info` holds `edition` exactly when the edition pattern
      matches and `copyright` exactly when the copyright pattern does, each
      with its note, and nothing else. */
  lemma AdditionalInfoKeys(t: string)
    ensures AdditionalInfo(t).Keys <= {"edition", "copyright"}
    ensures "edition" in AdditionalInfo(t) <==> exists p :: 0 <= p <= |t| && MatchAt(Edition, t, p).Some?
    ensures "copyright" in AdditionalInfo(t) <==> exists p :: 0 <= p <= |t| && MatchAt(Copyright, t, p).Some?
    ensures "edition" in AdditionalInfo(t) ==> AdditionalInfo(t)["edition"] == Note(Edition, t).value
    ensures "copyright" in AdditionalInfo(t) ==> AdditionalInfo(t)["copyright"] == Note(Copyright, t).value
  {
    NotePresent(Edition, t);
    NotePresent(Copyright, t);
  }

  /** A copyright note: the word "copyright", in any case, then up to the
      first four digits after it, which end the note. */
  predicate CopyrightShaped(c: string)
  {
    && |c| >= 13 && LiteralAt(c, 0, CopyrightWord, true) && FourDigitsAt(c, |c| - 4)
    && forall q :: 9 <= q < |c| - 4 ==> !FourDigitsAt(c, q)
  }

  /** A copyright match has that shape, and stripping leaves it whole. */
  lemma CopyrightMatch(t: string, i: nat, e: nat)
    requires i <= |t| && CopyrightEnd(t, i) == Some(e)
    ensures i <= e <= |t| && CopyrightShaped(t[i..e]) && PyStr.Strip(t[i..e]) == t[i..e]
  {
    var q := FirstFourDigits(t, i + 9).value;
    var m := t[i..e];
    assert forall k :: 0 <= k < |m| ==> m[k] == t[i + k];
    assert FourDigitsAt(m, |m| - 4) by {
      assert |m| - 4 == q - i;
    }
    forall r | 9 <= r < |m| - 4 ensures !FourDigitsAt(m, r) {
      assert !FourDigitsAt(t, i + r);
    }
    assert CopyrightShaped(m);
    assert FoldChar(t[i + 0], true) == CopyrightWord[0];
    PyStr.StripUnpadded(m);
  }

  /** The copyright note runs from the word "copyright", in any case, to the
      first four digits after it. */
  lemma CopyrightField(t: string)
    ensures Note(Copyright, t).Some? ==> CopyrightShaped(Note(Copyright, t).value)
  {
    if Search(Copyright, t).Some? {
      var i := Search(Copyright, t).value.0;
      var e := Search(Copyright, t).value.1;
      assert CopyrightEnd(t, i) == Some(e);
      CopyrightMatch(t, i, e);
      assert Note(Copyright, t).value == t[i..e];
    }
  }

  // ---------------------------------------------------------------------
  // Page files

  /** The contents of a directory, by file name. */
  type Directory = map<string, string>

  /** `text_dir.glob("*.txt")` */
  predicate IsTxt(name: string)
  {
    PyStr.EndsWith(name, ".txt")
  }

  /** A page file: a `.txt` file whose stem is digits. */
  predicate IsPageFile(name: string)
  {
    IsTxt(name) && PyStr.IsDigits(PyStr.Stem(name))
  }

  /** `int(x.stem)` of a page file. */
  function PageKey(name: string): int
  {
    if PyStr.IsDigits(PyStr.Stem(name)) then PyStr.DigitsValue(PyStr.Stem(name)) else 0
  }

  /** `get_available_pages`: the page files of the listing, sorted by page
      number (stably, so equal numbers keep the listing's order). */
  function AvailablePages(listing: seq<string>): seq<string>
  {
    Ordering.SortByKey(Seqs.Filter(listing, IsPageFile), PageKey)
  }

  /** Exactly the page files are listed, each once per occurrence, in
      page-number order. */
  lemma AvailablePagesExact(listing: seq<string>)
    ensures var r := AvailablePages(listing);
      && Ordering.SortedByKey(r, PageKey)
      && (forall x :: x in r <==> x in listing && IsPageFile(x))
      && multiset(r) == multiset(Seqs.Filter(listing, IsPageFile))
  {
    var f := Seqs.Filter(listing, IsPageFile);
    forall x ensures x in AvailablePages(listing) <==> x in f {
      assert x in AvailablePages(listing) <==> x in multiset(AvailablePages(listing));
      assert x in f <==> x in multiset(f);
    }
  }

  /** `get_page_range`: the numbers of the first and last available pages,
      or (0, 0). */
  function PageRange(listing: seq<string>): (int, int)
  {
    var pages := AvailablePages(listing);
    if |pages| == 0 then (0, 0) else (PageKey(pages[0]), PageKey(pages[|pages| - 1]))
  }

  /** A page file of the listing is among the available pages. */
  lemma AvailablePageIndex(listing: seq<string>, x: string)
    requires x in listing && IsPageFile(x)
    ensures exists k :: 0 <= k < |AvailablePages(listing)| && AvailablePages(listing)[k] == x
  {
    AvailablePagesExact(listing);
    assert x in AvailablePages(listing);
  }

  /** The page range is (0, 0) without page files, and otherwise the
      smallest and the largest page number among them. */
  lemma PageRangeIsMinMax(listing: seq<string>)
    ensures (forall x :: x in listing ==> !IsPageFile(x)) ==> PageRange(listing) == (0, 0)
    ensures forall x :: x in listing && IsPageFile(x) ==>
      PageRange(listing).0 <= PageKey(x) <= PageRange(listing).1
    ensures (exists x :: x in listing && IsPageFile(x)) ==>
      (exists x :: x in listing && IsPageFile(x) && PageKey(x) == PageRange(listing).0)
      && (exists x :: x in listing && IsPageFile(x) && PageKey(x) == PageRange(listing).1)
  {
    var pages := AvailablePages(listing);
    AvailablePagesExact(listing);
    forall x | x in listing && IsPageFile(x)
      ensures |pages| > 0 && PageKey(pages[0]) <= PageKey(x) <= PageKey(pages[|pages| - 1])
    {
      AvailablePageIndex(listing, x);
      var k :| 0 <= k < |pages| && pages[k] == x;
      if 0 < k {
        assert PageKey(pages[0]) <= PageKey(pages[k]);
      }
      if k < |pages| - 1 {
        assert PageKey(pages[k]) <= PageKey(pages[|pages| - 1]);
      }
    }
    if |pages| > 0 {
      assert pages[0] in pages && pages[|pages| - 1] in pages;
    }
  }

  /** `load_page_text`: the file's content, or "" when it does not exist. */
  function LoadPageText(textDir: Directory, name: string): string
  {
    if name in textDir then textDir[name] else ""
  }

  /** The name itself, the key `sorted` orders paths of one directory by. */
  function NameKey(name: string): string
  {
    name
  }

  /** The title pages from the first two files of a sorted list, or None. */
  function TitleFrom(textDir: Directory, files: seq<string>): Option<TitlePageInfo>
  {
    if |files| < 2 then None
    else
      var page7 := LoadPageText(textDir, files[0]);
      var page8 := LoadPageText(textDir, files[1]);
      if page7 == "" && page8 == "" then None
      else Some(ExtractTitlePageInfo(page7, page8))
  }

  /** `f.name.isdigit()` on a globbed name. */
  predicate NameIsDigits(name: string)
  {
    IsTxt(name) && PyStr.IsDigits(name)
  }

  /** `process_title_pages` as written: the filter tests the whole name,
      ".txt" included. */
  function ProcessTitlePagesAsWritten(textDir: Directory, listing: seq<string>): Option<TitlePageInfo>
  {
    TitleFrom(textDir, Ordering.SortByText(Seqs.Filter(listing, NameIsDigits), NameKey))
  }

  lemma NoDigitsTxt(name: string)
    ensures !NameIsDigits(name)
  {
    if IsTxt(name) {
      assert name[|name| - 4] == '.';
    }
  }

  /** No name ending in ".txt" is all digits, so the function as written
      finds no title pages in any directory. */
  lemma ProcessTitlePagesAsWrittenNone(textDir: Directory, listing: seq<string>)
    ensures ProcessTitlePagesAsWritten(textDir, listing) == None
  {
    var f := Seqs.Filter(listing, NameIsDigits);
    if |f| > 0 {
      NoDigitsTxt(f[0]);
    }
  }

  /** The page files in name order. */
  function PageFilesByName(listing: seq<string>): seq<string>
  {
    Ordering.SortByText(Seqs.Filter(listing, IsPageFile), NameKey)
  }

  /** `process_title_pages` with the filter on the stem, as in
      `get_available_pages`. */
  function ProcessTitlePages(textDir: Directory, listing: seq<string>): Option<TitlePageInfo>
  {
    TitleFrom(textDir, PageFilesByName(listing))
  }

  /** The corrected function reads the two page files that come first by
      name, and gives None only when there are fewer than two page files or
      both are empty. */
  lemma ProcessTitlePagesReadsFirstTwo(textDir: Directory, listing: seq<string>)
    ensures var files := PageFilesByName(listing);
      && (ProcessTitlePages(textDir, listing).None? <==>
        |files| < 2 || (LoadPageText(textDir, files[0]) == "" && LoadPageText(textDir, files[1]) == ""))
      && (|files| >= 2 ==>
        files[0] in listing && files[1] in listing && IsPageFile(files[0]) && IsPageFile(files[1])
        && (forall x :: x in listing && IsPageFile(x) ==> Ordering.LexLessEq(files[0], x))
        && (forall x :: x in listing && IsPageFile(x) && x != files[0] ==> Ordering.LexLessEq(files[1], x)))
  {
    var f := Seqs.Filter(listing, IsPageFile);
    var files := PageFilesByName(listing);
    if |files| >= 2 {
      assert files[0] in multiset(f) && files[1] in multiset(f) by {
        assert files[0] in multiset(files) && files[1] in multiset(files);
      }
      forall x | x in listing && IsPageFile(x)
        ensures Ordering.LexLessEq(files[0], x)
        ensures x != files[0] ==> Ordering.LexLessEq(files[1], x)
      {
        assert x in multiset(files) by { assert x in f; }
        var k :| 0 <= k < |files| && files[k] == x;
        Ordering.LexLessIrreflexive(x);
        if k > 0 { assert Ordering.LexLessEq(files[0], files[k]); }
        if k > 1 { assert Ordering.LexLessEq(files[1], files[k]); }
      }
    }
  }
}
