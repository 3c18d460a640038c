/** The template and tag handlers of the JPS 1917 MediaWiki processor: each
    turns one parsed template or tag, with its nested content already
    processed, into an XML string. A handler sees a template as its name and
    parameters, and a tag as its name, attributes and contents text. */
module MediaWikiHandlers {
  import opened Wrappers
  import PyStr

  // ---------------------------------------------------------------------
  // Templates

  /** A template parameter as a handler sees it: `str(param)` is
      `name=value` when the name was written out (`showkey`) and `value`
      otherwise. Positional parameters are named "1", "2", ... */
  datatype Arg = Arg(name: string, value: string, showKey: bool)

  /** A template handed to a handler. */
  datatype TemplateCall = TemplateCall(name: string, args: seq<Arg>)

  function ArgText(a: Arg): string
  {
    if a.showKey then a.name + "=" + a.value else a.value
  }

  /** Whether a parameter answers to `key`: names are compared stripped. */
  predicate Answers(a: Arg, key: string)
  {
    PyStr.Strip(a.name) == key
  }

  /** `str(template.get(key, default))`: the text of the last parameter
      answering to `key`, or the default. */
  function Get(args: seq<Arg>, key: string, default: string): string
    decreases |args|
  {
    if |args| == 0 then default
    else if Answers(args[|args| - 1], key) then ArgText(args[|args| - 1])
    else Get(args[..|args| - 1], key, default)
  }

  /** `str(template.get(key, default))` where only the parameter's value is
      wanted, so a written-out name is not part of it. */
  function GetValue(args: seq<Arg>, key: string, default: string): string
    decreases |args|
  {
    if |args| == 0 then default
    else if Answers(args[|args| - 1], key) then args[|args| - 1].value
    else GetValue(args[..|args| - 1], key, default)
  }

  /** With no parameter answering to the key, the default is returned. */
  lemma {:induction false} GetDefault(args: seq<Arg>, key: string, default: string)
    requires forall i :: 0 <= i < |args| ==> !Answers(args[i], key)
    ensures Get(args, key, default) == default && GetValue(args, key, default) == default
    decreases |args|
  {
    if |args| > 0 {
      var init := args[..|args| - 1];
      assert forall i :: 0 <= i < |init| ==> init[i] == args[i];
      GetDefault(init, key, default);
    }
  }

  /** The last parameter answering to the key wins. */
  lemma {:induction false} GetLast(args: seq<Arg>, key: string, default: string, i: nat)
    requires i < |args| && Answers(args[i], key)
    requires forall j :: i < j < |args| ==> !Answers(args[j], key)
    ensures Get(args, key, default) == ArgText(args[i]) && GetValue(args, key, default) == args[i].value
    decreases |args|
  {
    if i < |args| - 1 {
      var init := args[..|args| - 1];
      assert forall j :: 0 <= j < |init| ==> init[j] == args[j];
      GetLast(init, key, default, i);
    }
  }

  /** Adding a parameter at the end. */
  lemma GetSnoc(args: seq<Arg>, a: Arg, key: string, default: string)
    ensures Get(args + [a], key, default) == if Answers(a, key) then ArgText(a) else Get(args, key, default)
    ensures GetValue(args + [a], key, default) == if Answers(a, key) then a.value else GetValue(args, key, default)
  {
    assert (args + [a])[..|args|] == args;
  }

  /** The kinds of template handler the processor is built with, and the
      handlers callers add. `Wrap(e)` puts the first positional parameter
      between `<e>` and `</e>`; `Fixed(t)` always gives `t`. */
  datatype TemplateHandler =
    | Wrap(element: string)
    | Fixed(text: string)
    | Verse
    | Dhr
    | Anchor
    | AnchorPlus
    | Lang
    | Asterisks
    | Reconstruct
    | Bar
    | Gap
    | OverfloatLeft
    | CustomTemplate(f: TemplateCall -> Result<string, string>)

  function Quoted(name: string, value: string): string
  {
    name + "=\"" + value + "\""
  }

  /** `_handle_verse` as written: the chapter and verse lose a written-out
      `chapter=` or `verse=`, the text does not lose its `text=`. */
  function VerseAsWritten(args: seq<Arg>): string
  {
    var chapter := PyStr.Replace(Get(args, "chapter", Get(args, "1", "")), "chapter=", "");
    var verse := PyStr.Replace(Get(args, "verse", Get(args, "2", "")), "verse=", "");
    var text := Get(args, "3", Get(args, "text", ""));
    VerseXml(chapter, verse, text)
  }

  /** `_handle_verse` with the text taken as the parameter's value, as the
      chapter and verse are. */
  function VerseOf(args: seq<Arg>): string
  {
    var chapter := PyStr.Replace(Get(args, "chapter", Get(args, "1", "")), "chapter=", "");
    var verse := PyStr.Replace(Get(args, "verse", Get(args, "2", "")), "verse=", "");
    var text := GetValue(args, "3", GetValue(args, "text", ""));
    VerseXml(chapter, verse, text)
  }

  function VerseXml(chapter: string, verse: string, text: string): string
  {
    "<verse" + (if chapter != "" then " " + Quoted("chapter", chapter) else "")
    + (if verse != "" then " " + Quoted("verse", verse) else "") + ">" + text + "</verse>"
  }

  /** `align.replace('align=', '') if align.startswith('align=') else align` */
  function CleanPrefix(s: string, prefix: string): string
    requires |prefix| > 0
  {
    if PyStr.StartsWith(s, prefix) then PyStr.Replace(s, prefix, "") else s
  }

  /** `' ' + ' '.join(attributes) if attributes else ''` */
  function AttrString(attrs: seq<string>): string
  {
    if |attrs| == 0 then "" else " " + PyStr.Join(attrs, " ")
  }

  function OverfloatLeftOf(args: seq<Arg>): string
  {
    OverfloatXml(CleanPrefix(Get(args, "align", Get(args, "1", "")), "align="),
      CleanPrefix(Get(args, "padding", Get(args, "2", "")), "padding="),
      CleanPrefix(Get(args, "text", Get(args, "3", "")), "text="))
  }

  function OverfloatXml(align: string, padding: string, text: string): string
  {
    var attrs := (if align != "" then [Quoted("align", align)] else [])
      + (if padding != "" then [Quoted("padding", padding)] else []);
    "<overfloat_left" + AttrString(attrs) + ">" + text + "</overfloat_left>"
  }

  /** Running a template handler; only handlers added by callers can fail
      (raise). */
  function ApplyTemplate(h: TemplateHandler, call: TemplateCall): Result<string, string>
  {
    var a := call.args;
    match h
    case Wrap(e) => Ok("<" + e + ">" + Get(a, "1", "") + "</" + e + ">")
    case Fixed(t) => Ok(t)
    case Verse => Ok(VerseOf(a))
    case Dhr =>
      var v := Get(a, "1", "");
      Ok("<dhr" + (if v != "" then " " + Quoted("value", v) else "") + "/>")
    case Anchor => Ok("<anchor " + Quoted("name", Get(a, "1", "")) + "/>")
    case AnchorPlus => Ok("<anchor " + Quoted("name", Get(a, "1", "")) + ">" + Get(a, "2", "") + "</anchor>")
    case Lang => Ok("<lang " + Quoted("code", Get(a, "1", "")) + ">" + Get(a, "2", "") + "</lang>")
    case Asterisks => Ok("<asterisks " + Quoted("n", Get(a, "1", "3")) + ">***</asterisks>")
    case Reconstruct =>
      Ok("<reconstruct><reg>" + Get(a, "1", "") + "</reg><note>" + Get(a, "2", "") + "</note></reconstruct>")
    case Bar => Ok("<bar " + Quoted("length", Get(a, "1", "6")) + "/>")
    case Gap =>
      var n := Get(a, "1", "");
      Ok(if n != "" then "<gap " + Quoted("length", n) + "/>" else "<gap/>")
    case OverfloatLeft => Ok(OverfloatLeftOf(a))
    case CustomTemplate(f) => f(call)
  }

  /** `_initialize_template_handlers` */
  function BuiltinTemplates(): map<string, TemplateHandler>
  {
    map[
      "sc" := Wrap("sc"), "larger" := Wrap("larger"), "x-larger" := Wrap("x-larger"),
      "xx-larger" := Wrap("xx-larger"), "xxx-larger" := Wrap("xxx-larger"), "smaller" := Wrap("smaller"),
      "c" := Wrap("c"), "right" := Wrap("right"), "rule" := Fixed("<rule/>"), "nop" := Fixed("<nop/>"),
      "verse" := Verse, "rh" := Wrap("rh"), "dropinitial" := Wrap("dropinitial"), "dhr" := Dhr,
      "anchor" := Anchor, "anchor+" := AnchorPlus, "lang" := Lang, "smallrefs" := Fixed("<smallrefs/>"),
      "hws" := Wrap("hws"), "hwe" := Wrap("hwe"), "***" := Asterisks, "reconstruct" := Reconstruct,
      "SIC" := Wrap("sic"), "sic" := Wrap("sic"), "sup" := Wrap("sup"), "bar" := Bar, "gap" := Gap,
      "overfloat left" := OverfloatLeft, "float right" := Wrap("float_right"),
      "smaller block/s" := Fixed("<smaller_block>"), "smaller block/e" := Fixed("</smaller_block>")
    ]
  }

  predicate IsCustomTemplate(h: TemplateHandler)
  {
    h.CustomTemplate?
  }

  /** No handler the processor is built with can fail. */
  lemma BuiltinTemplatesNeverFail(name: string, call: TemplateCall)
    requires name in BuiltinTemplates()
    ensures !IsCustomTemplate(BuiltinTemplates()[name])
    ensures ApplyTemplate(BuiltinTemplates()[name], call).Ok?
  {
  }

  /** A parameter name made of digits is its own strip. */
  lemma StripDigits(s: string)
    requires PyStr.IsDigits(s)
    ensures PyStr.Strip(s) == s
  {
    PyStr.StripUnpadded(s);
  }

  /** `{{gap}}` gives `<gap/>` and `{{gap|n}}` gives `<gap length="n"/>`. */
  lemma GapDefaults(name: string, n: string)
    ensures ApplyTemplate(Gap, TemplateCall(name, [])) == Ok("<gap/>")
    ensures n != "" ==> ApplyTemplate(Gap, TemplateCall(name, [Arg("1", n, false)])) == Ok("<gap length=\"" + n + "\"/>")
  {
    FirstOfOne(n);
    assert "<gap " + Quoted("length", n) + "/>" == "<gap length=\"" + n + "\"/>";
  }

  /** The first positional parameter of a call with one parameter. */
  lemma FirstOfOne(x: string)
    ensures Get([Arg("1", x, false)], "1", "") == x
  {
    StripDigits("1");
    GetSnoc([], Arg("1", x, false), "1", "");
    assert [] + [Arg("1", x, false)] == [Arg("1", x, false)];
  }

  /** `{{***}}` gives three asterisks with `n="3"`. */
  lemma AsterisksDefault(name: string)
    ensures ApplyTemplate(Asterisks, TemplateCall(name, [])) == Ok("<asterisks n=\"3\">***</asterisks>")
  {
    assert Get([], "1", "3") == "3";
    assert Quoted("n", "3") == "n=\"3\"";
    assert "<asterisks " + "n=\"3\"" + ">***</asterisks>" == "<asterisks n=\"3\">***</asterisks>";
  }

  /** `{{bar}}` gives a bar of length 6. */
  lemma BarDefault(name: string)
    ensures ApplyTemplate(Bar, TemplateCall(name, [])) == Ok("<bar length=\"6\"/>")
  {
    assert Get([], "1", "6") == "6";
    assert Quoted("length", "6") == "length=\"6\"";
    assert "<bar " + "length=\"6\"" + "/>" == "<bar length=\"6\"/>";
  }

  /** `{{dhr}}` gives `<dhr/>` and `{{dhr|v}}` gives `<dhr value="v"/>`. */
  lemma DhrDefaults(name: string, v: string)
    ensures ApplyTemplate(Dhr, TemplateCall(name, [])) == Ok("<dhr/>")
    ensures v != "" ==> ApplyTemplate(Dhr, TemplateCall(name, [Arg("1", v, false)])) == Ok("<dhr value=\"" + v + "\"/>")
  {
    assert Get([], "1", "") == "";
    assert "<dhr" + "" + "/>" == "<dhr/>";
    if v != "" {
      FirstOfOne(v);
      assert ApplyTemplate(Dhr, TemplateCall(name, [Arg("1", v, false)])) == Ok("<dhr" + (" " + Quoted("value", v)) + "/>");
      assert "<dhr" + (" " + Quoted("value", v)) + "/>" == "<dhr value=\"" + v + "\"/>";
    }
  }

  /** `{{e|x}}` for a wrapping template gives `<e>x</e>`. */
  lemma WrapArgument(e: string, name: string, x: string)
    ensures ApplyTemplate(Wrap(e), TemplateCall(name, [Arg("1", x, false)])) == Ok("<" + e + ">" + x + "</" + e + ">")
  {
    FirstOfOne(x);
  }

  /** The positional arguments of `{{verse|C|V|T}}`. */
  function VerseArgs(c: string, v: string, t: string): seq<Arg>
  {
    [Arg("1", c, false), Arg("2", v, false), Arg("3", t, false)]
  }

  /** The named arguments of `{{verse|chapter=C|verse=V|text=T}}`. */
  function NamedVerseArgs(c: string, v: string, t: string): seq<Arg>
  {
    [Arg("chapter", c, true), Arg("verse", v, true), Arg("text", t, true)]
  }

  lemma ArgNames()
    ensures PyStr.Strip("1") == "1" && PyStr.Strip("2") == "2" && PyStr.Strip("3") == "3"
    ensures PyStr.Strip("chapter") == "chapter" && PyStr.Strip("verse") == "verse" && PyStr.Strip("text") == "text"
  {
    StripDigits("1");
    StripDigits("2");
    StripDigits("3");
    PyStr.StripUnpadded("chapter");
    PyStr.StripUnpadded("verse");
    PyStr.StripUnpadded("text");
  }

  /** The verse element with both attributes present. */
  lemma VerseXmlFull(c: string, v: string, t: string)
    requires c != "" && v != ""
    ensures VerseXml(c, v, t) == "<verse chapter=\"" + c + "\" verse=\"" + v + "\">" + t + "</verse>"
  {
  }

  /** Three parameters looked up by the last one's key. */
  lemma GetOfThree(a0: Arg, a1: Arg, a2: Arg, key: string, default: string)
    ensures var a := [a0, a1, a2];
      Get(a, key, default) == (if Answers(a2, key) then ArgText(a2) else if Answers(a1, key) then ArgText(a1)
        else if Answers(a0, key) then ArgText(a0) else default)
    ensures var a := [a0, a1, a2];
      GetValue(a, key, default) == (if Answers(a2, key) then a2.value else if Answers(a1, key) then a1.value
        else if Answers(a0, key) then a0.value else default)
  {
    GetSnoc([], a0, key, default);
    GetSnoc([a0], a1, key, default);
    GetSnoc([a0, a1], a2, key, default);
    assert [] + [a0] == [a0] && [a0] + [a1] == [a0, a1] && [a0, a1] + [a2] == [a0, a1, a2];
  }

  /** `{{verse|C|V|T}}` gives `<verse chapter="C" verse="V">T</verse>`. */
  lemma VersePositional(c: string, v: string, t: string)
    requires c != "" && v != "" && !PyStr.Contains(c, "chapter=") && !PyStr.Contains(v, "verse=")
    ensures VerseOf(VerseArgs(c, v, t)) == "<verse chapter=\"" + c + "\" verse=\"" + v + "\">" + t + "</verse>"
  {
    ArgNames();
    var a := VerseArgs(c, v, t);
    GetOfThree(a[0], a[1], a[2], "1", "");
    GetOfThree(a[0], a[1], a[2], "chapter", c);
    GetOfThree(a[0], a[1], a[2], "2", "");
    GetOfThree(a[0], a[1], a[2], "verse", v);
    GetOfThree(a[0], a[1], a[2], "text", "");
    GetOfThree(a[0], a[1], a[2], "3", GetValue(a, "text", ""));
    PyStr.ReplaceAbsent(c, "chapter=", "");
    PyStr.ReplaceAbsent(v, "verse=", "");
    VerseXmlFull(c, v, t);
  }

  /** A written-out parameter name is dropped from the chapter and the
      verse, and from the text. */
  lemma VerseNamed(c: string, v: string, t: string)
    requires c != "" && v != "" && !PyStr.Contains(c, "chapter=") && !PyStr.Contains(v, "verse=")
    ensures VerseOf(NamedVerseArgs(c, v, t)) == "<verse chapter=\"" + c + "\" verse=\"" + v + "\">" + t + "</verse>"
  {
    ArgNames();
    var a := NamedVerseArgs(c, v, t);
    NamedChapterVerse(c, v, t);
    GetOfThree(a[0], a[1], a[2], "text", "");
    GetOfThree(a[0], a[1], a[2], "3", t);
    VerseXmlFull(c, v, t);
  }

  /** As written, the named text keeps its `text=`. */
  lemma VerseNamedAsWritten(c: string, v: string, t: string)
    requires c != "" && v != "" && !PyStr.Contains(c, "chapter=") && !PyStr.Contains(v, "verse=")
    ensures VerseAsWritten(NamedVerseArgs(c, v, t)) == "<verse chapter=\"" + c + "\" verse=\"" + v + "\">" + ("text=" + t) + "</verse>"
  {
    ArgNames();
    var a := NamedVerseArgs(c, v, t);
    NamedChapterVerse(c, v, t);
    GetOfThree(a[0], a[1], a[2], "text", "");
    assert ArgText(a[2]) == "text=" + t;
    GetOfThree(a[0], a[1], a[2], "3", "text=" + t);
    VerseXmlFull(c, v, "text=" + t);
  }

  /** The chapter and verse of `{{verse|chapter=C|verse=V|...}}`. */
  lemma NamedChapterVerse(c: string, v: string, t: string)
    requires !PyStr.Contains(c, "chapter=") && !PyStr.Contains(v, "verse=")
    ensures var a := NamedVerseArgs(c, v, t);
      PyStr.Replace(Get(a, "chapter", Get(a, "1", "")), "chapter=", "") == c
      && PyStr.Replace(Get(a, "verse", Get(a, "2", "")), "verse=", "") == v
  {
    ArgNames();
    var a := NamedVerseArgs(c, v, t);
    GetOfThree(a[0], a[1], a[2], "chapter", Get(a, "1", ""));
    assert Get(a, "chapter", Get(a, "1", "")) == "chapter=" + c;
    GetOfThree(a[0], a[1], a[2], "verse", Get(a, "2", ""));
    assert Get(a, "verse", Get(a, "2", "")) == "verse=" + v;
    DropWrittenName("chapter=", c);
    DropWrittenName("verse=", v);
  }

  /** Removing a written-out name from the front of a value that does not
      repeat it. */
  lemma DropWrittenName(p: string, x: string)
    requires |p| > 0 && !PyStr.Contains(x, p)
    ensures PyStr.Replace(p + x, p, "") == x
  {
    PyStr.ReplaceAtStart(p, x, "");
    PyStr.ReplaceAbsent(x, p, "");
  }

  /** The named arguments of `{{overfloat left|align=A|padding=P|text=T}}`. */
  function NamedOverfloatArgs(al: string, pad: string, t: string): seq<Arg>
  {
    [Arg("align", al, true), Arg("padding", pad, true), Arg("text", t, true)]
  }

  /** A written-out name is removed from each of the three parameters. */
  lemma OverfloatLeftNamed(al: string, pad: string, t: string)
    requires al != "" && pad != ""
    requires !PyStr.Contains(al, "align=") && !PyStr.Contains(pad, "padding=") && !PyStr.Contains(t, "text=")
    ensures OverfloatLeftOf(NamedOverfloatArgs(al, pad, t))
      == "<overfloat_left" + " " + Quoted("align", al) + " " + Quoted("padding", pad) + ">" + t + "</overfloat_left>"
  {
    var a := NamedOverfloatArgs(al, pad, t);
    NamedOverfloatGet(al, pad, t, Get(a, "1", ""), Get(a, "2", ""), Get(a, "3", ""));
    CleanWrittenName("align=", al);
    CleanWrittenName("padding=", pad);
    CleanWrittenName("text=", t);
    OverfloatFromParts(a, al, pad, t);
  }

  lemma NamedOverfloatGet(al: string, pad: string, t: string, d1: string, d2: string, d3: string)
    ensures var a := NamedOverfloatArgs(al, pad, t);
      Get(a, "align", d1) == "align=" + al && Get(a, "padding", d2) == "padding=" + pad
      && Get(a, "text", d3) == "text=" + t
  {
    OverfloatNames();
    var a := NamedOverfloatArgs(al, pad, t);
    GetOfThree(a[0], a[1], a[2], "align", d1);
    assert Get(a, "align", d1) == "align=" + al;
    GetOfThree(a[0], a[1], a[2], "padding", d2);
    assert Get(a, "padding", d2) == "padding=" + pad;
    GetOfThree(a[0], a[1], a[2], "text", d3);
  }

  lemma OverfloatNames()
    ensures PyStr.Strip("align") == "align" && PyStr.Strip("padding") == "padding" && PyStr.Strip("text") == "text"
  {
    PyStr.StripUnpadded("align");
    PyStr.StripUnpadded("padding");
    PyStr.StripUnpadded("text");
  }

  lemma OverfloatFromParts(args: seq<Arg>, al: string, pad: string, t: string)
    requires al != "" && pad != ""
    requires CleanPrefix(Get(args, "align", Get(args, "1", "")), "align=") == al
    requires CleanPrefix(Get(args, "padding", Get(args, "2", "")), "padding=") == pad
    requires CleanPrefix(Get(args, "text", Get(args, "3", "")), "text=") == t
    ensures OverfloatLeftOf(args)
      == "<overfloat_left" + " " + Quoted("align", al) + " " + Quoted("padding", pad) + ">" + t + "</overfloat_left>"
  {
    OverfloatXmlFull(al, pad, t);
  }

  lemma OverfloatXmlFull(al: string, pad: string, t: string)
    requires al != "" && pad != ""
    ensures OverfloatXml(al, pad, t)
      == "<overfloat_left" + " " + Quoted("align", al) + " " + Quoted("padding", pad) + ">" + t + "</overfloat_left>"
  {
    var x, y := Quoted("align", al), Quoted("padding", pad);
    assert (if al != "" then [x] else []) + (if pad != "" then [y] else []) == [x, y];
    JoinTwo(x, y);
    assert "<overfloat_left" + (" " + x + " " + y) == "<overfloat_left" + " " + x + " " + y;
  }

  lemma JoinTwo(x: string, y: string)
    ensures AttrString([x, y]) == " " + x + " " + y
  {
    assert [x, y][1..] == [y];
    assert PyStr.Join([y], " ") == y;
    assert PyStr.Join([x, y], " ") == x + " " + y;
  }

  lemma CleanWrittenName(p: string, x: string)
    requires |p| > 0 && !PyStr.Contains(x, p)
    ensures CleanPrefix(p + x, p) == x
  {
    assert (p + x)[..|p|] == p;
    DropWrittenName(p, x);
  }

  // ---------------------------------------------------------------------
  // Tags

  /** A tag attribute. An attribute written without a value has none, and
      `str(None)` is "None". */
  datatype Attr = Attr(name: string, value: Option<string>)

  /** A tag handed to a handler: its lower-cased name, its attributes and
      its contents text. */
  datatype TagCall = TagCall(name: string, attrs: seq<Attr>, contents: string)

  function AttrValue(a: Attr): string
  {
    match a.value
    case Some(v) => v
    case None => "None"
  }

  /** `attributes[name] = value` on a dictionary kept in insertion order: a
      name already present keeps its place and takes the new value. */
  function Put(d: seq<(string, string)>, k: string, v: string): seq<(string, string)>
    decreases |d|
  {
    if |d| == 0 then [(k, v)]
    else if d[0].0 == k then [(k, v)] + d[1..]
    else [d[0]] + Put(d[1..], k, v)
  }

  /** `_extract_tag_attributes` */
  function AttrDict(attrs: seq<Attr>): seq<(string, string)>
    decreases |attrs|
  {
    if |attrs| == 0 then []
    else Put(AttrDict(attrs[..|attrs| - 1]), attrs[|attrs| - 1].name, AttrValue(attrs[|attrs| - 1]))
  }

  function Keys(d: seq<(string, string)>): seq<string>
    decreases |d|
  {
    if |d| == 0 then [] else [d[0].0] + Keys(d[1..])
  }

  function Lookup(d: seq<(string, string)>, k: string): Option<string>
    decreases |d|
  {
    if |d| == 0 then None else if d[0].0 == k then Some(d[0].1) else Lookup(d[1..], k)
  }

  /** The value of the last attribute named `k`. */
  function LastValue(attrs: seq<Attr>, k: string): Option<string>
    decreases |attrs|
  {
    if |attrs| == 0 then None
    else if attrs[|attrs| - 1].name == k then Some(AttrValue(attrs[|attrs| - 1]))
    else LastValue(attrs[..|attrs| - 1], k)
  }

  /** Each name at its first occurrence. */
  function FirstOccurrences(names: seq<string>): seq<string>
    decreases |names|
  {
    if |names| == 0 then []
    else
      var init := FirstOccurrences(names[..|names| - 1]);
      if names[|names| - 1] in init then init else init + [names[|names| - 1]]
  }

  function Names(attrs: seq<Attr>): (r: seq<string>)
    ensures |r| == |attrs|
    decreases |attrs|
  {
    if |attrs| == 0 then [] else Names(attrs[..|attrs| - 1]) + [attrs[|attrs| - 1].name]
  }

  predicate NoDuplicates(s: seq<string>)
  {
    forall i, j :: 0 <= i < j < |s| ==> s[i] != s[j]
  }

  lemma {:induction false} PutKeys(d: seq<(string, string)>, k: string, v: string)
    ensures Keys(Put(d, k, v)) == if k in Keys(d) then Keys(d) else Keys(d) + [k]
    decreases |d|
  {
    if |d| > 0 && d[0].0 != k {
      PutKeys(d[1..], k, v);
      assert Keys(d) == [d[0].0] + Keys(d[1..]);
    }
  }

  lemma {:induction false} PutLookup(d: seq<(string, string)>, k: string, v: string, q: string)
    ensures Lookup(Put(d, k, v), q) == if q == k then Some(v) else Lookup(d, q)
    decreases |d|
  {
    if |d| > 0 && d[0].0 != k {
      PutLookup(d[1..], k, v, q);
    }
  }

  lemma {:induction false} FirstOccurrencesDistinct(names: seq<string>)
    ensures NoDuplicates(FirstOccurrences(names))
    decreases |names|
  {
    if |names| > 0 {
      FirstOccurrencesDistinct(names[..|names| - 1]);
    }
  }

  /** The attribute dictionary has one entry per name, in the order the
      names first appear, holding the value of the name's last attribute. */
  lemma {:induction false} AttrDictMeans(attrs: seq<Attr>, q: string)
    ensures Keys(AttrDict(attrs)) == FirstOccurrences(Names(attrs))
    ensures NoDuplicates(Keys(AttrDict(attrs)))
    ensures Lookup(AttrDict(attrs), q) == LastValue(attrs, q)
    decreases |attrs|
  {
    if |attrs| > 0 {
      var init := attrs[..|attrs| - 1];
      var a := attrs[|attrs| - 1];
      AttrDictMeans(init, q);
      PutKeys(AttrDict(init), a.name, AttrValue(a));
      PutLookup(AttrDict(init), a.name, AttrValue(a), q);
      assert Names(attrs) == Names(init) + [a.name];
      assert Names(attrs)[..|attrs| - 1] == Names(init);
      assert Names(attrs)[|attrs| - 1] == a.name;
    }
    FirstOccurrencesDistinct(Names(attrs));
  }

  /** `' '.join(f'{k}="{v}"' for k, v in attributes.items())`, with its
      leading space. */
  function DictString(d: seq<(string, string)>): string
  {
    AttrString(QuotedPairs(d))
  }

  function QuotedPairs(d: seq<(string, string)>): (r: seq<string>)
    ensures |r| == |d|
    decreases |d|
  {
    if |d| == 0 then [] else [Quoted(d[0].0, d[0].1)] + QuotedPairs(d[1..])
  }

  predicate IsSectionBound(name: string)
  {
    name == "begin" || name == "end"
  }

  /** The attributes `_handle_section` keeps: those named `begin` or `end`,
      in order, repeats included. */
  function SectionAttrs(attrs: seq<Attr>): (r: seq<Attr>)
    ensures forall a :: a in r <==> a in attrs && IsSectionBound(a.name)
    ensures |r| <= |attrs|
    decreases |attrs|
  {
    if |attrs| == 0 then []
    else (if IsSectionBound(attrs[0].name) then [attrs[0]] else []) + SectionAttrs(attrs[1..])
  }

  function SectionStrings(attrs: seq<Attr>): (r: seq<string>)
    ensures |r| == |attrs|
    decreases |attrs|
  {
    if |attrs| == 0 then [] else [Quoted(attrs[0].name, AttrValue(attrs[0]))] + SectionStrings(attrs[1..])
  }

  /** The kinds of tag handler the processor is built with, and the
      handlers callers add. */
  datatype TagHandler =
    | Section
    | Element(element: string)
    | LineBreak
    | CustomTag(f: TagCall -> Result<string, string>)

  function ApplyTag(h: TagHandler, call: TagCall): Result<string, string>
  {
    match h
    case Section =>
      Ok("<section" + AttrString(SectionStrings(SectionAttrs(call.attrs))) + ">" + call.contents + "</section>")
    case Element(e) =>
      Ok("<" + e + DictString(AttrDict(call.attrs)) + ">" + call.contents + "</" + e + ">")
    case LineBreak => Ok("<br" + DictString(AttrDict(call.attrs)) + "/>")
    case CustomTag(f) => f(call)
  }

  /** `_initialize_tag_handlers` */
  function BuiltinTags(): map<string, TagHandler>
  {
    map[
      "section" := Section, "table" := Element("table"), "tr" := Element("tr"), "td" := Element("td"),
      "i" := Element("i"), "br" := LineBreak, "span" := Element("span"), "dd" := Element("dd"),
      "ref" := Element("ref"), "noinclude" := Element("noinclude"), "pagequality" := Element("pagequality")
    ]
  }

  predicate IsCustomTag(h: TagHandler)
  {
    h.CustomTag?
  }

  /** No tag handler the processor is built with can fail. */
  lemma BuiltinTagsNeverFail(name: string, call: TagCall)
    requires name in BuiltinTags()
    ensures !IsCustomTag(BuiltinTags()[name])
    ensures ApplyTag(BuiltinTags()[name], call).Ok?
  {
  }

  /** A tag without attributes keeps its contents between an opening and a
      closing tag of the same name, and `<br>` becomes `<br/>`. */
  lemma PlainTags(e: string, name: string, contents: string)
    ensures ApplyTag(Element(e), TagCall(name, [], contents)) == Ok("<" + e + ">" + contents + "</" + e + ">")
    ensures ApplyTag(LineBreak, TagCall(name, [], contents)) == Ok("<br/>")
    ensures ApplyTag(Section, TagCall(name, [], contents)) == Ok("<section>" + contents + "</section>")
  {
    assert DictString(AttrDict([])) == "";
    assert "<" + e + "" == "<" + e;
    assert "<br" + "" + "/>" == "<br/>";
    assert AttrString(SectionStrings(SectionAttrs([]))) == "";
    assert "<section" + "" + ">" == "<section>";
  }

  /** `<section begin="x"/>`-style attributes survive and nothing else does. */
  lemma SectionKeepsBounds(attrs: seq<Attr>)
    requires forall a :: a in attrs ==> IsSectionBound(a.name)
    ensures SectionAttrs(attrs) == attrs
    decreases |attrs|
  {
    if |attrs| > 0 {
      assert attrs[0] in attrs;
      assert forall a :: a in attrs[1..] ==> a in attrs;
      SectionKeepsBounds(attrs[1..]);
      assert attrs == [attrs[0]] + attrs[1..];
    }
  }
}
