/** The MediaWiki template and tag finder of the JPS 1917 importer: per page,
    the templates (or tags) of the parsed wikitext are tallied by name; over
    a range of pages the tallies are summed. The wikitext parser is given as
    its result: the templates and tags it found, in document order. */
module TemplateFinder {
  import opened Wrappers
  import PyStr
  import Pages
  import Ordering

  /** A template parameter: its name ("1", "2", ... for a positional one) and its value. */
  datatype Param = Param(name: string, value: string)

  /** A template as the parser gives it: its name, parameters and source. */
  datatype TemplateNode = TemplateNode(name: string, params: seq<Param>, full: string)

  /** A tag: its name, the names of its attributes, its source, its contents
      and whether it closes itself. */
  datatype TagNode = TagNode(tag: string, attributes: seq<string>, full: string, contents: string, selfClosing: bool)

  /** What the parser makes of a page. */
  datatype Wikicode = Wikicode(templates: seq<TemplateNode>, tags: seq<TagNode>)

  /** The example stored for a template. */
  datatype TemplateExample = TemplateExample(full: string, parameters: map<string, string>)

  /** The example stored for a tag; its attribute dictionary is always
      empty, because the parser lists attributes rather than mapping them. */
  datatype TagExample = TagExample(full: string, contents: Option<string>, selfClosing: bool)

  /** One occurrence to tally: its name, the names it carries (parameters
      or attributes) and its example. */
  datatype Item<E> = Item(key: string, names: set<string>, example: E)

  /** The per-page entry of a name: `count`, the set of parameter or
      attribute names, and `examples`. */
  datatype Info<E> = Info(count: nat, names: set<string>, examples: seq<E>)

  // ---------------------------------------------------------------------
  // One page

  /** `str(param.name).strip() if param.name else "unnamed"` */
  function ParamName(p: Param): string
  {
    if p.name != "" then PyStr.Strip(p.name) else "unnamed"
  }

  /** The example's parameter dictionary; a later parameter of the same
      name wins. */
  function ParamMap(params: seq<Param>): (m: map<string, string>)
    ensures m.Keys == set p | p in params :: ParamName(p)
  {
    if |params| == 0 then map[]
    else
      var last := params[|params| - 1];
      var front := params[..|params| - 1];
      var m := ParamMap(front)[ParamName(last) := PyStr.Strip(last.value)];
      assert forall p :: p in params <==> p in front || p == last by {
        assert params == front + [last];
      }
      m
  }

  function TemplateItem(t: TemplateNode): Item<TemplateExample>
  {
    Item(PyStr.Strip(t.name), set p | p in t.params :: ParamName(p), TemplateExample(t.full, ParamMap(t.params)))
  }

  function TagItem(t: TagNode): Item<TagExample>
  {
    Item(PyStr.Lower(PyStr.Strip(t.tag)), (set a | a in t.attributes),
         TagExample(t.full, if t.contents != "" then Some(t.contents) else None, t.selfClosing))
  }

  function TemplateItems(ts: seq<TemplateNode>): (r: seq<Item<TemplateExample>>)
    ensures |r| == |ts| && forall k :: 0 <= k < |ts| ==> r[k] == TemplateItem(ts[k])
  {
    seq(|ts|, k requires 0 <= k < |ts| => TemplateItem(ts[k]))
  }

  function TagItems(ts: seq<TagNode>): (r: seq<Item<TagExample>>)
    ensures |r| == |ts| && forall k :: 0 <= k < |ts| ==> r[k] == TagItem(ts[k])
  {
    seq(|ts|, k requires 0 <= k < |ts| => TagItem(ts[k]))
  }

  /** The entry a name has before its first occurrence. */
  function InfoOr<E>(m: map<string, Info<E>>, key: string): Info<E>
  {
    if key in m then m[key] else Info(0, {}, [])
  }

  /** Counting one more occurrence: the count rises, its names join the
      set, and its example is kept while fewer than two are. */
  function Add<E>(info: Info<E>, it: Item<E>): Info<E>
  {
    Info(info.count + 1, info.names + it.names,
         if |info.examples| < 2 then info.examples + [it.example] else info.examples)
  }

  /** The dictionary the per-page loop builds from `items`, in order. */
  function Tally<E>(items: seq<Item<E>>): map<string, Info<E>>
  {
    if |items| == 0 then map[]
    else
      var m := Tally(items[..|items| - 1]);
      var it := items[|items| - 1];
      m[it.key := Add(InfoOr(m, it.key), it)]
  }

  /** The loop of `extract_templates_from_wikitext` and
      `extract_tags_from_wikitext` over the parsed nodes. */
  method TallyItems<E>(items: seq<Item<E>>) returns (r: map<string, Info<E>>)
    ensures r == Tally(items)
  {
    r := map[];
    var i := 0;
    while i < |items|
      invariant 0 <= i <= |items|
      invariant r == Tally(items[..i])
    {
      var it := items[i];
      assert items[..i + 1][..i] == items[..i];
      r := r[it.key := Add(InfoOr(r, it.key), it)];
      i := i + 1;
    }
    assert items[..i] == items;
  }

  /** `extract_templates_from_wikitext`: a parse error gives {}. */
  method ExtractTemplates(parsed: Result<Wikicode, string>) returns (r: map<string, Info<TemplateExample>>)
    ensures parsed.Err? ==> r == map[]
    ensures parsed.Ok? ==> r == Tally(TemplateItems(parsed.value.templates))
  {
    if parsed.Err? {
      return map[];
    }
    r := TallyItems(TemplateItems(parsed.value.templates));
  }

  /** `extract_tags_from_wikitext`: a parse error gives {}. */
  method ExtractTags(parsed: Result<Wikicode, string>) returns (r: map<string, Info<TagExample>>)
    ensures parsed.Err? ==> r == map[]
    ensures parsed.Ok? ==> r == Tally(TagItems(parsed.value.tags))
  {
    if parsed.Err? {
      return map[];
    }
    r := TallyItems(TagItems(parsed.value.tags));
  }

  // ---------------------------------------------------------------------
  // Properties of one page

  /** The examples of the items named `key`, in order. */
  function Occurrences<E>(items: seq<Item<E>>, key: string): seq<E>
  {
    if |items| == 0 then []
    else
      var it := items[|items| - 1];
      Occurrences(items[..|items| - 1], key) + (if it.key == key then [it.example] else [])
  }

  /** The first `n` elements, or all of them when there are fewer. */
  function Take<T>(s: seq<T>, n: nat): (r: seq<T>)
    ensures |r| <= n && (|s| <= n ==> r == s) && (n <= |s| ==> r == s[..n])
  {
    if |s| <= n then s else s[..n]
  }

  /** The names tallied are exactly those that occur. For each, the count
      is the number of its occurrences, the examples are those of its first
      two occurrences, and the parameter or attribute names are those of
      all its occurrences. */
  lemma TallyMeans<E>(items: seq<Item<E>>, key: string)
    ensures key in Tally(items) <==> exists j :: 0 <= j < |items| && items[j].key == key
    ensures key in Tally(items) ==>
      Tally(items)[key].count == |Occurrences(items, key)|
      && Tally(items)[key].examples == Take(Occurrences(items, key), 2)
    ensures forall a :: a in InfoOr(Tally(items), key).names <==>
      exists j :: 0 <= j < |items| && items[j].key == key && a in items[j].names
  {
    TallyHasKey(items, key);
    TallyCounts(items, key);
    TallyNames(items, key);
  }

  lemma {:induction false} TallyHasKey<E>(items: seq<Item<E>>, key: string)
    ensures key in Tally(items) <==> exists j :: 0 <= j < |items| && items[j].key == key
  {
    if |items| > 0 {
      var front := items[..|items| - 1];
      TallyHasKey(front, key);
      assert forall j :: 0 <= j < |front| ==> items[j] == front[j];
      if items[|items| - 1].key != key {
        assert (exists j :: 0 <= j < |items| && items[j].key == key) ==> exists j :: 0 <= j < |front| && front[j].key == key;
      }
    }
  }

  lemma {:induction false} TallyCounts<E>(items: seq<Item<E>>, key: string)
    ensures key in Tally(items) ==>
      Tally(items)[key].count == |Occurrences(items, key)|
      && Tally(items)[key].examples == Take(Occurrences(items, key), 2)
  {
    if |items| > 0 {
      var front := items[..|items| - 1];
      var it := items[|items| - 1];
      TallyCounts(front, key);
      var occ := Occurrences(front, key);
      var m := Tally(front);
      if it.key == key {
        if key in m {
          if |occ| < 2 {
            assert Take(occ + [it.example], 2) == occ + [it.example];
          } else {
            assert (occ + [it.example])[..2] == occ[..2];
          }
        } else {
          TallyHasKey(front, key);
          NoOccurrences(front, key);
        }
      }
    }
  }

  lemma {:induction false} TallyNames<E>(items: seq<Item<E>>, key: string)
    ensures forall a :: a in InfoOr(Tally(items), key).names <==>
      exists j :: 0 <= j < |items| && items[j].key == key && a in items[j].names
  {
    if |items| > 0 {
      var front := items[..|items| - 1];
      var it := items[|items| - 1];
      TallyNames(front, key);
      assert forall j :: 0 <= j < |front| ==> items[j] == front[j];
      forall a ensures a in InfoOr(Tally(items), key).names <==>
        exists j :: 0 <= j < |items| && items[j].key == key && a in items[j].names
      {
        if exists j :: 0 <= j < |items| && items[j].key == key && a in items[j].names {
          var j :| 0 <= j < |items| && items[j].key == key && a in items[j].names;
          if j < |front| {
            assert front[j].key == key && a in front[j].names;
          }
        }
      }
    }
  }

  lemma {:induction false} NoOccurrences<E>(items: seq<Item<E>>, key: string)
    requires forall j :: 0 <= j < |items| ==> items[j].key != key
    ensures Occurrences(items, key) == []
  {
    if |items| > 0 {
      NoOccurrences(items[..|items| - 1], key);
    }
  }

  /** No name keeps more than two examples on one page. */
  lemma {:induction false} TallyKeepsTwoExamples<E>(items: seq<Item<E>>)
    ensures forall key :: key in Tally(items) ==> |Tally(items)[key].examples| <= 2
  {
    if |items| > 0 {
      TallyKeepsTwoExamples(items[..|items| - 1]);
    }
  }

  /** A page that parses to no templates, or does not parse, gives {}. */
  lemma NoTemplatesNoEntries(parsed: Result<Wikicode, string>)
    requires parsed.Ok? ==> parsed.value.templates == []
    ensures parsed.Ok? ==> Tally(TemplateItems(parsed.value.templates)) == map[]
  {
    if parsed.Ok? {
      assert TemplateItems(parsed.value.templates) == [];
    }
  }

  /** Templates are tallied by their stripped name, tags by their
      stripped, lower-cased name. */
  lemma TallyKeys(parsed: Wikicode, name: string)
    ensures name in Tally(TemplateItems(parsed.templates)) <==>
      exists j :: 0 <= j < |parsed.templates| && PyStr.Strip(parsed.templates[j].name) == name
    ensures name in Tally(TagItems(parsed.tags)) <==>
      exists j :: 0 <= j < |parsed.tags| && PyStr.Lower(PyStr.Strip(parsed.tags[j].tag)) == name
  {
    TallyMeans(TemplateItems(parsed.templates), name);
    TallyMeans(TagItems(parsed.tags), name);
  }

  // ---------------------------------------------------------------------
  // A range of pages

  /** The running totals of a name: `usage_count`, `pages_used`, the
      parameter or attribute names, and `examples`. */
  datatype Detail<E> = Detail(usage: nat, pagesUsed: set<int>, names: set<string>, examples: seq<E>)

  function DetailOr<E>(d: map<string, Detail<E>>, key: string): Detail<E>
  {
    if key in d then d[key] else Detail(0, {}, {}, [])
  }

  function CountOr(c: map<string, nat>, key: string): nat
  {
    if key in c then c[key] else 0
  }

  /** Adding one page's entry to a name's totals, as the code does: the
      page's examples are appended whenever fewer than three are stored. */
  function BumpAsWritten<E>(d: Detail<E>, page: int, info: Info<E>): Detail<E>
  {
    Detail(d.usage + info.count, d.pagesUsed + {page}, d.names + info.names,
           if |d.examples| < 3 then d.examples + info.examples else d.examples)
  }

  /** Adding one page's entry to a name's totals, keeping at most three
      examples as the comment at the site says it does. */
  function Bump<E>(d: Detail<E>, page: int, info: Info<E>): Detail<E>
  {
    var room := 3 - |d.examples|;
    Detail(d.usage + info.count, d.pagesUsed + {page}, d.names + info.names,
           if room > 0 then d.examples + Take(info.examples, room) else d.examples)
  }

  /** `Bump` adds the page's count, page and names, and tops the examples
      up to three with the page's first ones. */
  lemma BumpMeans<E>(d: Detail<E>, page: int, info: Info<E>)
    ensures var r := Bump(d, page, info);
      r.usage == d.usage + info.count && r.pagesUsed == d.pagesUsed + {page} && r.names == d.names + info.names
      && (|d.examples| <= 3 ==> |r.examples| <= 3)
      && (|d.examples| < 3 ==> r.examples <= d.examples + info.examples && |r.examples| == Min(3, |d.examples| + |info.examples|))
      && (|d.examples| >= 3 ==> r.examples == d.examples)
  {
    var r := Bump(d, page, info);
    if |d.examples| < 3 {
      var k := Min(3 - |d.examples|, |info.examples|);
      assert Take(info.examples, 3 - |d.examples|) == info.examples[..k];
      assert (d.examples + info.examples)[..|d.examples| + k] == d.examples + info.examples[..k];
    }
  }

  function Min(a: int, b: int): int
  {
    if a <= b then a else b
  }

  /** The counter after adding the entries of `keys`. */
  function MergeCounts<E>(c: map<string, nat>, t: map<string, Info<E>>, keys: set<string>): (r: map<string, nat>)
    requires keys <= t.Keys
    ensures r.Keys == c.Keys + keys
  {
    map n | n in c.Keys + keys :: CountOr(c, n) + (if n in keys then t[n].count else 0)
  }

  /** The details after adding the entries of `keys` for `page`. */
  function MergeDetails<E>(d: map<string, Detail<E>>, page: int, t: map<string, Info<E>>, keys: set<string>): (r: map<string, Detail<E>>)
    requires keys <= t.Keys
    ensures r.Keys == d.Keys + keys
  {
    map n | n in d.Keys + keys :: if n in keys then Bump(DetailOr(d, n), page, t[n]) else d[n]
  }

  /** The loop of `find_all_templates` and `find_all_tags` over one page's
      entries, in whatever order the dictionary yields them. */
  method MergePage<E>(counts: map<string, nat>, details: map<string, Detail<E>>, page: int, t: map<string, Info<E>>)
    returns (c: map<string, nat>, d: map<string, Detail<E>>)
    ensures c == MergeCounts(counts, t, t.Keys) && d == MergeDetails(details, page, t, t.Keys)
  {
    c, d := counts, details;
    var rest := t.Keys;
    while rest != {}
      invariant rest <= t.Keys
      invariant MergedSoFar(counts, details, page, t, t.Keys - rest, c, d)
      decreases |rest|
    {
      var n :| n in rest;
      MergeStep(counts, details, page, t, rest, c, d, n);
      c := c[n := CountOr(c, n) + t[n].count];
      d := d[n := Bump(DetailOr(d, n), page, t[n])];
      rest := rest - {n};
    }
    MergeAll(counts, details, page, t, rest, c, d);
  }

  /** The loop invariant of `MergePage`: the names of `done` have been
      added to the counter and the details, and no other name has. */
  ghost predicate MergedSoFar<E>(counts: map<string, nat>, details: map<string, Detail<E>>, page: int, t: map<string, Info<E>>,
                           done: set<string>, c: map<string, nat>, d: map<string, Detail<E>>)
  {
    done <= t.Keys
    && c.Keys == counts.Keys + done && d.Keys == details.Keys + done
    && (forall m :: m in c ==> c[m] == CountOr(counts, m) + (if m in done then t[m].count else 0))
    && (forall m :: m in d ==> d[m] == if m in done then Bump(DetailOr(details, m), page, t[m]) else details[m])
  }

  lemma MergeStep<E>(counts: map<string, nat>, details: map<string, Detail<E>>, page: int, t: map<string, Info<E>>,
                     rest: set<string>, c: map<string, nat>, d: map<string, Detail<E>>, n: string)
    requires rest <= t.Keys && MergedSoFar(counts, details, page, t, t.Keys - rest, c, d) && n in rest
    ensures MergedSoFar(counts, details, page, t, t.Keys - (rest - {n}),
                        c[n := CountOr(c, n) + t[n].count], d[n := Bump(DetailOr(d, n), page, t[n])])
  {
    var done := t.Keys - rest;
    var done' := t.Keys - (rest - {n});
    assert done' == done + {n};
    CountsStep(counts, t, done, done', c, n);
    DetailsStep(details, page, t, done, done', d, n);
  }

  lemma CountsStep<E>(counts: map<string, nat>, t: map<string, Info<E>>, done: set<string>, done': set<string>,
                      c: map<string, nat>, n: string)
    requires done <= t.Keys && c.Keys == counts.Keys + done && done' == done + {n}
    requires forall m :: m in c ==> c[m] == CountOr(counts, m) + (if m in done then t[m].count else 0)
    requires n in t && n !in done
    ensures var c' := c[n := CountOr(c, n) + t[n].count];
      done' <= t.Keys && c'.Keys == counts.Keys + done'
      && forall m :: m in c' ==> c'[m] == CountOr(counts, m) + (if m in done' then t[m].count else 0)
  {
    assert CountOr(c, n) == CountOr(counts, n);
  }

  lemma DetailsStep<E>(details: map<string, Detail<E>>, page: int, t: map<string, Info<E>>, done: set<string>, done': set<string>,
                       d: map<string, Detail<E>>, n: string)
    requires done <= t.Keys && d.Keys == details.Keys + done && done' == done + {n}
    requires forall m :: m in d ==> d[m] == if m in done then Bump(DetailOr(details, m), page, t[m]) else details[m]
    requires n in t && n !in done
    ensures var d' := d[n := Bump(DetailOr(d, n), page, t[n])];
      d'.Keys == details.Keys + done'
      && forall m :: m in d' ==> d'[m] == if m in done' then Bump(DetailOr(details, m), page, t[m]) else details[m]
  {
    assert DetailOr(d, n) == DetailOr(details, n);
  }

  /** The invariant with every name done is the merge. */
  lemma MergeAll<E>(counts: map<string, nat>, details: map<string, Detail<E>>, page: int, t: map<string, Info<E>>,
                    rest: set<string>, c: map<string, nat>, d: map<string, Detail<E>>)
    requires rest == {} && MergedSoFar(counts, details, page, t, t.Keys - rest, c, d)
    ensures c == MergeCounts(counts, t, t.Keys) && d == MergeDetails(details, page, t, t.Keys)
  {
    assert t.Keys - rest == t.Keys;
    CountsAll(counts, t, c);
    DetailsAll(details, page, t, d);
  }

  lemma CountsAll<E>(counts: map<string, nat>, t: map<string, Info<E>>, c: map<string, nat>)
    requires c.Keys == counts.Keys + t.Keys
    requires forall m :: m in c ==> c[m] == CountOr(counts, m) + (if m in t.Keys then t[m].count else 0)
    ensures c == MergeCounts(counts, t, t.Keys)
  {
  }

  lemma DetailsAll<E>(details: map<string, Detail<E>>, page: int, t: map<string, Info<E>>, d: map<string, Detail<E>>)
    requires d.Keys == details.Keys + t.Keys
    requires forall m :: m in d ==> d[m] == if m in t.Keys then Bump(DetailOr(details, m), page, t[m]) else details[m]
    ensures d == MergeDetails(details, page, t, t.Keys)
  {
  }

  /** The pages scanned from `start`: consecutive, every one present, up
      to `end` or to the first missing page. */
  function ScanPages(present: int -> bool, start: int, end: int): seq<int>
    decreases end - start
  {
    if start > end || !present(start) then []
    else [start] + ScanPages(present, start + 1, end)
  }

  /** Whether the text directory has a page, as `get_page` finds it. */
  function Present(textDir: Pages.Directory): int -> bool
  {
    n => Pages.PageFileName(n) in textDir
  }

  /** The content of a page, as `get_page` reads it ("" for a missing one,
      which is never read). */
  function Text(textDir: Pages.Directory): int -> string
  {
    n => if Pages.PageFileName(n) in textDir then textDir[Pages.PageFileName(n)] else ""
  }

  /** The pages scanned are consecutive from `start`, all present, no more
      than the range holds, and the page after the last one is past the end
      of the range or missing. */
  lemma {:induction false} ScanPagesMeans(present: int -> bool, start: int, end: int)
    ensures var r := ScanPages(present, start, end);
      && |r| <= (if end < start then 0 else end - start + 1)
      && (forall k :: 0 <= k < |r| ==> r[k] == start + k && present(r[k]))
      && (start + |r| <= end ==> !present(start + |r|))
    decreases end - start
  {
    if start <= end && present(start) {
      ScanPagesMeans(present, start + 1, end);
      var r := ScanPages(present, start, end);
      var tail := ScanPages(present, start + 1, end);
      assert r == [start] + tail;
      assert forall k :: 1 <= k < |r| ==> r[k] == tail[k - 1];
    }
  }

  /** A page's entries, in the order the pages are read. */
  type Scan<E> = seq<(int, map<string, Info<E>>)>

  function AggCounts<E>(scan: Scan<E>): map<string, nat>
  {
    if |scan| == 0 then map[]
    else
      var last := scan[|scan| - 1];
      MergeCounts(AggCounts(scan[..|scan| - 1]), last.1, last.1.Keys)
  }

  function AggDetails<E>(scan: Scan<E>): map<string, Detail<E>>
  {
    if |scan| == 0 then map[]
    else
      var last := scan[|scan| - 1];
      MergeDetails(AggDetails(scan[..|scan| - 1]), last.0, last.1, last.1.Keys)
  }

  function TemplateTally(parsed: Result<Wikicode, string>): map<string, Info<TemplateExample>>
  {
    if parsed.Err? then map[] else Tally(TemplateItems(parsed.value.templates))
  }

  function TagTally(parsed: Result<Wikicode, string>): map<string, Info<TagExample>>
  {
    if parsed.Err? then map[] else Tally(TagItems(parsed.value.tags))
  }

  /** The templates of each scanned page. */
  function TemplateScan(text: int -> string, parse: string -> Result<Wikicode, string>, pages: seq<int>): (r: Scan<TemplateExample>)
    ensures |r| == |pages|
  {
    seq(|pages|, k requires 0 <= k < |pages| => (pages[k], TemplateTally(parse(text(pages[k])))))
  }

  /** The tags of each scanned page. */
  function TagScan(text: int -> string, parse: string -> Result<Wikicode, string>, pages: seq<int>): (r: Scan<TagExample>)
    ensures |r| == |pages|
  {
    seq(|pages|, k requires 0 <= k < |pages| => (pages[k], TagTally(parse(text(pages[k])))))
  }

  /** Reading one more page put its entries at the end of the scan. */
  lemma TemplateScanStep(text: int -> string, parse: string -> Result<Wikicode, string>, pages: seq<int>, p: int)
    ensures TemplateScan(text, parse, pages + [p]) == TemplateScan(text, parse, pages) + [(p, TemplateTally(parse(text(p))))]
  {
    var a := TemplateScan(text, parse, pages + [p]);
    var b := TemplateScan(text, parse, pages) + [(p, TemplateTally(parse(text(p))))];
    assert forall k :: 0 <= k < |a| ==> a[k] == b[k];
  }

  lemma TagScanStep(text: int -> string, parse: string -> Result<Wikicode, string>, pages: seq<int>, p: int)
    ensures TagScan(text, parse, pages + [p]) == TagScan(text, parse, pages) + [(p, TagTally(parse(text(p))))]
  {
    var a := TagScan(text, parse, pages + [p]);
    var b := TagScan(text, parse, pages) + [(p, TagTally(parse(text(p))))];
    assert forall k :: 0 <= k < |a| ==> a[k] == b[k];
  }

  /** One more page merges its entries into the totals. */
  lemma AggStep<E>(scan: Scan<E>, x: (int, map<string, Info<E>>))
    ensures AggCounts(scan + [x]) == MergeCounts(AggCounts(scan), x.1, x.1.Keys)
    ensures AggDetails(scan + [x]) == MergeDetails(AggDetails(scan), x.0, x.1, x.1.Keys)
  {
    assert (scan + [x])[..|scan|] == scan;
  }

  lemma ScanPagesStep(present: int -> bool, p: int, end: int)
    requires p <= end && present(p)
    ensures ScanPages(present, p, end) == [p] + ScanPages(present, p + 1, end)
  {
  }

  /** Past the end of the range, or at a missing page, the scan is over. */
  lemma ScanDone(present: int -> bool, start: int, end: int, pages: seq<int>, p: int)
    requires ScanPages(present, start, end) == pages + ScanPages(present, p, end)
    requires p > end || !present(p)
    ensures ScanPages(present, start, end) == pages
  {
    assert ScanPages(present, p, end) == [];
  }

  /** The invariant of the page loops: `pages` have been read, `pageNum`
      is next, and the totals are those of the scan so far. */
  ghost predicate Scanned<E>(present: int -> bool, start: int, end: int, pages: seq<int>, pageNum: int, scan: Scan<E>,
                             counts: map<string, nat>, details: map<string, Detail<E>>)
  {
    start <= pageNum && pageNum - start == |pages|
    && ScanPages(present, start, end) == pages + ScanPages(present, pageNum, end)
    && counts == AggCounts(scan) && details == AggDetails(scan)
  }

  lemma ScannedStep<E>(present: int -> bool, start: int, end: int, pages: seq<int>, pageNum: int, scan: Scan<E>,
                       counts: map<string, nat>, details: map<string, Detail<E>>, x: (int, map<string, Info<E>>),
                       c: map<string, nat>, d: map<string, Detail<E>>)
    requires Scanned(present, start, end, pages, pageNum, scan, counts, details)
    requires pageNum <= end && present(pageNum) && x.0 == pageNum
    requires c == MergeCounts(counts, x.1, x.1.Keys) && d == MergeDetails(details, pageNum, x.1, x.1.Keys)
    ensures Scanned(present, start, end, pages + [pageNum], pageNum + 1, scan + [x], c, d)
  {
    AggStep(scan, x);
    ScanPagesStep(present, pageNum, end);
  }

  /** A name's totals as returned: the sets become sorted lists. */
  datatype Reported<E> = Reported(usageCount: nat, pagesUsed: seq<int>, names: seq<string>, examples: seq<E>)

  /** What `find_all_templates` and `find_all_tags` return. */
  datatype Summary<E> = Summary(counts: map<string, nat>, details: map<string, Reported<E>>, pagesProcessed: nat, errors: seq<string>)

  /** `rd` lists the totals `d`, with the pages and the names in ascending
      order. */
  ghost predicate ReportsDetail<E>(rd: Reported<E>, d: Detail<E>)
  {
    rd.usageCount == d.usage && rd.examples == d.examples
    && Ordering.SortedByKey(rd.pagesUsed, x => x) && |rd.pagesUsed| == |d.pagesUsed| && (forall p :: p in rd.pagesUsed <==> p in d.pagesUsed)
    && Ordering.StrictlySorted(rd.names) && (forall a :: a in rd.names <==> a in d.names)
  }

  /** `sorted(list(s))` for the pages. */
  method SortedPages(s: set<int>) returns (r: seq<int>)
    ensures Ordering.SortedByKey(r, x => x) && |r| == |s| && forall p :: p in r <==> p in s
  {
    var items := Ordering.ListOf(s);
    r := Ordering.SortByKey(items, x => x);
    assert forall p :: p in r <==> p in multiset(items);
  }

  /** The final loop that turns the sets into sorted lists. */
  method Report<E>(details: map<string, Detail<E>>) returns (r: map<string, Reported<E>>)
    ensures r.Keys == details.Keys
    ensures forall n :: n in r ==> ReportsDetail(r[n], details[n])
  {
    r := map[];
    var rest := details.Keys;
    while rest != {}
      invariant rest <= details.Keys && r.Keys == details.Keys - rest
      invariant forall n :: n in r ==> ReportsDetail(r[n], details[n])
      decreases |rest|
    {
      var n :| n in rest;
      var pages := SortedPages(details[n].pagesUsed);
      var names := Ordering.SortedSet(details[n].names);
      r := r[n := Reported(details[n].usage, pages, names, details[n].examples)];
      rest := rest - {n};
    }
  }

  /** The page loop of `find_all_templates`: the templates of the pages read, summed. */
  method ScanTemplates(textDir: Pages.Directory, parse: string -> Result<Wikicode, string>, startPage: int, endPage: int)
    returns (counts: map<string, nat>, details: map<string, Detail<TemplateExample>>, pages: seq<int>)
    ensures pages == ScanPages(Present(textDir), startPage, endPage)
    ensures counts == AggCounts(TemplateScan(Text(textDir), parse, pages)) && details == AggDetails(TemplateScan(Text(textDir), parse, pages))
  {
    counts, details, pages := map[], map[], [];
    var pageNum := startPage;
    while pageNum <= endPage
      invariant Scanned(Present(textDir), startPage, endPage, pages, pageNum, TemplateScan(Text(textDir), parse, pages), counts, details)
      decreases endPage - pageNum
    {
      var page := Pages.GetPage(textDir, Pages.IntNumber(pageNum));
      if page.Ok? && page.value.None? {
        break;
      }
      var pageTemplates := ExtractTemplates(parse(page.value.value.content));
      ghost var x := (pageNum, TemplateTally(parse(Text(textDir)(pageNum))));
      assert pageTemplates == x.1;
      TemplateScanStep(Text(textDir), parse, pages, pageNum);
      ghost var (c0, d0) := (counts, details);
      counts, details := MergePage(counts, details, pageNum, pageTemplates);
      ScannedStep(Present(textDir), startPage, endPage, pages, pageNum, TemplateScan(Text(textDir), parse, pages), c0, d0, x, counts, details);
      pages := pages + [pageNum];
      pageNum := pageNum + 1;
    }
    assert pageNum > endPage || !Present(textDir)(pageNum);
    ScanDone(Present(textDir), startPage, endPage, pages, pageNum);
  }

  /** `find_all_templates(start_page, end_page)`: the pages from
      `start_page` are read in order until `end_page` or the first missing
      one, and their tallies summed. */
  method FindAllTemplates(textDir: Pages.Directory, parse: string -> Result<Wikicode, string>, startPage: int, endPage: int)
    returns (r: Summary<TemplateExample>)
    ensures var pages := ScanPages(Present(textDir), startPage, endPage);
      var scan := TemplateScan(Text(textDir), parse, pages);
      r.pagesProcessed == |pages| && r.errors == [] && r.counts == AggCounts(scan)
      && r.details.Keys == AggDetails(scan).Keys
      && forall n :: n in r.details ==> ReportsDetail(r.details[n], AggDetails(scan)[n])
  {
    var counts, details, pages := ScanTemplates(textDir, parse, startPage, endPage);
    var reported := Report(details);
    r := Summary(counts, reported, |pages|, []);
  }

  /** The page loop of `find_all_tags`: the tags of the pages read, summed. */
  method ScanTags(textDir: Pages.Directory, parse: string -> Result<Wikicode, string>, startPage: int, endPage: int)
    returns (counts: map<string, nat>, details: map<string, Detail<TagExample>>, pages: seq<int>)
    ensures pages == ScanPages(Present(textDir), startPage, endPage)
    ensures counts == AggCounts(TagScan(Text(textDir), parse, pages)) && details == AggDetails(TagScan(Text(textDir), parse, pages))
  {
    counts, details, pages := map[], map[], [];
    var pageNum := startPage;
    while pageNum <= endPage
      invariant Scanned(Present(textDir), startPage, endPage, pages, pageNum, TagScan(Text(textDir), parse, pages), counts, details)
      decreases endPage - pageNum
    {
      var page := Pages.GetPage(textDir, Pages.IntNumber(pageNum));
      if page.Ok? && page.value.None? {
        break;
      }
      var pageTags := ExtractTags(parse(page.value.value.content));
      ghost var x := (pageNum, TagTally(parse(Text(textDir)(pageNum))));
      assert pageTags == x.1;
      TagScanStep(Text(textDir), parse, pages, pageNum);
      ghost var (c0, d0) := (counts, details);
      counts, details := MergePage(counts, details, pageNum, pageTags);
      ScannedStep(Present(textDir), startPage, endPage, pages, pageNum, TagScan(Text(textDir), parse, pages), c0, d0, x, counts, details);
      pages := pages + [pageNum];
      pageNum := pageNum + 1;
    }
    assert pageNum > endPage || !Present(textDir)(pageNum);
    ScanDone(Present(textDir), startPage, endPage, pages, pageNum);
  }

  /** `find_all_tags(start_page, end_page)`, the same scan over tags. */
  method FindAllTags(textDir: Pages.Directory, parse: string -> Result<Wikicode, string>, startPage: int, endPage: int)
    returns (r: Summary<TagExample>)
    ensures var pages := ScanPages(Present(textDir), startPage, endPage);
      var scan := TagScan(Text(textDir), parse, pages);
      r.pagesProcessed == |pages| && r.errors == [] && r.counts == AggCounts(scan)
      && r.details.Keys == AggDetails(scan).Keys
      && forall n :: n in r.details ==> ReportsDetail(r.details[n], AggDetails(scan)[n])
  {
    var counts, details, pages := ScanTags(textDir, parse, startPage, endPage);
    var reported := Report(details);
    r := Summary(counts, reported, |pages|, []);
  }

  // ---------------------------------------------------------------------
  // The page loops as written

  /** The message of the AttributeError that reading a page raises as
      written: the imported `get_page` is a plain function, and a plain
      function has no `invoke`. */
  const InvokeError: string := "'function' object has no attribute 'invoke'"

  /** The message the `except` records for one page. */
  function PageError(pageNum: int, message: string): string
  {
    "Error processing page " + PyStr.IntToString(pageNum) + ": " + message
  }

  /** The errors recorded for pages `start` to `stop - 1` when reading each
      of them raises: one per page, in page order. */
  function InvokeErrors(start: int, stop: int): (r: seq<string>)
    ensures |r| == if stop > start then stop - start else 0
    ensures forall i :: 0 <= i < |r| ==> r[i] == PageError(start + i, InvokeError)
    decreases stop - start
  {
    if stop <= start then [] else InvokeErrors(start, stop - 1) + [PageError(stop - 1, InvokeError)]
  }

  /** `find_all_templates` and `find_all_tags` as written: reading a page
      raises on every page, so the `except` records one error per page of
      the range, the `break` for a missing page is never reached, and
      nothing is tallied or counted as processed. */
  method FindAllAsWritten<E>(startPage: int, endPage: int) returns (r: Summary<E>)
    ensures r.counts == map[] && r.details == map[] && r.pagesProcessed == 0
    ensures r.errors == InvokeErrors(startPage, endPage + 1)
  {
    var errors := [];
    var pageNum := startPage;
    while pageNum <= endPage
      invariant pageNum == startPage || startPage <= pageNum <= endPage + 1
      invariant errors == InvokeErrors(startPage, pageNum)
      decreases endPage - pageNum
    {
      errors := errors + [PageError(pageNum, InvokeError)];
      pageNum := pageNum + 1;
    }
    r := Summary(map[], map[], 0, errors);
  }

  /** Over pages 1 and 2, both present, the loop as written reports two
      errors and no page processed, where the scan that reads pages
      processes both. */
  lemma AsWrittenProcessesNoPage(present: int -> bool)
    requires present(1) && present(2)
    ensures InvokeErrors(1, 3) == [PageError(1, InvokeError), PageError(2, InvokeError)]
    ensures ScanPages(present, 1, 2) == [1, 2]
  {
    assert InvokeErrors(1, 2) == [PageError(1, InvokeError)];
  }

  // ---------------------------------------------------------------------
  // Properties of a range

  /** The sum of a name's per-page counts. */
  function Total<E>(scan: Scan<E>, key: string): nat
  {
    if |scan| == 0 then 0
    else
      var last := scan[|scan| - 1];
      Total(scan[..|scan| - 1], key) + (if key in last.1 then last.1[key].count else 0)
  }

  /** One page's merge, read at one name. */
  lemma MergeAt<E>(c: map<string, nat>, d: map<string, Detail<E>>, page: int, t: map<string, Info<E>>, key: string)
    ensures CountOr(MergeCounts(c, t, t.Keys), key) == CountOr(c, key) + (if key in t then t[key].count else 0)
    ensures DetailOr(MergeDetails(d, page, t, t.Keys), key)
      == if key in t then Bump(DetailOr(d, key), page, t[key]) else DetailOr(d, key)
  {
  }

  /** A name is reported exactly when it was found on some page, in the
      counter and in the details alike. */
  lemma {:induction false} AggregateKeys<E>(scan: Scan<E>, key: string)
    ensures AggCounts(scan).Keys == AggDetails(scan).Keys
    ensures key in AggCounts(scan) <==> exists j :: 0 <= j < |scan| && key in scan[j].1
  {
    if |scan| > 0 {
      var front := scan[..|scan| - 1];
      AggregateKeys(front, key);
      assert forall j :: 0 <= j < |front| ==> scan[j] == front[j];
      if key in AggCounts(front) {
        var j :| 0 <= j < |front| && key in front[j].1;
        assert key in scan[j].1;
      }
    }
  }

  /** A name's count, in the counter and in the details alike, is the sum
      of its per-page counts. */
  lemma {:induction false} AggregateTotals<E>(scan: Scan<E>, key: string)
    ensures CountOr(AggCounts(scan), key) == Total(scan, key)
    ensures DetailOr(AggDetails(scan), key).usage == Total(scan, key)
  {
    if |scan| > 0 {
      var front := scan[..|scan| - 1];
      var last := scan[|scan| - 1];
      AggregateTotals(front, key);
      MergeAt(AggCounts(front), AggDetails(front), last.0, last.1, key);
    }
  }

  /** A name's pages are exactly the pages it was found on. */
  lemma {:induction false} AggregatePages<E>(scan: Scan<E>, key: string)
    ensures forall p :: p in DetailOr(AggDetails(scan), key).pagesUsed <==>
      exists j :: 0 <= j < |scan| && key in scan[j].1 && scan[j].0 == p
  {
    if |scan| > 0 {
      var front := scan[..|scan| - 1];
      var last := scan[|scan| - 1];
      AggregatePages(front, key);
      MergeAt(AggCounts(front), AggDetails(front), last.0, last.1, key);
      assert forall j :: 0 <= j < |front| ==> scan[j] == front[j];
      forall p | exists j :: 0 <= j < |scan| && key in scan[j].1 && scan[j].0 == p
        ensures p in DetailOr(AggDetails(scan), key).pagesUsed
      {
        var j :| 0 <= j < |scan| && key in scan[j].1 && scan[j].0 == p;
        if j < |front| {
          assert key in front[j].1 && front[j].0 == p;
        }
      }
    }
  }

  /** No name keeps more than three examples over a range of pages. */
  lemma {:induction false} AggregateKeepsThreeExamples<E>(scan: Scan<E>)
    ensures forall key :: key in AggDetails(scan) ==> |AggDetails(scan)[key].examples| <= 3
  {
    if |scan| > 0 {
      AggregateKeepsThreeExamples(scan[..|scan| - 1]);
    }
  }

  /** As written, two pages with two examples each leave four examples. */
  lemma AsWrittenKeepsFour()
    ensures var info := Info(2, {}, ["a", "b"]);
      |BumpAsWritten(BumpAsWritten(Detail(0, {}, {}, []), 1, info), 2, info).examples| == 4
  {
  }

  /** The scan stops at the first missing page: with a page missing inside
      the range, the pages read are those of the range that ends just
      before it, whatever lies beyond. */
  lemma {:induction false} ScanStopsAtMissingPage(present: int -> bool, start: int, end: int, missing: int)
    requires start <= missing <= end && !present(missing)
    ensures ScanPages(present, start, end) == ScanPages(present, start, missing - 1)
    decreases missing - start
  {
    if start < missing && present(start) {
      ScanStopsAtMissingPage(present, start + 1, end, missing);
    }
  }
}
