/** The Westminster Leningrad Codex converter: the index transformer's
    dispatch table, and the plan `main` follows (which books are transformed
    to which output file, which outputs are validated). */
module Wlc {
  import opened Wrappers
  import opened Xml
  import PyStr
  import opened Transformer

  /** `WLCIndexTransformer._transforms`: every key is an unqualified name. */
  const IndexTable: map<Key, Rule> := map[
    (None, "coding") := Skip,
    (None, "Tanach") := AddTeiNamespace(Some("TEI"), map[]),
    (None, "tanach") := AddTeiNamespace(Some("standOff"), map["type" := "notes"]),
    (None, "teiHeader") := AddTeiNamespace(None, map[]),
    (None, "fileDesc") := AddTeiNamespace(None, map[]),
    (None, "titleStmt") := AddTeiNamespace(None, map[]),
    (None, "editor") := AddTeiNamespace(None, map[]),
    (None, "encodingDesc") := Skip,
    (None, "notesStmt") := Skip,
    (None, "publicationStmt") := AddTeiNamespace(None, map[]),
    (None, "sourceDesc") := AddTeiNamespace(None, map[]),
    (None, "biblItem") := AddTeiNamespace(Some("bibl"), map[])
  ]

  /** The header elements moved into the TEI namespace under their own name. */
  const RenamedInPlace: set<string> :=
    {"teiHeader", "fileDesc", "titleStmt", "editor", "publicationStmt", "sourceDesc"}

  /** The elements the index transformer removes. */
  const Removed: set<string> := {"coding", "encodingDesc", "notesStmt"}

  /** `WLCIndexTransformer()`, which keeps the default text hook. */
  function IndexTransformer(): (t: XmlTransformer)
    ensures t.transforms == IndexTable && forall s :: t.transformText(s) == s
  {
    XmlTransformer(IndexTable, s => s)
  }

  /** The shape `_add_tei_namespace` gives an element: the TEI tag with the
      given local name, the given attributes, the node's text and tail, and
      the node's prefixes plus `tei`. */
  predicate TeiShaped(r: Option<Element>, node: Element, localName: string, attrs: map<string, string>)
  {
    r.Some? && r.value.tag == TeiTag(localName) && r.value.attrs == attrs
    && r.value.text == node.text && r.value.tail == node.tail
    && r.value.nsmap == node.nsmap["tei" := TeiNamespace]
  }

  /** The index transformer removes `coding`, `encodingDesc` and
      `notesStmt`. */
  lemma IndexRemoves(node: Element)
    requires SplittableTags(node) && node.tag in Removed
    ensures TransformNode(IndexTransformer(), node) == None
  {
    SkippedNames(node.tag);
    QNameOfPlain(node.tag);
    TransformNodeDispatch(IndexTransformer(), node);
  }

  lemma SkippedNames(local: string)
    requires local in Removed
    ensures '}' !in local && (None, local) in IndexTable && IndexTable[(None, local)] == Skip
  {
    if local == "coding" {
      assert forall i :: 0 <= i < |local| ==> local[i] != '}';
      assert IndexTable[(None, "coding")] == Skip;
    } else if local == "encodingDesc" {
      assert forall i :: 0 <= i < |local| ==> local[i] != '}';
      assert IndexTable[(None, "encodingDesc")] == Skip;
    } else {
      assert forall i :: 0 <= i < |local| ==> local[i] != '}';
      assert IndexTable[(None, "notesStmt")] == Skip;
    }
  }

  /** Every key of the index table is an unqualified name it lists. */
  lemma IndexTableKeys()
    ensures forall k :: k in IndexTable ==> k.0 == None && k.1 in Removed + RenamedInPlace + {"Tanach", "tanach", "biblItem"}
  {
  }

  /** `Tanach` becomes `tei:TEI`. */
  lemma IndexTanach(node: Element)
    requires SplittableTags(node) && node.tag == "Tanach"
    ensures TeiShaped(TransformNode(IndexTransformer(), node), node, "TEI", node.attrs)
  {
    QNameOfPlain(node.tag);
    assert node.attrs + map[] == node.attrs;
  }

  /** `tanach` becomes `tei:standOff` with `type="notes"`. */
  lemma IndexNotes(node: Element)
    requires SplittableTags(node) && node.tag == "tanach"
    ensures TeiShaped(TransformNode(IndexTransformer(), node), node, "standOff", node.attrs["type" := "notes"])
  {
    QNameOfPlain(node.tag);
    assert node.attrs + map["type" := "notes"] == node.attrs["type" := "notes"];
  }

  /** `biblItem` becomes `tei:bibl`. */
  lemma IndexBiblItem(node: Element)
    requires SplittableTags(node) && node.tag == "biblItem"
    ensures TeiShaped(TransformNode(IndexTransformer(), node), node, "bibl", node.attrs)
  {
    QNameOfPlain(node.tag);
    assert node.attrs + map[] == node.attrs;
  }

  /** The table's rule for each header element. */
  lemma HeaderRule(local: string)
    requires local in RenamedInPlace
    ensures SplittableTag(local) && QName(local) == (None, local)
    ensures (None, local) in IndexTable && IndexTable[(None, local)] == AddTeiNamespace(None, map[])
  {
    if local == "teiHeader" {
      QNameOfPlain("teiHeader");
    } else if local == "fileDesc" {
      QNameOfPlain("fileDesc");
    } else if local == "titleStmt" {
      QNameOfPlain("titleStmt");
    } else if local == "editor" {
      QNameOfPlain("editor");
    } else if local == "publicationStmt" {
      QNameOfPlain("publicationStmt");
    } else {
      QNameOfPlain("sourceDesc");
    }
  }

  /** The header elements keep their local name in the TEI namespace. */
  lemma IndexHeader(node: Element)
    requires SplittableTags(node) && node.tag in RenamedInPlace
    ensures TeiShaped(TransformNode(IndexTransformer(), node), node, node.tag, node.attrs)
  {
    HeaderRule(node.tag);
    assert node.attrs + map[] == node.attrs;
    AddTeiShape(IndexTransformer(), node, None, map[]);
  }

  /** Any other unqualified element is copied by the identity transform. */
  lemma IndexOthers(node: Element)
    requires SplittableTags(node) && '}' !in node.tag
    requires node.tag !in Removed + RenamedInPlace + {"Tanach", "tanach", "biblItem"}
    ensures TransformNode(IndexTransformer(), node) == Some(IdentityTransform(IndexTransformer(), node))
  {
    QNameOfPlain(node.tag);
    IndexTableKeys();
    TransformNodeDispatch(IndexTransformer(), node);
  }

  /** The table's keys have no namespace, so an element in any namespace is
      copied by the identity transform even when its local name is listed. */
  lemma IndexIgnoresNamespaced(ns: string, local: string, node: Element)
    requires '}' !in ns && node.tag == "{" + ns + "}" + local && SplittableTags(node)
    ensures TransformNode(IndexTransformer(), node) == Some(IdentityTransform(IndexTransformer(), node))
  {
    QNameOfClark(ns, local);
    IndexTableKeys();
    TransformNodeDispatch(IndexTransformer(), node);
  }

  // ---------------------------------------------------------------------
  // main

  /** One `xslt_transform(project_directory, source_directory, source_file,
      output_file, xslt_file)` call. */
  datatype XsltJob = XsltJob(sourceFile: string, outputFile: string, xsltFile: string)

  /** The index job `main` runs before the books. */
  const IndexJob: XsltJob := XsltJob("TanachHeader.xml", "index.xml", "transform_index.xslt")

  /** A book file `main` transforms. */
  predicate IsBook(name: string)
  {
    name != "TanachHeader.xml" && name != "TanachIndex.xml" && !PyStr.EndsWith(name, ".DH.xml")
  }

  /** The jobs for the books of a listing of `Books`, in listing order. */
  function BookJobs(books: seq<string>): (r: seq<XsltJob>)
    ensures |r| <= |books|
    ensures forall k :: 0 <= k < |r| ==>
      IsBook(r[k].sourceFile) && r[k].sourceFile in books
      && r[k].outputFile == PyStr.Lower(r[k].sourceFile) && r[k].xsltFile == "transform_book.xslt"
  {
    if |books| == 0 then []
    else
      var book := books[|books| - 1];
      BookJobs(books[..|books| - 1]) + (if IsBook(book) then [XsltJob(book, PyStr.Lower(book), "transform_book.xslt")] else [])
  }

  /** The outputs `main` validates: the `.xml` files of the project listing. */
  function XmlFiles(listing: seq<string>): (r: seq<string>)
    ensures |r| <= |listing|
    ensures forall k :: 0 <= k < |r| ==> PyStr.EndsWith(r[k], ".xml") && r[k] in listing
  {
    if |listing| == 0 then []
    else
      var name := listing[|listing| - 1];
      XmlFiles(listing[..|listing| - 1]) + (if PyStr.EndsWith(name, ".xml") then [name] else [])
  }

  /** The validated outputs that are reported as invalid. */
  function Invalid(files: seq<string>, isValid: string -> bool): seq<string>
  {
    if |files| == 0 then []
    else
      var name := files[|files| - 1];
      Invalid(files[..|files| - 1], isValid) + (if isValid(name) then [] else [name])
  }

  /** `main`, given the listing of `Books` and of the project directory
      after the transforms and the validator's verdict on each file: the
      transform jobs run, the files validated, the files reported invalid,
      and the exit status, which is 0 however validation went. */
  method Run(books: seq<string>, projectListing: seq<string>, isValid: string -> bool)
    returns (jobs: seq<XsltJob>, validated: seq<string>, reported: seq<string>, status: int)
    ensures jobs == [IndexJob] + BookJobs(books)
    ensures validated == XmlFiles(projectListing)
    ensures reported == Invalid(validated, isValid)
    ensures status == 0
  {
    jobs := [IndexJob];
    var i := 0;
    while i < |books|
      invariant 0 <= i <= |books|
      invariant jobs == [IndexJob] + BookJobs(books[..i])
    {
      var book := books[i];
      assert books[..i + 1][..i] == books[..i];
      if book != "TanachHeader.xml" && book != "TanachIndex.xml" && !PyStr.EndsWith(book, ".DH.xml") {
        jobs := jobs + [XsltJob(book, PyStr.Lower(book), "transform_book.xslt")];
      }
      i := i + 1;
    }
    assert books[..i] == books;
    validated := [];
    reported := [];
    var j := 0;
    while j < |projectListing|
      invariant 0 <= j <= |projectListing|
      invariant validated == XmlFiles(projectListing[..j])
      invariant reported == Invalid(validated, isValid)
    {
      var book := projectListing[j];
      assert projectListing[..j + 1][..j] == projectListing[..j];
      if PyStr.EndsWith(book, ".xml") {
        assert (validated + [book])[..|validated|] == validated;
        validated := validated + [book];
        if !isValid(book) {
          reported := reported + [book];
        }
      }
      j := j + 1;
    }
    assert projectListing[..j] == projectListing;
    status := 0;
  }

  /** A book is transformed exactly when it is listed and is not the
      header, the index or a `.DH.xml` file. */
  lemma {:induction false} BookJobsExact(books: seq<string>, book: string)
    ensures (exists k :: 0 <= k < |BookJobs(books)| && BookJobs(books)[k].sourceFile == book)
      <==> (book in books && IsBook(book))
  {
    if |books| > 0 {
      var front := books[..|books| - 1];
      var last := books[|books| - 1];
      BookJobsExact(front, book);
      assert books == front + [last];
      var r := BookJobs(books);
      if book in books && IsBook(book) {
        if book in front {
          var k :| 0 <= k < |BookJobs(front)| && BookJobs(front)[k].sourceFile == book;
          assert r[k] == BookJobs(front)[k];
        } else {
          assert book == last;
          assert r[|r| - 1].sourceFile == book;
        }
      }
    }
  }

  /** A `.DH.xml` book is never transformed; its output name is its
      lower-cased name otherwise. */
  lemma DhBooksSkipped(books: seq<string>, stem: string)
    ensures forall k :: 0 <= k < |BookJobs(books)| ==> BookJobs(books)[k].sourceFile != stem + ".DH.xml"
  {
    var name := stem + ".DH.xml";
    assert name[|name| - |".DH.xml"|..] == ".DH.xml";
    assert !IsBook(name);
  }
}
