/** The credit helpers of the XeLaTeX exporter: licences grouped by URL and
    the "Legal" section listing them. */
module Xelatex {
  import PyStr

  /** `LicenseRecord`: a licence's URL and name. */
  datatype LicenseRecord = LicenseRecord(url: string, name: string)

  /** The URLs of a list of records. */
  function Urls(rs: seq<LicenseRecord>): set<string>
  {
    set i | 0 <= i < |rs| :: rs[i].url
  }

  lemma UrlsSnoc(g: seq<LicenseRecord>, l: LicenseRecord)
    ensures Urls(g + [l]) == Urls(g) + {l.url}
  {
    forall u | u in Urls(g + [l]) ensures u in Urls(g) + {l.url} {
      var i :| 0 <= i < |g + [l]| && (g + [l])[i].url == u;
      if i < |g| {
        assert (g + [l])[i] == g[i];
      }
    }
    assert (g + [l])[|g|] == l;
    forall u | u in Urls(g) ensures u in Urls(g + [l]) {
      var i :| 0 <= i < |g| && g[i].url == u;
      assert (g + [l])[i] == g[i];
    }
  }

  /** The URLs of the records of a path-to-record mapping, listed in
      iteration order. */
  function InputUrls(licenses: seq<(string, LicenseRecord)>): set<string>
  {
    set i | 0 <= i < |licenses| :: licenses[i].1.url
  }

  /** No two records share a URL. */
  predicate DistinctUrls(rs: seq<LicenseRecord>)
  {
    forall i, j :: 0 <= i < j < |rs| ==> rs[i].url != rs[j].url
  }

  /** The records `group_licenses` keeps from the first `|licenses|` entries
      of the mapping (in iteration order): an entry is kept when no earlier
      kept record has its URL. */
  function Grouped(licenses: seq<(string, LicenseRecord)>): (r: seq<LicenseRecord>)
    ensures |r| <= |licenses|
    ensures DistinctUrls(r)
    ensures Urls(r) == InputUrls(licenses)
  {
    if |licenses| == 0 then []
    else
      var front := licenses[..|licenses| - 1];
      var g := Grouped(front);
      var last := licenses[|licenses| - 1].1;
      assert InputUrls(licenses) == InputUrls(front) + {last.url} by {
        forall u | u in InputUrls(licenses) ensures u in InputUrls(front) + {last.url} {
          var i :| 0 <= i < |licenses| && licenses[i].1.url == u;
          if i < |front| {
            assert front[i] == licenses[i];
          }
        }
        forall u | u in InputUrls(front) ensures u in InputUrls(licenses) {
          var i :| 0 <= i < |front| && front[i].1.url == u;
          assert licenses[i] == front[i];
        }
      }
      if last.url in Urls(g) then g
      else
        UrlsSnoc(g, last);
        g + [last]
  }

  /** `group_licenses`: one pass over the mapping, with the set of URLs seen
      so far and the list of records kept. */
  method GroupLicenses(licenses: seq<(string, LicenseRecord)>) returns (grouped: seq<LicenseRecord>)
    ensures grouped == Grouped(licenses)
  {
    var licenseUrls: set<string> := {};
    grouped := [];
    var i := 0;
    while i < |licenses|
      invariant 0 <= i <= |licenses|
      invariant grouped == Grouped(licenses[..i])
      invariant licenseUrls == Urls(grouped)
    {
      assert licenses[..i + 1][..i] == licenses[..i];
      var license := licenses[i].1;
      if license.url !in licenseUrls {
        UrlsSnoc(grouped, license);
        licenseUrls := licenseUrls + {license.url};
        grouped := grouped + [license];
      }
      i := i + 1;
    }
    assert licenses[..i] == licenses;
  }

  /** Every kept record is the first entry of the mapping with its URL, and
      the kept records appear in the mapping's order. */
  lemma {:induction false} GroupedKeepsFirst(licenses: seq<(string, LicenseRecord)>, i: nat)
    requires i < |Grouped(licenses)|
    ensures exists j :: (0 <= j < |licenses| && licenses[j].1 == Grouped(licenses)[i]
      && forall k :: 0 <= k < j ==> licenses[k].1.url != licenses[j].1.url)
  {
    var front := licenses[..|licenses| - 1];
    var g := Grouped(front);
    var last := licenses[|licenses| - 1].1;
    if i < |g| {
      GroupedKeepsFirst(front, i);
      var j :| 0 <= j < |front| && front[j].1 == g[i]
        && forall k :: 0 <= k < j ==> front[k].1.url != front[j].1.url;
      assert licenses[j] == front[j];
      assert forall k :: 0 <= k < j ==> licenses[k] == front[k];
    } else {
      var j := |licenses| - 1;
      assert Grouped(licenses)[i] == last;
      forall k | 0 <= k < j ensures licenses[k].1.url != last.url {
        assert front[k] == licenses[k];
        assert licenses[k].1.url in InputUrls(front);
      }
    }
  }

  const LegalTitle: string := "\\section{Legal}"

  const LegalHeader: string :=
    LegalTitle + "\nThis document includes copyrighted texts licensed under the following licenses.\nThe full text of the licenses can be found at the given URLs:\n\n\\begin{itemize}\n"

  const LegalFooter: string := "\n\\end{itemize}\n\n    "

  /** `\item name (\url{url})` */
  function Item(l: LicenseRecord): string
  {
    "\\item " + l.name + " (\\url{" + l.url + "})"
  }

  function Items(ls: seq<LicenseRecord>): (r: seq<string>)
    ensures |r| == |ls| && forall i :: 0 <= i < |ls| ==> r[i] == Item(ls[i])
  {
    seq(|ls|, i requires 0 <= i < |ls| => Item(ls[i]))
  }

  /** `licenses_to_tex`: the "Legal" section with one itemize entry per
      record, joined by newlines. */
  function LicensesToTex(ls: seq<LicenseRecord>): (r: string)
    ensures PyStr.StartsWith(r, LegalTitle)
  {
    LegalHeader + PyStr.Join(Items(ls), "\n") + LegalFooter
  }

  /** When no name or URL holds a newline, the lines between
      `\begin{itemize}` and `\end{itemize}` are exactly one `\item` per record,
      in list order. */
  lemma LicensesToTexLines(ls: seq<LicenseRecord>)
    requires |ls| > 0
    requires forall i :: 0 <= i < |ls| ==> '\n' !in ls[i].name && '\n' !in ls[i].url
    ensures exists block ::
      LicensesToTex(ls) == LegalHeader + block + LegalFooter && PyStr.Split(block, '\n') == Items(ls)
  {
    var items := Items(ls);
    forall i | 0 <= i < |items| ensures '\n' !in items[i] {
      assert items[i] == "\\item " + ls[i].name + " (\\url{" + ls[i].url + "})";
    }
    PyStr.SplitJoin(items, '\n');
    assert "\n" == ['\n'];
  }
}
