/** The string and path logic of src/scraper/raw_sources_list.py, lifted out
    of the browser, HTML-parsing and table plumbing around it: classifying the
    links found on the tax authority's site, trimming in-page fragments from
    page URLs, guessing a link's file type, and the rewrite of site-relative
    file URLs.

    A table cell that pandas left empty is the value Missing; str() renders
    it as "nan". */
module RawSources {
  import opened Wrappers
  import opened Strings

  const ROOT_URL: string := "https://www.fu.gov.si"
  /** Searched in this order by get_file_type; matched without a dot. */
  const FILE_EXTENSIONS: seq<string> := ["docx", "doc", "pdf", "zip", "xlsx"]
  /** The endings that mark a link as a file (lines 90-97). */
  const FILE_SUFFIXES: seq<string> := [".pdf", ".docx", ".doc", ".xlsx", ".xls", ".zip"]

  /** The href_type column. */
  datatype HrefKind = File | WebsiteSource | WebsiteDetails {
    function Label(): string {
      match this
      case File => "file"
      case WebsiteSource => "website_source"
      case WebsiteDetails => "website_details"
    }
  }

  /** The columns lines 88-100 derive from one href. */
  datatype HrefRow = HrefRow(isFinalSource: bool, url: string, hrefIsFile: bool, hrefType: HrefKind)

  /** A table cell: a string, or a value pandas left empty. */
  datatype Cell = Text(s: string) | Missing

  /** str(cell) */
  function Str(c: Cell): string {
    match c
    case Text(s) => s
    case Missing => "nan"
  }

  // ---------------------------------------------------------------------
  // Link classification (lines 88-100)

  /** Line 88: a link to a final source is an absolute one. */
  predicate IsFinalSource(href: string) {
    StartsWith(href, "http")
  }

  /** Line 89: relative links are resolved against the site root. The result
      is always absolute and always ends with the href, and resolving twice
      changes nothing. */
  function Url(href: string): (url: string)
    ensures StartsWith(url, "http")
    ensures EndsWith(url, href)
    ensures IsFinalSource(href) ==> url == href
    ensures !IsFinalSource(href) ==> url == ROOT_URL + href && StartsWith(url, ROOT_URL)
  {
    assert (ROOT_URL + href)[..4] == ROOT_URL[..4];
    assert (ROOT_URL + href)[|ROOT_URL + href| - |href|..] == href;
    if !StartsWith(href, "http") then ROOT_URL + href else href
  }

  lemma UrlIdempotent(href: string)
    ensures Url(Url(href)) == Url(href)
  {
  }

  /** Lines 90-97 */
  function HrefIsFile(url: string): bool {
    EndsWith(url, ".pdf")
    || EndsWith(url, ".docx")
    || EndsWith(url, ".doc")
    || EndsWith(url, ".xlsx")
    || EndsWith(url, ".xls")
    || EndsWith(url, ".zip")
  }

  /** The url is flagged as a file exactly when it ends with one of the file
      suffixes. */
  lemma HrefIsFileIff(url: string)
    ensures HrefIsFile(url) <==> exists k :: 0 <= k < |FILE_SUFFIXES| && EndsWith(url, FILE_SUFFIXES[k])
  {
    if HrefIsFile(url) {
      if EndsWith(url, ".pdf") { assert EndsWith(url, FILE_SUFFIXES[0]); }
      else if EndsWith(url, ".docx") { assert EndsWith(url, FILE_SUFFIXES[1]); }
      else if EndsWith(url, ".doc") { assert EndsWith(url, FILE_SUFFIXES[2]); }
      else if EndsWith(url, ".xlsx") { assert EndsWith(url, FILE_SUFFIXES[3]); }
      else if EndsWith(url, ".xls") { assert EndsWith(url, FILE_SUFFIXES[4]); }
      else { assert EndsWith(url, FILE_SUFFIXES[5]); }
    } else {
      forall k | 0 <= k < |FILE_SUFFIXES|
        ensures !EndsWith(url, FILE_SUFFIXES[k])
      {
        if k == 0 { assert FILE_SUFFIXES[k] == ".pdf"; }
        else if k == 1 { assert FILE_SUFFIXES[k] == ".docx"; }
        else if k == 2 { assert FILE_SUFFIXES[k] == ".doc"; }
        else if k == 3 { assert FILE_SUFFIXES[k] == ".xlsx"; }
        else if k == 4 { assert FILE_SUFFIXES[k] == ".xls"; }
        else { assert FILE_SUFFIXES[k] == ".zip"; }
      }
    }
  }

  /** Lines 98-100 */
  function HrefType(isFinalSource: bool, hrefIsFile: bool): HrefKind {
    if isFinalSource && hrefIsFile then File
    else if isFinalSource then WebsiteSource
    else WebsiteDetails
  }

  /** Lines 88-100 for one href: a file only when the link is absolute and ends
      with a file suffix; a relative link is a details page even when its url
      names a file. */
  function ClassifyHref(href: string): (row: HrefRow)
    ensures row.isFinalSource == StartsWith(href, "http")
    ensures row.url == Url(href)
    ensures row.hrefIsFile == HrefIsFile(row.url)
    ensures row.hrefType == File <==> StartsWith(href, "http") && HrefIsFile(href)
    ensures row.hrefType == WebsiteSource <==> StartsWith(href, "http") && !HrefIsFile(href)
    ensures row.hrefType == WebsiteDetails <==> !StartsWith(href, "http")
    ensures row.hrefType.Label() ==
      (if row.isFinalSource && row.hrefIsFile then "file"
       else if row.isFinalSource then "website_source"
       else "website_details")
  {
    var isFinal := IsFinalSource(href);
    var url := Url(href);
    var isFile := HrefIsFile(url);
    HrefRow(isFinal, url, isFile, HrefType(isFinal, isFile))
  }

  /** A site-relative link to a PDF is flagged as a file but typed as a
      details page. */
  lemma RelativeFileIsDetails()
    ensures ClassifyHref("/doc/navodilo.pdf").hrefIsFile
    ensures ClassifyHref("/doc/navodilo.pdf").hrefType == WebsiteDetails
  {
    var url := ROOT_URL + "/doc/navodilo.pdf";
    assert url[|url| - 4..] == ".pdf";
    assert "/doc/navodilo.pdf"[0] == '/';
  }

  // ---------------------------------------------------------------------
  // Fragment trimming (lines 120-124)

  function LastSegment(url: string): string {
    var parts := Split(url, '/');
    parts[|parts| - 1]
  }

  /** Drop the last "/"-separated segment when it starts with "#"; otherwise
      split and join again. */
  function TrimFragment(rawUrl: string): string {
    var parts := Split(rawUrl, '/');
    if StartsWith(parts[|parts| - 1], "#") then Join(parts[..|parts| - 1], '/')
    else Join(parts, '/')
  }

  /** Trimming changes the url only when its last segment starts with "#";
      then the url is the trimmed one, a "/", and that segment (or, with no
      "/" at all, the trimmed url is empty). */
  lemma TrimFragmentSpec(rawUrl: string)
    ensures '/' !in LastSegment(rawUrl)
    ensures !StartsWith(LastSegment(rawUrl), "#") ==> TrimFragment(rawUrl) == rawUrl
    ensures StartsWith(LastSegment(rawUrl), "#") && '/' in rawUrl ==>
              rawUrl == TrimFragment(rawUrl) + "/" + LastSegment(rawUrl)
    ensures StartsWith(LastSegment(rawUrl), "#") && '/' !in rawUrl ==>
              TrimFragment(rawUrl) == "" && rawUrl == LastSegment(rawUrl)
  {
    var parts := Split(rawUrl, '/');
    var n := |parts|;
    JoinSplit(rawUrl, '/');
    if n == 1 {
      assert rawUrl == parts[0];
      assert parts[..0] == [];
    } else {
      assert parts == parts[..n - 1] + [parts[n - 1]];
      JoinSnoc(parts[..n - 1], parts[n - 1], '/');
      var trimmed := Join(parts[..n - 1], '/');
      assert rawUrl == trimmed + "/" + parts[n - 1];
      assert rawUrl[|trimmed|] == '/';
    }
  }

  // ---------------------------------------------------------------------
  // get_file_type (lines 227-237)

  /** The position of the first extension the text ends with, |exts| when none. */
  function FirstSuffixIndex(s: string, exts: seq<string>): (i: nat)
    ensures i <= |exts|
    ensures forall j :: 0 <= j < i ==> !EndsWith(s, exts[j])
    ensures i < |exts| ==> EndsWith(s, exts[i])
  {
    if exts == [] then 0
    else if EndsWith(s, exts[0]) then 0
    else 1 + FirstSuffixIndex(s, exts[1..])
  }

  /** What get_file_type returns for the text str(href): one of the
      extensions, "website", or nothing. */
  function FileType(s: string): (fileType: Option<string>)
    ensures fileType.Some? ==> fileType.value == "website" || fileType.value in FILE_EXTENSIONS
  {
    var i := FirstSuffixIndex(s, FILE_EXTENSIONS);
    if i < |FILE_EXTENSIONS| then Some(FILE_EXTENSIONS[i])
    else if StartsWith(s, "/") then Some("website")
    else if StartsWith(s, "http") then Some("website")
    else None
  }

  /** Lines 227-237: the first extension, in list order, that str(href) ends
      with; failing that "website" for a site-relative or absolute link, and
      None for anything else. */
  method GetFileType(href: Cell) returns (fileType: Option<string>)
    ensures fileType == FileType(Str(href))
  {
    var s := Str(href);
    for k := 0 to |FILE_EXTENSIONS|
      invariant forall j :: 0 <= j < k ==> !EndsWith(s, FILE_EXTENSIONS[j])
    {
      if EndsWith(s, FILE_EXTENSIONS[k]) {
        assert FirstSuffixIndex(s, FILE_EXTENSIONS) == k;
        return Some(FILE_EXTENSIONS[k]);
      }
    }
    assert FirstSuffixIndex(s, FILE_EXTENSIONS) == |FILE_EXTENSIONS|;
    if StartsWith(s, "/") {
      return Some("website");
    } else if StartsWith(s, "http") {
      return Some("website");
    } else {
      return None;
    }
  }

  /** The cases of FileType: an extension it names is the first one in list
      order that the text ends with; "website" and None only when no extension
      matches, split by whether the text starts with "/" or "http". */
  lemma FileTypeCases(s: string)
    ensures forall k :: 0 <= k < |FILE_EXTENSIONS| && FileType(s) == Some(FILE_EXTENSIONS[k]) ==>
              EndsWith(s, FILE_EXTENSIONS[k]) && forall j :: 0 <= j < k ==> !EndsWith(s, FILE_EXTENSIONS[j])
    ensures FileType(s) == Some("website") <==>
              (forall k :: 0 <= k < |FILE_EXTENSIONS| ==> !EndsWith(s, FILE_EXTENSIONS[k])) &&
              (StartsWith(s, "/") || StartsWith(s, "http"))
    ensures FileType(s) == None <==>
              (forall k :: 0 <= k < |FILE_EXTENSIONS| ==> !EndsWith(s, FILE_EXTENSIONS[k])) &&
              !StartsWith(s, "/") && !StartsWith(s, "http")
  {
    var i := FirstSuffixIndex(s, FILE_EXTENSIONS);
    assert forall k :: 0 <= k < |FILE_EXTENSIONS| ==> FILE_EXTENSIONS[k] != "website";
    forall k | 0 <= k < |FILE_EXTENSIONS| && FileType(s) == Some(FILE_EXTENSIONS[k])
      ensures k == i
    {
      assert FILE_EXTENSIONS[k] == FILE_EXTENSIONS[i];
      assert forall a, b :: 0 <= a < b < |FILE_EXTENSIONS| ==> FILE_EXTENSIONS[a] != FILE_EXTENSIONS[b];
    }
  }

  /** The suffix is matched without a dot, so a name merely ending in the
      letters "doc" counts as a doc file; a missing cell has no file type. */
  lemma FileTypeExamples()
    ensures FileType("/navodila-doc") == Some("doc")
    ensures FileType(Str(Missing)) == None
  {
    assert EndsWith("/navodila-doc", "doc");
    assert !EndsWith("/navodila-doc", "docx");
    var nan := Str(Missing);
    assert nan[2] == 'n' && nan[0] == 'n';
    NoExtensionMatches(nan);
    assert FirstSuffixIndex(nan, FILE_EXTENSIONS) == |FILE_EXTENSIONS|;
  }

  /** Every extension ends in 'x', 'c', 'f' or 'p', so a text ending in any
      other character matches none of them. */
  lemma NoExtensionMatches(s: string)
    requires s != [] && s[|s| - 1] !in "xcfp"
    ensures forall k :: 0 <= k < |FILE_EXTENSIONS| ==> !EndsWith(s, FILE_EXTENSIONS[k])
  {
    forall k | 0 <= k < |FILE_EXTENSIONS| ensures !EndsWith(s, FILE_EXTENSIONS[k]) {
      var e := FILE_EXTENSIONS[k];
      assert e[|e| - 1] in "xcfp" by {
        if k == 0 { assert e == "docx"; }
        else if k == 1 { assert e == "doc"; }
        else if k == 2 { assert e == "pdf"; }
        else if k == 3 { assert e == "zip"; }
        else { assert e == "xlsx"; }
      }
    }
  }

  /** How the two file tests of the scraper relate: a url flagged as a file
      (lines 90-97) always gets a file type from get_file_type, and that type
      is "website" exactly for ".xls" links, because FILE_EXTENSIONS has no
      "xls" entry. */
  lemma FileUrlHasFileType(url: string)
    requires HrefIsFile(url) && StartsWith(url, "http")
    ensures FileType(url).Some?
    ensures FileType(url) == Some("website") <==> EndsWith(url, ".xls")
  {
    var exts := FILE_EXTENSIONS;
    var i := FirstSuffixIndex(url, exts);
    var last := url[|url| - 1];
    if EndsWith(url, ".xls") {
      assert last == 's';
      NoExtensionMatches(url);
      assert i == |exts|;
    } else {
      var k: nat;
      // Each dotted suffix ends with the matching bare extension.
      var n := |url|;
      if EndsWith(url, ".pdf") { k := 2; assert url[n - 3..] == url[n - 4..][1..]; }
      else if EndsWith(url, ".docx") { k := 0; assert url[n - 4..] == url[n - 5..][1..]; }
      else if EndsWith(url, ".doc") { k := 1; assert url[n - 3..] == url[n - 4..][1..]; }
      else if EndsWith(url, ".xlsx") { k := 4; assert url[n - 4..] == url[n - 5..][1..]; }
      else { k := 3; assert url[n - 3..] == url[n - 4..][1..]; }
      assert EndsWith(url, exts[k]);
      assert i <= k;
      assert |exts[i]| <= 4;
    }
  }

  /** A ".xls" link is a file for the href columns but a "website" for
      get_file_type. */
  lemma XlsIsFileButWebsite()
    ensures HrefIsFile(Url("/a.xls"))
    ensures FileType(Url("/a.xls")) == Some("website")
  {
    var url := Url("/a.xls");
    var n := |url|;
    assert url[n - 6..] == "/a.xls";
    assert url[n - 4..] == url[n - 6..][2..];
    FileUrlHasFileType(url);
  }

  // ---------------------------------------------------------------------
  // The file_url rewrite (lines 243-249)

  /** os.path.join(a, b) on POSIX: an absolute second part discards the first;
      otherwise the result is a, then one "/" unless a is empty or already
      ends with one, then b. */
  function PosixJoin(a: string, b: string): (joined: string)
    ensures StartsWith(b, "/") ==> joined == b
    ensures !StartsWith(b, "/") ==> StartsWith(joined, a) && EndsWith(joined, b) && |joined| <= |a| + 1 + |b|
    ensures !StartsWith(b, "/") && a != "" && !EndsWith(a, "/") ==> |joined| == |a| + 1 + |b| && joined[|a|] == '/'
  {
    assert (a + b)[..|a|] == a && (a + b)[|a|..] == b;
    assert (a + "/" + b)[..|a|] == a && (a + "/" + b)[|a| + 1..] == b;
    if StartsWith(b, "/") then b
    else if a == "" || EndsWith(a, "/") then a + b
    else a + "/" + b
  }

  /** Lines 245-248 for one cell. */
  function RewriteFileUrl(url: Cell): Cell {
    if StartsWith(Str(url), "/") then Text(PosixJoin("https://www.fu.gov.si/", Str(url))) else url
  }

  /** Every cell comes back as it was: a url that starts with "/" is absolute
      for os.path.join, which then drops the site root. */
  lemma RewriteFileUrlUnchanged(url: Cell)
    ensures RewriteFileUrl(url) == url
  {
    if StartsWith(Str(url), "/") {
      assert "nan"[0] == 'n';
    }
  }

  /** Lines 243-249: the list keeps its length and order, and (as written)
      every url is left unchanged. */
  method RewriteFileUrls(urls: seq<Cell>) returns (updated: seq<Cell>)
    ensures |updated| == |urls|
    ensures forall k :: 0 <= k < |urls| ==> updated[k] == RewriteFileUrl(urls[k])
    ensures updated == urls
  {
    updated := [];
    for i := 0 to |urls|
      invariant updated == urls[..i]
    {
      RewriteFileUrlUnchanged(urls[i]);
      if StartsWith(Str(urls[i]), "/") {
        updated := updated + [Text(PosixJoin("https://www.fu.gov.si/", Str(urls[i])))];
      } else {
        updated := updated + [urls[i]];
      }
      assert urls[..i + 1] == urls[..i] + [urls[i]];
    }
    assert urls[..|urls|] == urls;
    forall k | 0 <= k < |urls|
      ensures updated[k] == RewriteFileUrl(urls[k])
    {
      RewriteFileUrlUnchanged(urls[k]);
    }
  }

  /** The rewrite the loop evidently means: a site-relative url gets the site
      root in front; every other cell is kept. */
  function AbsoluteFileUrl(url: Cell): (r: Cell)
    ensures url.Text? && StartsWith(url.s, "/") ==>
              r.Text? && StartsWith(r.s, ROOT_URL + "/") && r.s == ROOT_URL + url.s
    ensures !(url.Text? && StartsWith(url.s, "/")) ==> r == url
  {
    if url.Text? && StartsWith(url.s, "/") then
      assert (ROOT_URL + url.s)[..|ROOT_URL| + 1] == ROOT_URL + url.s[..1];
      Text(ROOT_URL + url.s)
    else url
  }
}
