/**
 * `fetch_sunbiz_data` end to end: choose the search URL, read the seen file,
 * crawl, write the address list `<term><count>.txt`, and write the seen file
 * back in sorted order.
 */
module SunbizFetch {
  import opened Wrappers
  import opened Strings
  import opened AddressClassifier
  import opened PageExtractor
  import opened SeenStore
  import opened ScrapeLoop

  /** The default search word. */
  const SEARCH_TERM: string := "PLUMBER"

  /** `urllib.parse.quote(term, safe="")`, taken as given. */
  type Encoder = string -> string

  // ---------------------------------------------------------------------
  // The search URL.

  const SEARCH_PATH: string := "/Inquiry/CorporationSearch/SearchResults"
    + "?InquiryType=EntityName&inquiryDirectionType=ForwardList&searchNameOrder="

  const AFTER_ORDER: string := "911%20P010000464770&SearchTerm="
  const AFTER_TERM: string := "&entityId=P01000046477&listNameOrder="
  const AFTER_LIST: string := "2WINEPAINTINGRENOVATION%20L250000424390"

  /** `build_search_url`: the encoded term is spliced in three times between
      fixed site tokens. */
  function BuildSearchUrl(term: string, quote: Encoder): string {
    var encoded := quote(term);
    BASE_URL + SEARCH_PATH + encoded + AFTER_ORDER + encoded + AFTER_TERM + encoded + AFTER_LIST
  }

  /** Two terms give the same search URL exactly when they encode alike: the
      encoded term can be read back off the URL. */
  lemma SearchUrlInjective(t1: string, t2: string, quote: Encoder)
    ensures BuildSearchUrl(t1, quote) == BuildSearchUrl(t2, quote) <==> quote(t1) == quote(t2)
  {
    var e1, e2 := quote(t1), quote(t2);
    var head := BASE_URL + SEARCH_PATH;
    var tail := |AFTER_ORDER| + |AFTER_TERM| + |AFTER_LIST|;
    var u1, u2 := BuildSearchUrl(t1, quote), BuildSearchUrl(t2, quote);
    if u1 == u2 {
      assert |u1| == |head| + 3 * |e1| + tail;
      assert |u2| == |head| + 3 * |e2| + tail;
      assert u1[|head|..|head| + |e1|] == e1;
      assert u2[|head|..|head| + |e2|] == e2;
    }
  }

  /** A search URL is absolute on the site: it starts with the site's origin
      and resolving it changes nothing. */
  lemma SearchUrlAbsolute(term: string, quote: Encoder)
    ensures var url := BuildSearchUrl(term, quote);
      |BASE_URL| <= |url| && url[..|BASE_URL|] == BASE_URL && ResolveUrl(url) == url
  {
    var url := BuildSearchUrl(term, quote);
    assert url[..|BASE_URL|] == BASE_URL;
  }

  /** `search_term or SEARCH_TERM`. */
  function TermOrDefault(term: Option<string>): (t: string)
    ensures t != ""
    ensures term.Some? && term.value != "" ==> t == term.value
    ensures term.None? || term.value == "" ==> t == SEARCH_TERM
  {
    if term.None? || term.value == "" then SEARCH_TERM else term.value
  }

  // ---------------------------------------------------------------------
  // Files.

  /** A file path as its directory and its file name. */
  datatype FilePath = FilePath(dir: string, name: string)

  /** The files on disk, by path. */
  type Files = map<FilePath, string>

  /** The arguments of `fetch_sunbiz_data` the model keeps. `seenPath` is
      `None` when no seen file is given (`None` or an empty string). */
  datatype Query = Query(searchUrl: Option<string>, searchTerm: Option<string>, maxResults: Option<int>,
                         outputPath: FilePath, seenPath: Option<FilePath>)

  /** What a fetch produced: the records it returns, the counts passed to
      `on_progress`, how many result pages it opened, the final seen set and
      the files afterwards. */
  datatype FetchOutput = FetchOutput(results: seq<Record>, progress: seq<nat>, visited: nat,
                                     seen: set<string>, files: Files)

  /** `term.lower().replace(" ", "")`. */
  function TermClean(term: string): (r: string)
    ensures forall i :: 0 <= i < |r| ==> r[i] != ' '
  {
    Remove(Lower(term), ' ')
  }

  /** The name of the address list: the cleaned term, then the number of
      records, then ".txt". */
  function TxtName(term: string, count: nat): string {
    TermClean(term) + NatToString(count) + ".txt"
  }

  /** The line written for a record: its Principal Address on one line, or
      nothing when that address is empty. */
  function TxtLine(rec: Record): string {
    var addr := PrincipalAddress(rec.details);
    if addr == "" then "" else Replace(addr, '\n', ' ') + "\n"
  }

  /** The content of the address list. */
  function TxtContent(results: seq<Record>): string {
    if results == [] then "" else TxtContent(results[..|results| - 1]) + TxtLine(results[|results| - 1])
  }

  lemma TxtContentSnoc(results: seq<Record>, i: nat)
    requires i < |results|
    ensures TxtContent(results[..i + 1]) == TxtContent(results[..i]) + TxtLine(results[i])
  {
    assert results[..i + 1][..i] == results[..i];
  }

  /** Writing the address list, one line per record. */
  method RenderTxt(results: seq<Record>) returns (content: string)
    ensures content == TxtContent(results)
  {
    content := "";
    for i := 0 to |results|
      invariant content == TxtContent(results[..i])
    {
      TxtContentSnoc(results, i);
      var addr := PrincipalAddress(results[i].details);
      if addr != "" {
        content := content + Replace(addr, '\n', ' ') + "\n";
      }
    }
    assert results[..|results|] == results;
  }

  /** Number of occurrences of `c` in `s`. */
  function Count(s: string, c: char): nat {
    if s == [] then 0 else (if s[|s| - 1] == c then 1 else 0) + Count(s[..|s| - 1], c)
  }

  lemma {:induction false} CountConcat(a: string, b: string, c: char)
    ensures Count(a + b, c) == Count(a, c) + Count(b, c)
    decreases |b|
  {
    if b != [] {
      assert (a + b)[|a + b| - 1] == b[|b| - 1];
      var b' := b[..|b| - 1];
      assert (a + b)[..|a + b| - 1] == a + b';
      CountConcat(a, b', c);
      assert Count(a + b, c) == (if b[|b| - 1] == c then 1 else 0) + Count(a + b', c);
    } else {
      assert a + b == a;
    }
  }

  lemma {:induction false} CountAbsent(s: string, c: char)
    requires forall i :: 0 <= i < |s| ==> s[i] != c
    ensures Count(s, c) == 0
  {
    if s != [] {
      CountAbsent(s[..|s| - 1], c);
    }
  }

  /** The address list holds one newline-terminated line per record with a
      non-empty Principal Address. */
  lemma {:induction false} TxtLines(results: seq<Record>)
    requires forall i :: 0 <= i < |results| ==> PrincipalAddress(results[i].details) != ""
    ensures Count(TxtContent(results), '\n') == |results|
  {
    if results != [] {
      var init := results[..|results| - 1];
      var addr := PrincipalAddress(results[|results| - 1].details);
      TxtLines(init);
      CountAbsent(Replace(addr, '\n', ' '), '\n');
      CountConcat(Replace(addr, '\n', ' '), "\n", '\n');
      CountConcat(TxtContent(init), TxtLine(results[|results| - 1]), '\n');
    }
  }

  // ---------------------------------------------------------------------
  // The fetch.

  /** The search URL: the one given, else the one built from the term. */
  function SearchUrlOf(q: Query, quote: Encoder): string {
    if q.searchUrl.Some? then q.searchUrl.value else BuildSearchUrl(TermOrDefault(q.searchTerm), quote)
  }

  /** The result pages the crawl walks: none for an empty URL. */
  function PagesOf(q: Query, web: Web, quote: Encoder): seq<seq<RawRow>> {
    var url := SearchUrlOf(q, quote);
    if url == "" then [] else web.listing(url)
  }

  /** The seen set read before the crawl: empty without a seen file or when
      the file does not exist. */
  function InitialSeen(q: Query, files: Files): set<string> {
    if q.seenPath.Some? && q.seenPath.value in files then Load(files[q.seenPath.value]) else {}
  }

  /** Where the address list is written: next to the output file. */
  function TxtPath(q: Query, count: nat): FilePath {
    FilePath(q.outputPath.dir, TxtName(TermOrDefault(q.searchTerm), count))
  }

  /** `fetch_sunbiz_data`. */
  ghost function Fetch(q: Query, web: Web, poBox: PoBoxMatcher, quote: Encoder, files: Files): FetchOutput {
    var c := RunPages(State([], InitialSeen(q, files), []), PagesOf(q, web, quote), Reading(web, q.maxResults, poBox));
    var results := c.state.results;
    var withTxt := files[TxtPath(q, |results|) := TxtContent(results)];
    var after := if q.seenPath.Some? && c.state.seen != {}
                 then withTxt[q.seenPath.value := SeenContent(c.state.seen)]
                 else withTxt;
    FetchOutput(results, c.state.progress, c.visited, c.state.seen, after)
  }

  method FetchSunbizData(q: Query, web: Web, poBox: PoBoxMatcher, quote: Encoder, files: Files)
    returns (out: FetchOutput)
    ensures out == Fetch(q, web, poBox, quote, files)
  {
    var searchUrl := if q.searchUrl.Some? then q.searchUrl.value else BuildSearchUrl(TermOrDefault(q.searchTerm), quote);
    var seen: set<string> := {};
    if q.seenPath.Some? && q.seenPath.value in files {
      seen := Load(files[q.seenPath.value]);
    }
    var pages := if searchUrl == "" then [] else web.listing(searchUrl);
    var c := CrawlPages(pages, web, q.maxResults, poBox, seen);
    var results := c.state.results;
    var content := RenderTxt(results);
    var written := files[TxtPath(q, |results|) := content];
    if q.seenPath.Some? && c.state.seen != {} {
      var sorted := SortAddresses(c.state.seen);
      written := written[q.seenPath.value := Join("\n", sorted)];
    }
    out := FetchOutput(results, c.state.progress, c.visited, c.state.seen, written);
  }

  // ---------------------------------------------------------------------
  // What a fetch guarantees.

  /** With `max_results = n` a fetch returns at most `n` records. */
  lemma FetchCap(q: Query, web: Web, poBox: PoBoxMatcher, quote: Encoder, files: Files, n: int)
    requires q.maxResults == Some(n)
    ensures |Fetch(q, web, poBox, quote, files).results| <= Max(0, n)
  {
    RunPagesCap(State([], InitialSeen(q, files), []), PagesOf(q, web, quote), Reading(web, q.maxResults, poBox), n);
  }

  /** A fetch opens result pages only until the cap is met, and opens the
      whole chain when there is no cap: it stops early only with the cap
      met, and every page before the last one opened left fewer than
      `max_results` records. */
  lemma FetchVisits(q: Query, web: Web, poBox: PoBoxMatcher, quote: Encoder, files: Files)
    ensures var out := Fetch(q, web, poBox, quote, files);
      var pages := PagesOf(q, web, quote);
      && out.visited <= |pages|
      && (out.visited < |pages| ==> q.maxResults.Some? && |out.results| >= q.maxResults.value)
      && (q.maxResults.None? ==> out.visited == |pages|)
      && (forall k :: 1 <= k < out.visited && q.maxResults.Some? ==>
            |RunPages(State([], InitialSeen(q, files), []), pages[..k], Reading(web, q.maxResults, poBox)).state.results|
              < q.maxResults.value)
  {
    var st := State([], InitialSeen(q, files), []);
    var pages := PagesOf(q, web, quote);
    var s := Reading(web, q.maxResults, poBox);
    RunPagesVisits(st, pages, s);
    forall k | 1 <= k < RunPages(st, pages, s).visited && q.maxResults.Some?
      ensures |RunPages(st, pages[..k], s).state.results| < q.maxResults.value
    {
      RunPagesStopsAtCap(st, pages, s, k);
    }
  }

  lemma FetchSoundState(q: Query, web: Web, poBox: PoBoxMatcher, quote: Encoder, files: Files)
    ensures var out := Fetch(q, web, poBox, quote, files);
      Sound(State(out.results, out.seen, out.progress), InitialSeen(q, files), Reading(web, q.maxResults, poBox))
  {
    var s := Reading(web, q.maxResults, poBox);
    var seen0 := InitialSeen(q, files);
    assert Keys([], s) == {};
    RunPagesSound(State([], seen0, []), PagesOf(q, web, quote), s, seen0);
  }

  /** Every record a fetch returns has a physical address and a non-empty
      Principal Address; their normalized addresses are pairwise distinct
      and were not in the seen file; the seen set afterwards is the one read
      plus those addresses; and `on_progress` was told 1, 2, 3, ... */
  lemma FetchSound(q: Query, web: Web, poBox: PoBoxMatcher, quote: Encoder, files: Files)
    ensures var out := Fetch(q, web, poBox, quote, files);
      var r := out.results;
      && (forall i :: 0 <= i < |r| ==>
            ValidAddressIn(r[i].details, poBox) && PrincipalAddress(r[i].details) != ""
            && AddressKey(r[i].details) !in InitialSeen(q, files))
      && (forall i, j :: 0 <= i < j < |r| ==> AddressKey(r[i].details) != AddressKey(r[j].details))
      && out.seen == InitialSeen(q, files) + (set rec | rec in r :: AddressKey(rec.details))
      && |out.progress| == |r| && (forall i :: 0 <= i < |r| ==> out.progress[i] == i + 1)
  {
    FetchSoundState(q, web, poBox, quote, files);
  }

  /** The records a fetch returns are the records of some of the rows on
      the result pages it opened, each read off its own detail page, in the
      order the rows were met. */
  lemma FetchOrder(q: Query, web: Web, poBox: PoBoxMatcher, quote: Encoder, files: Files) returns (idx: seq<nat>)
    ensures var out := Fetch(q, web, poBox, quote, files);
      out.visited <= |PagesOf(q, web, quote)|
      && PicksAt(out.results, Encountered(PagesOf(q, web, quote)[..out.visited], Reading(web, q.maxResults, poBox)), idx)
  {
    var st := State([], InitialSeen(q, files), []);
    var r := Fetch(q, web, poBox, quote, files).results;
    idx := RunPagesOrder(st, PagesOf(q, web, quote), Reading(web, q.maxResults, poBox));
    assert r[0..] == r;
  }

  /** The address list holds one line per returned record. */
  lemma FetchTxt(q: Query, web: Web, poBox: PoBoxMatcher, quote: Encoder, files: Files)
    ensures var out := Fetch(q, web, poBox, quote, files);
      var txt := TxtPath(q, |out.results|);
      && txt in out.files
      && (q.seenPath != Some(txt) || out.seen == {} ==> out.files[txt] == TxtContent(out.results))
      && Count(TxtContent(out.results), '\n') == |out.results|
  {
    FetchSound(q, web, poBox, quote, files);
    TxtLines(Fetch(q, web, poBox, quote, files).results);
  }

  /** A normalized Principal Address can be stored in the seen file. */
  lemma AddressKeyStorable(details: map<string, string>)
    requires PrincipalAddress(details) != ""
    ensures Storable(AddressKey(details))
  {
    var addr := PrincipalAddress(details);
    var raw := if PRINCIPAL_ADDRESS in details then details[PRINCIPAL_ADDRESS] else "";
    StripIdempotent(raw);
    StripFacts(addr);
    NormalizedStorable(addr);
  }

  /** The seen set a crawl ends with can be stored when the one it started
      from was read from a file. */
  lemma SeenStorable(seen0: set<string>, results: seq<Record>, seen: set<string>)
    requires forall x :: x in seen0 ==> Storable(x)
    requires forall i :: 0 <= i < |results| ==> PrincipalAddress(results[i].details) != ""
    requires seen == seen0 + (set rec | rec in results :: AddressKey(rec.details))
    ensures forall x :: x in seen ==> Storable(x)
  {
    forall x | x in seen
      ensures Storable(x)
    {
      if x !in seen0 {
        var rec :| rec in results && AddressKey(rec.details) == x;
        var i :| 0 <= i < |results| && results[i] == rec;
        AddressKeyStorable(rec.details);
      }
    }
  }

  /** After a fetch with a seen file, reading that file back gives the seen
      set the fetch ended with. */
  lemma FetchSeenSaved(q: Query, web: Web, poBox: PoBoxMatcher, quote: Encoder, files: Files)
    requires q.seenPath.Some?
    ensures var out := Fetch(q, web, poBox, quote, files);
      out.seen != {} ==> InitialSeen(q, out.files) == out.seen
  {
    var out := Fetch(q, web, poBox, quote, files);
    if out.seen != {} {
      var path := q.seenPath.value;
      FetchSound(q, web, poBox, quote, files);
      LoadStorable(if path in files then files[path] else "");
      SeenStorable(InitialSeen(q, files), out.results, out.seen);
      assert path in out.files && out.files[path] == SeenContent(out.seen);
      LoadSave(out.seen);
      assert InitialSeen(q, out.files) == Load(SeenContent(out.seen));
    }
  }

  /** Running the same uncapped search again on the files a fetch left finds
      nothing new: every address it could accept is in the saved seen file. */
  lemma FetchRerunFindsNothing(q: Query, web: Web, poBox: PoBoxMatcher, quote: Encoder, files: Files)
    requires q.maxResults.None? && q.seenPath.Some?
    ensures Fetch(q, web, poBox, quote, Fetch(q, web, poBox, quote, files).files).results == []
  {
    var s := Reading(web, q.maxResults, poBox);
    var pages := PagesOf(q, web, quote);
    var out := Fetch(q, web, poBox, quote, files);
    RunPagesCovers(State([], InitialSeen(q, files), []), pages, s);
    FetchSeenSaved(q, web, poBox, quote, files);
    var seen1 := InitialSeen(q, out.files);
    assert out.seen <= seen1;
    assert AllCovered(seen1, pages, s);
    RunPagesIdle(State([], seen1, []), pages, s);
  }
}
