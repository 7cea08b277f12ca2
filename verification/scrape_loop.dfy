/**
 * The scrape loop of `fetch_sunbiz_data`: every row of every results page is
 * looked up on its detail page and kept when it has a physical Principal
 * Address not seen before, until `max_results` records have been kept.
 */
module ScrapeLoop {
  import opened Wrappers
  import opened Strings
  import opened AddressClassifier
  import opened PageExtractor

  const PRINCIPAL_ADDRESS: string := "Principal Address"

  /** The site as the scraper sees it. `listing(url)` is the chain of result
      tables reached from `url` by following "Next List" links, first page
      first; `detail(url)` is the detail page at `url`. */
  datatype Web = Web(listing: string -> seq<seq<RawRow>>, detail: string -> DetailPage)

  /** A kept entity: the fields of its result row, its resolved detail URL
      and the sections of its detail page. */
  datatype Record = Record(corporateName: string, documentNumber: string, status: string,
                           detailUrl: string, details: map<string, string>)

  /** What the loop has built so far: the kept records, the normalized
      addresses seen, and the counts passed to `on_progress`. */
  datatype State = State(results: seq<Record>, seen: set<string>, progress: seq<nat>)

  /** How the crawl ended: the final state and how many result pages it opened. */
  datatype Crawl = Crawl(state: State, visited: nat)

  /** The loop's fixed inputs: `max_results`; the sections read off the
      detail page at a URL; the filter a record's sections must pass; and the
      address under which a record is deduplicated. */
  datatype Setting = Setting(cap: Option<int>,
                             sectionsAt: string -> map<string, string>,
                             accepts: map<string, string> -> bool,
                             keyOf: map<string, string> -> string)

  // ---------------------------------------------------------------------
  // The scraper's filters.

  /** `details.get("Principal Address", "").strip()`. */
  function PrincipalAddress(details: map<string, string>): string {
    Strip(if PRINCIPAL_ADDRESS in details then details[PRINCIPAL_ADDRESS] else "")
  }

  /** Some address section holds a physical address and the Principal
      Address is not empty. */
  predicate Acceptable(details: map<string, string>, poBox: PoBoxMatcher) {
    ValidAddressIn(details, poBox) && PrincipalAddress(details) != ""
  }

  /** The normalized Principal Address. */
  function AddressKey(details: map<string, string>): string {
    Normalize(PrincipalAddress(details))
  }

  /** The address filter asks only that SOME address section be physical:
      a detail page whose Principal Address is a PO Box is still accepted
      when its Mailing Address is a street address, and that PO Box then
      becomes the record's key. */
  lemma PoBoxPrincipalAccepted(poBox: PoBoxMatcher, principal: string, street: string)
    returns (details: map<string, string>)
    requires principal != [] && !IsSpace(principal[0]) && !IsSpace(principal[|principal| - 1])
    requires poBox(principal)
    requires street != [] && !IsSpace(street[0]) && !poBox(street)
    ensures Acceptable(details, poBox)
    ensures PRINCIPAL_ADDRESS in details && IsPoBoxOrEmpty(details[PRINCIPAL_ADDRESS], poBox)
    ensures PrincipalAddress(details) == principal
  {
    var mailing := "Mailing Address";
    details := map[PRINCIPAL_ADDRESS := principal, mailing := street];
    StripUntrimmed(principal);
    assert Lower(mailing)[8..15] == "address";
    assert OccursAt("address", Lower(mailing), 8);
    assert IsPhysicalAddress(details, mailing, poBox);
  }

  /** The setting of a crawl of `web`: a detail page is read by
      `_extract_detail_sections`, accepted by `_has_valid_address` and a
      non-empty Principal Address, and deduplicated by `_normalize_address`. */
  function Reading(web: Web, cap: Option<int>, poBox: PoBoxMatcher): Setting {
    Setting(cap,
            (url: string) => Sections(web.detail(url)),
            (details: map<string, string>) => Acceptable(details, poBox),
            (details: map<string, string>) => AddressKey(details))
  }

  // ---------------------------------------------------------------------
  // One row.

  /** The record a result row would produce once its detail page is read. */
  function RecordOf(row: ResultRow, s: Setting): Record {
    var url := ResolveUrl(row.detailPath);
    Record(row.corporateName, row.documentNumber, row.status, url, s.sectionsAt(url))
  }

  /** The address under which a record is deduplicated. */
  function Key(rec: Record, s: Setting): string {
    s.keyOf(rec.details)
  }

  /** The record of a row when it passes the filter. */
  function Examine(row: ResultRow, s: Setting): Option<Record> {
    var rec := RecordOf(row, s);
    if s.accepts(rec.details) then Some(rec) else None
  }

  /** One pass of the inner loop body: keep the row's record unless it fails
      the filter or its address was seen already. */
  function Consider(st: State, row: ResultRow, s: Setting): State {
    var e := Examine(row, s);
    if e.None? || Key(e.value, s) in st.seen then st
    else State(st.results + [e.value], st.seen + {Key(e.value, s)}, st.progress + [|st.results| + 1])
  }

  /** When a row changes the state, its record passed the filter, had a new
      address, and was appended. */
  lemma ConsiderKeeps(st: State, row: ResultRow, s: Setting)
    requires Consider(st, row, s) != st
    ensures Examine(row, s).Some? && s.accepts(Examine(row, s).value.details)
    ensures Key(Examine(row, s).value, s) !in st.seen
    ensures var rec := Examine(row, s).value;
      Consider(st, row, s) == State(st.results + [rec], st.seen + {Key(rec, s)}, st.progress + [|st.results| + 1])
  {
  }

  /** `max_results is not None and len(results) >= max_results`. */
  predicate Capped(st: State, cap: Option<int>) {
    cap.Some? && |st.results| >= cap.value
  }

  // ---------------------------------------------------------------------
  // The loops, as functions.

  /** The inner `for row in rows` loop, which stops as soon as the cap is met. */
  function RunRows(st: State, rows: seq<ResultRow>, s: Setting): State
    decreases |rows|
  {
    if rows == [] || Capped(st, s.cap) then st
    else RunRows(Consider(st, rows[0], s), rows[1..], s)
  }

  /** The outer `while current_url` loop over the chain of result pages; it
      stops after a page that leaves the cap met. */
  function RunPages(st: State, pages: seq<seq<RawRow>>, s: Setting): Crawl
    decreases |pages|
  {
    if pages == [] then Crawl(st, 0)
    else
      var next := RunRows(st, Rows(pages[0]), s);
      if Capped(next, s.cap) then Crawl(next, 1)
      else
        var c := RunPages(next, pages[1..], s);
        Crawl(c.state, c.visited + 1)
  }

  function Resume(c: Crawl, done: nat): Crawl {
    Crawl(c.state, c.visited + done)
  }

  /** Under `Reading`, a row's record carries the sections of its detail
      page and is kept when it passes the scraper's filters with a new
      normalized address. */
  lemma ReadingConsider(st: State, row: ResultRow, web: Web, cap: Option<int>, poBox: PoBoxMatcher,
                        details: map<string, string>)
    requires details == Sections(web.detail(ResolveUrl(row.detailPath)))
    ensures var rec := Record(row.corporateName, row.documentNumber, row.status, ResolveUrl(row.detailPath), details);
      Consider(st, row, Reading(web, cap, poBox))
      == if !Acceptable(details, poBox) || AddressKey(details) in st.seen then st
         else State(st.results + [rec], st.seen + {AddressKey(details)}, st.progress + [|st.results| + 1])
  {
  }

  /** The body of the inner loop: open the row's detail page, read its
      sections, and keep the record when it has a physical address, a
      non-empty Principal Address, and a normalized address not seen yet. */
  method ConsiderRow(results: seq<Record>, seen: set<string>, progress: seq<nat>, row: ResultRow,
                     web: Web, cap: Option<int>, poBox: PoBoxMatcher)
    returns (results': seq<Record>, seen': set<string>, progress': seq<nat>)
    ensures State(results', seen', progress') == Consider(State(results, seen, progress), row, Reading(web, cap, poBox))
  {
    results', seen', progress' := results, seen, progress;
    var detailUrl := ResolveUrl(row.detailPath);
    var details := ExtractDetailSections(web.detail(detailUrl));
    ReadingConsider(State(results, seen, progress), row, web, cap, poBox, details);
    var valid := HasValidAddress(details, poBox);
    if !valid {
      return;
    }
    var addr := Strip(if PRINCIPAL_ADDRESS in details then details[PRINCIPAL_ADDRESS] else "");
    assert addr == PrincipalAddress(details);
    if addr == "" {
      return;
    }
    var normalized := Normalize(addr);
    assert normalized == AddressKey(details);
    if normalized in seen {
      return;
    }
    seen' := seen + {normalized};
    results' := results + [Record(row.corporateName, row.documentNumber, row.status, detailUrl, details)];
    progress' := progress + [|results'|];
  }

  /** One turn of the inner loop: past the cap check, the first row is
      considered and the loop goes on with the rest. */
  lemma RunRowsUnfold(st: State, rows: seq<ResultRow>, s: Setting)
    requires rows != []
    ensures RunRows(st, rows, s) == if Capped(st, s.cap) then st else RunRows(Consider(st, rows[0], s), rows[1..], s)
  {
  }

  /** The inner `for row in rows` loop over one result page. */
  method CrawlRows(results: seq<Record>, seen: set<string>, progress: seq<nat>, rows: seq<ResultRow>,
                   web: Web, cap: Option<int>, poBox: PoBoxMatcher)
    returns (results': seq<Record>, seen': set<string>, progress': seq<nat>)
    ensures State(results', seen', progress') == RunRows(State(results, seen, progress), rows, Reading(web, cap, poBox))
  {
    ghost var s := Reading(web, cap, poBox);
    ghost var goal := RunRows(State(results, seen, progress), rows, s);
    results', seen', progress' := results, seen, progress;
    var j := 0;
    while j < |rows|
      invariant 0 <= j <= |rows|
      invariant RunRows(State(results', seen', progress'), rows[j..], s) == goal
    {
      RunRowsUnfold(State(results', seen', progress'), rows[j..], s);
      if cap.Some? && |results'| >= cap.value {
        break;
      }
      results', seen', progress' := ConsiderRow(results', seen', progress', rows[j], web, cap, poBox);
      assert rows[j..][1..] == rows[j + 1..];
      j := j + 1;
    }
  }

  /** The scrape loop of `fetch_sunbiz_data`, from an empty result list and
      the seen set read from disk. */
  method CrawlPages(pages: seq<seq<RawRow>>, web: Web, cap: Option<int>, poBox: PoBoxMatcher, seen0: set<string>)
    returns (c: Crawl)
    ensures c == RunPages(State([], seen0, []), pages, Reading(web, cap, poBox))
  {
    ghost var s := Reading(web, cap, poBox);
    var results: seq<Record> := [];
    var seen := seen0;
    var progress: seq<nat> := [];
    ghost var goal := RunPages(State([], seen0, []), pages, s);
    var i := 0;
    while i < |pages|
      invariant 0 <= i <= |pages|
      invariant Resume(RunPages(State(results, seen, progress), pages[i..], s), i) == goal
    {
      var rows := ExtractSearchResults(pages[i]);
      results, seen, progress := CrawlRows(results, seen, progress, rows, web, cap, poBox);
      assert pages[i..][1..] == pages[i + 1..];
      i := i + 1;
      if cap.Some? && |results| >= cap.value {
        break;
      }
    }
    c := Crawl(State(results, seen, progress), i);
  }

  // ---------------------------------------------------------------------
  // The cap.

  lemma {:induction false} RunRowsCap(st: State, rows: seq<ResultRow>, s: Setting, n: int)
    requires s.cap == Some(n) && |st.results| <= Max(0, n)
    ensures |RunRows(st, rows, s).results| <= Max(0, n)
    decreases |rows|
  {
    if rows != [] && !Capped(st, s.cap) {
      RunRowsCap(Consider(st, rows[0], s), rows[1..], s, n);
    }
  }

  /** With `max_results = n` the loop keeps at most `n` records (none when
      `n` is not positive). */
  lemma {:induction false} RunPagesCap(st: State, pages: seq<seq<RawRow>>, s: Setting, n: int)
    requires s.cap == Some(n) && |st.results| <= Max(0, n)
    ensures |RunPages(st, pages, s).state.results| <= Max(0, n)
    decreases |pages|
  {
    if pages != [] {
      RunRowsCap(st, Rows(pages[0]), s, n);
      var next := RunRows(st, Rows(pages[0]), s);
      if !Capped(next, s.cap) {
        RunPagesCap(next, pages[1..], s, n);
      }
    }
  }

  /** The crawl opens result pages only while the cap is unmet: it opens at
      most the whole chain, stops early only when the cap is met, and opens
      the whole chain when there is no cap. */
  lemma {:induction false} RunPagesVisits(st: State, pages: seq<seq<RawRow>>, s: Setting)
    ensures var c := RunPages(st, pages, s);
      && c.visited <= |pages|
      && (pages != [] ==> c.visited >= 1)
      && (c.visited < |pages| ==> Capped(c.state, s.cap))
      && (s.cap.None? ==> c.visited == |pages|)
    decreases |pages|
  {
    if pages != [] {
      var next := RunRows(st, Rows(pages[0]), s);
      if !Capped(next, s.cap) {
        RunPagesVisits(next, pages[1..], s);
      }
    }
  }

  /** No result page is opened after the one that met the cap: every page
      before the last one opened left the cap unmet. */
  lemma {:induction false} RunPagesStopsAtCap(st: State, pages: seq<seq<RawRow>>, s: Setting, k: nat)
    requires k < |pages|
    requires 1 <= k < RunPages(st, pages, s).visited
    ensures !Capped(RunPages(st, pages[..k], s).state, s.cap)
    decreases |pages|
  {
    RunPagesVisits(st, pages, s);
    var next := RunRows(st, Rows(pages[0]), s);
    assert pages[..k][0] == pages[0];
    assert !Capped(next, s.cap);
    if k > 1 {
      assert pages[..k][1..] == pages[1..][..k - 1];
      RunPagesStopsAtCap(next, pages[1..], s, k - 1);
    } else {
      assert pages[..k][1..] == [];
    }
  }

  // ---------------------------------------------------------------------
  // What the kept records satisfy.

  function Keys(results: seq<Record>, s: Setting): set<string> {
    set r | r in results :: Key(r, s)
  }

  /** The loop's invariant over the records kept from an initial seen set:
      each passes the address filters and has a new address, the addresses
      are pairwise distinct, `seen` grows by exactly those addresses, and
      `on_progress` has been told 1, 2, 3, ... */
  predicate Sound(st: State, seen0: set<string>, s: Setting) {
    && (forall i :: 0 <= i < |st.results| ==> s.accepts(st.results[i].details) && Key(st.results[i], s) !in seen0)
    && (forall i, j :: 0 <= i < j < |st.results| ==> Key(st.results[i], s) != Key(st.results[j], s))
    && st.seen == seen0 + Keys(st.results, s)
    && |st.progress| == |st.results|
    && (forall i :: 0 <= i < |st.progress| ==> st.progress[i] == i + 1)
  }

  lemma KeysSnoc(rs: seq<Record>, r: Record, s: Setting)
    ensures Keys(rs + [r], s) == Keys(rs, s) + {Key(r, s)}
  {
    assert forall x :: x in rs + [r] <==> x in rs || x == r;
  }

  /** Appending a record whose address is new keeps the invariant. */
  lemma KeepSound(st: State, rec: Record, seen0: set<string>, s: Setting)
    requires Sound(st, seen0, s)
    requires s.accepts(rec.details) && Key(rec, s) !in st.seen
    ensures Sound(State(st.results + [rec], st.seen + {Key(rec, s)}, st.progress + [|st.results| + 1]), seen0, s)
  {
    var rs := st.results + [rec];
    var p := st.progress + [|st.results| + 1];
    KeysSnoc(st.results, rec, s);
    forall i | 0 <= i < |rs|
      ensures s.accepts(rs[i].details) && Key(rs[i], s) !in seen0
    {
      if i < |st.results| {
        assert rs[i] == st.results[i];
      }
    }
    forall i, j | 0 <= i < j < |rs|
      ensures Key(rs[i], s) != Key(rs[j], s)
    {
      if j == |st.results| {
        assert rs[i] in st.results;
      } else {
        assert rs[i] == st.results[i] && rs[j] == st.results[j];
      }
    }
    forall i | 0 <= i < |p|
      ensures p[i] == i + 1
    {
      if i < |st.progress| {
        assert p[i] == st.progress[i];
      }
    }
  }

  lemma ConsiderSound(st: State, row: ResultRow, s: Setting, seen0: set<string>)
    requires Sound(st, seen0, s)
    ensures Sound(Consider(st, row, s), seen0, s)
  {
    if Consider(st, row, s) != st {
      ConsiderKeeps(st, row, s);
      KeepSound(st, Examine(row, s).value, seen0, s);
    }
  }

  lemma {:induction false} RunRowsSound(st: State, rows: seq<ResultRow>, s: Setting, seen0: set<string>)
    requires Sound(st, seen0, s)
    ensures Sound(RunRows(st, rows, s), seen0, s)
    decreases |rows|
  {
    if rows != [] && !Capped(st, s.cap) {
      ConsiderSound(st, rows[0], s, seen0);
      RunRowsSound(Consider(st, rows[0], s), rows[1..], s, seen0);
    }
  }

  /** Starting from no records and the seen set `seen0`, every record the
      crawl keeps passes the address filters, has an address outside
      `seen0` and distinct from the others, and the final seen set is
      `seen0` plus those addresses. */
  lemma {:induction false} RunPagesSound(st: State, pages: seq<seq<RawRow>>, s: Setting, seen0: set<string>)
    requires Sound(st, seen0, s)
    ensures Sound(RunPages(st, pages, s).state, seen0, s)
    decreases |pages|
  {
    if pages != [] {
      RunRowsSound(st, Rows(pages[0]), s, seen0);
      var next := RunRows(st, Rows(pages[0]), s);
      if !Capped(next, s.cap) {
        RunPagesSound(next, pages[1..], s, seen0);
      }
    }
  }

  // ---------------------------------------------------------------------
  // Order: the kept records are the records of some of the rows, in the
  // order the rows were met.

  /** `xs` is the subsequence of `ys` at the strictly increasing positions `idx`. */
  predicate PicksAt(xs: seq<Record>, ys: seq<Record>, idx: seq<nat>) {
    && |idx| == |xs|
    && (forall k :: 0 <= k < |idx| ==> idx[k] < |ys| && xs[k] == ys[idx[k]])
    && (forall k, l :: 0 <= k < l < |idx| ==> idx[k] < idx[l])
  }

  /** The records of a row sequence, row by row. */
  function RecordsOf(rows: seq<ResultRow>, s: Setting): (recs: seq<Record>)
    ensures |recs| == |rows|
  {
    seq(|rows|, i requires 0 <= i < |rows| => RecordOf(rows[i], s))
  }

  /** The records of every row of every page, in the order they are met. */
  function Encountered(pages: seq<seq<RawRow>>, s: Setting): seq<Record>
    decreases |pages|
  {
    if pages == [] then [] else RecordsOf(Rows(pages[0]), s) + Encountered(pages[1..], s)
  }

  function Shifted(idx: seq<nat>, d: nat): (r: seq<nat>)
    ensures |r| == |idx| && forall k :: 0 <= k < |idx| ==> r[k] == idx[k] + d
  {
    seq(|idx|, k requires 0 <= k < |idx| => idx[k] + d)
  }

  /** Picks from two sequences combine into picks from their concatenation. */
  lemma PicksConcat(xs1: seq<Record>, ys1: seq<Record>, idx1: seq<nat>,
                    xs2: seq<Record>, ys2: seq<Record>, idx2: seq<nat>)
    requires PicksAt(xs1, ys1, idx1) && PicksAt(xs2, ys2, idx2)
    ensures PicksAt(xs1 + xs2, ys1 + ys2, idx1 + Shifted(idx2, |ys1|))
  {
  }

  lemma PicksTail(xs: seq<Record>, ys: seq<Record>, idx: seq<nat>)
    requires ys != [] && PicksAt(xs, ys[1..], idx)
    ensures PicksAt(xs, ys, Shifted(idx, 1))
    ensures PicksAt([ys[0]] + xs, ys, [0] + Shifted(idx, 1))
  {
  }

  /** A row adds nothing or exactly its own record. */
  lemma ConsiderAppends(st: State, row: ResultRow, s: Setting)
    ensures var r := Consider(st, row, s).results;
      r == st.results || r == st.results + [RecordOf(row, s)]
  {
    var rec := RecordOf(row, s);
    if !s.accepts(rec.details) || Key(rec, s) in st.seen {
      assert Consider(st, row, s) == st;
    } else {
      assert Examine(row, s) == Some(rec);
    }
  }

  lemma RecordsOfTail(rows: seq<ResultRow>, s: Setting)
    requires rows != []
    ensures RecordsOf(rows[1..], s) == RecordsOf(rows, s)[1..]
    ensures RecordsOf(rows, s)[0] == RecordOf(rows[0], s)
  {
  }

  /** One row's step of the order argument, over plain sequences: `mid` is
      the result list after the row, which either left `before` as it was or
      appended `recs[0]`. */
  lemma OrderStep(r: seq<Record>, before: seq<Record>, mid: seq<Record>, recs: seq<Record>, idx': seq<nat>)
    returns (idx: seq<nat>)
    requires recs != []
    requires mid == before || mid == before + [recs[0]]
    requires |mid| <= |r| && r[..|mid|] == mid && PicksAt(r[|mid|..], recs[1..], idx')
    ensures |before| <= |r| && r[..|before|] == before && PicksAt(r[|before|..], recs, idx)
  {
    PicksTail(r[|mid|..], recs, idx');
    if mid == before {
      idx := Shifted(idx', 1);
    } else {
      idx := [0] + Shifted(idx', 1);
      assert r[|before|] == r[..|mid|][|before|];
      assert r[..|before|] == r[..|mid|][..|before|];
      assert r[|before|..] == [recs[0]] + r[|mid|..];
    }
  }

  lemma {:induction false} RunRowsOrder(st: State, rows: seq<ResultRow>, s: Setting) returns (idx: seq<nat>)
    ensures var r := RunRows(st, rows, s).results;
      |st.results| <= |r| && r[..|st.results|] == st.results
      && PicksAt(r[|st.results|..], RecordsOf(rows, s), idx)
    decreases |rows|
  {
    var r := RunRows(st, rows, s).results;
    if rows == [] || Capped(st, s.cap) {
      idx := [];
      assert r[|st.results|..] == [];
    } else {
      var st' := Consider(st, rows[0], s);
      assert r == RunRows(st', rows[1..], s).results;
      var idx' := RunRowsOrder(st', rows[1..], s);
      RecordsOfTail(rows, s);
      ConsiderAppends(st, rows[0], s);
      idx := OrderStep(r, st.results, st'.results, RecordsOf(rows, s), idx');
    }
  }

  /** One page's step of the order argument, over plain sequences: the page
      took `before` to `mid` by picks from `recs`, the later pages took `mid`
      to `r` by picks from `rest`. */
  lemma PageStep(r: seq<Record>, before: seq<Record>, mid: seq<Record>, recs: seq<Record>, rest: seq<Record>,
                 idx1: seq<nat>, idx2: seq<nat>)
    returns (idx: seq<nat>)
    requires |before| <= |mid| && mid[..|before|] == before && PicksAt(mid[|before|..], recs, idx1)
    requires |mid| <= |r| && r[..|mid|] == mid && PicksAt(r[|mid|..], rest, idx2)
    ensures |before| <= |r| && r[..|before|] == before && PicksAt(r[|before|..], recs + rest, idx)
  {
    PicksConcat(mid[|before|..], recs, idx1, r[|mid|..], rest, idx2);
    idx := idx1 + Shifted(idx2, |recs|);
    assert r[|before|..] == mid[|before|..] + r[|mid|..];
  }

  /** The records the crawl keeps appear in the order their rows were met,
      each equal to the record of its row. */
  lemma {:induction false} RunPagesOrder(st: State, pages: seq<seq<RawRow>>, s: Setting) returns (idx: seq<nat>)
    ensures var c := RunPages(st, pages, s);
      var r := c.state.results;
      && c.visited <= |pages|
      && |st.results| <= |r| && r[..|st.results|] == st.results
      && PicksAt(r[|st.results|..], Encountered(pages[..c.visited], s), idx)
    decreases |pages|
  {
    var c := RunPages(st, pages, s);
    var r := c.state.results;
    RunPagesVisits(st, pages, s);
    if pages == [] {
      idx := [];
      assert r[|st.results|..] == [];
    } else {
      var recs := RecordsOf(Rows(pages[0]), s);
      var next := RunRows(st, Rows(pages[0]), s);
      var idx1 := RunRowsOrder(st, Rows(pages[0]), s);
      var metPages := pages[..c.visited];
      if Capped(next, s.cap) {
        assert r == next.results;
        assert metPages == [pages[0]];
        assert Encountered(metPages, s) == recs + Encountered([], s);
        assert Encountered(metPages, s) == recs;
        idx := idx1;
      } else {
        var c' := RunPages(next, pages[1..], s);
        assert r == c'.state.results;
        var idx2 := RunPagesOrder(next, pages[1..], s);
        var rest := Encountered(pages[1..][..c'.visited], s);
        assert metPages[0] == pages[0];
        assert metPages[1..] == pages[1..][..c'.visited];
        assert Encountered(metPages, s) == recs + rest;
        idx := PageStep(r, st.results, next.results, recs, rest, idx1, idx2);
      }
    }
  }

  // ---------------------------------------------------------------------
  // Covering: once every row's address is in the seen set, a crawl keeps
  // nothing.

  /** Every row either fails the address filters or has an address in `seen`. */
  predicate Covered(seen: set<string>, rows: seq<ResultRow>, s: Setting) {
    forall i :: 0 <= i < |rows| ==> Examine(rows[i], s).None? || Key(Examine(rows[i], s).value, s) in seen
  }

  predicate AllCovered(seen: set<string>, pages: seq<seq<RawRow>>, s: Setting) {
    forall k :: 0 <= k < |pages| ==> Covered(seen, Rows(pages[k]), s)
  }

  lemma {:induction false} RunRowsGrows(st: State, rows: seq<ResultRow>, s: Setting)
    ensures st.seen <= RunRows(st, rows, s).seen
    decreases |rows|
  {
    if rows != [] && !Capped(st, s.cap) {
      RunRowsGrows(Consider(st, rows[0], s), rows[1..], s);
    }
  }

  /** Without a cap, every row ends up covered by the seen set. */
  lemma {:induction false} RunRowsCovers(st: State, rows: seq<ResultRow>, s: Setting)
    requires s.cap.None?
    ensures Covered(RunRows(st, rows, s).seen, rows, s)
    decreases |rows|
  {
    if rows != [] {
      var st' := Consider(st, rows[0], s);
      RunRowsCovers(st', rows[1..], s);
      RunRowsGrows(st', rows[1..], s);
      forall i | 1 <= i < |rows|
        ensures Examine(rows[i], s).None? || Key(Examine(rows[i], s).value, s) in RunRows(st, rows, s).seen
      {
        assert rows[i] == rows[1..][i - 1];
      }
    }
  }

  lemma {:induction false} RunPagesGrows(st: State, pages: seq<seq<RawRow>>, s: Setting)
    ensures st.seen <= RunPages(st, pages, s).state.seen
    decreases |pages|
  {
    if pages != [] {
      RunRowsGrows(st, Rows(pages[0]), s);
      var next := RunRows(st, Rows(pages[0]), s);
      if !Capped(next, s.cap) {
        RunPagesGrows(next, pages[1..], s);
      }
    }
  }

  /** Without a cap, the final seen set covers every row of every page. */
  lemma {:induction false} RunPagesCovers(st: State, pages: seq<seq<RawRow>>, s: Setting)
    requires s.cap.None?
    ensures AllCovered(RunPages(st, pages, s).state.seen, pages, s)
    decreases |pages|
  {
    if pages != [] {
      var next := RunRows(st, Rows(pages[0]), s);
      var final := RunPages(st, pages, s).state.seen;
      RunRowsCovers(st, Rows(pages[0]), s);
      RunPagesCovers(next, pages[1..], s);
      RunPagesGrows(next, pages[1..], s);
      forall k | 0 <= k < |pages|
        ensures Covered(final, Rows(pages[k]), s)
      {
        if k > 0 {
          assert pages[k] == pages[1..][k - 1];
        }
      }
    }
  }

  lemma {:induction false} RunRowsIdle(st: State, rows: seq<ResultRow>, s: Setting)
    requires Covered(st.seen, rows, s)
    ensures RunRows(st, rows, s) == st
    decreases |rows|
  {
    if rows != [] && !Capped(st, s.cap) {
      assert Consider(st, rows[0], s) == st;
      assert Covered(st.seen, rows[1..], s) by {
        forall i | 0 <= i < |rows| - 1
          ensures Examine(rows[1..][i], s).None? || Key(Examine(rows[1..][i], s).value, s) in st.seen
        {
          assert rows[1..][i] == rows[i + 1];
        }
      }
      RunRowsIdle(st, rows[1..], s);
    }
  }

  /** A crawl whose seen set already covers every row keeps nothing. */
  lemma {:induction false} RunPagesIdle(st: State, pages: seq<seq<RawRow>>, s: Setting)
    requires AllCovered(st.seen, pages, s)
    ensures RunPages(st, pages, s).state == st
    decreases |pages|
  {
    if pages != [] {
      RunRowsIdle(st, Rows(pages[0]), s);
      if !Capped(st, s.cap) {
        assert AllCovered(st.seen, pages[1..], s) by {
          forall k | 0 <= k < |pages| - 1
            ensures Covered(st.seen, Rows(pages[1..][k]), s)
          {
            assert pages[1..][k] == pages[k + 1];
          }
        }
        RunPagesIdle(st, pages[1..], s);
      }
    }
  }
}
