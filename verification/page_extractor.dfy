/**
 * What the scraper reads off a rendered page, over abstract page contents
 * instead of a browser: the rows of the search-results table, the labelled
 * sections of an entity's detail page, and the "Next List" link.
 */
module PageExtractor {
  import opened Wrappers
  import opened Strings

  const BASE_URL: string := "https://search.sunbiz.org"

  /** An `<a>` element: its rendered text and its `href` attribute, if any. */
  datatype Anchor = Anchor(text: string, href: Option<string>)

  /** One `tr` of the results table: the rendered text of its `td` cells and
      the first link inside the first cell, if there is one. */
  datatype RawRow = RawRow(cells: seq<string>, link: Option<Anchor>)

  /** A row the scraper keeps. */
  datatype ResultRow = ResultRow(corporateName: string, documentNumber: string, status: string, detailPath: string)

  /** One `div.detailSection`: the rendered texts of its `span` elements. */
  type Block = seq<string>

  /** A detail page: its sections in document order. */
  type DetailPage = seq<Block>

  // ---------------------------------------------------------------------
  // Detail sections

  /** Block `i` of `page` contributes the entry labelled `key`. */
  predicate DefinesAt(page: DetailPage, i: int, key: string) {
    0 <= i < |page| && |page[i]| >= 2 && key != "" && Strip(page[i][0]) == key
  }

  /** The sections of a page, read block by block; a block with fewer than
      two spans or an empty label is skipped, and a later label overwrites an
      earlier one. */
  function Sections(page: DetailPage): map<string, string> {
    if page == [] then map[] else AddBlock(Sections(page[..|page| - 1]), page[|page| - 1])
  }

  function AddBlock(sections: map<string, string>, block: Block): map<string, string> {
    if |block| >= 2 && Strip(block[0]) != "" then sections[Strip(block[0]) := Strip(block[1])]
    else sections
  }

  lemma SectionsSnoc(page: DetailPage, i: nat)
    requires i < |page|
    ensures Sections(page[..i + 1]) == AddBlock(Sections(page[..i]), page[i])
  {
    assert page[..i + 1][..i] == page[..i];
  }

  lemma {:induction false} SectionsKeysSound(page: DetailPage, key: string)
    requires key in Sections(page)
    ensures exists i :: DefinesAt(page, i, key)
  {
    var n := |page| - 1;
    var init := page[..n];
    assert Sections(page) == AddBlock(Sections(init), page[n]);
    if key in Sections(init) {
      SectionsKeysSound(init, key);
      var i :| DefinesAt(init, i, key);
      assert init[i] == page[i];
      assert DefinesAt(page, i, key);
    } else {
      assert DefinesAt(page, n, key);
    }
  }

  lemma {:induction false} SectionsKeysComplete(page: DetailPage, i: int, key: string)
    requires DefinesAt(page, i, key)
    ensures key in Sections(page)
  {
    var n := |page| - 1;
    var init := page[..n];
    assert Sections(page) == AddBlock(Sections(init), page[n]);
    if i < n {
      assert init[i] == page[i];
      SectionsKeysComplete(init, i, key);
    }
  }

  /** A label is present exactly when some block contributes it. */
  lemma SectionsKeys(page: DetailPage, key: string)
    ensures key in Sections(page) <==> exists i :: DefinesAt(page, i, key)
  {
    if key in Sections(page) {
      SectionsKeysSound(page, key);
    }
    if exists i :: DefinesAt(page, i, key) {
      var i :| DefinesAt(page, i, key);
      SectionsKeysComplete(page, i, key);
    }
  }

  /** The value under a label is the second span of the last block that
      contributes that label. */
  lemma {:induction false} SectionsLastWins(page: DetailPage, i: nat, key: string)
    requires DefinesAt(page, i, key)
    requires forall j :: i < j < |page| ==> !DefinesAt(page, j, key)
    ensures key in Sections(page) && Sections(page)[key] == Strip(page[i][1])
  {
    var init := page[..|page| - 1];
    if i < |page| - 1 {
      assert forall j :: 0 <= j < |init| ==> (DefinesAt(init, j, key) <==> DefinesAt(page, j, key));
      assert DefinesAt(init, i, key);
      SectionsLastWins(init, i, key);
      assert !DefinesAt(page, |page| - 1, key);
    }
  }

  /** `_extract_detail_sections`. */
  method ExtractDetailSections(page: DetailPage) returns (sections: map<string, string>)
    ensures sections == Sections(page)
  {
    sections := map[];
    for i := 0 to |page|
      invariant sections == Sections(page[..i])
    {
      SectionsSnoc(page, i);
      var spans := page[i];
      if |spans| < 2 {
        continue;
      }
      var key := Strip(spans[0]);
      var value := Strip(spans[1]);
      if key != "" {
        sections := sections[key := value];
      }
    }
    assert page[..|page|] == page;
  }

  // ---------------------------------------------------------------------
  // Search results

  /** A table row the scraper keeps: at least three cells and a link. */
  predicate Listed(raw: RawRow) {
    |raw.cells| >= 3 && raw.link.Some?
  }

  /** The fields of a kept row: the link's text, the second and third cells,
      and the link's target (empty when the link has none). */
  function ToResultRow(raw: RawRow): ResultRow
    requires Listed(raw)
  {
    var link := raw.link.value;
    ResultRow(Strip(link.text), Strip(raw.cells[1]), Strip(raw.cells[2]),
              if link.href.Some? then link.href.value else "")
  }

  function RowsOf(raw: RawRow): seq<ResultRow> {
    if Listed(raw) then [ToResultRow(raw)] else []
  }

  /** The rows kept from a results table, in table order. */
  function Rows(raws: seq<RawRow>): seq<ResultRow> {
    if raws == [] then [] else Rows(raws[..|raws| - 1]) + RowsOf(raws[|raws| - 1])
  }

  /** Keeping rows commutes with splitting the table: each row is kept or
      dropped on its own, and the kept rows stay in table order. */
  lemma {:induction false} RowsConcat(a: seq<RawRow>, b: seq<RawRow>)
    ensures Rows(a + b) == Rows(a) + Rows(b)
    decreases |b|
  {
    if b == [] {
      assert a + b == a;
    } else {
      var b' := b[..|b| - 1];
      assert (a + b)[..|a + b| - 1] == a + b';
      RowsConcat(a, b');
    }
  }

  /** Table row `i` is listed and yields `row`. */
  predicate YieldsAt(raws: seq<RawRow>, i: int, row: ResultRow) {
    0 <= i < |raws| && Listed(raws[i]) && ToResultRow(raws[i]) == row
  }

  lemma RowsSnoc(raws: seq<RawRow>)
    requires raws != []
    ensures Rows(raws) == Rows(raws[..|raws| - 1]) + RowsOf(raws[|raws| - 1])
  {
  }

  lemma {:induction false} RowsMembersSound(raws: seq<RawRow>, row: ResultRow)
    requires row in Rows(raws)
    ensures exists i :: YieldsAt(raws, i, row)
  {
    var n := |raws| - 1;
    var init := raws[..n];
    RowsSnoc(raws);
    if row in Rows(init) {
      RowsMembersSound(init, row);
      var i :| YieldsAt(init, i, row);
      assert init[i] == raws[i];
      assert YieldsAt(raws, i, row);
    } else {
      assert YieldsAt(raws, n, row);
    }
  }

  lemma RowsMembersComplete(raws: seq<RawRow>, i: int, row: ResultRow)
    requires YieldsAt(raws, i, row)
    ensures row in Rows(raws)
  {
    var single := [raws[i]];
    assert Rows(single) == RowsOf(raws[i]) by { assert single[..0] == []; }
    assert raws == raws[..i] + (single + raws[i + 1..]);
    RowsConcat(raws[..i], single + raws[i + 1..]);
    RowsConcat(single, raws[i + 1..]);
  }

  /** A row is in the output exactly when some listed table row yields it. */
  lemma RowsMembers(raws: seq<RawRow>, row: ResultRow)
    ensures row in Rows(raws) <==> exists i :: YieldsAt(raws, i, row)
  {
    if row in Rows(raws) {
      RowsMembersSound(raws, row);
    }
    if exists i :: YieldsAt(raws, i, row) {
      var i :| YieldsAt(raws, i, row);
      RowsMembersComplete(raws, i, row);
    }
  }

  /** `_extract_search_results`. */
  method ExtractSearchResults(raws: seq<RawRow>) returns (rows: seq<ResultRow>)
    ensures rows == Rows(raws)
  {
    rows := [];
    for i := 0 to |raws|
      invariant rows == Rows(raws[..i])
    {
      assert raws[..i + 1][..i] == raws[..i];
      var tr := raws[i];
      if |tr.cells| < 3 {
        continue;
      }
      if tr.link.None? {
        continue;
      }
      var link := tr.link.value;
      var href := if link.href.Some? then link.href.value else "";
      rows := rows + [ResultRow(Strip(link.text), Strip(tr.cells[1]), Strip(tr.cells[2]), href)];
    }
    assert raws[..|raws|] == raws;
  }

  // ---------------------------------------------------------------------
  // Links

  predicate StartsWithSlash(path: string) {
    path != [] && path[0] == '/'
  }

  /** A link target as an absolute URL: a site-relative path gets the site's
      origin in front, anything else is taken as it is. */
  function ResolveUrl(path: string): (url: string)
    ensures |path| <= |url| && url[|url| - |path|..] == path
    ensures StartsWithSlash(path) ==> url == BASE_URL + path
    ensures StartsWithSlash(path) <==> url != path
    ensures !StartsWithSlash(url)
  {
    if StartsWithSlash(path) then BASE_URL + path else path
  }

  /** Resolving an already resolved URL changes nothing. */
  lemma ResolveUrlIdempotent(path: string)
    ensures ResolveUrl(ResolveUrl(path)) == ResolveUrl(path)
  {
  }

  /** `_get_next_list_url`: the target of the first "Next List" link, made
      absolute; none when there is no such link or its target is empty. */
  function NextListUrl(link: Option<Anchor>): (next: Option<string>)
    ensures next.Some? <==> link.Some? && link.value.href.Some? && link.value.href.value != ""
    ensures next.Some? ==> next.value != "" && next.value == ResolveUrl(link.value.href.value)
  {
    if link.None? then None
    else
      var href := link.value.href;
      if href.None? || href.value == "" then None
      else Some(ResolveUrl(href.value))
  }
}
