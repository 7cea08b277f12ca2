/**
 * The address predicates of the scraper: whether a text is empty or a PO Box,
 * whether a set of detail sections holds a physical address, and the
 * normalisation that makes two spellings of one address compare equal.
 */
module AddressClassifier {
  import opened Strings

  /** Whether `PO_BOX_PATTERN.search(text)` finds a match. The pattern itself
      (a case-insensitive regular expression for "P.O. Box", "PO Box",
      "Post Office Box" and their spacing variants) is not interpreted here. */
  type PoBoxMatcher = string -> bool

  /** One comparable line: line breaks become spaces, runs of whitespace
      collapse to one space, the ends are trimmed. */
  function Normalize(addr: string): string {
    Strip(Join(" ", Split(Replace(addr, '\n', ' '))))
  }

  /** A normalized address is the address's words joined by single spaces. */
  lemma NormalizeJoinsWords(addr: string)
    ensures Normalize(addr) == Join(" ", Split(addr))
  {
    SplitSameClass(Replace(addr, '\n', ' '), addr);
    JoinWords(Split(addr));
    StripUntrimmed(Join(" ", Split(addr)));
  }

  /** A normalized address is a single line: no line break, no space at
      either end, no two spaces in a row, and every whitespace character in
      it is a plain space between two words. */
  lemma NormalizeOneLine(addr: string)
    ensures var r := Normalize(addr);
      && SingleSpaced(r)
      && (forall i :: 0 <= i < |r| ==> r[i] != '\n')
      && (r == [] || (r[0] != ' ' && r[|r| - 1] != ' '))
      && (forall i :: 0 <= i < |r| - 1 ==> !(r[i] == ' ' && r[i + 1] == ' '))
  {
    NormalizeJoinsWords(addr);
    JoinWords(Split(addr));
  }

  /** A normalized address is empty exactly when the address is blank. */
  lemma NormalizeEmpty(addr: string)
    ensures Normalize(addr) == "" <==> Blank(addr)
  {
    NormalizeJoinsWords(addr);
    JoinWords(Split(addr));
  }

  /** Two addresses normalize alike exactly when they have the same words,
      i.e. when they differ only in spaces and line breaks. */
  lemma NormalizeSameWords(a: string, b: string)
    ensures Normalize(a) == Normalize(b) <==> Split(a) == Split(b)
  {
    NormalizeJoinsWords(a);
    NormalizeJoinsWords(b);
    SplitJoin(Split(a));
    SplitJoin(Split(b));
  }

  /** Normalizing twice is normalizing once. */
  lemma NormalizeIdempotent(addr: string)
    ensures Normalize(Normalize(addr)) == Normalize(addr)
  {
    NormalizeJoinsWords(addr);
    SplitJoin(Split(addr));
    NormalizeSameWords(Normalize(addr), addr);
  }

  /** `_is_po_box_or_empty`: blank text counts as a PO Box without the pattern
      being consulted; any other text is a PO Box when the pattern matches. */
  function IsPoBoxOrEmpty(text: string, poBox: PoBoxMatcher): (r: bool)
    ensures Blank(text) ==> r
    ensures !Blank(text) ==> r == poBox(text)
  {
    StripFacts(text);
    if text == "" || Strip(text) == "" then true else poBox(text)
  }

  /** A detail key that names an address: it contains "address" in any case. */
  predicate IsAddressKey(key: string) {
    Contains(Lower(key), "address")
  }

  /** The section under `key` holds a physical address. */
  predicate IsPhysicalAddress(details: map<string, string>, key: string, poBox: PoBoxMatcher) {
    && key in details
    && IsAddressKey(key)
    && details[key] != ""
    && !IsPoBoxOrEmpty(details[key], poBox)
  }

  /** Some address-keyed section holds a physical address. */
  predicate ValidAddressIn(details: map<string, string>, poBox: PoBoxMatcher) {
    exists key | key in details :: IsPhysicalAddress(details, key, poBox)
  }

  /** `_has_valid_address`: scans the sections and stops at the first
      address-keyed one whose value is non-empty and not a PO Box. */
  method HasValidAddress(details: map<string, string>, poBox: PoBoxMatcher) returns (found: bool)
    ensures found == ValidAddressIn(details, poBox)
  {
    var unvisited := details.Keys;
    while unvisited != {}
      invariant unvisited <= details.Keys
      invariant forall key :: key in details && key !in unvisited ==> !IsPhysicalAddress(details, key, poBox)
      decreases unvisited
    {
      var key :| key in unvisited;
      var value := details[key];
      if Contains(Lower(key), "address") && value != "" {
        if !IsPoBoxOrEmpty(value, poBox) {
          assert IsPhysicalAddress(details, key, poBox);
          return true;
        }
      }
      unvisited := unvisited - {key};
    }
    return false;
  }
}
