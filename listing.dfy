/**
 * Turning one listing-card element of a results page into a listing record
 * (the body of the `for listing in listings` loop of `scrape_listings`).
 *
 * The page provider is abstracted away: a card carries, for each
 * sub-element the scraper looks up, the text it would read from it, or
 * None when the sub-element is absent.
 */
module Listing {
  import opened Wrappers
  import opened Text

  /** One listing-card element, as the page provider exposes it. */
  datatype Card = Card(
    addressLine1: Option<string>,  // inner text of `address-line1`
    agentName: Option<string>,     // first span of the branding block
    agencyName: Option<string>,    // second span of the branding block
    price: Option<string>,
    addressLine2: Option<string>,
    features: seq<string>,         // inner texts of the feature containers; [] without the wrapper
    tag: Option<string>,
    altImage: Option<string>,      // `alt` of the lazy image; None without the image or the attribute
    propertyType: Option<string>)

  /** The exception the extraction itself can raise. */
  datatype ScrapeError =
    | AddressIndexError(line: string)  // `address_parts[-2]` on a one-token second address line

  /** A cell of a record: Python `str`, `int` or `None`. */
  datatype Value = Str(s: string) | Int(n: int) | Null

  /** Suburb, state and postcode, as split from the second address line. */
  datatype Locality = Locality(suburb: Option<string>, state: Option<string>, postcode: Option<string>)

  /** One scraped listing, the dictionary appended to `results`. */
  datatype Record = Record(
    agentName: string,
    agencyName: string,
    price: string,
    addressLine1: string,
    suburb: Option<string>,
    state: Option<string>,
    postcode: Option<string>,
    bedrooms: int,
    bathrooms: int,
    carSpaces: int,
    sqm: Value,
    listingCardTag: Option<string>,
    altImage: Option<string>,
    propertyType: Option<string>)

  /** `extract_numeric`: `int` of the first whitespace token, 0 when there is none or it is not an integer. */
  function ExtractNumeric(text: string): int
  {
    var toks := Split(text);
    if toks == [] then 0
    else match ParseInt(toks[0])
      case Some(v) => v
      case None => 0
  }

  /**
   * The split of the second address line: `strip()`ped, and when that is
   * non-empty, `split()`, with the last two tokens as state and postcode
   * and the others joined as the suburb. A single token makes
   * `address_parts[-2]` raise.
   */
  function SplitAddress(line2: Option<string>): Result<Locality, ScrapeError>
  {
    match line2
    case None => Ok(Locality(None, None, None))
    case Some(raw) =>
      var text := Strip(raw);
      if text == [] then Ok(Locality(None, None, None))
      else
        var parts := Split(text);
        if |parts| < 2 then Err(AddressIndexError(text))
        else
          Ok(Locality(Some(Join(parts[..|parts| - 2], " ")), Some(parts[|parts| - 2]), Some(parts[|parts| - 1])))
  }

  const LOGO_MARK := "Logo for"
  const LOGO_PREFIX := "Logo for "

  /**
   * The agency-logo clean-up of the image alt text: only when the text
   * contains "Logo for" (no trailing space) is every "Logo for " (with the
   * space) removed and the result stripped.
   */
  function StripLogo(alt: Option<string>): (r: Option<string>)
    ensures r.None? <==> alt.None?
    ensures alt.Some? && !Contains(alt.value, LOGO_MARK) ==> r == alt
  {
    match alt
    case None => None
    case Some(a) =>
      if a != [] && Contains(a, LOGO_MARK) then Some(Strip(RemoveAll(a, LOGO_PREFIX))) else alt
  }

  /** The count in feature slot `slot`: `extract_numeric` of its text, 0 when the slot is missing. */
  function FeatureCount(features: seq<string>, slot: nat): int
  {
    if slot < |features| then ExtractNumeric(features[slot]) else 0
  }

  /** SQM: the raw text of the fourth feature slot, or the integer 0. */
  function FeatureArea(features: seq<string>): Value
  {
    if |features| > 3 then Str(features[3]) else Int(0)
  }

  function OrEmpty(o: Option<string>): string
  {
    if o.Some? then o.value else ""
  }

  function StrippedOrEmpty(o: Option<string>): string
  {
    if o.Some? then Strip(o.value) else ""
  }

  function StrippedOrNone(o: Option<string>): Option<string>
  {
    if o.Some? then Some(Strip(o.value)) else None
  }

  /** The record of a card that has an `address-line1`; fails only where the address split raises. */
  function BuildRecord(c: Card): (r: Result<Record, ScrapeError>)
    requires c.addressLine1.Some?
  {
    match SplitAddress(c.addressLine2)
    case Err(e) => Err(e)
    case Ok(loc) =>
      Ok(Record(
        agentName := OrEmpty(c.agentName),
        agencyName := OrEmpty(c.agencyName),
        price := StrippedOrEmpty(c.price),
        addressLine1 := Strip(c.addressLine1.value),
        suburb := loc.suburb,
        state := loc.state,
        postcode := loc.postcode,
        bedrooms := FeatureCount(c.features, 0),
        bathrooms := FeatureCount(c.features, 1),
        carSpaces := FeatureCount(c.features, 2),
        sqm := FeatureArea(c.features),
        listingCardTag := StrippedOrNone(c.tag),
        altImage := StripLogo(c.altImage),
        propertyType := StrippedOrNone(c.propertyType)))
  }

  /** One iteration of the card loop: skip (Ok(None)), a record, or the exception it raises. */
  function ExtractCard(c: Card): (r: Result<Option<Record>, ScrapeError>)
    ensures c.addressLine1.None? ==> r == Ok(None)
    ensures r == Ok(None) ==> c.addressLine1.None?
    ensures r.Ok? && r.value.Some? ==> BuildRecord(c) == Ok(r.value.value)
    ensures r.Err? ==> c.addressLine1.Some? && BuildRecord(c).Err?
  {
    if c.addressLine1.None? then Ok(None)
    else match BuildRecord(c)
      case Err(e) => Err(e)
      case Ok(rec) => Ok(Some(rec))
  }

  /** The records a card loop appended, and the exception that cut it short, if any. */
  datatype Extraction = Extraction(records: seq<Record>, error: Option<ScrapeError>)

  /** The card loop over a whole page: records in card order up to the first card that raises. */
  function ExtractCards(cards: seq<Card>): (x: Extraction)
    ensures |x.records| <= |cards|
  {
    if cards == [] then Extraction([], None)
    else
      var pre := ExtractCards(cards[..|cards| - 1]);
      if pre.error.Some? then pre
      else match ExtractCard(cards[|cards| - 1])
        case Err(e) => Extraction(pre.records, Some(e))
        case Ok(None) => pre
        case Ok(Some(r)) => Extraction(pre.records + [r], None)
  }

  /** The cards that have an `address-line1`, in page order. */
  function WithAddress(cards: seq<Card>): (r: seq<Card>)
    ensures |r| <= |cards|
    ensures forall c :: c in r ==> c in cards && c.addressLine1.Some?
  {
    if cards == [] then []
    else
      var last := cards[|cards| - 1];
      WithAddress(cards[..|cards| - 1]) + (if last.addressLine1.Some? then [last] else [])
  }

  // ----- Lemmas -----

  /** The number is read from the first token, whatever follows it. */
  lemma ExtractNumericReadsFirstToken(pad: string, word: string, rest: string, v: int)
    requires AllSpace(pad) && IsToken(word)
    requires rest == [] || IsSpace(rest[0])
    requires ParseInt(word) == Some(v)
    ensures ExtractNumeric(pad + word + rest) == v
  {
    SplitFirstToken(pad, word, rest);
  }

  /** In particular a rendered integer in front of other text is read back. */
  lemma ExtractNumericRendered(pad: string, n: int, rest: string)
    requires AllSpace(pad)
    requires rest == [] || IsSpace(rest[0])
    ensures ExtractNumeric(pad + IntToString(n) + rest) == n
  {
    ParseIntRoundTrip(n);
    ExtractNumericReadsFirstToken(pad, IntToString(n), rest, n);
  }

  /** Empty or all-whitespace text gives 0. */
  lemma ExtractNumericBlank(text: string)
    requires AllSpace(text)
    ensures ExtractNumeric(text) == 0
  {
    SplitAllSpace(text);
  }

  /** A first token that is not an integer gives 0, whatever follows it. */
  lemma ExtractNumericNonNumeric(pad: string, word: string, rest: string)
    requires AllSpace(pad) && IsToken(word)
    requires rest == [] || IsSpace(rest[0])
    requires ParseInt(word).None?
    ensures ExtractNumeric(pad + word + rest) == 0
  {
    SplitFirstToken(pad, word, rest);
  }

  /** In particular a first token opening with neither a digit nor a sign gives 0. */
  lemma ExtractNumericNonDigit(pad: string, word: string, rest: string)
    requires AllSpace(pad) && IsToken(word)
    requires !IsDigit(word[0]) && word[0] != '+' && word[0] != '-'
    requires rest == [] || IsSpace(rest[0])
    ensures ExtractNumeric(pad + word + rest) == 0
  {
    ParseIntRejects(word);
    ExtractNumericNonNumeric(pad, word, rest);
  }

  /**
   * The three parts come together: all present or all absent; state and
   * postcode are single whitespace-free tokens; only a present line can raise.
   */
  lemma SplitAddressShape(line2: Option<string>)
    ensures var r := SplitAddress(line2);
      (r.Ok? ==> (r.value.suburb.Some? <==> r.value.state.Some?) && (r.value.state.Some? <==> r.value.postcode.Some?)) &&
      (r.Ok? && r.value.state.Some? ==> IsToken(r.value.state.value) && IsToken(r.value.postcode.value)) &&
      (r.Err? ==> line2.Some?)
  {
    if line2.Some? && Strip(line2.value) != [] {
      var parts := Split(Strip(line2.value));
      if |parts| >= 2 {
        assert parts[|parts| - 2] in parts && parts[|parts| - 1] in parts;
      }
    }
  }

  /** A second address line made of suburb words, a state and a postcode splits back into them. */
  lemma AddressRoundTrip(suburb: seq<string>, state: string, postcode: string)
    requires forall t :: t in suburb ==> IsToken(t)
    requires IsToken(state) && IsToken(postcode)
    ensures SplitAddress(Some(Join(suburb + [state, postcode], " ")))
         == Ok(Locality(Some(Join(suburb, " ")), Some(state), Some(postcode)))
  {
    var toks := suburb + [state, postcode];
    assert forall t :: t in toks ==> IsToken(t);
    var line := Join(toks, " ");
    JoinTrimmed(toks);
    StripTrimmed(line);
    SplitJoin(toks);
    SplitAddressOfTokens(line, toks);
    assert toks[..|toks| - 2] == suburb;
    assert toks[|toks| - 2] == state && toks[|toks| - 1] == postcode;
  }

  lemma SplitAddressOfTokens(line: string, parts: seq<string>)
    requires line != [] && Strip(line) == line
    requires Split(line) == parts && |parts| >= 2
    ensures SplitAddress(Some(line))
         == Ok(Locality(Some(Join(parts[..|parts| - 2], " ")), Some(parts[|parts| - 2]), Some(parts[|parts| - 1])))
  {
  }

  /** A second address line holding one token, however padded, raises. */
  lemma AddressSingleTokenRaises(before: string, t: string, after: string)
    requires AllSpace(before) && AllSpace(after) && IsToken(t)
    ensures SplitAddress(Some(before + t + after)).Err?
  {
    StripPadded(before, t, after);
    SplitToken(t);
  }

  /** A missing, empty or all-whitespace second address line gives no suburb, state or postcode. */
  lemma AddressBlank(line2: Option<string>)
    requires line2.Some? ==> AllSpace(line2.value)
    ensures SplitAddress(line2) == Ok(Locality(None, None, None))
  {
    if line2.Some? {
      StripPadded(line2.value, [], []);
      assert line2.value + [] + [] == line2.value;
    }
  }

  /** An alt text "Logo for <name>" becomes the stripped name. */
  lemma LogoPrefixRemoved(name: string)
    requires !Contains(name, LOGO_PREFIX)
    ensures StripLogo(Some(LOGO_PREFIX + name)) == Some(Strip(name))
  {
    var a := LOGO_PREFIX + name;
    assert a[..|LOGO_MARK|] == LOGO_MARK;
    assert Contains(a, LOGO_MARK);
    RemoveAllLeading(LOGO_PREFIX, name);
  }

  /**
   * "Logo for " anywhere in the alt text: the first occurrence and every
   * later one are removed, and the rest is stripped.
   */
  lemma LogoRemovedAnywhere(x: string, y: string)
    requires !Contains(x + LOGO_PREFIX[..|LOGO_PREFIX| - 1], LOGO_PREFIX)
    ensures StripLogo(Some(x + LOGO_PREFIX + y)) == Some(Strip(x + RemoveAll(y, LOGO_PREFIX)))
  {
    var a := x + LOGO_PREFIX + y;
    assert a[|x|..][..|LOGO_MARK|] == LOGO_MARK;
    ContainsAt(a, |x|, LOGO_MARK);
    RemoveAllFirst(x, LOGO_PREFIX, y);
  }

  /** "Logo for" without the following space passes the test but nothing is removed: only the strip applies. */
  lemma LogoMarkWithoutSpace(a: string)
    requires Contains(a, LOGO_MARK) && !Contains(a, LOGO_PREFIX)
    ensures StripLogo(Some(a)) == Some(Strip(a))
  {
  }

  /** A feature slot reading "<n> <unit>" gives n. */
  lemma FeatureSlotReads(features: seq<string>, slot: nat, n: int, unit: string)
    requires slot < |features| && features[slot] == IntToString(n) + " " + unit
    ensures FeatureCount(features, slot) == n
  {
    var digits := IntToString(n);
    AppendAssociates(digits, " ", unit);
    assert [] + digits == digits;
    ExtractNumericRendered([], n, " " + unit);
  }

  /** One more card: the loop's next iteration, as `ExtractCards` on the longer prefix sees it. */
  lemma ExtractCardsNext(cards: seq<Card>, i: nat, outcome: Result<Option<Record>, ScrapeError>)
    requires i < |cards| && outcome == ExtractCard(cards[i])
    requires ExtractCards(cards[..i]).error.None?
    ensures outcome.Err? ==> ExtractCards(cards[..i + 1]) == Extraction(ExtractCards(cards[..i]).records, Some(outcome.error))
    ensures outcome == Ok(None) ==> ExtractCards(cards[..i + 1]) == ExtractCards(cards[..i])
    ensures outcome.Ok? && outcome.value.Some? ==>
      ExtractCards(cards[..i + 1]) == Extraction(ExtractCards(cards[..i]).records + [outcome.value.value], None)
  {
    assert cards[..i + 1][..i] == cards[..i];
  }

  /** Once a card has raised, the later cards of the page change nothing. */
  lemma {:induction false} ExtractCardsStopsAtError(cards: seq<Card>, j: nat)
    requires j <= |cards|
    requires ExtractCards(cards[..j]).error.Some?
    ensures ExtractCards(cards) == ExtractCards(cards[..j])
    decreases |cards|
  {
    if j < |cards| {
      var init := cards[..|cards| - 1];
      assert init[..j] == cards[..j];
      ExtractCardsStopsAtError(init, j);
    } else {
      assert cards[..j] == cards;
    }
  }

  /**
   * When no card raises, exactly one record is produced per card with an
   * `address-line1`: as many records as such cards.
   */
  lemma {:induction false} ExtractCardsOnePerAddressedCard(cards: seq<Card>)
    requires ExtractCards(cards).error.None?
    ensures |ExtractCards(cards).records| == |WithAddress(cards)|
  {
    if cards != [] {
      var init := cards[..|cards| - 1];
      var last := cards[|cards| - 1];
      if ExtractCards(init).error.Some? {
        assert false;
      }
      ExtractCardsOnePerAddressedCard(init);
    }
  }

  /**
   * ... and in card order: when no card raises, the `k`-th record is the
   * one built from the `k`-th card that has an `address-line1`.
   */
  lemma {:induction false} ExtractCardsRecordAt(cards: seq<Card>, k: nat)
    requires ExtractCards(cards).error.None?
    requires k < |WithAddress(cards)|
    ensures |ExtractCards(cards).records| == |WithAddress(cards)|
    ensures BuildRecord(WithAddress(cards)[k]) == Ok(ExtractCards(cards).records[k])
  {
    ExtractCardsOnePerAddressedCard(cards);
    var init := cards[..|cards| - 1];
    var last := cards[|cards| - 1];
    var pre := ExtractCards(init);
    if pre.error.Some? {
      assert false;
    }
    ExtractCardsOnePerAddressedCard(init);
    if k < |WithAddress(init)| {
      ExtractCardsRecordAt(init, k);
      assert WithAddress(cards)[k] == WithAddress(init)[k];
      assert ExtractCards(cards).records[k] == pre.records[k];
    } else {
      assert WithAddress(cards) == WithAddress(init) + [last];
      match ExtractCard(last) {
        case Ok(Some(r)) =>
          assert ExtractCards(cards).records == pre.records + [r];
        case Ok(None) =>
          assert false;
        case Err(_) =>
          assert false;
      }
    }
  }

  lemma ExtractCardsErrorInPrefix(cards: seq<Card>, j: nat)
    requires |cards| > 0 && j < |cards| - 1
    requires ExtractCards(cards[..|cards| - 1]).error.Some?
    requires ExtractCards(cards[..|cards| - 1][..j]).error.None?
    ensures cards[..|cards| - 1][..j] == cards[..j]
    ensures ExtractCards(cards) == ExtractCards(cards[..|cards| - 1])
  {
  }

  /** When a card raises, the records are those of the cards before it, and that card has an address. */
  lemma {:induction false} ExtractCardsErrorAt(cards: seq<Card>) returns (j: nat)
    requires ExtractCards(cards).error.Some?
    ensures j < |cards| && ExtractCard(cards[j]).Err?
    ensures ExtractCards(cards[..j]).error.None?
    ensures ExtractCards(cards).records == ExtractCards(cards[..j]).records
  {
    var init := cards[..|cards| - 1];
    if ExtractCards(init).error.Some? {
      j := ExtractCardsErrorAt(init);
      ExtractCardsErrorInPrefix(cards, j);
    } else {
      j := |cards| - 1;
      assert cards[..j] == init;
    }
  }
}
