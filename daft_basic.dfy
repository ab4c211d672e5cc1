/** The request-based Daft scraper: the page loop that skips pages whose
    request fails, the card loop that skips cards that fail to parse, and
    the fields a listing card is turned into. */
module DaftBasic {
  import opened Common
  import opened TextFields

  const PageSize: nat := 20

  /** The raw texts a listing card offers: the link's href, the title, the
      bedrooms text and the property type. */
  datatype CardFields = CardFields(href: Option<string>, title: Option<string>,
                                   bedsText: Option<string>, propertyType: Option<string>)

  /** The listing built from a card (the price, a float, is not modelled). */
  datatype ParsedCard = ParsedCard(propertyId: Option<string>, title: Option<string>, county: Option<string>,
                                   bedrooms: Option<nat>, propertyType: Option<string>,
                                   propertyUrl: Option<string>, source: string)

  /** `_parse_listing_card`, from the card's texts: the id read from the
      link, the title and property type as given, the bedrooms read from
      their text, the county read from the title by the scraper's own
      county scan, and the link prefixed with the base URL. */
  function ParseListingCard(baseUrl: string, card: CardFields): (r: ParsedCard)
    ensures r.source == "daft.ie" && r.title == card.title && r.propertyType == card.propertyType
    ensures r.propertyId == ExtractPropertyId(card.href)
    ensures r.bedrooms == ParseFirstNumber(card.bedsText)
    ensures r.county == DaftExtractCounty(card.title)
    ensures r.propertyUrl.Some? <==> card.href.Some? && card.href.value != []
    ensures r.propertyUrl.Some? ==> IsPrefix(baseUrl, r.propertyUrl.value) &&
                                    r.propertyUrl.value[|baseUrl|..] == card.href.value
  {
    ParsedCard(ExtractPropertyId(card.href), card.title, DaftExtractCounty(card.title),
               ParseFirstNumber(card.bedsText), card.propertyType,
               CardPropertyUrl(baseUrl, card.href), "daft.ie")
  }

  /** A card titled "Westmeath" is stored with the county Meath. */
  lemma WestmeathCardFiledUnderMeath(baseUrl: string, card: CardFields)
    requires card.title == Some("Westmeath")
    ensures ParseListingCard(baseUrl, card).county == Some("Meath")
  {
    UpperWestmeathAddress();
    DaftWestmeathReadAsMeath("Westmeath");
  }

  /** The id stored with a card is also the id of the card's full URL. */
  lemma CardIdAgreesWithUrl(baseUrl: string, card: CardFields)
    requires ParseListingCard(baseUrl, card).propertyId.Some?
    ensures ExtractPropertyId(ParseListingCard(baseUrl, card).propertyUrl) == ParseListingCard(baseUrl, card).propertyId
  {
    CardUrlKeepsId(baseUrl, card.href.value);
  }

  /** What parsing one card gives: a listing, None, or an exception. */
  datatype CardParse = CardParsed(card: ParsedCard) | CardNone | CardRaised

  /** The listings `_parse_page` keeps, in card order. */
  function KeptCards(cards: seq<CardParse>): (r: seq<ParsedCard>)
    ensures |r| <= |cards|
    ensures forall c :: c in r <==> CardParsed(c) in cards
    decreases |cards|
  {
    if cards == [] then []
    else
      var rest := KeptCards(cards[..|cards| - 1]);
      var last := cards[|cards| - 1];
      assert cards == cards[..|cards| - 1] + [last];
      if last.CardParsed? then rest + [last.card] else rest
  }

  /** What one card contributes: its listing, or nothing. */
  function CardListing(c: CardParse): seq<ParsedCard>
  {
    if c.CardParsed? then [c.card] else []
  }

  lemma KeptCardsSnoc(cards: seq<CardParse>, c: CardParse)
    ensures KeptCards(cards + [c]) == KeptCards(cards) + CardListing(c)
  {
    var s := cards + [c];
    assert s[..|s| - 1] == cards;
  }

  /** The kept listings of two runs of cards are those of the first run
      followed by those of the second, and a single card gives its own
      listing or nothing: every card is looked at alone, in order, and
      kept once. */
  lemma {:induction false} KeptCardsAppend(a: seq<CardParse>, b: seq<CardParse>)
    ensures KeptCards(a + b) == KeptCards(a) + KeptCards(b)
    ensures |b| == 1 ==> KeptCards(b) == CardListing(b[0])
    decreases |b|
  {
    if b == [] {
      assert a + b == a;
    } else {
      var b', x := b[..|b| - 1], b[|b| - 1];
      assert b == b' + [x];
      assert a + b == (a + b') + [x];
      KeptCardsAppend(a, b');
      KeptCardsSnoc(a + b', x);
      KeptCardsSnoc(b', x);
      assert (KeptCards(a) + KeptCards(b')) + CardListing(x) == KeptCards(a) + (KeptCards(b') + CardListing(x));
      if |b| == 1 {
        assert b' == [];
      }
    }
  }

  /** `_parse_page`: every card that parses is kept; a card that gives None
      or raises is skipped and the page goes on. */
  method ParsePage(cards: seq<CardParse>) returns (listings: seq<ParsedCard>)
    ensures listings == KeptCards(cards)
  {
    listings := [];
    var i := 0;
    while i < |cards|
      invariant 0 <= i <= |cards|
      invariant listings == KeptCards(cards[..i])
    {
      assert cards[..i + 1][..i] == cards[..i];
      match cards[i] {
        case CardParsed(card) =>
          listings := listings + [card];
        case CardNone =>
        case CardRaised =>
      }
      i := i + 1;
    }
    assert cards[..i] == cards;
  }

  /** The response to one page request: its cards, or a request error. */
  datatype PageResponse = PageOk(cards: seq<CardParse>) | RequestFailed

  /** The response to the request for page `n`, at offset (n-1)*20. */
  function PageAt(fetch: nat -> PageResponse, n: nat): PageResponse
    requires n >= 1
  {
    fetch((n - 1) * PageSize)
  }

  /** The numbers of the pages from `page` to `maxPages` whose request
      succeeded: each such page once, in increasing order, and no other. */
  function AnsweredPages(fetch: nat -> PageResponse, page: nat, maxPages: int): (ps: seq<nat>)
    requires page >= 1
    ensures forall i :: 0 <= i < |ps| ==> page <= ps[i] <= maxPages && PageAt(fetch, ps[i]).PageOk?
    ensures forall i, j :: 0 <= i < j < |ps| ==> ps[i] < ps[j]
    ensures forall n: nat :: page <= n <= maxPages && PageAt(fetch, n).PageOk? ==> n in ps
    decreases maxPages - page
  {
    if page > maxPages then []
    else
      var rest := AnsweredPages(fetch, page + 1, maxPages);
      if PageAt(fetch, page).PageOk? then
        assert forall i :: 0 <= i < |rest| ==> page < rest[i];
        [page] + rest
      else rest
  }

  /** The kept listings of each page from `page` to `maxPages` whose request
      succeeded, in page order: entry i holds the listings kept from the
      i-th page that answered, and a page whose request failed adds
      nothing. */
  function SuccessfulPages(fetch: nat -> PageResponse, page: nat, maxPages: int): (r: seq<seq<ParsedCard>>)
    requires page >= 1
    ensures var ps := AnsweredPages(fetch, page, maxPages);
            |r| == |ps| &&
            forall i :: 0 <= i < |r| ==> r[i] == KeptCards(PageAt(fetch, ps[i]).cards)
    decreases maxPages - page
  {
    if page > maxPages then []
    else
      var rest := SuccessfulPages(fetch, page + 1, maxPages);
      match PageAt(fetch, page)
      case RequestFailed => rest
      case PageOk(cards) => [KeptCards(cards)] + rest
  }

  /** Number of pages from `page` to `maxPages` whose request succeeded. */
  function OkCount(fetch: nat -> PageResponse, page: nat, maxPages: int): (n: nat)
    requires page >= 1
    ensures n == |SuccessfulPages(fetch, page, maxPages)|
    decreases maxPages - page
  {
    if page > maxPages then 0
    else (if PageAt(fetch, page).PageOk? then 1 else 0) + OkCount(fetch, page + 1, maxPages)
  }

  /** One turn of the page loop: the pages gathered so far followed by the
      rest of the run still give the whole run. */
  lemma ScrapeStep(fetch: nat -> PageResponse, pages: seq<seq<ParsedCard>>, page: nat, maxPages: int)
    requires 1 <= page <= maxPages
    requires pages + SuccessfulPages(fetch, page, maxPages) == SuccessfulPages(fetch, 1, maxPages)
    ensures var response := PageAt(fetch, page);
            var next := if response.PageOk? then pages + [KeptCards(response.cards)] else pages;
            next + SuccessfulPages(fetch, page + 1, maxPages) == SuccessfulPages(fetch, 1, maxPages)
  {
    var response := PageAt(fetch, page);
    if response.PageOk? {
      assert (pages + [KeptCards(response.cards)]) + SuccessfulPages(fetch, page + 1, maxPages) ==
             pages + ([KeptCards(response.cards)] + SuccessfulPages(fetch, page + 1, maxPages));
    }
  }

  /** Page `n` answered and one of its cards parsed to `l`. */
  predicate KeptOn(fetch: nat -> PageResponse, n: nat, l: ParsedCard)
    requires n >= 1
  {
    PageAt(fetch, n).PageOk? && CardParsed(l) in PageAt(fetch, n).cards
  }

  /** Every listing of the scrape's result was kept from a page from 1 to
      `maxPages` that answered. */
  lemma ListingFromAnsweredPage(fetch: nat -> PageResponse, maxPages: int, l: ParsedCard)
    requires l in Concat(SuccessfulPages(fetch, 1, maxPages))
    ensures exists n: nat :: 1 <= n <= maxPages && KeptOn(fetch, n, l)
  {
    var pages := SuccessfulPages(fetch, 1, maxPages);
    var ps := AnsweredPages(fetch, 1, maxPages);
    ConcatMember(pages, l);
    var i :| 0 <= i < |pages| && l in pages[i];
    assert KeptOn(fetch, ps[i], l);
  }

  /** Every listing kept from a page from 1 to `maxPages` that answered is
      in the scrape's result. */
  lemma AnsweredPageListingKept(fetch: nat -> PageResponse, maxPages: int, n: nat, l: ParsedCard)
    requires 1 <= n <= maxPages && KeptOn(fetch, n, l)
    ensures l in Concat(SuccessfulPages(fetch, 1, maxPages))
  {
    var pages := SuccessfulPages(fetch, 1, maxPages);
    var ps := AnsweredPages(fetch, 1, maxPages);
    assert n in ps;
    var i :| 0 <= i < |ps| && ps[i] == n;
    assert l in pages[i];
    ConcatMember(pages, l);
  }

  /** A listing is in the scrape's result exactly when some page from 1 to
      `maxPages` answered and one of its cards parsed to that listing. */
  lemma ScrapedListing(fetch: nat -> PageResponse, maxPages: int, l: ParsedCard)
    ensures l in Concat(SuccessfulPages(fetch, 1, maxPages)) <==>
              exists n: nat :: 1 <= n <= maxPages && KeptOn(fetch, n, l)
  {
    if l in Concat(SuccessfulPages(fetch, 1, maxPages)) {
      ListingFromAnsweredPage(fetch, maxPages, l);
    }
    if exists n: nat :: 1 <= n <= maxPages && KeptOn(fetch, n, l) {
      var n: nat :| 1 <= n <= maxPages && KeptOn(fetch, n, l);
      AnsweredPageListingKept(fetch, maxPages, n, l);
    }
  }

  /** `scrape_listings`: pages 1 … `maxPages` at offsets 0, 20, …; a failed
      request skips its page. `delays` counts the pauses: one after every
      page that answered, the last included. */
  method ScrapeListings(fetch: nat -> PageResponse, maxPages: int) returns (all: seq<ParsedCard>, delays: nat)
    ensures all == Concat(SuccessfulPages(fetch, 1, maxPages))
    ensures delays == OkCount(fetch, 1, maxPages)
  {
    all := [];
    delays := 0;
    var page := 1;
    ghost var pages: seq<seq<ParsedCard>> := [];
    while page <= maxPages
      invariant page >= 1 && (maxPages >= 1 ==> page <= maxPages + 1)
      invariant pages + SuccessfulPages(fetch, page, maxPages) == SuccessfulPages(fetch, 1, maxPages)
      invariant all == Concat(pages) && delays == |pages|
      decreases maxPages - page
    {
      ScrapeStep(fetch, pages, page, maxPages);
      var response := fetch((page - 1) * PageSize);
      match response {
        case RequestFailed =>
        case PageOk(cards) =>
          var listings := ParsePage(cards);
          ConcatAppend(pages, listings);
          all := all + listings;
          pages := pages + [listings];
          delays := delays + 1;
      }
      page := page + 1;
    }
    assert SuccessfulPages(fetch, page, maxPages) == [];
    assert pages + [] == pages;
  }
}
