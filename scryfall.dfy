/**
 * The card-price resolver of `mtg_scraper_scryfall.py`: projecting card
 * objects into price records, building the search query, choosing between
 * the direct fetch and the paginated search, flattening the per-card
 * results into sync records, and reading the pipe-delimited watch-list.
 *
 * The card service is replaced by plain values: a `Network` holds the
 * answer to the direct fetch and the answers to the search request and to
 * each next-page request, in the order they would be made. URL validation
 * is a predicate passed in by the caller.
 */
module Scryfall {
  import opened Wrappers
  import opened Strings

  /** Largest `total_cards` a search may report before it is refused. */
  const MaxResults := 100

  /** Default of the textual fields of a price record. */
  const Unknown := "Unknown"

  /** Default of the price fields and of the collector number. */
  const NotAvailable := "N/A"

  /** Pause between two cards when the caller asks for none or a negative one. */
  const DefaultSleep: real := 0.06

  // ---------------------------------------------------------------------
  // Card objects and price records

  /**
   * A card object as the service returns it: its top-level string fields
   * and its `prices` object. An absent `prices` object reads exactly like
   * an empty one, so it is the empty map here.
   */
  datatype RawCard = RawCard(fields: map<string, string>, prices: map<string, string>)

  datatype Prices = Prices(usd: string, usdFoil: string, eur: string, eurFoil: string, tix: string)

  /** The record `_extract_card_prices` builds for one card object. */
  datatype PriceInfo = PriceInfo(
    name: string,
    setCode: string,
    setName: string,
    prices: Prices,
    rarity: string,
    collectorNumber: string,
    uri: string)

  /** `m.get(key, default)` */
  function Get(m: map<string, string>, key: string, default: string): string {
    if key in m then m[key] else default
  }

  /** `v` is the value stored under `key`, or `default` exactly when there is none. */
  predicate StoredOrDefault(m: map<string, string>, key: string, default: string, v: string) {
    if key in m then v == m[key] else v == default
  }

  /** The projection of one card object: total, and a default only for an absent key. */
  function Project(card: RawCard): (p: PriceInfo)
    ensures StoredOrDefault(card.fields, "name", Unknown, p.name)
    ensures StoredOrDefault(card.fields, "set", Unknown, p.setCode)
    ensures StoredOrDefault(card.fields, "set_name", Unknown, p.setName)
    ensures StoredOrDefault(card.fields, "rarity", Unknown, p.rarity)
    ensures StoredOrDefault(card.fields, "collector_number", NotAvailable, p.collectorNumber)
    ensures StoredOrDefault(card.fields, "uri", Unknown, p.uri)
    ensures StoredOrDefault(card.prices, "usd", NotAvailable, p.prices.usd)
    ensures StoredOrDefault(card.prices, "usd_foil", NotAvailable, p.prices.usdFoil)
    ensures StoredOrDefault(card.prices, "eur", NotAvailable, p.prices.eur)
    ensures StoredOrDefault(card.prices, "eur_foil", NotAvailable, p.prices.eurFoil)
    ensures StoredOrDefault(card.prices, "tix", NotAvailable, p.prices.tix)
  {
    PriceInfo(
      name := Get(card.fields, "name", Unknown),
      setCode := Get(card.fields, "set", Unknown),
      setName := Get(card.fields, "set_name", Unknown),
      prices := Prices(
        usd := Get(card.prices, "usd", NotAvailable),
        usdFoil := Get(card.prices, "usd_foil", NotAvailable),
        eur := Get(card.prices, "eur", NotAvailable),
        eurFoil := Get(card.prices, "eur_foil", NotAvailable),
        tix := Get(card.prices, "tix", NotAvailable)),
      rarity := Get(card.fields, "rarity", Unknown),
      collectorNumber := Get(card.fields, "collector_number", NotAvailable),
      uri := Get(card.fields, "uri", Unknown))
  }

  /** The records of a list of card objects: one per object, in the same order. */
  function Extracted(cards: seq<RawCard>): (r: seq<PriceInfo>)
    ensures |r| == |cards|
    ensures forall i :: 0 <= i < |cards| ==> r[i] == Project(cards[i])
  {
    if cards == [] then [] else [Project(cards[0])] + Extracted(cards[1..])
  }

  /** Extracting a concatenation extracts each part in turn. */
  lemma ExtractedConcat(a: seq<RawCard>, b: seq<RawCard>)
    ensures Extracted(a + b) == Extracted(a) + Extracted(b)
  {
    assert forall i :: 0 <= i < |a| ==> (a + b)[i] == a[i];
    assert forall i :: |a| <= i < |a + b| ==> (a + b)[i] == b[i - |a|];
  }

  /** `_extract_card_prices`: appends one record per card object. */
  method ExtractCardPrices(cards: seq<RawCard>) returns (cardPrices: seq<PriceInfo>)
    ensures cardPrices == Extracted(cards)
  {
    cardPrices := [];
    for i := 0 to |cards|
      invariant cardPrices == Extracted(cards[..i])
    {
      assert cards[..i + 1] == cards[..i] + [cards[i]];
      ExtractedConcat(cards[..i], [cards[i]]);
      cardPrices := cardPrices + [Project(cards[i])];
    }
    assert cards[..|cards|] == cards;
  }

  // ---------------------------------------------------------------------
  // The search query

  /** The search filter `tag` followed by `value`, present only for a non-empty value. */
  function Filter(tag: string, value: string): string {
    if value != "" then tag + value else ""
  }

  const SetTag := " set:"
  const NumberTag := " cn:"
  const PaperOnly := " game:paper"

  /**
   * The query of `get_card_prices`: the quoted name, then ` set:X` when a
   * set code is given, then ` cn:N` when a collector number is given, then
   * ` game:paper`; nothing else.
   */
  function SearchQuery(cardName: string, setCode: string, collectorNumber: string): (q: string)
    ensures StartsWith(q, "\"" + cardName + "\"")
    ensures EndsWith(q, PaperOnly)
    ensures setCode != "" ==> StartsWith(q[|cardName| + 2..], SetTag + setCode)
    ensures setCode != "" <==> StartsWith(q[|cardName| + 2..], SetTag)
    ensures collectorNumber != "" ==> EndsWith(q, NumberTag + collectorNumber + PaperOnly)
    ensures |q| == |cardName| + 2 + |Filter(SetTag, setCode)| + |Filter(NumberTag, collectorNumber)| + |PaperOnly|
  {
    var quoted, sets, numbers := "\"" + cardName + "\"", Filter(SetTag, setCode), Filter(NumberTag, collectorNumber);
    QueryPieces(quoted, sets, numbers, PaperOnly);
    SetFilterFirst(setCode, collectorNumber);
    assert |quoted| == |cardName| + 2;
    quoted + sets + numbers + PaperOnly
  }

  /** Where the four pieces of a query sit in it. */
  lemma QueryPieces(quoted: string, sets: string, numbers: string, paper: string)
    ensures var q := quoted + sets + numbers + paper;
            && StartsWith(q, quoted) && q[|quoted|..] == sets + (numbers + paper)
            && EndsWith(q, paper) && EndsWith(q, numbers + paper)
            && |q| == |quoted| + |sets| + |numbers| + |paper|
  {
    var tail := numbers + paper;
    ConcatAssoc(quoted + sets, numbers, paper);
    ConcatAssoc(quoted, sets, tail);
    StartsWithConcat(quoted, sets + tail);
    DropPrefix(quoted, sets + tail);
    EndsWithConcat(quoted + sets + numbers, paper);
    EndsWithConcat(quoted + sets, tail);
  }

  /** After the quoted name comes ` set:` exactly when a set code is given. */
  lemma SetFilterFirst(setCode: string, collectorNumber: string)
    ensures var after := Filter(SetTag, setCode) + (Filter(NumberTag, collectorNumber) + PaperOnly);
            && (setCode != "" ==> StartsWith(after, SetTag + setCode))
            && (setCode != "" <==> StartsWith(after, SetTag))
  {
    var sets, rest := Filter(SetTag, setCode), Filter(NumberTag, collectorNumber) + PaperOnly;
    if setCode != "" {
      StartsWithConcat(SetTag + setCode, rest);
      assert (SetTag + setCode + rest)[..|SetTag|] == SetTag;
      assert sets + rest == SetTag + setCode + rest;
    } else {
      assert sets + rest == rest;
      if collectorNumber != "" {
        assert rest[1] == NumberTag[1] == 'c';
      } else {
        assert rest[1] == PaperOnly[1] == 'g';
      }
      assert SetTag[1] == 's';
    }
  }

  // ---------------------------------------------------------------------
  // The service's answers

  /** The answer to the direct fetch of a card's `uri`. */
  datatype CardResponse = CardResponse(status: int, card: RawCard)

  /**
   * One page of search results. `hasMore` is false when the key is
   * absent; `nextPage` is `None` when the key is absent.
   */
  datatype Page = Page(totalCards: int, hasMore: bool, nextPage: Option<string>, data: seq<RawCard>)

  datatype PageResponse = PageResponse(status: int, page: Page)

  /**
   * What the service answers while one card is resolved: the direct fetch,
   * then the search request and each next-page request in order. A request
   * for which no answer is left is a transport failure.
   */
  datatype Network = Network(fast: CardResponse, search: seq<PageResponse>)

  /** `raise_for_status` raises for client and server errors. */
  predicate RaisesForStatus(status: int) {
    400 <= status < 600
  }

  /** The pagination loop asks for another page. */
  predicate FollowsLink(p: Page) {
    p.hasMore && p.nextPage.Some? && p.nextPage.value != ""
  }

  // ---------------------------------------------------------------------
  // The direct-fetch path

  /** What `_get_card_prices_fast` returns: one record on a 200, none otherwise. */
  function FastPrices(response: CardResponse): (r: seq<PriceInfo>)
    ensures |r| > 0 <==> response.status == 200
    ensures response.status == 200 ==> r == [Project(response.card)]
  {
    if response.status == 200 then Extracted([response.card]) else []
  }

  method GetCardPricesFast(response: CardResponse) returns (r: seq<PriceInfo>)
    ensures r == FastPrices(response)
  {
    r := [];
    if response.status == 200 {
      r := ExtractCardPrices([response.card]);
    }
  }

  // ---------------------------------------------------------------------
  // The search path with pagination

  function Prefixed<T>(p: seq<T>, rest: Option<seq<T>>): Option<seq<T>> {
    match rest
    case None => None
    case Some(t) => Some(p + t)
  }

  lemma PrefixedAppend<T>(p: seq<T>, q: seq<T>, rest: Option<seq<T>>)
    ensures Prefixed(p, Prefixed(q, rest)) == Prefixed(p + q, rest)
  {
    if rest.Some? {
      assert p + (q + rest.value) == p + q + rest.value;
    }
  }

  /**
   * The records of the pages that follow `page`, reading the answers in
   * `later`; `None` when a next-page request fails.
   */
  function Remaining(page: Page, later: seq<PageResponse>): Option<seq<PriceInfo>>
    decreases |later|
  {
    if !FollowsLink(page) then Some([])
    else if later == [] || RaisesForStatus(later[0].status) then None
    else Prefixed(Extracted(later[0].page.data), Remaining(later[0].page, later[1..]))
  }

  lemma RemainingStep(page: Page, later: seq<PageResponse>, k: nat)
    requires FollowsLink(page) && k < |later| && !RaisesForStatus(later[k].status)
    ensures Remaining(page, later[k..])
         == Prefixed(Extracted(later[k].page.data), Remaining(later[k].page, later[k + 1..]))
  {
    assert later[k..][1..] == later[k + 1..];
  }

  /** What `_build_data` returns for the first page, or `None` where it raises. */
  function Pages(first: Page, later: seq<PageResponse>): Option<seq<PriceInfo>> {
    if first.totalCards > MaxResults then None
    else Prefixed(Extracted(first.data), Remaining(first, later))
  }

  /** `_build_data`: refuses an over-large result, then follows the next-page links. */
  method BuildData(first: Page, later: seq<PageResponse>) returns (result: Option<seq<PriceInfo>>)
    ensures result == Pages(first, later)
  {
    if first.totalCards > MaxResults {
      return None;
    }
    var cardPrices := ExtractCardPrices(first.data);
    var searchData := first;
    var k := 0;
    while searchData.hasMore
      invariant 0 <= k <= |later|
      invariant Prefixed(cardPrices, Remaining(searchData, later[k..])) == Pages(first, later)
      decreases |later| - k
    {
      var nextPageUrl := searchData.nextPage;
      if nextPageUrl.None? || nextPageUrl.value == "" {
        break;
      }
      if k == |later| || RaisesForStatus(later[k].status) {
        return None;
      }
      RemainingStep(searchData, later, k);
      PrefixedAppend(cardPrices, Extracted(later[k].page.data), Remaining(later[k].page, later[k + 1..]));
      searchData := later[k].page;
      k := k + 1;
      var more := ExtractCardPrices(searchData.data);
      cardPrices := cardPrices + more;
    }
    assert Remaining(searchData, later[k..]) == Some([]);
    assert cardPrices + [] == cardPrices;
    return Some(cardPrices);
  }

  /** The page that request `j` of the pagination (0 being the first page) returned. */
  function PageAt(first: Page, later: seq<PageResponse>, j: nat): Page
    requires j <= |later|
  {
    if j == 0 then first else later[j - 1].page
  }

  /**
   * Reference description of a complete pagination: the first `m` next-page
   * requests are each asked for by a link and answered without an HTTP
   * error, and the page reached after them has no link onward.
   */
  ghost predicate Chain(first: Page, later: seq<PageResponse>, m: nat) {
    && m <= |later|
    && (forall j :: 0 <= j < m ==> FollowsLink(PageAt(first, later, j)))
    && (forall j :: 0 <= j < m ==> !RaisesForStatus(later[j].status))
    && !FollowsLink(PageAt(first, later, m))
  }

  /** The card objects of the given pages, page after page. */
  function LaterData(later: seq<PageResponse>): seq<RawCard> {
    if later == [] then [] else later[0].page.data + LaterData(later[1..])
  }

  lemma ChainStep(first: Page, later: seq<PageResponse>, m: nat)
    requires m >= 1 && |later| >= 1
    requires FollowsLink(first) && !RaisesForStatus(later[0].status)
    ensures Chain(first, later, m) <==> Chain(later[0].page, later[1..], m - 1)
  {
    forall j | 0 <= j < |later|
      ensures PageAt(first, later, j + 1) == PageAt(later[0].page, later[1..], j)
    {
    }
    if Chain(later[0].page, later[1..], m - 1) {
      forall j | 0 <= j < m ensures FollowsLink(PageAt(first, later, j)) {
        if j > 0 {
          assert PageAt(first, later, j) == PageAt(later[0].page, later[1..], j - 1);
        }
      }
      forall j | 0 <= j < m ensures !RaisesForStatus(later[j].status) {
        if j > 0 {
          assert later[j] == later[1..][j - 1];
        }
      }
    }
    if Chain(first, later, m) {
      forall j | 0 <= j < m - 1 ensures FollowsLink(PageAt(later[0].page, later[1..], j)) {
        assert FollowsLink(PageAt(first, later, j + 1));
      }
      forall j | 0 <= j < m - 1 ensures !RaisesForStatus(later[1..][j].status) {
        assert !RaisesForStatus(later[j + 1].status);
      }
    }
  }

  lemma LaterDataPrefix(later: seq<PageResponse>, m: nat)
    requires 1 <= m <= |later|
    ensures LaterData(later[..m]) == later[0].page.data + LaterData(later[1..][..m - 1])
  {
    assert later[..m][1..] == later[1..][..m - 1];
  }

  lemma ChainHead(page: Page, later: seq<PageResponse>, m: nat)
    requires Chain(page, later, m) && m >= 1
    ensures |later| >= 1 && FollowsLink(page) && !RaisesForStatus(later[0].status)
  {
    assert FollowsLink(PageAt(page, later, 0));
  }

  /** A complete pagination yields the records of all its pages, in order. */
  lemma {:induction false} ChainGivesRemaining(page: Page, later: seq<PageResponse>, m: nat)
    requires Chain(page, later, m)
    ensures Remaining(page, later) == Some(Extracted(LaterData(later[..m])))
    decreases m
  {
    if m == 0 {
      assert later[..0] == [];
    } else {
      ChainHead(page, later, m);
      var head, rest := later[0].page.data, LaterData(later[1..][..m - 1]);
      ChainStep(page, later, m);
      ChainGivesRemaining(later[0].page, later[1..], m - 1);
      assert Remaining(page, later) == Some(Extracted(head) + Extracted(rest));
      LaterDataPrefix(later, m);
      ExtractedConcat(head, rest);
    }
  }

  /** Whenever no request fails, the pagination was complete. */
  lemma {:induction false} RemainingGivesChain(page: Page, later: seq<PageResponse>)
    requires Remaining(page, later).Some?
    ensures exists m: nat :: Chain(page, later, m)
    decreases |later|
  {
    if !FollowsLink(page) {
      assert Chain(page, later, 0);
    } else {
      RemainingGivesChain(later[0].page, later[1..]);
      var m: nat :| Chain(later[0].page, later[1..], m);
      ChainStep(page, later, m + 1);
      assert Chain(page, later, m + 1);
    }
  }

  /**
   * `_build_data` is all or nothing: it returns records exactly when the
   * result count is within the cap and every page was fetched, and then
   * they are the records of every page in fetch order.
   */
  lemma PagesAllOrNothing(first: Page, later: seq<PageResponse>)
    ensures Pages(first, later).Some? <==> first.totalCards <= MaxResults && exists m: nat :: Chain(first, later, m)
    ensures forall m: nat :: first.totalCards <= MaxResults && Chain(first, later, m) ==>
              Pages(first, later) == Some(Extracted(first.data + LaterData(later[..m])))
  {
    if first.totalCards <= MaxResults && Remaining(first, later).Some? {
      RemainingGivesChain(first, later);
    }
    forall m: nat | first.totalCards <= MaxResults && Chain(first, later, m)
      ensures Pages(first, later) == Some(Extracted(first.data + LaterData(later[..m])))
    {
      ChainGivesRemaining(first, later, m);
      ExtractedConcat(first.data, LaterData(later[..m]));
    }
  }

  /** What the search path returns: a transport or HTTP failure or a refusal reads as no records. */
  function SearchOutcome(responses: seq<PageResponse>): seq<PriceInfo> {
    if responses == [] || RaisesForStatus(responses[0].status) then []
    else
      match Pages(responses[0].page, responses[1..])
      case None => []
      case Some(r) => r
  }

  // ---------------------------------------------------------------------
  // Resolving one card

  /** The card dictionary `get_card_prices` reads; `uri` may be absent. */
  datatype CardQuery = CardQuery(cardName: string, expansion: string, collectorNumber: string, uri: Option<string>)

  /** The records returned, and the search query sent if the search path ran. */
  datatype Resolution = Resolution(prices: seq<PriceInfo>, query: Option<string>)

  predicate TakesFastPath(card: CardQuery, isUrl: string -> bool, net: Network) {
    card.uri.Some? && isUrl(card.uri.value) && |FastPrices(net.fast)| > 0
  }

  /** `get_card_prices`. */
  function Resolve(card: CardQuery, isUrl: string -> bool, net: Network): (r: Resolution)
    ensures TakesFastPath(card, isUrl, net) ==> r == Resolution([Project(net.fast.card)], None)
    ensures !TakesFastPath(card, isUrl, net) ==>
              r.query == Some(SearchQuery(card.cardName, card.expansion, card.collectorNumber))
    ensures !TakesFastPath(card, isUrl, net) && (net.search == [] || RaisesForStatus(net.search[0].status)) ==>
              r.prices == []
    ensures !TakesFastPath(card, isUrl, net) && net.search != [] && net.search[0].page.totalCards > MaxResults ==>
              r.prices == []
  {
    if TakesFastPath(card, isUrl, net) then Resolution(FastPrices(net.fast), None)
    else Resolution(SearchOutcome(net.search), Some(SearchQuery(card.cardName, card.expansion, card.collectorNumber)))
  }

  /**
   * The search path never returns part of a result: either nothing, or the
   * records of every page of a complete pagination, in fetch order; and a
   * search within the cap whose pagination completes returns all of them.
   */
  lemma SearchAllOrNothing(card: CardQuery, isUrl: string -> bool, net: Network)
    requires !TakesFastPath(card, isUrl, net)
    ensures var r := Resolve(card, isUrl, net).prices;
            r == [] || (net.search != [] && exists m: nat ::
                          Chain(net.search[0].page, net.search[1..], m) &&
                          r == Extracted(net.search[0].page.data + LaterData(net.search[1..][..m])))
    ensures forall m: nat ::
              && net.search != [] && !RaisesForStatus(net.search[0].status)
              && net.search[0].page.totalCards <= MaxResults
              && Chain(net.search[0].page, net.search[1..], m)
              ==> Resolve(card, isUrl, net).prices
                  == Extracted(net.search[0].page.data + LaterData(net.search[1..][..m]))
  {
    if net.search != [] && !RaisesForStatus(net.search[0].status) {
      var first, later := net.search[0].page, net.search[1..];
      PagesAllOrNothing(first, later);
      if Pages(first, later).Some? {
        var m: nat :| Chain(first, later, m);
        assert Pages(first, later) == Some(Extracted(first.data + LaterData(later[..m])));
      }
    }
  }

  /** `get_card_prices`: the direct fetch when it gives a record, else the search. */
  method GetCardPrices(card: CardQuery, isUrl: string -> bool, net: Network)
    returns (prices: seq<PriceInfo>, query: Option<string>)
    ensures Resolution(prices, query) == Resolve(card, isUrl, net)
  {
    if card.uri.Some? && isUrl(card.uri.value) {
      var data := GetCardPricesFast(net.fast);
      if |data| > 0 {
        return data, None;
      }
    }
    var q := SearchQuery(card.cardName, card.expansion, card.collectorNumber);
    query := Some(q);
    if net.search == [] || RaisesForStatus(net.search[0].status) {
      return [], query;
    }
    var built := BuildData(net.search[0].page, net.search[1..]);
    prices := if built.Some? then built.value else [];
  }

  // ---------------------------------------------------------------------
  // The watch-list and the batch refresh

  /** One watch-list line, as `load_card_list` reads it. */
  datatype WatchEntry = WatchEntry(
    cardName: string,
    expansion: string,
    collectorNumber: string,
    priceUsd: string,
    priceUsdFoil: string,
    priceEur: string,
    priceEurFoil: string,
    tix: string,
    date: string,
    uri: string)

  /** The dictionary of a watch-list entry always carries its `uri`. */
  function QueryOf(e: WatchEntry): CardQuery {
    CardQuery(e.cardName, e.expansion, e.collectorNumber, Some(e.uri))
  }

  /** The record `update_cards_data` hands on to the sheet. */
  datatype SyncRecord = SyncRecord(
    name: string,
    setCode: string,
    collectorNumber: string,
    priceEur: string,
    priceUsd: string,
    priceEurFoil: string,
    priceUsdFoil: string,
    uri: string)

  function ToSync(p: PriceInfo): (s: SyncRecord)
    ensures s.name == p.name && s.setCode == p.setCode && s.collectorNumber == p.collectorNumber
    ensures s.priceEur == p.prices.eur && s.priceUsd == p.prices.usd
    ensures s.priceEurFoil == p.prices.eurFoil && s.priceUsdFoil == p.prices.usdFoil
    ensures s.uri == p.uri
  {
    SyncRecord(p.name, p.setCode, p.collectorNumber, p.prices.eur, p.prices.usd,
               p.prices.eurFoil, p.prices.usdFoil, p.uri)
  }

  function Synced(ps: seq<PriceInfo>): (r: seq<SyncRecord>)
    ensures |r| == |ps| && forall i :: 0 <= i < |ps| ==> r[i] == ToSync(ps[i])
  {
    seq(|ps|, i requires 0 <= i < |ps| => ToSync(ps[i]))
  }

  /** The pause `update_cards_data` makes after each card. */
  function SleepTime(requested: real): (t: real)
    ensures t > 0.0
    ensures requested > 0.0 ==> t == requested
    ensures requested <= 0.0 ==> t == DefaultSleep
  {
    if requested <= 0.0 then DefaultSleep else requested
  }

  /** The records of each card in turn, `nets[i]` answering for `cards[i]`. */
  function Refreshed(cards: seq<WatchEntry>, isUrl: string -> bool, nets: seq<Network>): seq<SyncRecord>
    requires |nets| == |cards|
  {
    if cards == [] then []
    else Synced(Resolve(QueryOf(cards[0]), isUrl, nets[0]).prices) + Refreshed(cards[1..], isUrl, nets[1..])
  }

  lemma RefreshedCons(cards: seq<WatchEntry>, isUrl: string -> bool, nets: seq<Network>)
    requires |nets| == |cards| && cards != []
    ensures Refreshed(cards, isUrl, nets)
         == Synced(Resolve(QueryOf(cards[0]), isUrl, nets[0]).prices) + Refreshed(cards[1..], isUrl, nets[1..])
  {
  }

  /** Refreshing two batches one after the other gives their records one after the other. */
  lemma {:induction false} RefreshedConcat(
    c1: seq<WatchEntry>, c2: seq<WatchEntry>, isUrl: string -> bool, n1: seq<Network>, n2: seq<Network>)
    requires |n1| == |c1| && |n2| == |c2|
    ensures Refreshed(c1 + c2, isUrl, n1 + n2) == Refreshed(c1, isUrl, n1) + Refreshed(c2, isUrl, n2)
  {
    if c1 != [] {
      ConcatTail(c1, c2);
      ConcatTail(n1, n2);
      RefreshedConcat(c1[1..], c2, isUrl, n1[1..], n2);
      RefreshedCons(c1 + c2, isUrl, n1 + n2);
      RefreshedCons(c1, isUrl, n1);
      var first := Synced(Resolve(QueryOf(c1[0]), isUrl, n1[0]).prices);
      ConcatAssoc(first, Refreshed(c1[1..], isUrl, n1[1..]), Refreshed(c2, isUrl, n2));
    } else {
      assert c1 + c2 == c2 && n1 + n2 == n2;
    }
  }

  /** A single card contributes the sync records of its resolution, in order. */
  lemma RefreshedSingle(c: WatchEntry, isUrl: string -> bool, n: Network)
    ensures Refreshed([c], isUrl, [n]) == Synced(Resolve(QueryOf(c), isUrl, n).prices)
  {
    assert Refreshed([c][1..], isUrl, [n][1..]) == [];
  }

  lemma RefreshedStep(cards: seq<WatchEntry>, isUrl: string -> bool, nets: seq<Network>, i: nat)
    requires |nets| == |cards| && i < |cards|
    ensures Refreshed(cards[i..], isUrl, nets[i..])
         == Synced(Resolve(QueryOf(cards[i]), isUrl, nets[i]).prices) + Refreshed(cards[i + 1..], isUrl, nets[i + 1..])
  {
    assert cards[i..][1..] == cards[i + 1..] && nets[i..][1..] == nets[i + 1..];
  }

  lemma SyncedSnoc(ps: seq<PriceInfo>, j: nat)
    requires j < |ps|
    ensures Synced(ps[..j + 1]) == Synced(ps[..j]) + [ToSync(ps[j])]
  {
    var a, b := Synced(ps[..j + 1]), Synced(ps[..j]) + [ToSync(ps[j])];
    assert |a| == |b|;
    forall k | 0 <= k < |a| ensures a[k] == b[k] {
      if k < j {
        assert ps[..j + 1][k] == ps[..j][k];
      }
    }
  }

  /** The inner loop of `update_cards_data`: one sync record per price record, appended in order. */
  method AppendSynced(data: seq<SyncRecord>, prices: seq<PriceInfo>) returns (r: seq<SyncRecord>)
    ensures r == data + Synced(prices)
  {
    r := data;
    for j := 0 to |prices|
      invariant r == data + Synced(prices[..j])
    {
      SyncedSnoc(prices, j);
      r := r + [ToSync(prices[j])];
    }
    assert prices[..|prices|] == prices;
  }

  /** `update_cards_data`: resolves every card in order and flattens the records. */
  method UpdateCardsData(cards: seq<WatchEntry>, isUrl: string -> bool, nets: seq<Network>, sleepTime: real)
    returns (data: seq<SyncRecord>, pause: real)
    requires |nets| == |cards|
    ensures pause == SleepTime(sleepTime)
    ensures data == Refreshed(cards, isUrl, nets)
  {
    pause := sleepTime;
    if pause <= 0.0 {
      pause := DefaultSleep;
    }
    data := [];
    for i := 0 to |cards|
      invariant data + Refreshed(cards[i..], isUrl, nets[i..]) == Refreshed(cards, isUrl, nets)
    {
      var prices, _ := GetCardPrices(QueryOf(cards[i]), isUrl, nets[i]);
      ghost var before, tail := data, Refreshed(cards[i + 1..], isUrl, nets[i + 1..]);
      RefreshedStep(cards, isUrl, nets, i);
      data := AppendSynced(data, prices);
      ConcatAssoc(before, Synced(prices), tail);
    }
  }

  /** The outcome of reading one watch-list line. */
  datatype LineParse = Comment | Entry(entry: WatchEntry) | TooFewFields

  /** The `|`-separated parts of a line, each stripped. */
  function Parts(line: string): seq<string> {
    StripAll(Split(line, '|'))
  }

  /** The entry whose fields are parts 0 to 9 of a line, in order. */
  function EntryOf(d: seq<string>): WatchEntry
    requires |d| >= 10
  {
    WatchEntry(d[0], d[1], d[2], d[3], d[4], d[5], d[6], d[7], d[8], d[9])
  }

  /** One iteration of `load_card_list`'s loop. */
  function ParseLine(line: string): (r: LineParse)
    ensures r.Comment? <==> line == "" || line[0] == '#'
    ensures r.TooFewFields? <==> line != "" && line[0] != '#' && |Split(line, '|')| < 10
  {
    if line == "" || line[0] == '#' then Comment
    else
      var d := Parts(line);
      if |d| < 10 then TooFewFields
      else Entry(EntryOf(d))
  }

  /** What `load_card_list` returns for the file's lines, or `None` where it raises. */
  function Loaded(lines: seq<string>): Option<seq<WatchEntry>> {
    if lines == [] then Some([])
    else
      match ParseLine(lines[0])
      case Comment => Loaded(lines[1..])
      case TooFewFields => None
      case Entry(e) => Prefixed([e], Loaded(lines[1..]))
  }

  /** `load_card_list` on the lines `readlines` returns (each with its line end). */
  method LoadCardList(lines: seq<string>) returns (cards: Option<seq<WatchEntry>>)
    ensures cards == Loaded(lines)
  {
    var acc := [];
    assert lines[0..] == lines;
    assert Prefixed(acc, Loaded(lines)) == Loaded(lines) by {
      if Loaded(lines).Some? {
        assert acc + Loaded(lines).value == Loaded(lines).value;
      }
    }
    for i := 0 to |lines|
      invariant Prefixed(acc, Loaded(lines[i..])) == Loaded(lines)
    {
      var line := lines[i];
      ghost var rest := lines[i + 1..];
      assert lines[i..][1..] == rest;
      assert Loaded(lines[i..]) == match ParseLine(line)
        case Comment => Loaded(rest)
        case TooFewFields => None
        case Entry(e) => Prefixed([e], Loaded(rest));
      if |line| == 0 || line[0] == '#' {
        continue;
      }
      var data := Parts(line);
      assert ParseLine(line) == if |data| < 10 then TooFewFields else Entry(EntryOf(data));
      if |data| < 10 {
        return None;
      }
      PrefixedAppend(acc, [EntryOf(data)], Loaded(rest));
      acc := acc + [EntryOf(data)];
    }
    assert lines[|lines|..] == [];
    assert acc + [] == acc;
    return Some(acc);
  }

  /** Some line that is not a comment has fewer than ten fields. */
  ghost predicate Malformed(lines: seq<string>) {
    exists i :: 0 <= i < |lines| && ParseLine(lines[i]).TooFewFields?
  }

  /** Reference reading of a watch-list: the entries of its non-comment lines, in order. */
  function EntriesOf(lines: seq<string>): seq<WatchEntry> {
    if lines == [] then []
    else (if ParseLine(lines[0]).Entry? then [ParseLine(lines[0]).entry] else []) + EntriesOf(lines[1..])
  }

  /**
   * `load_card_list` fails exactly when some non-comment line is short,
   * and otherwise returns the entry of every non-comment line, in order.
   */
  lemma {:induction false} LoadedAllOrNothing(lines: seq<string>)
    ensures Loaded(lines) == if Malformed(lines) then None else Some(EntriesOf(lines))
  {
    if lines != [] {
      var first, rest := ParseLine(lines[0]), lines[1..];
      LoadedAllOrNothing(rest);
      assert Loaded(lines) == match first
        case Comment => Loaded(rest)
        case TooFewFields => None
        case Entry(e) => Prefixed([e], Loaded(rest));
      MalformedStep(lines);
      match first
      case Comment =>
        assert EntriesOf(lines) == [] + EntriesOf(rest) == EntriesOf(rest);
      case TooFewFields =>
      case Entry(e) =>
        assert EntriesOf(lines) == [e] + EntriesOf(rest);
    }
  }

  /**
   * A blank line still holds its line end, so it is neither empty nor a
   * comment: it has one field, and the whole read fails.
   */
  lemma BlankLineFails(lines: seq<string>, i: nat)
    requires i < |lines| && lines[i] == "\n"
    ensures Loaded(lines) == None
  {
    assert Split("\n", '|') == ["\n"];
    assert ParseLine(lines[i]).TooFewFields?;
    LoadedAllOrNothing(lines);
  }

  lemma MalformedStep(lines: seq<string>)
    requires lines != []
    ensures Malformed(lines) <==> ParseLine(lines[0]).TooFewFields? || Malformed(lines[1..])
  {
    if Malformed(lines[1..]) {
      var i :| 0 <= i < |lines[1..]| && ParseLine(lines[1..][i]).TooFewFields?;
      assert ParseLine(lines[i + 1]).TooFewFields?;
    }
    if Malformed(lines) && !ParseLine(lines[0]).TooFewFields? {
      var i :| 0 <= i < |lines| && ParseLine(lines[i]).TooFewFields?;
      assert i > 0 && ParseLine(lines[1..][i - 1]).TooFewFields?;
    }
  }
}
