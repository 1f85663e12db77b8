/** `get_aggregated_coin_data` (services/aggregator.py, and its verbatim copy
    in api_clients.py): one market lookup, one news lookup, and a bundle
    unless both came back empty.  The two providers are parameters: the
    market provider maps a symbol to a snapshot or to nothing, the news
    provider maps a (name, page size) request to a list of articles or to
    nothing (a failed fetch).  Both are modelled as total functions: a
    provider that raises instead of returning is outside this model. */
module Aggregator {
  import opened Text
  import opened Records

  /** The page size of the one news request. */
  const NewsPageSize: nat := 3

  /** The name the news request uses: the snapshot's `name` value when market
      data was found (the identifier if the snapshot lacks the key), otherwise
      the identifier unchanged.  It is never a missing key. */
  function NewsQueryName(identifier: string, market: Option<Snapshot>): (r: Field)
    ensures !r.Missing?
    ensures market.None? ==> r == Str(identifier)
    ensures market.Some? ==> r == market.value.name || (market.value.name.Missing? && r == Str(identifier))
  {
    match market
    case Some(snapshot) => if snapshot.name.Missing? then Str(identifier) else snapshot.name
    case None => Str(identifier)
  }

  /** A failed news fetch counts as an empty list; a list is kept as it is. */
  function NewsOrEmpty(fetched: Option<seq<Article>>): (r: seq<Article>)
    ensures r == [] <==> fetched.None? || fetched == Some([])
    ensures fetched.Some? ==> r == fetched.value
  {
    match fetched
    case Some(articles) => articles
    case None => []
  }

  /** What `get_aggregated_coin_data(identifier)` returns, given the two
      providers. */
  function Aggregate(
    identifier: string,
    marketFor: string -> Option<Snapshot>,
    newsFor: (Field, nat) -> Option<seq<Article>>): (r: Option<Bundle>)
    ensures r.Some? ==> r.value.HasData()
    ensures r.Some? ==> r.value.queryIdentifier == identifier
  {
    var market := marketFor(Upper(identifier));
    var newsName := NewsQueryName(identifier, market);
    var news := NewsOrEmpty(newsFor(newsName, NewsPageSize));
    if market.None? && news == [] then None
    else Some(Bundle(identifier, newsName, market, news))
  }

  // ---------------------------------------------------------------------
  // Properties of the aggregator

  /** The providers are consulted at exactly one point each: the market
      provider at the uppercased identifier, the news provider at the chosen
      name with page size `NewsPageSize`.  Providers that agree there give the same
      result. */
  lemma AggregateConsultsProvidersOnce(
    identifier: string,
    market1: string -> Option<Snapshot>, market2: string -> Option<Snapshot>,
    news1: (Field, nat) -> Option<seq<Article>>, news2: (Field, nat) -> Option<seq<Article>>)
    requires market1(Upper(identifier)) == market2(Upper(identifier))
    requires var name := NewsQueryName(identifier, market1(Upper(identifier)));
             news1(name, NewsPageSize) == news2(name, NewsPageSize)
    ensures Aggregate(identifier, market1, news1) == Aggregate(identifier, market2, news2)
  {
  }

  /** No bundle exactly when the market provider has nothing for the
      uppercased identifier and the news request for the identifier itself
      failed or returned no article. */
  lemma AggregateNoneIff(
    identifier: string,
    marketFor: string -> Option<Snapshot>,
    newsFor: (Field, nat) -> Option<seq<Article>>)
    ensures Aggregate(identifier, marketFor, newsFor).None? <==>
              marketFor(Upper(identifier)).None? &&
              (newsFor(Str(identifier), NewsPageSize).None? || newsFor(Str(identifier), NewsPageSize) == Some([]))
  {
  }

  /** With market data, the news request and the bundle use the snapshot's
      name, unless the snapshot has no `name` key. */
  lemma AggregateNewsNameWithMarket(
    identifier: string,
    marketFor: string -> Option<Snapshot>,
    newsFor: (Field, nat) -> Option<seq<Article>>)
    requires marketFor(Upper(identifier)).Some?
    ensures var snapshot := marketFor(Upper(identifier)).value;
            var name := if snapshot.name.Missing? then Str(identifier) else snapshot.name;
            Aggregate(identifier, marketFor, newsFor) ==
              Some(Bundle(identifier, name, Some(snapshot), NewsOrEmpty(newsFor(name, NewsPageSize))))
  {
  }

  /** Without market data, the news request and the bundle use the
      identifier as given, not uppercased, and a bundle exists exactly when
      that request returned articles, which it holds untruncated. */
  lemma AggregateNewsNameWithoutMarket(
    identifier: string,
    marketFor: string -> Option<Snapshot>,
    newsFor: (Field, nat) -> Option<seq<Article>>)
    requires marketFor(Upper(identifier)).None?
    ensures var fetched := newsFor(Str(identifier), NewsPageSize);
            Aggregate(identifier, marketFor, newsFor) ==
              if fetched.Some? && fetched.value != [] then Some(Bundle(identifier, Str(identifier), None, fetched.value))
              else None
  {
  }

  /** Whatever the name, a bundle's market data is what the market provider
      returned and its articles are the whole list the news provider
      returned, or none when that fetch failed. */
  lemma AggregatePassesDataThrough(
    identifier: string,
    marketFor: string -> Option<Snapshot>,
    newsFor: (Field, nat) -> Option<seq<Article>>)
    requires Aggregate(identifier, marketFor, newsFor).Some?
    ensures var b := Aggregate(identifier, marketFor, newsFor).value;
            b.marketData == marketFor(Upper(identifier)) &&
            (newsFor(b.resolvedNameForNews, NewsPageSize).Some? ==> b.newsArticles == newsFor(b.resolvedNameForNews, NewsPageSize).value) &&
            (newsFor(b.resolvedNameForNews, NewsPageSize).None? ==> b.newsArticles == [] && b.marketData.Some?)
  {
  }
}
