/** The values that flow through the assistant's pipeline.  The source keeps
    them in dictionaries built from provider JSON; here each dictionary becomes
    a datatype whose members are the keys the core reads. */
module Records {

  datatype Option<+T> = None | Some(value: T)

  /** The value stored under one key of a provider dictionary, as the core
      observes it:
      - Missing: the key is absent, so `d.get(key, default)` yields `default`;
      - Str: a Python `str`;
      - Num: an `int` or `float`, carried as the text the format specification
        of the place that prints it produces (`:.2f`, `:,.0f` or plain `{}`);
        the floating-point rendering itself is not modelled;
      - Other: any other value (`None`, a list, ...) carried as its `str()`. */
  datatype Field = Missing | Str(s: string) | Num(formatted: string) | Other(rendered: string)

  /** The text `f"{d.get(key, default)}"` produces for a field. */
  function Render(f: Field, default: string): (r: string)
    ensures f.Missing? ==> r == default
    ensures f.Str? ==> r == f.s
  {
    match f
    case Missing => default
    case Str(s) => s
    case Num(formatted) => formatted
    case Other(rendered) => rendered
  }

  /** One quote from the market-data provider (a MarketSnapshot). */
  datatype Snapshot = Snapshot(
    id: Field,
    name: Field,
    symbol: Field,
    rank: Field,
    priceUsd: Field,
    marketCapUsd: Field,
    volume24hUsd: Field,
    percentChange24h: Field,
    circulatingSupply: Field,
    totalSupply: Field,
    maxSupply: Field,
    lastUpdated: Field)

  /** One article from the news provider (a NewsArticle). */
  datatype Article = Article(
    title: Field,
    link: Field,
    description: Field,
    sourceId: Field,
    publishedAt: Field,
    keywords: Field)

  /** The aggregated bundle handed to prompt construction. */
  datatype Bundle = Bundle(
    queryIdentifier: string,
    resolvedNameForNews: Field,
    marketData: Option<Snapshot>,
    newsArticles: seq<Article>)
  {
    /** The bundle invariant: some market data or at least one article. */
    predicate HasData() { marketData.Some? || newsArticles != [] }
  }

  /** One entry of the session's coin catalog (a CoinReference). */
  datatype CoinRef = CoinRef(name: string, symbol: string, id: Field)
}
