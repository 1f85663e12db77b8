/** The deterministic parts of ai_processor.py: the case-insensitive news
    filter `filter_news_by_coin`, and the prompt that
    `generate_crypto_assistant_response` assembles line by line before
    handing it to the language model.  Each is a method shaped like the
    source's loop, proved to compute a specification function whose own
    properties are proved as lemmas. */
module AiProcessor {
  import opened Text
  import opened Records

  // ---------------------------------------------------------------------
  // News filter

  /** `x.lower() if isinstance(x, str) else ""` */
  function LoweredText(f: Field): (r: string)
    ensures !f.Str? ==> r == ""
    ensures f.Str? ==> r == Lower(f.s)
    ensures f.Str? ==> |r| == |f.s| && forall i :: 0 <= i < |r| ==> r[i] == LowerChar(f.s[i])
  {
    if f.Str? then Lower(f.s) else ""
  }

  /** The filter's test: the lowercased coin name occurs in the lowercased
      title or the lowercased description.  The empty name occurs in every
      text; any other name needs a title or description that is a string. */
  predicate Mentions(article: Article, coinName: string)
    ensures coinName == "" ==> Mentions(article, coinName)
    ensures Mentions(article, coinName) ==> coinName == "" || article.title.Str? || article.description.Str?
  {
    ContainsEmpty(LoweredText(article.title), Lower(coinName));
    ContainsEmpty(LoweredText(article.description), Lower(coinName));
    var needle := Lower(coinName);
    Contains(LoweredText(article.title), needle) || Contains(LoweredText(article.description), needle)
  }

  /** The articles that mention the coin, in their original order. */
  function NewsMentioning(news: seq<Article>, coinName: string): (r: seq<Article>)
    ensures |r| <= |news|
    ensures forall k :: 0 <= k < |r| ==> Mentions(r[k], coinName)
    decreases |news|
  {
    if news == [] then []
    else
      var kept := NewsMentioning(news[..|news| - 1], coinName);
      var last := news[|news| - 1];
      if Mentions(last, coinName) then kept + [last] else kept
  }

  /** `filter_news_by_coin(news_list, coin_name)` */
  method FilterNewsByCoin(news: seq<Article>, coinName: string) returns (filtered: seq<Article>)
    ensures filtered == NewsMentioning(news, coinName)
  {
    var needle := Lower(coinName);
    filtered := [];
    for i := 0 to |news|
      invariant filtered == NewsMentioning(news[..i], coinName)
    {
      var article := news[i];
      var titleText := if article.title.Str? then Lower(article.title.s) else "";
      var descText := if article.description.Str? then Lower(article.description.s) else "";
      assert news[..i + 1][..i] == news[..i];
      if Contains(titleText, needle) || Contains(descText, needle) {
        filtered := filtered + [article];
      }
    }
    assert news[..|news|] == news;
  }

  /** Every copy of an article that mentions the coin is kept, and no copy
      of one that does not; in particular an article is in the result exactly
      when it is in the input and mentions the coin. */
  lemma {:induction false} FilterKeepsExactlyMentions(news: seq<Article>, coinName: string, a: Article)
    ensures multiset(NewsMentioning(news, coinName))[a] == if Mentions(a, coinName) then multiset(news)[a] else 0
    ensures a in NewsMentioning(news, coinName) <==> a in news && Mentions(a, coinName)
    decreases |news|
  {
    if news != [] {
      var init := news[..|news| - 1];
      var last := news[|news| - 1];
      FilterKeepsExactlyMentions(init, coinName, a);
      assert news == init + [last];
      assert multiset(news) == multiset(init) + multiset{last};
      var kept := NewsMentioning(init, coinName);
      if Mentions(last, coinName) {
        assert multiset(kept + [last]) == multiset(kept) + multiset{last};
      }
    }
  }

  /** `xs` is `ys` with some elements dropped and the rest in order. */
  ghost predicate IsSubsequence<T>(xs: seq<T>, ys: seq<T>)
    decreases |ys|
  {
    if xs == [] then true
    else if ys == [] then false
    else if xs[|xs| - 1] == ys[|ys| - 1] then IsSubsequence(xs[..|xs| - 1], ys[..|ys| - 1])
    else IsSubsequence(xs, ys[..|ys| - 1])
  }

  /** Removing the last element of a subsequence keeps it a subsequence. */
  lemma {:induction false} SubsequenceShorter<T>(xs: seq<T>, ys: seq<T>)
    requires xs != [] && IsSubsequence(xs, ys)
    ensures IsSubsequence(xs[..|xs| - 1], ys)
    decreases |ys|
  {
    var xi := xs[..|xs| - 1];
    var yi := ys[..|ys| - 1];
    if xs[|xs| - 1] == ys[|ys| - 1] {
      if xi != [] && xi[|xi| - 1] == ys[|ys| - 1] {
        SubsequenceShorter(xi, yi);
      }
    } else {
      SubsequenceShorter(xs, yi);
      if xi != [] && xi[|xi| - 1] == ys[|ys| - 1] {
        SubsequenceShorter(xi, yi);
      }
    }
  }

  /** A subsequence of `ys` is a subsequence of `ys` extended. */
  lemma SubsequenceOfLonger<T>(xs: seq<T>, ys: seq<T>, y: T)
    requires IsSubsequence(xs, ys)
    ensures IsSubsequence(xs, ys + [y])
  {
    var zs := ys + [y];
    assert zs[..|zs| - 1] == ys;
    if xs != [] && xs[|xs| - 1] == y {
      SubsequenceShorter(xs, ys);
    }
  }

  /** Extending both sequences by the same element keeps a subsequence. */
  lemma SubsequenceBothLonger<T>(xs: seq<T>, ys: seq<T>, y: T)
    requires IsSubsequence(xs, ys)
    ensures IsSubsequence(xs + [y], ys + [y])
  {
    assert (xs + [y])[..|xs|] == xs;
    assert (ys + [y])[..|ys|] == ys;
  }

  /** The result keeps the input's order: it is a subsequence of it. */
  lemma {:induction false} FilterIsSubsequence(news: seq<Article>, coinName: string)
    ensures IsSubsequence(NewsMentioning(news, coinName), news)
    decreases |news|
  {
    if news != [] {
      var init := news[..|news| - 1];
      var last := news[|news| - 1];
      var kept := NewsMentioning(init, coinName);
      FilterIsSubsequence(init, coinName);
      assert init + [last] == news;
      if Mentions(last, coinName) {
        SubsequenceBothLonger(kept, init, last);
      } else {
        SubsequenceOfLonger(kept, init, last);
      }
    }
  }

  /** Filtering twice by the same name is filtering once. */
  lemma {:induction false} FilterIdempotent(news: seq<Article>, coinName: string)
    ensures NewsMentioning(NewsMentioning(news, coinName), coinName) == NewsMentioning(news, coinName)
    decreases |news|
  {
    if news != [] {
      var init := news[..|news| - 1];
      var last := news[|news| - 1];
      var kept := NewsMentioning(init, coinName);
      FilterIdempotent(init, coinName);
      if Mentions(last, coinName) {
        assert (kept + [last])[..|kept + [last]| - 1] == kept;
      }
    }
  }

  /** An article whose title and description are both not strings is kept
      only when the coin name is empty. */
  lemma FilterNonStringFields(article: Article, coinName: string)
    requires !article.title.Str? && !article.description.Str?
    ensures Mentions(article, coinName) <==> coinName == ""
  {
    ContainsEmpty("", Lower(coinName));
  }

  /** The empty name keeps every article. */
  lemma {:induction false} FilterByEmptyNameKeepsAll(news: seq<Article>)
    ensures NewsMentioning(news, "") == news
    decreases |news|
  {
    if news != [] {
      var last := news[|news| - 1];
      FilterByEmptyNameKeepsAll(news[..|news| - 1]);
      ContainsEmpty(LoweredText(last.title), "");
      assert news[..|news| - 1] + [last] == news;
    }
  }

  // ---------------------------------------------------------------------
  // Prompt construction

  const Instruction: string :=
    "You are an AI Crypto Assistant. Answer the user's question based on the provided data. Be concise and informative."
  const DataHeader: string := "\n--- Provided Data ---"
  const MarketHeader: string := "\nMarket Data:"
  const NewsHeader: string := "\nRecent News Headlines:"
  const EmptyNewsLine: string := "  No recent news articles found."
  const NoNewsNotice: string := "\nNo news data was available."
  const DataFooter: string := "\n--- End of Provided Data ---"
  const Closing: string :=
    "\nBased on this data, please answer the user's query. If the data is insufficient to directly answer, state that."

  /** How many articles the prompt lists at most. */
  const MaxHeadlines: nat := 5

  predicate IsDigit(c: char) { '0' <= c <= '9' }

  function DigitChar(d: nat): (c: char)
    requires d < 10
    ensures IsDigit(c) && c as int - '0' as int == d
  {
    ('0' as int + d) as char
  }

  /** `str(n)` for a natural number. */
  function DecimalString(n: nat): (s: string)
    ensures s != [] && forall i :: 0 <= i < |s| ==> IsDigit(s[i])
    ensures |s| > 1 ==> s[0] != '0'
  {
    if n < 10 then [DigitChar(n)] else DecimalString(n / 10) + [DigitChar(n % 10)]
  }

  /** The number a string of decimal digits denotes. */
  function DecimalValue(s: string): nat
    requires forall i :: 0 <= i < |s| ==> IsDigit(s[i])
  {
    if s == [] then 0
    else
      assert IsDigit(s[|s| - 1]);
      DecimalValue(s[..|s| - 1]) * 10 + (s[|s| - 1] as int - '0' as int)
  }

  /** Reading back the digits of `str(n)` gives `n`. */
  lemma {:induction false} DecimalRoundTrip(n: nat)
    ensures DecimalValue(DecimalString(n)) == n
  {
    if n >= 10 {
      var s := DecimalString(n);
      DecimalRoundTrip(n / 10);
      assert s[..|s| - 1] == DecimalString(n / 10);
    }
  }

  /** One headline: `f"  {i+1}. {title} (Source: {source_id})"`, with
      "N/A" for a missing key. */
  function HeadlineLine(number: nat, article: Article): (r: string)
    ensures |r| > 2 && r[0] == ' ' && r[1] == ' ' && IsDigit(r[2])
  {
    "  " + DecimalString(number) + ". " + Render(article.title, "N/A") +
    " (Source: " + Render(article.sourceId, "N/A") + ")"
  }

  /** The headline lines of `articles`, numbered from 1. */
  function HeadlineLines(articles: seq<Article>): (r: seq<string>)
    ensures |r| == |articles|
    ensures forall k :: 0 <= k < |r| ==> r[k] == HeadlineLine(k + 1, articles[k])
    decreases |articles|
  {
    if articles == [] then []
    else HeadlineLines(articles[..|articles| - 1]) + [HeadlineLine(|articles|, articles[|articles| - 1])]
  }

  /** A numeric price or market cap is printed after a dollar sign. */
  function DollarLine(caption: string, value: Field): string
  {
    if value.Num? then caption + "$" + value.formatted else caption + Render(value, "N/A")
  }

  /** A numeric change is printed with a percent sign. */
  function PercentLine(caption: string, value: Field): string
  {
    if value.Num? then caption + value.formatted + "%" else caption + Render(value, "N/A")
  }

  /** The market section: the header and six data lines when market data
      is present, with the query identifier standing in for a missing name;
      otherwise the one notice naming the query identifier. */
  function MarketLines(data: Bundle): (r: seq<string>)
    ensures data.marketData.None? ==>
              r == ["\nNo specific market data was found for '" + data.queryIdentifier + "'."]
    ensures data.marketData.Some? ==>
              |r| == 7 && r[0] == MarketHeader &&
              (data.marketData.value.name.Missing? ==>
                 r[1] == "  - Name: " + data.queryIdentifier + " (" + Render(data.marketData.value.symbol, "N/A") + ")")
  {
    match data.marketData
    case Some(m) =>
      [MarketHeader,
       "  - Name: " + Render(m.name, data.queryIdentifier) + " (" + Render(m.symbol, "N/A") + ")",
       DollarLine("  - Current Price: ", m.priceUsd),
       DollarLine("  - Market Cap: ", m.marketCapUsd),
       "  - Rank: " + Render(m.rank, "N/A"),
       PercentLine("  - 24h Change: ", m.percentChange24h),
       "  - Last Updated: " + Render(m.lastUpdated, "N/A")]
    case None =>
      ["\nNo specific market data was found for '" + data.queryIdentifier + "'."]
  }

  /** The news section, with the source's inner test on the list kept even
      though the outer test already decided it.  A non-empty list is listed
      under its header as its first five articles at most, numbered from 1 in
      list order; an empty one gives the single notice. */
  function NewsLines(news: seq<Article>): (r: seq<string>)
    ensures news == [] ==> r == [NoNewsNotice]
    ensures news != [] ==>
              var shown := Min(MaxHeadlines, |news|);
              |r| == 1 + shown && shown <= 5 && r[0] == NewsHeader &&
              forall k :: 0 <= k < shown ==> r[k + 1] == HeadlineLine(k + 1, news[k])
  {
    if news != [] then
      [NewsHeader] + (if news != [] then HeadlineLines(news[..Min(MaxHeadlines, |news|)]) else [EmptyNewsLine])
    else [NoNewsNotice]
  }

  function Min(a: int, b: int): int { if a <= b then a else b }

  function QueryLine(userQuery: string): string { "\nUser Query: \"" + userQuery + "\"" }

  /** `prompt_parts` when it is joined. */
  function PromptParts(userQuery: string, data: Bundle): seq<string>
  {
    [Instruction, QueryLine(userQuery), DataHeader] + MarketLines(data) +
    NewsLines(data.newsArticles) + [DataFooter, Closing]
  }

  /** `full_prompt`: the instruction, the quoted query and the data header,
      then the market and news sections, then the data footer and the
      closing request, one per line. */
  function PromptText(userQuery: string, data: Bundle): (r: string)
    ensures r == Instruction + "\n" + QueryLine(userQuery) + "\n" + DataHeader + "\n" +
                 Join("\n", MarketLines(data) + NewsLines(data.newsArticles)) +
                 "\n" + DataFooter + "\n" + Closing
  {
    var middle := MarketLines(data) + NewsLines(data.newsArticles);
    assert PromptParts(userQuery, data) == [Instruction, QueryLine(userQuery), DataHeader] + middle + [DataFooter, Closing];
    JoinFramed("\n", Instruction, QueryLine(userQuery), DataHeader, middle, DataFooter, Closing);
    Join("\n", PromptParts(userQuery, data))
  }

  /** The market block of the prompt construction: appends the market
      lines to `parts`. */
  method AppendMarketSection(parts: seq<string>, data: Bundle) returns (result: seq<string>)
    ensures result == parts + MarketLines(data)
  {
    result := parts;
    if data.marketData.Some? {
      var m := data.marketData.value;
      result := result + [MarketHeader];
      var name := Render(m.name, data.queryIdentifier);
      var symbol := Render(m.symbol, "N/A");
      result := result + ["  - Name: " + name + " (" + symbol + ")"];
      result := result + [DollarLine("  - Current Price: ", m.priceUsd)];
      result := result + [DollarLine("  - Market Cap: ", m.marketCapUsd)];
      result := result + ["  - Rank: " + Render(m.rank, "N/A")];
      result := result + [PercentLine("  - 24h Change: ", m.percentChange24h)];
      result := result + ["  - Last Updated: " + Render(m.lastUpdated, "N/A")];
    } else {
      result := result + ["\nNo specific market data was found for '" + data.queryIdentifier + "'."];
    }
  }

  /** The loop over the shown articles: appends one numbered headline per
      article to `parts`. */
  method AppendHeadlines(parts: seq<string>, shown: seq<Article>) returns (result: seq<string>)
    ensures result == parts + HeadlineLines(shown)
  {
    result := parts;
    for i := 0 to |shown|
      invariant result == parts + HeadlineLines(shown[..i])
    {
      assert shown[..i + 1][..i] == shown[..i];
      result := result + [HeadlineLine(i + 1, shown[i])];
    }
    assert shown[..|shown|] == shown;
  }

  /** The news block of the prompt construction: appends the news lines to
      `parts`, listing the first five articles. */
  method AppendNewsSection(parts: seq<string>, newsArticles: seq<Article>) returns (result: seq<string>)
    ensures result == parts + NewsLines(newsArticles)
  {
    result := parts;
    if newsArticles != [] {
      var newsItems := newsArticles;
      result := result + [NewsHeader];
      if newsItems != [] {
        result := AppendHeadlines(result, newsItems[..Min(MaxHeadlines, |newsItems|)]);
      } else {
        result := result + [EmptyNewsLine];
      }
    } else {
      result := result + [NoNewsNotice];
    }
  }

  /** The prompt construction of `generate_crypto_assistant_response`,
      appending to the list of parts step by step and joining it. */
  method BuildPrompt(userQuery: string, data: Bundle) returns (prompt: string)
    ensures prompt == PromptText(userQuery, data)
  {
    var parts: seq<string> := [];
    parts := parts + [Instruction];
    parts := parts + [QueryLine(userQuery)];
    parts := parts + [DataHeader];
    parts := AppendMarketSection(parts, data);
    parts := AppendNewsSection(parts, data.newsArticles);
    parts := parts + [DataFooter];
    parts := parts + [Closing];
    assert parts == PromptParts(userQuery, data);
    prompt := Join("\n", parts);
  }

  // ---------------------------------------------------------------------
  // Properties of the prompt

  /** The number of prompt lines: five fixed ones, seven or one for market
      data, and the header plus at most five headlines, or one notice, for
      news. */
  lemma PromptLineCount(userQuery: string, data: Bundle)
    ensures |PromptParts(userQuery, data)| ==
              5 + (if data.marketData.Some? then 7 else 1) +
              (if data.newsArticles != [] then 1 + Min(MaxHeadlines, |data.newsArticles|) else 1)
  {
  }

  /** A headline starts with two spaces and a digit. */
  lemma HeadlineIsNotEmptyNewsLine(number: nat, article: Article)
    ensures HeadlineLine(number, article) != EmptyNewsLine
  {
    assert EmptyNewsLine[2] == 'N';
  }

  /** Market lines start with a line break or with "  -". */
  lemma MarketLinesAvoidEmptyNewsLine(data: Bundle)
    ensures EmptyNewsLine !in MarketLines(data)
  {
    var lines := MarketLines(data);
    assert EmptyNewsLine[0] == ' ' && EmptyNewsLine[2] == 'N';
    forall i | 0 <= i < |lines|
      ensures lines[i] != EmptyNewsLine
    {
      if i == 0 {
        assert lines[i][0] == '\n';
      } else {
        assert lines[i][2] == '-';
      }
    }
  }

  /** News lines are the header, headlines, or the no-news notice. */
  lemma NewsLinesAvoidEmptyNewsLine(news: seq<Article>)
    ensures EmptyNewsLine !in NewsLines(news)
  {
    var lines := NewsLines(news);
    assert EmptyNewsLine[0] == ' ';
    forall i | 0 <= i < |lines|
      ensures lines[i] != EmptyNewsLine
    {
      if news != [] && i > 0 {
        HeadlineIsNotEmptyNewsLine(i, news[i - 1]);
      }
    }
  }

  /** No line of the prompt is the "No recent news articles found." line:
      the source's inner `else` is dead. */
  lemma EmptyNewsLineNeverEmitted(userQuery: string, data: Bundle)
    ensures EmptyNewsLine !in PromptParts(userQuery, data)
  {
    MarketLinesAvoidEmptyNewsLine(data);
    NewsLinesAvoidEmptyNewsLine(data.newsArticles);
    assert EmptyNewsLine[0] == ' ';
    assert QueryLine(userQuery)[0] == '\n';
  }
}
