# ai_crypto_news core, modelled in Dafny

This project models the text-handling pipeline that sits in front of the
AI crypto assistant's third-party services, and proves what it computes.

- **Identifier extraction** (`extract_coin_identifier_from_query`, main.py).
  The query loses its punctuation and is split on whitespace. Three passes
  follow in order:
  - the leftmost uppercase word of 2 to 6 characters (a ticker);
  - otherwise the longest space-joined run of consecutive title-case or
    uppercase words, the earliest run winning ties;
  - otherwise the canonical name of the first alias-table key, in table
    order, that occurs as a substring of the lowercased stripped query.

  Modules `Text` (ASCII models of the Python `str` operations used), `NamePass`
  (the second pass and its characterisation) and `Extractor`.
- **Catalog resolution** (module `Resolver`). This is the block of the main
  loop in main.py that maps the extracted term to a provider target and a
  news name. It is lifted out as `Resolve(term, catalog)`.
- **Aggregation** (`get_aggregated_coin_data`, module `Aggregator`). It makes
  one market lookup and one news lookup, and returns a bundle unless both came
  back empty. The function exists twice: services/aggregator.py and a verbatim
  copy in api_clients.py. One Dafny function models both, and the table cites
  each copy.
- **News filter and prompt construction** (module `AiProcessor`). These are
  `filter_news_by_coin` and the prompt assembly of
  `generate_crypto_assistant_response`, both in ai_processor.py.

Provider dictionaries become datatypes (module `Records`). A dictionary value
is a `Field`:
- `Missing`: the key is absent;
- `Str`: a string;
- `Num`: an `int` or `float`, carried as the text its format specification
  produces;
- `Other`: anything else, such as `None`.

The two data providers are function parameters of `Aggregate`:
- the market provider maps a symbol to `Option<Snapshot>`;
- the news provider maps a (name, page size) request to
  `Option<seq<Article>>`, where `None` is a failed fetch.

Where the source loops, the model has a method with that loop. Each method is
proved equal to a specification function. The lemmas state the source's
promises about those functions.

Two procedures are split into smaller methods to keep each proof small:
- `ExtractCoinIdentifier` runs `FindTicker`, `FindLongestName` and
  `FindAlias`, one per source loop. `FindLongestName` calls
  `CloseCurrentRun` for the block the source repeats wherever a run ends;
- `BuildPrompt` calls `AppendMarketSection` and `AppendNewsSection`, and the
  latter calls `AppendHeadlines` for its loop. Each appends to the list of
  parts the way the source does.

Where the code and its own comments or names suggest different behaviour,
the model follows the code:
- **Title case** is Python's `istitle`: an uppercase letter only after an
  uncased character, a lowercase letter only after a cased one, and at least
  one cased letter. So "Bitcoin2" and "X2Ray" are name words. The comment
  at main.py:42 calls this "Titlecase", but it is not "first letter capital,
  rest lowercase".
- **Stopwords** are compared exactly, against lowercase words only. The
  comment at main.py:33 describes the list as the lowercase words to
  ignore, but every
  lowercase word closes a run whether or not it is a stopword, so the list
  never changes the result (`NamePass.NameStep`). A
  capitalised "Tell" or "What" at the start of a query is a name word.
- **Resolution order** is per entry. The comment at main.py:170 says the
  symbol match is checked first, but only within one catalog entry: each
  entry is tested by symbol and then by name before the next entry is tried.
  The first entry matching either way wins, even if a later entry matches by
  symbol.
- **Resolution is not idempotent in general.** It is idempotent only when the
  symbols are distinct ignoring case and no name equals another entry's
  symbol (`Resolver.ResolveIdempotent`). `Resolver.ResolveNotIdempotentInGeneral`
  gives a two-entry catalog where it fails.
- **An empty symbol falls back.** If the first matching entry has an empty
  symbol, that symbol is falsy, so the fallback runs and the result is the
  term twice (`Resolver.ResolveEmptySymbolFallsBack`).

## Model

| member | source | states |
|---|---|---|
| Records.Render | ai_processor.py:45-57 | `d.get(key, default)` printed: a missing key prints the default, a string prints itself |
| Text.Lower | main.py:60 | `lower()` maps each character to its lowercase, in place: an uppercase letter to the letter 32 code points later, anything else to itself |
| Text.Upper | main.py:171 | `upper()` maps each character to its uppercase, in place: a lowercase letter to the letter 32 code points earlier, anything else to itself |
| Text.CaseFoldedEquality | main.py:171-177 | comparing uppercased strings and comparing lowercased strings are both equality up to case |
| Text.IsUpperIsLowerChars | main.py:23-34 | `isupper()` holds exactly when some character is cased and none is a lowercase letter; `islower()` exactly when some character is cased and none is an uppercase letter |
| Text.IsTitleChars | main.py:42 | `istitle()` holds exactly when some character is cased, no uppercase letter follows a cased character, and every lowercase letter follows a cased character |
| Text.Split | main.py:15 | whitespace split: every word is non-empty, contains no whitespace and consists of characters of the input |
| Text.SplitWord | main.py:15 | a non-empty string without whitespace splits into itself |
| Text.SplitAtSpace | main.py:15 | splitting at a whitespace character splits each side on its own; with `SplitWord` and the empty string this fixes every result |
| Text.StripPunctuation | main.py:14 | the result contains no punctuation and is no longer than the input |
| Text.StripPunctuationChar | main.py:14 | one character is removed exactly when it is punctuation, and kept otherwise |
| Text.StripPunctuationAppend | main.py:14 | stripping a concatenation is concatenating the stripped parts, so the kept characters stay in order |
| Text.StripPunctuationIdempotent | main.py:14 | stripping punctuation twice is stripping it once |
| Text.StripAllPunctuation | main.py:14 | a string made only of punctuation strips to the empty string |
| Text.PunctuationIsAsciiSymbols | main.py:14 | `string.punctuation` has 32 characters: the printable ASCII symbols that are not letters, digits or space |
| Text.LowerIsNeitherTitleNorUpper | main.py:34-42 | a lowercase word is neither title-case nor uppercase, so the branches at lines 34 and 42 never both apply |
| Text.ContainsAt | main.py:105 | the substring test holds exactly when the pattern occurs at some position |
| Text.JoinAppend | ai_processor.py:76 | joining two non-empty part lists is joining each with the separator between them |
| Text.JoinFramed | ai_processor.py:76 | the joined prompt puts one separator between each pair of neighbouring parts |
| NamePass.CloseRun | main.py:44-48 | ending a run resets it, and the longest name becomes the longer of the old one and the run's joined text, the old one winning a tie |
| NamePass.NameStep | main.py:34-48 | one loop step extends the run on a name word and closes it on any other word; stopword membership never matters |
| NamePass.NameScanInvariant | main.py:32-48 | after any prefix, the open run is the trailing run of name words, and the longest name is empty exactly when no closed run exists; otherwise it is the earliest longest closed run |
| NamePass.LongestNameIsEarliestLongestRun | main.py:29-57 | the second pass yields "" exactly when no word is title-case or uppercase; otherwise it yields the text of a maximal run of such words that is the longest, with no earlier run as long |
| Extractor.Words | main.py:14-15 | the scanned words are non-empty and hold neither whitespace nor punctuation |
| Extractor.FirstTicker | main.py:22-24 | nothing is found exactly when no word is uppercase with 2 to 6 characters; a found word is such a word of the query |
| Extractor.FirstTickerIsLeftmost | main.py:22-24 | the first pass returns the ticker word that no other ticker word precedes |
| Extractor.AliasLookup | main.py:104-106 | nothing is found exactly when no key occurs in the text; a found value belongs to a key that occurs |
| Extractor.AliasLookupFirstMatch | main.py:104-106 | the value returned is that of the earliest key in table order that occurs, not the longest or most specific |
| Extractor.AliasTableHasNoEmptyStrings | main.py:61-102 | no key and no canonical name in the table is empty |
| Extractor.Extract | main.py:9-108 | the extractor returns nothing or a non-empty string |
| Extractor.FindTicker | main.py:22-24 | the first loop returns the leftmost ticker word |
| Extractor.CloseCurrentRun | main.py:51-54 | the repeated closing block leaves the state `CloseRun` gives |
| Extractor.FindLongestName | main.py:29-54 | the second loop and the final close compute the name pass's longest name |
| Extractor.FindAlias | main.py:104-108 | the fallback loop returns the value of the first table key found |
| Extractor.ExtractCoinIdentifier | main.py:9-108 | the procedure, pass after pass with early returns, computes `Extract` |
| Extractor.ExtractIgnoresPunctuation | main.py:14-15 | the result depends only on the punctuation-stripped query, so "BTC?" and "BTC" agree |
| Extractor.ExtractTickerPass | main.py:22-24 | if any word is uppercase with 2 to 6 characters, the result is the leftmost such word |
| Extractor.ExtractNamePass | main.py:29-57 | without a ticker word but with a name word, the result is the text of the earliest longest maximal run of name words |
| Extractor.ExtractAliasFallback | main.py:59-106 | with no name word, the result is the value of the first table key found in the lowercased stripped query, even inside a longer word |
| Extractor.ExtractIsNoneIff | main.py:56-108 | no identifier is found exactly when no word is title-case or uppercase and no table key occurs |
| Extractor.ExtractPunctuationOnlyIsNone | main.py:14-108 | an empty or all-punctuation query yields no identifier |
| Extractor.WhatsIsNeverAWord | main.py:34 | the stopword "what's" can never be a word, since its apostrophe is stripped first |
| Resolver.MatchesIgnoringCase | main.py:171-177 | an entry matches exactly when the term equals its symbol or its name up to case |
| Resolver.FirstMatch | main.py:169-181 | the index found is the first entry the term matches by symbol or by name, ignoring case; none is found exactly when no entry matches |
| Resolver.FirstMatchAt | main.py:169-181 | an index that matches, with no earlier match, is the one found |
| Resolver.Resolve | main.py:165-194 | the `for`/`break` loop and both fallback branches compute `Resolution` |
| Resolver.ResolveFirstEntryWins | main.py:169-181 | the first matching entry decides the result, even when a later entry matches by symbol |
| Resolver.ResolveUnmatched | main.py:183-194 | with no matching entry the result is the term twice, whether or not it looks like a ticker |
| Resolver.Resolution | main.py:165-194 | the result is the term twice, or the non-empty symbol and name of the first matching entry |
| Resolver.ResolveEmptySymbolFallsBack | main.py:169-194 | a first matching entry with an empty symbol gives the term twice, even when a later entry matches |
| Resolver.ResolveIdempotent | main.py:169-194 | on a catalog with distinct symbols, where no name equals another entry's symbol, re-resolving the target gives the same result |
| Resolver.ResolveNotIdempotentInGeneral | main.py:169-181 | on a catalog where a name equals another entry's symbol, re-resolving the target moves to a different entry |
| Aggregator.NewsQueryName | services/aggregator.py:21-25 | the news name is never a missing key: the identifier without market data, otherwise the snapshot's name, or the identifier when that key is absent |
| Aggregator.NewsOrEmpty | services/aggregator.py:34-40 | the fetched list is kept as it is; the result is empty exactly when the fetch failed or returned nothing |
| Aggregator.Aggregate | services/aggregator.py:6-54 | a returned bundle has market data or at least one article, and carries the identifier as given |
| Aggregator.AggregateConsultsProvidersOnce | services/aggregator.py:18-32 | only the market result at the uppercased identifier and the news result at (news name, page size 3) affect the outcome |
| Aggregator.AggregateNoneIff | services/aggregator.py:43-45 | nothing is returned exactly when there is no market data and the news request for the identifier failed or was empty |
| Aggregator.AggregateNewsNameWithMarket | services/aggregator.py:21-32 | with market data, the news request and the bundle use the snapshot's name, or the identifier if the name key is absent |
| Aggregator.AggregateNewsNameWithoutMarket | api_clients.py:202-226 | without market data, the news request uses the identifier unchanged, and a bundle exists exactly when it returned articles, kept untruncated |
| Aggregator.AggregatePassesDataThrough | api_clients.py:213-233 | a bundle holds the market result unchanged and the whole fetched list, or no articles after a failed fetch |
| AiProcessor.LoweredText | ai_processor.py:115-116 | a non-string field reads as ""; a string reads as its `lower()`, character by character |
| AiProcessor.Mentions | ai_processor.py:118 | the empty name is mentioned by every article; any other name needs a title or description that is a string |
| AiProcessor.NewsMentioning | ai_processor.py:107-120 | the kept articles all mention the coin, and there are no more of them than the input has |
| AiProcessor.FilterNewsByCoin | ai_processor.py:107-120 | the appending loop computes `NewsMentioning` |
| AiProcessor.FilterKeepsExactlyMentions | ai_processor.py:115-119 | every copy of an article that mentions the coin is kept and no copy of any other; so an article is in the result exactly when it is in the input and mentions the coin |
| AiProcessor.FilterIsSubsequence | ai_processor.py:109-120 | the result is an order-preserving subsequence of the input |
| AiProcessor.FilterIdempotent | ai_processor.py:107-120 | filtering twice by the same name is filtering once |
| AiProcessor.FilterNonStringFields | ai_processor.py:115-118 | an article whose title and description are not strings is kept exactly when the name is empty |
| AiProcessor.FilterByEmptyNameKeepsAll | ai_processor.py:108-118 | the empty name keeps every article |
| AiProcessor.DecimalString | ai_processor.py:67 | `str(n)` is a non-empty string of digits with no leading zero |
| AiProcessor.DecimalRoundTrip | ai_processor.py:67 | reading back the digits of `str(n)` gives `n` |
| AiProcessor.HeadlineLine | ai_processor.py:67 | a headline starts with two spaces and a digit |
| AiProcessor.HeadlineLines | ai_processor.py:66-67 | one line per article, the k-th numbered k+1 and showing that article's title and source |
| AiProcessor.AppendMarketSection | ai_processor.py:40-59 | the market block appends exactly the market lines |
| AiProcessor.AppendHeadlines | ai_processor.py:66-67 | the headline loop appends exactly the numbered headline lines |
| AiProcessor.AppendNewsSection | ai_processor.py:61-71 | the news block, with its loop over the first five articles, appends exactly the news lines |
| AiProcessor.BuildPrompt | ai_processor.py:34-76 | the step-by-step construction and join compute `PromptText` |
| AiProcessor.PromptText | ai_processor.py:34-76 | the prompt is the instruction, the quoted query and the data header, then the sections, then the footer and the closing request, joined by line breaks |
| AiProcessor.MarketLines | ai_processor.py:41-59 | with market data there are seven lines, the query identifier standing in for a missing name; without it, one notice naming the query identifier |
| AiProcessor.NewsLines | ai_processor.py:62-71 | a non-empty list gives the header and its first min(5, n) articles numbered from 1; an empty list gives "No news data was available." |
| AiProcessor.PromptLineCount | ai_processor.py:34-76 | the prompt has 5 fixed lines, 7 or 1 market lines, and 1 + min(5, n) or 1 news lines |
| AiProcessor.HeadlineIsNotEmptyNewsLine | ai_processor.py:67-69 | a headline line never equals the "No recent news articles found." line |
| AiProcessor.EmptyNewsLineNeverEmitted | ai_processor.py:62-71 | no prompt line is "No recent news articles found.", so that branch is dead |

## Left out

- HTTP clients are not modelled: `get_cmc_headers`, `get_top_50_coins_cmc`, `get_coin_data_cmc` and `get_newsdata_io_news`, with their JSON decoding. Their results enter only as the provider parameters of `Aggregate` and as the catalog of `Resolve`.
- The language-model calls are foreign library calls: `configure_gemini`, `generate_content` and response unwrapping. The model stops at the prompt text.
- `generate_news` is not modelled. It drives the news API and the language model around the filter.
- Floating-point formatting (`:.2f`, `:,.0f`) is not modelled. A numeric field carries the text its format produces, so "1234.5 renders as $1234.50" is outside the model.
- The console loop of `main` is not modelled: input, printing, and the `top50` and quit commands. The branches after aggregation are also left out; given the bundle invariant (`Bundle.HasData`), the one at main.py:217-225 cannot be taken.
- bot.py, the chat front end, is not modelled. It skips catalog resolution. No message-splitting code exists in the source, so none is modelled.
- A bundle always carries `query_identifier`, so the defaults 'the queried coin' and 'the coin' at ai_processor.py:45 and 59 never print. The model has no bundle without that key.
- A snapshot is taken to be a non-empty dictionary, so the truth tests `if market_data:` and `if aggregated_data.get("market_data"):` reduce to presence.
- Catalog entries with a missing name or symbol are not modelled. `CoinRef` holds strings. A provider entry whose `name` or `symbol` is `None` makes `.upper()` or `.lower()` raise `AttributeError` at main.py:171 or 177, and the model has no such input.
- `filter_news_by_coin` on `None` is not modelled. `generate_news` can pass a failed fetch (`None`) to it at ai_processor.py:128-129, and iterating over `None` raises `TypeError`. `FilterNewsByCoin` takes a list, and its only caller is outside the model.
- A provider exception is not modelled. The news client reads `results` with `.get` at services/news_service.py:50 (api_clients.py:172) before testing whether it is a list, so an error reply whose `results` is a list raises `AttributeError`. Nothing catches it, and it propagates out of `get_aggregated_coin_data`. `Aggregate`'s providers are total, so the model has no such path.
- The progress and error messages that `get_aggregated_coin_data` prints (services/aggregator.py:12, 24, 27, 31, 36, 39, 44) are not modelled. They do not affect the result.
- config.py only loads environment settings and is not modelled.
- Characters are ASCII only. Python also cases non-ASCII letters in `lower`, `upper`, `isupper`, `islower` and `istitle`, and treats more characters as whitespace in `split`. The model treats every non-ASCII character as an uncased, non-space, non-punctuation character.
- Python `bool` values are `int`s, so `isinstance(True, (int, float))` holds. The model has no separate boolean field; such a value is a `Num` or `Other` as the caller chooses.
- Concrete example queries, such as "Tell me about Shiba Inu" giving "Shiba Inu", are not proved as separate lemmas. Evaluating the string functions on literals is beyond the solver's budget. The general lemmas `ExtractTickerPass`, `ExtractNamePass` and `ExtractAliasFallback` cover those cases.
- Resolver.ResolveIdempotent: states idempotence only under `Unambiguous`, since the code is not idempotent without it.
