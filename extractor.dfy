/** `extract_coin_identifier_from_query` (main.py): three ordered passes over
    the punctuation-stripped, whitespace-split query -- a ticker pass, the name
    pass of module NamePass, and a substring fallback over an ordered alias
    table.  `Extract` is the specification; `ExtractCoinIdentifier` is the
    source's loop-by-loop procedure, proved to compute it. */
module Extractor {
  import opened Text
  import opened Records
  import opened NamePass

  /** `common_names_map`, in insertion order: lowercase key, canonical name. */
  const AliasTable: seq<(string, string)> := [
    ("bitcoin", "Bitcoin"), ("btc", "Bitcoin"),
    ("ethereum", "Ethereum"), ("eth", "Ethereum"),
    ("solana", "Solana"), ("sol", "Solana"),
    ("ripple", "XRP"), ("xrp", "XRP"),
    ("cardano", "Cardano"), ("ada", "Cardano"),
    ("dogecoin", "Dogecoin"), ("doge", "Dogecoin"),
    ("shiba inu", "Shiba Inu"), ("shib", "Shiba Inu"),
    ("binance coin", "BNB"), ("bnb", "BNB"),
    ("avalanche", "Avalanche"), ("avax", "Avalanche"),
    ("polkadot", "Polkadot"), ("dot", "Polkadot"),
    ("tron", "TRON"), ("trx", "TRON"),
    ("chainlink", "Chainlink"), ("link", "Chainlink"),
    ("polygon", "Polygon"), ("matic", "Polygon"),
    ("litecoin", "Litecoin"), ("ltc", "Litecoin"),
    ("uniswap", "Uniswap"), ("uni", "Uniswap"),
    ("stellar", "Stellar"), ("xlm", "Stellar"),
    ("aptos", "Aptos"), ("apt", "Aptos"),
    ("arbitrum", "Arbitrum"), ("arb", "Arbitrum"),
    ("internet computer", "Internet Computer"), ("icp", "Internet Computer"),
    ("vechain", "VeChain"), ("vet", "VeChain")
  ]

  /** The words the passes scan: the query without punctuation, split on
      whitespace.  Each is non-empty and holds neither whitespace nor
      punctuation. */
  function Words(query: string): (r: seq<string>)
    ensures forall k :: 0 <= k < |r| ==> r[k] != [] && NoPunctuation(r[k])
    ensures forall k, j :: 0 <= k < |r| && 0 <= j < |r[k]| ==> !IsSpace(r[k][j])
  {
    var stripped := StripPunctuation(query);
    var r := Split(stripped);
    forall k, j | 0 <= k < |r| && 0 <= j < |r[k]|
      ensures !IsPunct(r[k][j])
    {
      var i :| 0 <= i < |stripped| && stripped[i] == r[k][j];
    }
    r
  }

  /** A word the first pass takes for a ticker: uppercase, 2 to 6 characters. */
  predicate IsTickerToken(w: string) { IsUpper(w) && 1 < |w| < 7 }

  /** The first pass: the leftmost ticker word, if any. */
  function FirstTicker(words: seq<string>): (r: Option<string>)
    ensures r.Some? ==> r.value in words && IsTickerToken(r.value)
    ensures r.None? <==> forall k :: 0 <= k < |words| ==> !IsTickerToken(words[k])
  {
    if words == [] then None
    else if IsTickerToken(words[0]) then Some(words[0])
    else FirstTicker(words[1..])
  }

  /** The first pass returns the ticker word that no other ticker precedes. */
  lemma {:induction false} FirstTickerIsLeftmost(words: seq<string>, k: int)
    requires 0 <= k < |words| && IsTickerToken(words[k])
    requires forall j :: 0 <= j < k ==> !IsTickerToken(words[j])
    ensures FirstTicker(words) == Some(words[k])
  {
    if k > 0 {
      FirstTickerIsLeftmost(words[1..], k - 1);
    }
  }

  /** The fallback: the value of the first key, in table order, that occurs
      in `text`. */
  function AliasLookup(table: seq<(string, string)>, text: string): (r: Option<string>)
    ensures r.None? <==> forall k :: 0 <= k < |table| ==> !Contains(text, table[k].0)
    ensures r.Some? ==> exists k :: 0 <= k < |table| && Contains(text, table[k].0) && r.value == table[k].1
  {
    if table == [] then None
    else if Contains(text, table[0].0) then Some(table[0].1)
    else
      var r := AliasLookup(table[1..], text);
      assert r.Some? ==> exists k :: 0 <= k < |table| && Contains(text, table[k].0) && r.value == table[k].1 by {
        if r.Some? {
          var k :| 0 <= k < |table[1..]| && Contains(text, table[1..][k].0) && r.value == table[1..][k].1;
          assert table[k + 1] == table[1..][k];
        }
      }
      r
  }

  /** The fallback returns the value of the earliest key found, not the
      longest or most specific one. */
  lemma {:induction false} AliasLookupFirstMatch(table: seq<(string, string)>, text: string, k: int)
    requires 0 <= k < |table| && Contains(text, table[k].0)
    requires forall j :: 0 <= j < k ==> !Contains(text, table[j].0)
    ensures AliasLookup(table, text) == Some(table[k].1)
  {
    if k > 0 {
      AliasLookupFirstMatch(table[1..], text, k - 1);
    }
  }

  /** Every key and every canonical name in the table is non-empty. */
  lemma AliasTableHasNoEmptyStrings()
    ensures forall k :: 0 <= k < |AliasTable| ==> AliasTable[k].0 != "" && AliasTable[k].1 != ""
  {
  }

  /** What `extract_coin_identifier_from_query` returns. */
  function Extract(query: string): (r: Option<string>)
    ensures r.Some? ==> r.value != ""
  {
    var stripped := StripPunctuation(query);
    var words := Words(query);
    match FirstTicker(words)
    case Some(t) => Some(t)
    case None =>
      var name := LongestName(words);
      if name != "" then Some(name)
      else
        AliasTableHasNoEmptyStrings();
        AliasLookup(AliasTable, Lower(stripped))
  }

  /** The first loop of the source: the leftmost ticker word. */
  method FindTicker(words: seq<string>) returns (r: Option<string>)
    ensures r == FirstTicker(words)
  {
    for i := 0 to |words|
      invariant forall k :: 0 <= k < i ==> !IsTickerToken(words[k])
    {
      if IsUpper(words[i]) && 1 < |words[i]| < 7 {
        FirstTickerIsLeftmost(words, i);
        return Some(words[i]);
      }
    }
    return None;
  }

  /** The block the second loop repeats wherever a run ends: the run's
      space-joined text replaces `longest` only when strictly longer. */
  method CloseCurrentRun(current: seq<string>, longest: string) returns (newLongest: string)
    requires current != []
    ensures ScanState([], newLongest) == CloseRun(ScanState(current, longest))
  {
    newLongest := longest;
    var candidate := Join(" ", current);
    if |candidate| > |longest| {
      newLongest := candidate;
    }
  }

  /** The second loop of the source and the close of the trailing run:
      `longest_potential_name`. */
  method FindLongestName(words: seq<string>) returns (longest: string)
    ensures longest == LongestName(words)
  {
    var current: seq<string> := [];
    longest := "";
    for i := 0 to |words|
      invariant ScanState(current, longest) == NameScan(words[..i])
    {
      var word := words[i];
      ghost var before := ScanState(current, longest);
      assert words[..i + 1][..i] == words[..i];
      assert NameScan(words[..i + 1]) == NameStep(before, word);
      if IsLower(word) && word !in Stopwords {
        if current != [] {
          longest := CloseCurrentRun(current, longest);
          current := [];
        }
      } else if IsTitle(word) || IsUpper(word) {
        current := current + [word];
      } else if current != [] {
        longest := CloseCurrentRun(current, longest);
        current := [];
      }
    }
    assert words[..|words|] == words;
    if current != [] {
      longest := CloseCurrentRun(current, longest);
    }
  }

  /** The last loop of the source: the first key of `table`, in order,
      found in `text`. */
  method FindAlias(table: seq<(string, string)>, text: string) returns (r: Option<string>)
    ensures r == AliasLookup(table, text)
  {
    for k := 0 to |table|
      invariant forall j :: 0 <= j < k ==> !Contains(text, table[j].0)
    {
      if Contains(text, table[k].0) {
        AliasLookupFirstMatch(table, text, k);
        return Some(table[k].1);
      }
    }
    return None;
  }

  /** The source's procedure: the three passes in order, each returning
      early when it finds something. */
  method ExtractCoinIdentifier(query: string) returns (r: Option<string>)
    ensures r == Extract(query)
  {
    var stripped := StripPunctuation(query);
    var words := Words(query);
    r := FindTicker(words);
    if r.Some? {
      return;
    }
    var longest := FindLongestName(words);
    if longest != "" {
      return Some(longest);
    }
    r := FindAlias(AliasTable, Lower(stripped));
  }

  // ---------------------------------------------------------------------
  // Properties of the extractor

  /** The result depends only on the query with its punctuation removed. */
  lemma ExtractIgnoresPunctuation(query: string)
    ensures Extract(StripPunctuation(query)) == Extract(query)
  {
    StripPunctuationIdempotent(query);
  }

  /** If some word is an uppercase word of 2 to 6 characters, the result is
      the leftmost such word. */
  lemma ExtractTickerPass(query: string, k: int)
    requires 0 <= k < |Words(query)| && IsTickerToken(Words(query)[k])
    requires forall j :: 0 <= j < k ==> !IsTickerToken(Words(query)[j])
    ensures Extract(query) == Some(Words(query)[k])
  {
    FirstTickerIsLeftmost(Words(query), k);
  }

  /** Without a ticker word but with some title-case or uppercase word, the
      result is the text of the earliest longest run of such words. */
  lemma ExtractNamePass(query: string)
    requires forall k :: 0 <= k < |Words(query)| ==> !IsTickerToken(Words(query)[k])
    requires exists k :: 0 <= k < |Words(query)| && IsNameToken(Words(query)[k])
    ensures exists i, j :: IsEarliestLongestRun(Words(query), i, j) &&
                           Extract(query) == Some(RunText(Words(query), i, j))
  {
    LongestNameIsEarliestLongestRun(Words(query));
  }

  /** With no title-case or uppercase word, the result is the value of the
      first alias key, in table order, found in the lowercased stripped query
      (a key inside a longer word counts). */
  lemma ExtractAliasFallback(query: string, k: int)
    requires forall j :: 0 <= j < |Words(query)| ==> !IsNameToken(Words(query)[j])
    requires 0 <= k < |AliasTable| && Contains(Lower(StripPunctuation(query)), AliasTable[k].0)
    requires forall j :: 0 <= j < k ==> !Contains(Lower(StripPunctuation(query)), AliasTable[j].0)
    ensures Extract(query) == Some(AliasTable[k].1)
  {
    LongestNameIsEarliestLongestRun(Words(query));
    AliasLookupFirstMatch(AliasTable, Lower(StripPunctuation(query)), k);
  }

  /** No identifier is found exactly when no word is title-case or uppercase
      and no alias key occurs in the lowercased stripped query. */
  lemma ExtractIsNoneIff(query: string)
    ensures Extract(query).None? <==>
              (forall k :: 0 <= k < |Words(query)| ==> !IsNameToken(Words(query)[k])) &&
              (forall k :: 0 <= k < |AliasTable| ==> !Contains(Lower(StripPunctuation(query)), AliasTable[k].0))
  {
    LongestNameIsEarliestLongestRun(Words(query));
  }

  /** An empty or all-punctuation query yields no identifier. */
  lemma ExtractPunctuationOnlyIsNone(query: string)
    requires forall i :: 0 <= i < |query| ==> IsPunct(query[i])
    ensures Extract(query) == None
  {
    StripAllPunctuation(query);
    assert Words(query) == [];
    assert LongestName([]) == "";
    assert Lower("") == "";
    AliasTableHasNoEmptyStrings();
    forall k | 0 <= k < |AliasTable|
      ensures !Contains("", AliasTable[k].0)
    {
      ContainsEmpty("", AliasTable[k].0);
    }
  }

  /** The stopword "what's" can never be one of the words: its apostrophe is
      stripped before splitting. */
  lemma WhatsIsNeverAWord(query: string)
    ensures "what's" !in Words(query)
  {
    var words := Words(query);
    forall i | 0 <= i < |words|
      ensures words[i] != "what's"
    {
      if |words[i]| > 4 {
        assert !IsPunct(words[i][4]);
      }
    }
  }
}
