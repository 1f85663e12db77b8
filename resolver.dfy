/** The catalog resolution block of the assistant's main loop (main.py),
    lifted out as a procedure from an extracted term and the session's coin
    catalog to the pair (target identifier for the providers, name for the
    news search).  `Resolution` is the specification; `Resolve` is the
    source's `for`/`break` loop, proved to compute it. */
module Resolver {
  import opened Text
  import opened Records

  /** The two tests made on one catalog entry, symbol first: the uppercased
      term equals the uppercased symbol, or the lowercased term equals the
      lowercased name.  Both are equality up to case. */
  predicate Matches(term: string, entry: CoinRef)
  {
    Upper(term) == Upper(entry.symbol) || Lower(term) == Lower(entry.name)
  }

  /** An entry matches exactly when the term equals its symbol or its name
      up to case. */
  lemma MatchesIgnoringCase(term: string, entry: CoinRef)
    ensures Matches(term, entry) <==>
              SameIgnoringCase(term, entry.symbol) || SameIgnoringCase(term, entry.name)
  {
    CaseFoldedEquality(term, entry.symbol);
    CaseFoldedEquality(term, entry.name);
  }

  /** The index of the first catalog entry the term matches. */
  function FirstMatch(term: string, catalog: seq<CoinRef>): (r: Option<nat>)
    ensures r.Some? ==> r.value < |catalog| && Matches(term, catalog[r.value])
    ensures r.Some? ==> forall j :: 0 <= j < r.value ==> !Matches(term, catalog[j])
    ensures r.None? <==> forall j :: 0 <= j < |catalog| ==> !Matches(term, catalog[j])
  {
    if catalog == [] then None
    else if Matches(term, catalog[0]) then Some(0)
    else
      match FirstMatch(term, catalog[1..])
      case None => None
      case Some(i) =>
        assert forall j :: 1 <= j < i + 1 ==> catalog[j] == catalog[1..][j - 1];
        Some(i + 1)
  }

  /** A first match is determined by its index. */
  lemma FirstMatchAt(term: string, catalog: seq<CoinRef>, i: nat)
    requires i < |catalog| && Matches(term, catalog[i])
    requires forall j :: 0 <= j < i ==> !Matches(term, catalog[j])
    ensures FirstMatch(term, catalog) == Some(i)
  {
  }

  /** `target_symbol_for_api` and `resolved_coin_name` after the block. */
  datatype Resolved = Resolved(target: string, newsName: string)

  /** What the block computes: the symbol and name of the first matching
      entry; the term twice when no entry matches, or when the first
      matching entry's symbol is empty (an empty symbol is falsy, so the
      block then takes its fallback, which overwrites the name too).  So the
      result is the term twice, or the non-empty symbol and the name of the
      first entry the term matches. */
  function Resolution(term: string, catalog: seq<CoinRef>): (r: Resolved)
    ensures r == Resolved(term, term) ||
            exists i :: 0 <= i < |catalog| && Matches(term, catalog[i]) &&
                        (forall j :: 0 <= j < i ==> !Matches(term, catalog[j])) &&
                        catalog[i].symbol != "" && r == Resolved(catalog[i].symbol, catalog[i].name)
  {
    match FirstMatch(term, catalog)
    case Some(i) =>
      if catalog[i].symbol != "" then Resolved(catalog[i].symbol, catalog[i].name)
      else Resolved(term, term)
    case None => Resolved(term, term)
  }

  /** The block as the source writes it: a loop over the catalog that stops
      at the first entry matching by symbol or by name, then the fallback
      when no truthy symbol was found. */
  method Resolve(term: string, catalog: seq<CoinRef>) returns (target: string, newsName: string)
    ensures Resolved(target, newsName) == Resolution(term, catalog)
  {
    var found: Option<string> := None;
    newsName := term;
    var i := 0;
    while i < |catalog|
      invariant 0 <= i <= |catalog|
      invariant forall j :: 0 <= j < i ==> !Matches(term, catalog[j])
      invariant found == None && newsName == term
    {
      if Upper(term) == Upper(catalog[i].symbol) {
        found := Some(catalog[i].symbol);
        newsName := catalog[i].name;
        FirstMatchAt(term, catalog, i);
        break;
      }
      if Lower(term) == Lower(catalog[i].name) {
        found := Some(catalog[i].symbol);
        newsName := catalog[i].name;
        FirstMatchAt(term, catalog, i);
        break;
      }
      i := i + 1;
    }
    if found == None || found == Some("") {
      if IsUpper(term) && 1 < |term| < 7 {
        // Taken as a ticker the catalog does not list.
        target := term;
        newsName := term;
      } else {
        // Passed on as a name.
        target := term;
        newsName := term;
      }
    } else {
      target := found.value;
    }
  }

  // ---------------------------------------------------------------------
  // Properties of the resolver

  /** The first entry matching by symbol or by name wins, in catalog order,
      even when a later entry would match by symbol. */
  lemma ResolveFirstEntryWins(term: string, catalog: seq<CoinRef>, i: nat)
    requires i < |catalog| && Matches(term, catalog[i]) && catalog[i].symbol != ""
    requires forall j :: 0 <= j < i ==> !Matches(term, catalog[j])
    ensures Resolution(term, catalog) == Resolved(catalog[i].symbol, catalog[i].name)
  {
    FirstMatchAt(term, catalog, i);
  }

  /** Without a matching entry the result is the term twice, whether or not
      the term looks like a ticker. */
  lemma ResolveUnmatched(term: string, catalog: seq<CoinRef>)
    requires forall j :: 0 <= j < |catalog| ==> !Matches(term, catalog[j])
    ensures Resolution(term, catalog) == Resolved(term, term)
  {
  }

  /** A first matching entry with an empty symbol makes the block fall back
      to the term, even when a later entry matches with a real symbol. */
  lemma ResolveEmptySymbolFallsBack(term: string, catalog: seq<CoinRef>, i: nat)
    requires i < |catalog| && Matches(term, catalog[i]) && catalog[i].symbol == ""
    requires forall j :: 0 <= j < i ==> !Matches(term, catalog[j])
    ensures Resolution(term, catalog) == Resolved(term, term)
  {
    FirstMatchAt(term, catalog, i);
  }

  /** Catalog symbols are distinct ignoring case, and no entry's name equals
      another entry's symbol ignoring case. */
  predicate Unambiguous(catalog: seq<CoinRef>)
  {
    forall j, k :: 0 <= j < |catalog| && 0 <= k < |catalog| && j != k ==>
      Upper(catalog[j].symbol) != Upper(catalog[k].symbol) &&
      Lower(catalog[j].name) != Lower(catalog[k].symbol)
  }

  /** On an unambiguous catalog, resolving the resolved target again gives
      the same result. */
  lemma ResolveIdempotent(term: string, catalog: seq<CoinRef>)
    requires Unambiguous(catalog)
    ensures Resolution(Resolution(term, catalog).target, catalog) == Resolution(term, catalog)
  {
    var m := FirstMatch(term, catalog);
    if m.Some? && catalog[m.value].symbol != "" {
      var i := m.value;
      var s := catalog[i].symbol;
      forall j | 0 <= j < i
        ensures !Matches(s, catalog[j])
      {
        assert Upper(catalog[j].symbol) != Upper(catalog[i].symbol);
        assert Lower(catalog[j].name) != Lower(catalog[i].symbol);
      }
      ResolveFirstEntryWins(s, catalog, i);
    }
  }

  /** Without that hypothesis re-resolution can move: a name equal to another
      entry's symbol sends the returned symbol to a different entry. */
  lemma ResolveNotIdempotentInGeneral()
    ensures var catalog := [CoinRef("b", "A", Missing), CoinRef("C", "B", Missing)];
            Resolution("c", catalog) == Resolved("B", "C") &&
            Resolution("B", catalog) == Resolved("A", "b")
  {
    var catalog := [CoinRef("b", "A", Missing), CoinRef("C", "B", Missing)];
    assert Upper("c") == "C" && Upper("A") == "A" && Upper("B") == "B";
    assert Lower("c") == "c" && Lower("b") == "b" && Lower("C") == "c" && Lower("B") == "b";
    assert !Matches("c", catalog[0]) && Matches("c", catalog[1]);
    FirstMatchAt("c", catalog, 1);
    FirstMatchAt("B", catalog, 0);
  }
}
