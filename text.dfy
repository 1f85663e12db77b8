/** ASCII models of the Python `str` operations the assistant relies on:
    `lower()`, `upper()`, `isupper()`, `islower()`, `istitle()`, `split()`,
    `sep.join(parts)`, `translate` with `string.punctuation` removed, and the
    substring test `pat in text`.  Only ASCII letters are cased; every other
    character is uncased. */
module Text {

  predicate IsUpperChar(c: char) { 'A' <= c <= 'Z' }
  predicate IsLowerChar(c: char) { 'a' <= c <= 'z' }
  predicate IsCasedChar(c: char) { IsUpperChar(c) || IsLowerChar(c) }

  /** The ASCII characters `str.split()` treats as whitespace:
      tab, line feed, vertical tab, form feed, carriage return,
      the four information separators 0x1C-0x1F, and space. */
  predicate IsSpace(c: char) {
    var n := c as int;
    n == 32 || 9 <= n <= 13 || 28 <= n <= 31
  }

  /** `string.punctuation`, in its own order. */
  const Punctuation: string := "!\"#$%&'()*+,-./:;<=>?@[\\]^_`{|}~"

  predicate IsPunct(c: char) { c in Punctuation }

  /** `string.punctuation` is exactly the 32 printable ASCII characters that
      are neither letters, digits nor space. */
  lemma PunctuationIsAsciiSymbols(c: char)
    ensures |Punctuation| == 32
    ensures IsPunct(c) <==> (33 <= c as int <= 47 || 58 <= c as int <= 64 || 91 <= c as int <= 96 || 123 <= c as int <= 126)
  {
  }

  /** The ASCII lowercase of one character: an uppercase letter moves 32
      code points down to its lowercase letter; anything else is unchanged. */
  function LowerChar(c: char): (r: char)
    ensures IsUpperChar(c) ==> IsLowerChar(r) && r as int == c as int + 32
    ensures !IsUpperChar(c) ==> r == c
    ensures !IsUpperChar(r)
  {
    if IsUpperChar(c) then (c as int + 32) as char else c
  }

  /** The ASCII uppercase of one character. */
  function UpperChar(c: char): (r: char)
    ensures IsLowerChar(c) ==> IsUpperChar(r) && r as int == c as int - 32
    ensures !IsLowerChar(c) ==> r == c
    ensures !IsLowerChar(r)
  {
    if IsLowerChar(c) then (c as int - 32) as char else c
  }

  /** `s.lower()`: each character lowercased, in place. */
  function Lower(s: string): (r: string)
    ensures |r| == |s|
    ensures forall i :: 0 <= i < |s| ==> r[i] == LowerChar(s[i])
    ensures forall i :: 0 <= i < |r| ==> !IsUpperChar(r[i])
  {
    if s == [] then [] else [LowerChar(s[0])] + Lower(s[1..])
  }

  /** `s.upper()`: each character uppercased, in place. */
  function Upper(s: string): (r: string)
    ensures |r| == |s|
    ensures forall i :: 0 <= i < |s| ==> r[i] == UpperChar(s[i])
    ensures forall i :: 0 <= i < |r| ==> !IsLowerChar(r[i])
  {
    if s == [] then [] else [UpperChar(s[0])] + Upper(s[1..])
  }

  /** Two strings are equal up to ASCII case. */
  predicate SameIgnoringCase(a: string, b: string)
  {
    |a| == |b| && forall i :: 0 <= i < |a| ==> LowerChar(a[i]) == LowerChar(b[i])
  }

  /** Two characters have the same uppercase exactly when they have the
      same lowercase. */
  lemma CaseFoldedChar(x: char, y: char)
    ensures UpperChar(x) == UpperChar(y) <==> LowerChar(x) == LowerChar(y)
  {
  }

  /** Comparing uppercased strings and comparing lowercased strings are both
      comparison up to case. */
  lemma CaseFoldedEquality(a: string, b: string)
    ensures Upper(a) == Upper(b) <==> SameIgnoringCase(a, b)
    ensures Lower(a) == Lower(b) <==> SameIgnoringCase(a, b)
  {
    if |a| == |b| {
      forall i | 0 <= i < |a|
        ensures Upper(a)[i] == Upper(b)[i] <==> LowerChar(a[i]) == LowerChar(b[i])
      {
        CaseFoldedChar(a[i], b[i]);
      }
      if SameIgnoringCase(a, b) {
        assert Upper(a) == Upper(b);
        assert Lower(a) == Lower(b);
      }
    }
  }

  predicate HasCased(s: string) { s != [] && (IsCasedChar(s[0]) || HasCased(s[1..])) }
  predicate HasUpper(s: string) { s != [] && (IsUpperChar(s[0]) || HasUpper(s[1..])) }
  predicate HasLower(s: string) { s != [] && (IsLowerChar(s[0]) || HasLower(s[1..])) }

  /** The recursive tests agree with their positional meaning. */
  lemma {:induction false} HasCharAt(s: string)
    ensures HasCased(s) <==> exists i :: 0 <= i < |s| && IsCasedChar(s[i])
    ensures HasUpper(s) <==> exists i :: 0 <= i < |s| && IsUpperChar(s[i])
    ensures HasLower(s) <==> exists i :: 0 <= i < |s| && IsLowerChar(s[i])
  {
    if s != [] {
      HasCharAt(s[1..]);
      assert forall i :: 0 < i < |s| ==> s[i] == s[1..][i - 1];
      assert forall i :: 0 <= i < |s| - 1 ==> s[1..][i] == s[i + 1];
    }
  }

  /** `s.isupper()` */
  predicate IsUpper(s: string) { HasCased(s) && !HasLower(s) }

  /** `s.islower()` */
  predicate IsLower(s: string) { HasCased(s) && !HasUpper(s) }

  /** `isupper()` holds exactly when some character is cased and none is a
      lowercase letter; `islower()` exactly when some character is cased and
      none is an uppercase letter. */
  lemma IsUpperIsLowerChars(s: string)
    ensures IsUpper(s) <==>
              (exists i :: 0 <= i < |s| && IsCasedChar(s[i])) && forall i :: 0 <= i < |s| ==> !IsLowerChar(s[i])
    ensures IsLower(s) <==>
              (exists i :: 0 <= i < |s| && IsCasedChar(s[i])) && forall i :: 0 <= i < |s| ==> !IsUpperChar(s[i])
  {
    HasCharAt(s);
  }

  /** The scan behind `s.istitle()`: an uppercase character may only follow an
      uncased one (or the start), a lowercase one only a cased one, and at least
      one cased character must occur. */
  predicate TitleScan(s: string, previousCased: bool, sawCased: bool)
  {
    if s == [] then sawCased
    else if IsUpperChar(s[0]) then !previousCased && TitleScan(s[1..], true, true)
    else if IsLowerChar(s[0]) then previousCased && TitleScan(s[1..], true, true)
    else TitleScan(s[1..], false, sawCased)
  }

  /** Position `i` of `s` obeys the title-case rule: an uppercase letter does
      not follow a cased character, and a lowercase letter does. */
  predicate TitleCaseAt(s: string, i: int)
    requires 0 <= i < |s|
  {
    && (IsUpperChar(s[i]) ==> i == 0 || !IsCasedChar(s[i - 1]))
    && (IsLowerChar(s[i]) ==> i > 0 && IsCasedChar(s[i - 1]))
  }

  /** The scan checks the rule at every position after the first, and at the
      first against the case of what preceded it. */
  lemma {:induction false} TitleScanChars(s: string, previousCased: bool, sawCased: bool)
    ensures TitleScan(s, previousCased, sawCased) <==>
              && (sawCased || HasCased(s))
              && (s != [] ==> (IsUpperChar(s[0]) ==> !previousCased) && (IsLowerChar(s[0]) ==> previousCased))
              && forall i :: 0 < i < |s| ==> TitleCaseAt(s, i)
  {
    if s != [] {
      var t := s[1..];
      var cased := IsCasedChar(s[0]);
      var saw := if cased then true else sawCased;
      TitleScanChars(t, cased, saw);
      assert TitleScan(s, previousCased, sawCased) <==>
               (IsUpperChar(s[0]) ==> !previousCased) && (IsLowerChar(s[0]) ==> previousCased) &&
               TitleScan(t, cased, saw);
      assert HasCased(s) <==> cased || HasCased(t);
      forall j | 0 < j < |t|
        ensures TitleCaseAt(s, j + 1) <==> TitleCaseAt(t, j)
      {
        assert s[j + 1] == t[j] && s[j] == t[j - 1];
      }
      if t != [] {
        assert s[1] == t[0];
        assert TitleCaseAt(s, 1) <==> (IsUpperChar(t[0]) ==> !cased) && (IsLowerChar(t[0]) ==> cased);
      }
      if forall i :: 0 < i < |s| ==> TitleCaseAt(s, i) {
        forall j | 0 < j < |t| ensures TitleCaseAt(t, j) {
          assert TitleCaseAt(s, j + 1);
        }
      }
      if (t != [] ==> TitleCaseAt(s, 1)) && forall j :: 0 < j < |t| ==> TitleCaseAt(t, j) {
        forall i | 0 < i < |s| ensures TitleCaseAt(s, i) {
          if i > 1 {
            assert TitleCaseAt(t, i - 1);
          }
        }
      }
    }
  }

  /** `s.istitle()` */
  predicate IsTitle(s: string) { TitleScan(s, false, false) }

  /** `istitle()` holds exactly when some character is cased and every
      position obeys the title-case rule. */
  lemma IsTitleChars(s: string)
    ensures IsTitle(s) <==>
              (exists i :: 0 <= i < |s| && IsCasedChar(s[i])) && forall i :: 0 <= i < |s| ==> TitleCaseAt(s, i)
  {
    TitleScanChars(s, false, false);
    HasCharAt(s);
    assert s != [] ==> (TitleCaseAt(s, 0) <==> !IsLowerChar(s[0]));
  }

  lemma {:induction false} CasedWithoutUpperHasLower(s: string)
    requires HasCased(s) && !HasUpper(s)
    ensures HasLower(s)
  {
    if !IsCasedChar(s[0]) {
      CasedWithoutUpperHasLower(s[1..]);
    }
  }

  lemma {:induction false} TitleScanWithoutUpper(s: string, sawCased: bool)
    requires !HasUpper(s)
    ensures TitleScan(s, false, sawCased) == (sawCased && !HasCased(s))
  {
    if s != [] && !IsCasedChar(s[0]) {
      TitleScanWithoutUpper(s[1..], sawCased);
    }
  }

  /** A lowercase word is neither title-case nor uppercase. */
  lemma LowerIsNeitherTitleNorUpper(s: string)
    ensures IsLower(s) ==> !IsTitle(s) && !IsUpper(s)
  {
    if IsLower(s) {
      CasedWithoutUpperHasLower(s);
      TitleScanWithoutUpper(s, false);
    }
  }

  /** Title-case and uppercase words are never empty. */
  lemma TitleOrUpperIsNonEmpty(s: string)
    requires IsTitle(s) || IsUpper(s)
    ensures s != []
  {
  }

  /** Length of the leading run of non-whitespace characters. */
  function TokenLength(s: string): (n: nat)
    ensures n <= |s|
    ensures forall i :: 0 <= i < n ==> !IsSpace(s[i])
    ensures n == |s| || IsSpace(s[n])
  {
    if s == [] || IsSpace(s[0]) then 0 else 1 + TokenLength(s[1..])
  }

  /** `s.split()`: the maximal runs of non-whitespace characters, in order. */
  function Split(s: string): (r: seq<string>)
    ensures forall i :: 0 <= i < |r| ==> r[i] != []
    ensures forall i, j :: 0 <= i < |r| && 0 <= j < |r[i]| ==> !IsSpace(r[i][j]) && r[i][j] in s
    decreases |s|
  {
    if s == [] then []
    else if IsSpace(s[0]) then
      var r := Split(s[1..]);
      assert forall i, j :: 0 <= i < |r| && 0 <= j < |r[i]| ==> r[i][j] in s by {
        forall i, j | 0 <= i < |r| && 0 <= j < |r[i]| ensures r[i][j] in s {
          var k :| 0 <= k < |s[1..]| && s[1..][k] == r[i][j];
          assert s[k + 1] == r[i][j];
        }
      }
      r
    else
      var n := TokenLength(s);
      var rest := Split(s[n..]);
      var r := [s[..n]] + rest;
      assert forall i, j :: 0 <= i < |r| && 0 <= j < |r[i]| ==> r[i][j] in s by {
        forall i, j | 0 <= i < |r| && 0 <= j < |r[i]| ensures r[i][j] in s {
          if i == 0 {
            assert s[j] == r[i][j];
          } else {
            assert r[i] == rest[i - 1];
            var k :| 0 <= k < |s[n..]| && s[n..][k] == r[i][j];
            assert s[n + k] == r[i][j];
          }
        }
      }
      r
  }

  /** A separator ends the leading token. */
  lemma {:induction false} TokenLengthBeforeSpace(a: string, c: char, b: string)
    requires IsSpace(c)
    ensures TokenLength(a + [c] + b) == TokenLength(a)
  {
    if a != [] {
      assert (a + [c] + b)[1..] == a[1..] + [c] + b;
      TokenLengthBeforeSpace(a[1..], c, b);
    }
  }

  /** A non-empty string without whitespace splits into itself. */
  lemma SplitWord(w: string)
    requires w != [] && forall i :: 0 <= i < |w| ==> !IsSpace(w[i])
    ensures Split(w) == [w]
  {
    var n := TokenLength(w);
    assert n == |w|;
    assert w[..n] == w;
    assert w[n..] == [];
  }

  /** Splitting at a whitespace character splits each side on its own: with
      `SplitWord` and `Split("") == []`, this determines the result for every
      string. */
  lemma {:induction false} SplitAtSpace(a: string, c: char, b: string)
    requires IsSpace(c)
    ensures Split(a + [c] + b) == Split(a) + Split(b)
    decreases |a|
  {
    var s := a + [c] + b;
    if a == [] {
      assert s[1..] == b;
    } else if IsSpace(a[0]) {
      assert s[1..] == a[1..] + [c] + b;
      SplitAtSpace(a[1..], c, b);
    } else {
      var n := TokenLength(a);
      TokenLengthBeforeSpace(a, c, b);
      assert s[..n] == a[..n];
      assert s[n..] == a[n..] + [c] + b;
      SplitAtSpace(a[n..], c, b);
    }
  }

  /** `sep.join(parts)` */
  function Join(sep: string, parts: seq<string>): (r: string)
    ensures |parts| > 0 ==> |r| >= |parts[0]|
  {
    if |parts| == 0 then ""
    else if |parts| == 1 then parts[0]
    else parts[0] + sep + Join(sep, parts[1..])
  }

  /** Joining two non-empty lists of parts is joining each and putting the
      separator between them. */
  lemma {:induction false} JoinAppend(sep: string, a: seq<string>, b: seq<string>)
    requires a != [] && b != []
    ensures Join(sep, a + b) == Join(sep, a) + sep + Join(sep, b)
  {
    if |a| == 1 {
      assert a + b == [a[0]] + b;
      assert (a + b)[1..] == b;
    } else {
      JoinAppend(sep, a[1..], b);
      assert (a + b)[1..] == a[1..] + b;
    }
  }

  lemma JoinTwo(sep: string, a: string, b: string)
    ensures Join(sep, [a, b]) == a + sep + b
  {
    assert [a, b][1..] == [b];
  }

  lemma JoinThree(sep: string, a: string, b: string, c: string)
    ensures Join(sep, [a, b, c]) == a + sep + b + sep + c
  {
    assert [a, b, c][1..] == [b, c];
    JoinTwo(sep, b, c);
  }

  /** Joining three leading parts, a non-empty middle and two trailing parts
      puts the separator between each neighbouring pair. */
  lemma JoinFramed(sep: string, a: string, b: string, c: string, middle: seq<string>, d: string, e: string)
    requires middle != []
    ensures Join(sep, [a, b, c] + middle + [d, e]) ==
              a + sep + b + sep + c + sep + Join(sep, middle) + sep + d + sep + e
  {
    var head := [a, b, c];
    var tail := [d, e];
    assert [a, b, c] + middle + [d, e] == head + (middle + tail);
    JoinAppend(sep, head, middle + tail);
    JoinAppend(sep, middle, tail);
    JoinThree(sep, a, b, c);
    JoinTwo(sep, d, e);
  }

  predicate NoPunctuation(s: string) { forall i :: 0 <= i < |s| ==> !IsPunct(s[i]) }

  /** `s.translate(str.maketrans('', '', string.punctuation))`: every
      punctuation character removed, the rest kept in order. */
  function StripPunctuation(s: string): (r: string)
    ensures NoPunctuation(r)
    ensures |r| <= |s|
  {
    if s == [] then []
    else if IsPunct(s[0]) then StripPunctuation(s[1..])
    else [s[0]] + StripPunctuation(s[1..])
  }

  /** Stripping one character removes it exactly when it is punctuation. */
  lemma StripPunctuationChar(c: char)
    ensures StripPunctuation([c]) == if IsPunct(c) then "" else [c]
  {
    assert [c][1..] == [];
  }

  /** Stripping distributes over concatenation: with `StripPunctuationChar`,
      this says every non-punctuation character is kept, in order. */
  lemma {:induction false} StripPunctuationAppend(a: string, b: string)
    ensures StripPunctuation(a + b) == StripPunctuation(a) + StripPunctuation(b)
  {
    if a == [] {
      assert a + b == b;
    } else {
      assert (a + b)[0] == a[0];
      assert (a + b)[1..] == a[1..] + b;
      StripPunctuationAppend(a[1..], b);
    }
  }

  lemma {:induction false} StripPunctuationKeepsClean(s: string)
    requires NoPunctuation(s)
    ensures StripPunctuation(s) == s
  {
    if s != [] {
      StripPunctuationKeepsClean(s[1..]);
    }
  }

  /** Stripping punctuation twice is stripping it once. */
  lemma StripPunctuationIdempotent(s: string)
    ensures StripPunctuation(StripPunctuation(s)) == StripPunctuation(s)
  {
    StripPunctuationKeepsClean(StripPunctuation(s));
  }

  /** A string made only of punctuation strips to the empty string. */
  lemma {:induction false} StripAllPunctuation(s: string)
    requires forall i :: 0 <= i < |s| ==> IsPunct(s[i])
    ensures StripPunctuation(s) == ""
  {
    if s != [] {
      StripAllPunctuation(s[1..]);
    }
  }

  predicate StartsWith(text: string, pat: string) { |pat| <= |text| && text[..|pat|] == pat }

  /** `pat in text` for strings: `pat` occurs in `text` at some position. */
  predicate Contains(text: string, pat: string)
    decreases |text|
  {
    StartsWith(text, pat) || (text != [] && Contains(text[1..], pat))
  }

  /** `Contains` holds exactly when some slice of `text` equals `pat`. */
  lemma {:induction false} ContainsAt(text: string, pat: string)
    ensures Contains(text, pat) <==> exists i :: 0 <= i && i + |pat| <= |text| && text[i..][..|pat|] == pat
  {
    if StartsWith(text, pat) {
      assert text[0..][..|pat|] == pat;
    } else if text != [] {
      ContainsAt(text[1..], pat);
      if Contains(text[1..], pat) {
        var i :| 0 <= i && i + |pat| <= |text[1..]| && text[1..][i..][..|pat|] == pat;
        assert text[i + 1..] == text[1..][i..];
      }
      if exists i :: 0 <= i && i + |pat| <= |text| && text[i..][..|pat|] == pat {
        var i :| 0 <= i && i + |pat| <= |text| && text[i..][..|pat|] == pat;
        assert text[1..][i - 1..] == text[i..];
      }
    }
  }

  /** The empty string contains only the empty string, and every string
      contains the empty string. */
  lemma ContainsEmpty(text: string, pat: string)
    ensures Contains(text, "")
    ensures Contains("", pat) <==> pat == ""
  {
  }
}
