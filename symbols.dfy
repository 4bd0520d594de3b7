/**
 * Parsing of the comma-separated `symbols` query parameter (line 28): split
 * on commas, strip and upper-case every piece, drop the blank ones.
 */
module Symbols {
  import opened Text

  /** A stripped, non-empty, upper-case token. */
  predicate IsToken(sym: string) {
    && sym != []
    && !IsSpace(sym[0])
    && !IsSpace(sym[|sym| - 1])
    && forall k :: 0 <= k < |sym| ==> !IsLowerAscii(sym[k])
  }

  /** What every parsed symbol looks like: a token without a comma in it. */
  predicate WellFormed(sym: string) {
    IsToken(sym) && ',' !in sym
  }

  /** The pieces of a comma split, stripped, upper-cased, empty ones dropped, in order. */
  function Clean(parts: seq<string>): (symbols: seq<string>)
    decreases |parts|
  {
    if parts == [] then []
    else
      CleanOne(parts[0]) + Clean(parts[1..])
  }

  /** What one piece contributes: nothing when it is blank, else its upper-cased strip. */
  function CleanOne(piece: string): (symbols: seq<string>)
  {
    var t := Strip(piece);
    if t == [] then [] else [Upper(t)]
  }

  /** Stripping and upper-casing a piece without a comma gives a well-formed symbol. */
  lemma CleanPiece(piece: string)
    requires ',' !in piece && Strip(piece) != []
    ensures WellFormed(Upper(Strip(piece)))
  {
    var t := Strip(piece);
    var u := Upper(t);
    var lo, hi := StripBounds(piece);
    assert t[0] == piece[lo] && t[|t| - 1] == piece[hi - 1];
    assert u[0] == UpperChar(t[0]) && u[|u| - 1] == UpperChar(t[|t| - 1]);
    forall k | 0 <= k < |t| ensures u[k] != ',' {
      assert t[k] == piece[lo + k];
    }
  }

  /** Every symbol cleaned from comma-free pieces is well formed. */
  lemma {:induction false} CleanWellFormed(parts: seq<string>)
    requires forall k :: 0 <= k < |parts| ==> ',' !in parts[k]
    ensures forall k :: 0 <= k < |Clean(parts)| ==> WellFormed(Clean(parts)[k])
    decreases |parts|
  {
    if parts != [] {
      CleanWellFormed(parts[1..]);
      if Strip(parts[0]) != [] {
        CleanPiece(parts[0]);
      }
    }
  }

  /** Line 28: the list of symbols the handler fetches, in request order. */
  function ParseSymbols(input: string): seq<string>
  {
    Clean(Split(input, ','))
  }

  /** Every parsed symbol is non-empty, stripped, upper-case and comma-free. */
  lemma ParseSymbolsWellFormed(input: string)
    ensures forall k :: 0 <= k < |ParseSymbols(input)| ==> WellFormed(ParseSymbols(input)[k])
  {
    CleanWellFormed(Split(input, ','));
  }

  lemma {:induction false} CleanConcat(p: seq<string>, q: seq<string>)
    ensures Clean(p + q) == Clean(p) + Clean(q)
    decreases |p|
  {
    if p == [] {
      assert p + q == q;
    } else {
      assert (p + q)[0] == p[0];
      assert (p + q)[1..] == p[1..] + q;
      CleanConcat(p[1..], q);
      calc {
        Clean(p + q);
        CleanOne(p[0]) + Clean(p[1..] + q);
        CleanOne(p[0]) + (Clean(p[1..]) + Clean(q));
        (CleanOne(p[0]) + Clean(p[1..])) + Clean(q);
      }
    }
  }

  /**
   * Order and duplicates are kept: the symbols of two comma-joined lists are
   * those of the first followed by those of the second.
   */
  lemma ParseSymbolsConcat(a: string, b: string)
    ensures ParseSymbols(a + [','] + b) == ParseSymbols(a) + ParseSymbols(b)
  {
    SplitConcat(a, b, ',');
    CleanConcat(Split(a, ','), Split(b, ','));
  }

  /** A leading comma or whitespace character never changes the parsed list. */
  lemma ParseSymbolsCons(c: char, s: string)
    ensures c == ',' || IsSpace(c) ==> ParseSymbols([c] + s) == ParseSymbols(s)
    ensures c != ',' && !IsSpace(c) ==> ParseSymbols([c] + s) != []
  {
    var r := Split(s, ',');
    assert ([c] + s)[1..] == s;
    if c == ',' {
      assert Split([c] + s, ',') == [[]] + r;
      assert ([[]] + r)[1..] == r;
    } else {
      var piece := [c] + r[0];
      assert Split([c] + s, ',') == [piece] + r[1..];
      assert ([piece] + r[1..])[1..] == r[1..];
      if IsSpace(c) {
        assert piece[1..] == r[0];
        assert Strip(piece) == Strip(r[0]);
        assert [r[0]] + r[1..] == r;
        assert ([r[0]] + r[1..])[1..] == r[1..];
      } else {
        StripEmpty(piece);
        assert !IsSpace(piece[0]);
      }
    }
  }

  /**
   * Lines 28-30: the parsed list is empty, and the request is refused, exactly
   * when the input holds nothing but commas and whitespace.
   */
  lemma {:induction false} ParseSymbolsEmpty(s: string)
    ensures ParseSymbols(s) == [] <==> forall k :: 0 <= k < |s| ==> s[k] == ',' || IsSpace(s[k])
    decreases |s|
  {
    if s != [] {
      ParseSymbolsEmpty(s[1..]);
      ParseSymbolsCons(s[0], s[1..]);
      assert [s[0]] + s[1..] == s;
      if s[0] == ',' || IsSpace(s[0]) {
        assert forall k :: 1 <= k < |s| ==> s[k] == s[1..][k - 1];
      }
    }
  }

  lemma {:induction false} CleanUnchanged(parts: seq<string>)
    requires forall k :: 0 <= k < |parts| ==> IsToken(parts[k])
    ensures Clean(parts) == parts
    decreases |parts|
  {
    if parts != [] {
      StripUnchanged(parts[0]);
      UpperUnchanged(parts[0]);
      CleanUnchanged(parts[1..]);
      assert [parts[0]] + parts[1..] == parts;
    }
  }

  /** Round trip: a comma-joined list of well-formed symbols parses back to that list. */
  lemma ParseJoinRoundTrip(symbols: seq<string>)
    requires forall k :: 0 <= k < |symbols| ==> WellFormed(symbols[k])
    ensures ParseSymbols(Join(symbols, ',')) == symbols
  {
    if symbols != [] {
      SplitJoin(symbols, ',');
      CleanUnchanged(symbols);
    }
  }

  /** A piece that is one symbol, possibly padded and in lower case, parses to that symbol. */
  lemma ParseSymbolsSingle(piece: string)
    requires ',' !in piece && Strip(piece) != []
    ensures ParseSymbols(piece) == [Upper(Strip(piece))]
  {
    SplitSingle(piece, ',');
    assert [piece][1..] == [];
    assert Clean([piece]) == CleanOne(piece) + Clean([]);
  }

  /** Duplicates are kept: a list given twice parses to its symbols twice. */
  lemma ParseSymbolsKeepsDuplicates(input: string)
    ensures ParseSymbols(input + [','] + input) == ParseSymbols(input) + ParseSymbols(input)
  {
    ParseSymbolsConcat(input, input);
  }

  /** Two commas split the input into three independently parsed parts. */
  lemma ParseSymbolsThree(a: string, m: string, u: string)
    ensures ParseSymbols(a + [','] + m + [','] + u) == ParseSymbols(a) + ParseSymbols(m) + ParseSymbols(u)
  {
    ParseSymbolsConcat(a + [','] + m, u);
    ParseSymbolsConcat(a, m);
  }

  /**
   * Line 28 on a mixed input: case is folded, padding removed, order and
   * duplicates kept.
   */
  lemma ParseSymbolsExample()
    ensures ParseSymbols("aapl, msft ,MSFT") == ["AAPL", "MSFT", "MSFT"]
  {
    var a, m, u := "aapl", " msft ", "MSFT";
    assert "aapl, msft ,MSFT" == a + [','] + m + [','] + u;
    CleanedLower(a);
    CleanedPadded(m);
    CleanedUpper(u);
    ParseSymbolsThreePieces(a, m, u);
  }

  /** Three comma-free, non-blank pieces parse to their three cleaned forms, in order. */
  lemma ParseSymbolsThreePieces(a: string, m: string, u: string)
    requires ',' !in a && ',' !in m && ',' !in u
    requires Strip(a) != [] && Strip(m) != [] && Strip(u) != []
    ensures ParseSymbols(a + [','] + m + [','] + u) == [Upper(Strip(a)), Upper(Strip(m)), Upper(Strip(u))]
  {
    ParseSymbolsThree(a, m, u);
    ParseSymbolsSingle(a);
    ParseSymbolsSingle(m);
    ParseSymbolsSingle(u);
  }

  /** The first piece of the example is already stripped and only needs upper-casing. */
  lemma CleanedLower(a: string)
    requires a == "aapl"
    ensures ',' !in a && Strip(a) != [] && Upper(Strip(a)) == "AAPL"
  {
    StripUnchanged(a);
    assert Upper(a) == "AAPL";
  }

  /** The second piece of the example loses one space on each side. */
  lemma CleanedPadded(m: string)
    requires m == " msft "
    ensures ',' !in m && Strip(m) != [] && Upper(Strip(m)) == "MSFT"
  {
    assert m == [' '] + "msft" + [' '];
    StripPadded(' ', "msft", ' ');
    assert Upper("msft") == "MSFT";
  }

  /** The third piece of the example is already clean. */
  lemma CleanedUpper(u: string)
    requires u == "MSFT"
    ensures ',' !in u && Strip(u) != [] && Upper(Strip(u)) == "MSFT"
  {
    StripUnchanged(u);
    UpperUnchanged(u);
  }
}
