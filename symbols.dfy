/** Trading-pair symbols built from a ticker: `TICKER` + quote asset. */
module Symbols {

  /** `str.upper` on one character, restricted to ASCII letters. */
  function UpperChar(c: char): (u: char)
  {
    if 'a' <= c <= 'z' then (c as int - ('a' as int - 'A' as int)) as char else c
  }

  /** `str.upper` on a string, restricted to ASCII letters. */
  function Upper(s: string): (r: string)
    ensures |r| == |s|
    ensures forall i :: 0 <= i < |s| ==> r[i] == UpperChar(s[i])
  {
    if s == [] then [] else [UpperChar(s[0])] + Upper(s[1..])
  }

  /** The Binance pair symbol: `'{}ETH'.format(ticker.upper())`. */
  function BinanceSymbol(ticker: string): (r: string)
  {
    Upper(ticker) + "ETH"
  }

  /** The EtherDelta pair symbol: `'{}-ETH'.format(ticker.upper())`. */
  function EtherDeltaSymbol(ticker: string): (r: string)
  {
    Upper(ticker) + "-ETH"
  }

  /** Upper-casing leaves no lower-case ASCII letter and is idempotent. */
  lemma UpperIsCanonical(s: string)
    ensures forall i :: 0 <= i < |Upper(s)| ==> !('a' <= Upper(s)[i] <= 'z')
    ensures Upper(Upper(s)) == Upper(s)
  {
    var u := Upper(s);
    forall i | 0 <= i < |u| ensures Upper(u)[i] == u[i] {
      assert u[i] == UpperChar(s[i]);
    }
  }

  /** Upper-casing changes only lower-case ASCII letters, each to its capital. */
  lemma UpperChangesOnlyLowercase(s: string)
    ensures forall i :: 0 <= i < |s| && !('a' <= s[i] <= 'z') ==> Upper(s)[i] == s[i]
    ensures forall i :: 0 <= i < |s| && 'a' <= s[i] <= 'z' ==> Upper(s)[i] as int == s[i] as int - 32
  {
  }

  /**
   * Each symbol is the upper-cased ticker followed by its quote suffix, so the
   * ticker is recovered, up to case, from the front of the symbol.
   */
  lemma SymbolShape(ticker: string)
    ensures |BinanceSymbol(ticker)| == |ticker| + 3
    ensures BinanceSymbol(ticker)[..|ticker|] == Upper(ticker) && BinanceSymbol(ticker)[|ticker|..] == "ETH"
    ensures |EtherDeltaSymbol(ticker)| == |ticker| + 4
    ensures EtherDeltaSymbol(ticker)[..|ticker|] == Upper(ticker) && EtherDeltaSymbol(ticker)[|ticker|..] == "-ETH"
  {
  }

  /** Two tickers give the same symbol exactly when they agree up to case. */
  lemma {:induction false} SymbolsAgreeUpToCase(t: string, u: string)
    ensures BinanceSymbol(t) == BinanceSymbol(u) <==> Upper(t) == Upper(u)
    ensures EtherDeltaSymbol(t) == EtherDeltaSymbol(u) <==> Upper(t) == Upper(u)
  {
    if BinanceSymbol(t) == BinanceSymbol(u) {
      SymbolShape(t);
      SymbolShape(u);
    }
    if EtherDeltaSymbol(t) == EtherDeltaSymbol(u) {
      SymbolShape(t);
      SymbolShape(u);
    }
  }
}
