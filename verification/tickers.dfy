/**
 * The dashboard's ticker list and selection: React state that the page replaces
 * step by step. Entering a ticker appends its normalised form when it is new; after
 * every change of the list the selection is kept if still listed and otherwise falls
 * back to the first ticker.
 */
module Tickers {

  import opened Options
  import opened Text

  const DefaultTickers: seq<string> := ["AAPL", "MSFT", "NVDA", "AMZN", "META", "TSLA"]

  predicate NoDuplicates(s: seq<string>) {
    forall i, j :: 0 <= i < j < |s| ==> s[i] != s[j]
  }

  /** `value.trim().toUpperCase()` */
  function NormaliseTicker(input: string): (v: string)
    ensures |v| <= |input|
    ensures v == [] || (!IsTrimmable(v[0]) && !IsTrimmable(v[|v| - 1]))
    ensures forall i :: 0 <= i < |v| ==> !IsAsciiLower(v[i])
  {
    ToUpper(Trim(input))
  }

  /** Surrounding whitespace is dropped and letters are capitalised; other characters
      are kept: " sap.de " is entered as "SAP.DE". */
  lemma NormaliseExample()
    ensures NormaliseTicker(" sap.de\t") == "SAP.DE"
  {
    var s := " sap.de\t";
    assert IsTrimmable(s[0]) && !IsTrimmable(s[1]);
    assert TrimStart(s[1..]) == s[1..];
    assert TrimStart(s) == "sap.de\t";
    var t := "sap.de\t";
    assert t[..|t| - 1] == "sap.de";
    assert IsTrimmable(t[|t| - 1]) && !IsTrimmable('e');
    assert TrimEnd("sap.de") == "sap.de";
    assert Trim(s) == "sap.de";
    var u := ToUpper("sap.de");
    assert u[0] == 'S' && u[1] == 'A' && u[2] == 'P' && u[3] == '.' && u[4] == 'D' && u[5] == 'E';
  }

  /** Entering an already normalised ticker normalises to itself. */
  lemma NormaliseIdempotent(input: string)
    ensures NormaliseTicker(NormaliseTicker(input)) == NormaliseTicker(input)
  {
    var v := NormaliseTicker(input);
    TrimOfTrimmed(v);
    ToUpperIdempotent(Trim(input));
  }

  /** The list after Enter: the normalised value is appended when it is non-empty and
      not yet listed, and the list is otherwise left as it was. */
  function WithTicker(tickers: seq<string>, input: string): (r: seq<string>)
    ensures |tickers| <= |r| <= |tickers| + 1
    ensures r[..|tickers|] == tickers
    ensures NoDuplicates(tickers) ==> NoDuplicates(r)
  {
    var v := NormaliseTicker(input);
    if v != "" && v !in tickers then tickers + [v] else tickers
  }

  /** A ticker is added exactly when its normalised form is non-empty and new, and the
      one added is that normalised form. */
  lemma WithTickerAdds(tickers: seq<string>, input: string)
    ensures var v := NormaliseTicker(input);
            && (|WithTicker(tickers, input)| == |tickers| + 1 <==> v != "" && v !in tickers)
            && (|WithTicker(tickers, input)| == |tickers| + 1 ==> WithTicker(tickers, input)[|tickers|] == v)
            && (v != "" ==> v in WithTicker(tickers, input))
  {
  }

  /** Entering the same text twice adds it at most once. */
  lemma WithTickerTwice(tickers: seq<string>, input: string)
    ensures WithTicker(WithTicker(tickers, input), input) == WithTicker(tickers, input)
  {
    var v := NormaliseTicker(input);
    if v != "" && v !in tickers {
      assert (tickers + [v])[|tickers|] == v;
    }
  }

  /** The effect on `tickers`: keep the previous selection if it is still listed,
      otherwise take the first ticker (undefined for an empty list). */
  function Reselect(tickers: seq<string>, prev: string): (r: Option<string>)
    ensures prev in tickers ==> r == Some(prev)
    ensures prev !in tickers && tickers != [] ==> r == Some(tickers[0])
    ensures r.Some? ==> r.value in tickers
    ensures r.None? <==> tickers == []
  {
    if prev in tickers then Some(prev)
    else if |tickers| > 0 then Some(tickers[0])
    else None
  }

  class TickerBoard {
    var tickers: seq<string>
    var selected: string

    ghost predicate Valid()
      reads this
    {
      tickers != [] && NoDuplicates(tickers) && selected in tickers
    }

    /** The initial state: the default list, the first of it selected. */
    constructor ()
      ensures Valid()
      ensures tickers == DefaultTickers && selected == DefaultTickers[0]
    {
      tickers := DefaultTickers;
      selected := DefaultTickers[0];
    }

    /** Enter in the ticker field, then the selection effect the list change triggers. */
    method AddTicker(input: string)
      requires Valid()
      modifies this
      ensures Valid()
      ensures tickers == WithTicker(old(tickers), input)
      ensures selected == old(selected)
    {
      var v := NormaliseTicker(input);
      if v != "" && v !in tickers {
        tickers := tickers + [v];
      }
      var next := Reselect(tickers, selected);
      selected := next.value;
    }

    /** A click on a listed ticker. */
    method Select(t: string)
      requires Valid()
      requires t in tickers
      modifies this
      ensures Valid()
      ensures selected == t && tickers == old(tickers)
    {
      selected := t;
    }
  }
}
