/**
 * The two derived configuration values (shared/config.py): the list of
 * symbols parsed from the comma-separated setting, and whether trading
 * is live. Reading the environment is not modelled.
 */
module Config {
  import opened Common
  import opened Text

  /** The trading mode when none is configured. */
  const DefaultTradingMode: string := "paper"

  /** `is_live`: exactly the text "live"; no case folding or trimming. */
  predicate IsLive(tradingMode: string) {
    tradingMode == "live"
  }

  lemma {:induction false} DefaultIsPaper()
    ensures !IsLive(DefaultTradingMode)
  {
  }

  /** A usable list element: non-empty and without surrounding whitespace. */
  predicate IsSymbolText(x: string) {
    |x| > 0 && !IsSpace(x[0]) && !IsSpace(x[|x| - 1])
  }

  /** Such an element is left unchanged by stripping. */
  lemma {:induction false} SymbolTextStripped(x: string)
    requires IsSymbolText(x)
    ensures Strip(x) == x
  {
    StripOfTrimmed(x);
  }

  /** Every piece's stripped text, in order. */
  function StripAll(parts: seq<string>): (r: seq<string>)
    ensures |r| == |parts|
    ensures forall i :: 0 <= i < |r| ==> r[i] == Strip(parts[i])
  {
    seq(|parts|, i requires 0 <= i < |parts| => Strip(parts[i]))
  }

  /** The non-empty texts, in order. */
  function DropEmpty(xs: seq<string>): (r: seq<string>)
    ensures |r| <= |xs|
    decreases |xs|
  {
    if |xs| == 0 then []
    else if |xs[0]| == 0 then DropEmpty(xs[1..])
    else [xs[0]] + DropEmpty(xs[1..])
  }

  /** Every kept text is one of the inputs, and none is empty. */
  lemma {:induction false} DropEmptyKeeps(xs: seq<string>)
    ensures forall i :: 0 <= i < |DropEmpty(xs)| ==> |DropEmpty(xs)[i]| > 0 && DropEmpty(xs)[i] in xs
    decreases |xs|
  {
    if |xs| > 0 {
      DropEmptyKeeps(xs[1..]);
      var rest := DropEmpty(xs[1..]);
      var r := DropEmpty(xs);
      forall i | 0 <= i < |r|
        ensures |r[i]| > 0 && r[i] in xs
      {
        if |xs[0]| == 0 {
          assert r[i] in xs[1..];
        } else if i == 0 {
          assert r[0] == xs[0];
        } else {
          assert r[i] == rest[i - 1];
          assert r[i] in xs[1..];
        }
      }
    }
  }

  /** The kept texts follow the order of the input. */
  lemma {:induction false} DropEmptyOrdered(xs: seq<string>)
    ensures IsSubsequence(DropEmpty(xs), xs)
    decreases |xs|
  {
    if |xs| > 0 {
      DropEmptyOrdered(xs[1..]);
      if |xs[0]| == 0 {
        SubsequenceCons(DropEmpty(xs[1..]), xs);
      } else {
        assert DropEmpty(xs)[1..] == DropEmpty(xs[1..]);
      }
    }
  }

  /** No non-empty text is lost. */
  lemma {:induction false} DropEmptyComplete(xs: seq<string>, j: nat)
    requires j < |xs| && |xs[j]| > 0
    ensures xs[j] in DropEmpty(xs)
    decreases |xs|
  {
    var r := DropEmpty(xs);
    if j > 0 {
      DropEmptyComplete(xs[1..], j - 1);
      var rest := DropEmpty(xs[1..]);
      var k :| 0 <= k < |rest| && rest[k] == xs[j];
      if |xs[0]| > 0 {
        assert r[k + 1] == rest[k];
      }
    } else {
      assert r[0] == xs[0];
    }
  }

  /** Texts that are already all non-empty are kept as they are. */
  lemma {:induction false} DropEmptyNone(xs: seq<string>)
    requires forall i :: 0 <= i < |xs| ==> |xs[i]| > 0
    ensures DropEmpty(xs) == xs
    decreases |xs|
  {
    if |xs| > 0 {
      DropEmptyNone(xs[1..]);
      assert [xs[0]] + xs[1..] == xs;
    }
  }

  /** `binance_symbols_list`: split on ",", strip each piece, drop the empty ones. */
  function SymbolsList(raw: string): (r: seq<string>)
    ensures forall i :: 0 <= i < |r| ==> IsSymbolText(r[i]) && ',' !in r[i]
  {
    var stripped := StripAll(Split(raw, ','));
    StrippedPiecesClean(Split(raw, ','));
    DropEmptyKeeps(stripped);
    DropEmpty(stripped)
  }

  /** Every non-empty stripped piece of a comma split is a symbol text free of commas. */
  lemma {:induction false} StrippedPiecesClean(parts: seq<string>)
    requires forall i :: 0 <= i < |parts| ==> ',' !in parts[i]
    ensures forall x :: x in StripAll(parts) && |x| > 0 ==> IsSymbolText(x) && ',' !in x
  {
    var stripped := StripAll(parts);
    forall x | x in stripped && |x| > 0
      ensures IsSymbolText(x) && ',' !in x
    {
      var i :| 0 <= i < |stripped| && stripped[i] == x;
      StrippedNoComma(parts[i]);
    }
  }

  /** Stripping a piece without commas leaves none. */
  lemma {:induction false} StrippedNoComma(piece: string)
    ensures ',' !in piece ==> ',' !in Strip(piece)
  {
    var x := Strip(piece);
    var p :| StrippedAt(piece, x, p);
    if ',' !in piece {
      forall k | 0 <= k < |x|
        ensures x[k] != ','
      {
        assert x[k] == piece[p + k];
      }
    }
  }

  /** The elements keep the order of the pieces they come from. */
  lemma {:induction false} SymbolsListOrdered(raw: string)
    ensures IsSubsequence(SymbolsList(raw), StripAll(Split(raw, ',')))
  {
    DropEmptyOrdered(StripAll(Split(raw, ',')));
  }

  /** Every piece that is not blank shows up, stripped. */
  lemma {:induction false} SymbolsListComplete(raw: string, j: nat)
    requires j < |Split(raw, ',')| && |Strip(Split(raw, ',')[j])| > 0
    ensures Strip(Split(raw, ',')[j]) in SymbolsList(raw)
  {
    DropEmptyComplete(StripAll(Split(raw, ',')), j);
  }

  /**
   * Listing symbols with a comma between them, each padded with any
   * whitespace, parses back to exactly those symbols.
   */
  lemma {:induction false} SymbolsListRoundTrip(pieces: seq<string>, symbols: seq<string>)
    requires |pieces| >= 1 && |pieces| == |symbols|
    requires forall i :: 0 <= i < |pieces| ==> ',' !in pieces[i] && Strip(pieces[i]) == symbols[i] && |symbols[i]| > 0
    ensures SymbolsList(Join(pieces, ',')) == symbols
  {
    SplitJoin(pieces, ',');
    assert StripAll(pieces) == symbols;
    DropEmptyNone(symbols);
  }
}
