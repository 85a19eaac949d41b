/**
 * The trade database as the execution layer uses it (storage/db.py),
 * reduced to its contents: the trades logged so far, in insertion order,
 * and the signals logged so far. SQL, ids and timestamps are left out.
 */
module Ledger {
  import opened Schemas

  /** One row of the signals table: the signal and, when logged by an executor, the council action. */
  datatype SignalEntry = SignalEntry(signal: DivergenceSignal, councilAction: string)

  datatype Ledger = Ledger(trades: seq<TradeRecord>, signals: seq<SignalEntry>)

  const EmptyLedger: Ledger := Ledger([], [])

  /** `log_trade`: the record is appended. */
  function LogTrade(l: Ledger, record: TradeRecord): (r: Ledger)
    ensures r.trades == l.trades + [record] && r.signals == l.signals
  {
    l.(trades := l.trades + [record])
  }

  /** `log_signal`: the entry is appended; trades are untouched. */
  function LogSignal(l: Ledger, entry: SignalEntry): (r: Ledger)
    ensures r.signals == l.signals + [entry] && r.trades == l.trades
  {
    l.(signals := l.signals + [entry])
  }

  /** `get_open_trades`: the trades not yet closed. */
  function OpenTrades(trades: seq<TradeRecord>): (r: seq<TradeRecord>)
    ensures |r| <= |trades|
    ensures forall i :: 0 <= i < |r| ==> r[i].IsOpen()
  {
    if |trades| == 0 then []
    else OpenTrades(trades[..|trades| - 1]) + (if trades[|trades| - 1].IsOpen() then [trades[|trades| - 1]] else [])
  }

  /** Logging an open trade adds it to the open trades; logging a closed one changes nothing. */
  lemma {:induction false} OpenTradesAppend(trades: seq<TradeRecord>, record: TradeRecord)
    ensures OpenTrades(trades + [record]) == OpenTrades(trades) + (if record.IsOpen() then [record] else [])
  {
    assert (trades + [record])[..|trades|] == trades;
  }
}
