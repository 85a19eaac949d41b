/**
 * The pure parts of market discovery (feeds/gamma_discovery.py): mapping
 * a market question to a Binance symbol by keyword, and removing
 * duplicate markets while keeping the first occurrence of each.
 */
module Discovery {
  import opened Common
  import opened Text

  /** A market whose question mentions a tracked crypto asset. */
  datatype DiscoveredMarket = DiscoveredMarket(
    conditionId: string,
    tokenId: string,
    question: string,
    outcome: string,
    symbol: string)
  {
    /** The identity used for de-duplication. */
    function Key(): (string, string) {
      (conditionId, tokenId)
    }
  }

  /** `CRYPTO_KEYWORDS`, in the dictionary's insertion order. */
  const CryptoKeywords: seq<(string, seq<string>)> := [
    ("btcusdt", ["bitcoin", "btc"]),
    ("ethusdt", ["ethereum", "eth"]),
    ("solusdt", ["solana", "sol"])
  ]

  /** Some keyword of the list occurs in `q`. */
  predicate AnyKeyword(q: string, keywords: seq<string>) {
    exists i :: 0 <= i < |keywords| && Contains(q, keywords[i])
  }

  /** The first entry of `table`, from index `from`, one of whose keywords occurs in `q`. */
  function MatchFrom(q: string, table: seq<(string, seq<string>)>, from: nat): (r: Option<string>)
    requires from <= |table|
    ensures r.None? <==> forall i :: from <= i < |table| ==> !AnyKeyword(q, table[i].1)
    ensures r.Some? ==> exists i :: (from <= i < |table| && table[i].0 == r.value && AnyKeyword(q, table[i].1)
      && forall j :: from <= j < i ==> !AnyKeyword(q, table[j].1))
    decreases |table| - from
  {
    if from == |table| then None
    else if AnyKeyword(q, table[from].1) then Some(table[from].0)
    else MatchFrom(q, table, from + 1)
  }

  /**
   * `_match_symbol`: the first symbol, in table order, one of whose
   * keywords is a substring of the lower-cased question; `None` when no
   * keyword of any symbol occurs.
   */
  function MatchSymbol(question: string): (r: Option<string>)
    ensures r.None? <==> forall i :: 0 <= i < |CryptoKeywords| ==> !AnyKeyword(Lower(question), CryptoKeywords[i].1)
    ensures r.Some? ==> exists i :: (0 <= i < |CryptoKeywords| && CryptoKeywords[i].0 == r.value
      && AnyKeyword(Lower(question), CryptoKeywords[i].1)
      && forall j :: 0 <= j < i ==> !AnyKeyword(Lower(question), CryptoKeywords[j].1))
  {
    MatchFrom(Lower(question), CryptoKeywords, 0)
  }

  /** Matching ignores case. */
  lemma {:induction false} MatchSymbolIgnoresCase(question: string)
    ensures MatchSymbol(question) == MatchSymbol(Lower(question))
  {
    LowerIdempotent(question);
  }

  /** A question naming Bitcoin maps to BTC even when it also names another asset: BTC is tried first. */
  lemma {:induction false} MatchSymbolBitcoinFirst(rest: string)
    ensures MatchSymbol("bitcoin" + rest) == Some("btcusdt")
  {
    var q := Lower("bitcoin" + rest);
    assert q[0..7] == "bitcoin" by {
      forall i | 0 <= i < 7 ensures q[i] == "bitcoin"[i] {
        assert ("bitcoin" + rest)[i] == "bitcoin"[i];
      }
    }
    assert OccursAt(q, "bitcoin", 0);
    assert Contains(q, CryptoKeywords[0].1[0]);
    assert AnyKeyword(q, CryptoKeywords[0].1);
  }

  /** Matching is by substring, so a word that merely contains a keyword ("whether" holds "eth") selects that symbol. */
  lemma {:induction false} MatchSymbolSubstring()
    ensures MatchSymbol("whether") == Some("ethusdt")
  {
    var q := Lower("whether");
    assert q == "whether";
    assert OccursAt(q, "eth", 2);
    assert Contains(q, CryptoKeywords[1].1[1]);
    assert AnyKeyword(q, CryptoKeywords[1].1);
    forall k | 0 <= k
      ensures !OccursAt(q, "bitcoin", k) && !OccursAt(q, "btc", k)
    {
      if k + 3 <= |q| {
        assert q[k..k + 3] != "btc" by {
          assert 'b' !in q;
          assert q[k..k + 3][0] in q;
        }
      }
      if k + 7 <= |q| {
        assert q[k..k + 7][0] in q;
      }
    }
    assert !AnyKeyword(q, CryptoKeywords[0].1);
  }

  /**
   * The de-duplication of `discover` as a definition: walk the markets in
   * order, keeping a market only when its key has not been seen.
   */
  function DedupFrom(ms: seq<DiscoveredMarket>, seen: set<(string, string)>): seq<DiscoveredMarket>
    decreases |ms|
  {
    if |ms| == 0 then []
    else if ms[0].Key() in seen then DedupFrom(ms[1..], seen)
    else [ms[0]] + DedupFrom(ms[1..], seen + {ms[0].Key()})
  }

  /** The keys of a list of markets. */
  function Keys(ms: seq<DiscoveredMarket>): set<(string, string)> {
    set i | 0 <= i < |ms| :: ms[i].Key()
  }

  /** The first market of `ms` with key `k`. */
  function FirstWithKey(ms: seq<DiscoveredMarket>, k: (string, string)): DiscoveredMarket
    requires k in Keys(ms)
    decreases |ms|
  {
    if ms[0].Key() == k then ms[0]
    else
      assert k in Keys(ms[1..]) by {
        var i :| 0 <= i < |ms| && ms[i].Key() == k;
        assert ms[1..][i - 1] == ms[i];
      }
      FirstWithKey(ms[1..], k)
  }

  /**
   * The de-duplication loop of `discover`: `seen` holds the keys kept so
   * far and `unique` the kept markets.
   */
  method Dedup(markets: seq<DiscoveredMarket>) returns (unique: seq<DiscoveredMarket>)
    ensures unique == DedupFrom(markets, {})
  {
    var seen: set<(string, string)> := {};
    unique := [];
    var i := 0;
    while i < |markets|
      invariant 0 <= i <= |markets|
      invariant unique + DedupFrom(markets[i..], seen) == DedupFrom(markets, {})
    {
      var m := markets[i];
      assert markets[i..][1..] == markets[i + 1..];
      if m.Key() !in seen {
        seen := seen + {m.Key()};
        unique := unique + [m];
      }
      i := i + 1;
    }
    assert markets[i..] == [];
  }

  /** Keys already seen never reappear, and the kept markets have pairwise distinct keys. */
  lemma {:induction false} DedupDistinct(ms: seq<DiscoveredMarket>, seen: set<(string, string)>)
    ensures forall i :: 0 <= i < |DedupFrom(ms, seen)| ==> DedupFrom(ms, seen)[i].Key() !in seen
    ensures forall i, j :: 0 <= i < j < |DedupFrom(ms, seen)| ==> DedupFrom(ms, seen)[i].Key() != DedupFrom(ms, seen)[j].Key()
    decreases |ms|
  {
    if |ms| > 0 {
      var k := ms[0].Key();
      if k in seen {
        DedupDistinct(ms[1..], seen);
      } else {
        var rest := DedupFrom(ms[1..], seen + {k});
        DedupDistinct(ms[1..], seen + {k});
        var u := [ms[0]] + rest;
        assert u == DedupFrom(ms, seen);
        forall i | 0 <= i < |u| ensures u[i].Key() !in seen {
          if i > 0 { assert u[i] == rest[i - 1]; }
        }
        forall i, j | 0 <= i < j < |u| ensures u[i].Key() != u[j].Key() {
          assert u[j] == rest[j - 1];
          if i > 0 { assert u[i] == rest[i - 1]; }
        }
      }
    }
  }

  /** Every key of the input that was not already seen is kept. */
  lemma {:induction false} DedupKeys(ms: seq<DiscoveredMarket>, seen: set<(string, string)>)
    ensures Keys(DedupFrom(ms, seen)) == Keys(ms) - seen
    decreases |ms|
  {
    if |ms| > 0 {
      var k := ms[0].Key();
      assert Keys(ms) == {k} + Keys(ms[1..]) by {
        forall x | x in Keys(ms) ensures x in {k} + Keys(ms[1..]) {
          var i :| 0 <= i < |ms| && ms[i].Key() == x;
          if i > 0 { assert ms[1..][i - 1] == ms[i]; }
        }
        forall x | x in Keys(ms[1..]) ensures x in Keys(ms) {
          var i :| 0 <= i < |ms[1..]| && ms[1..][i].Key() == x;
          assert ms[i + 1] == ms[1..][i];
        }
      }
      if k in seen {
        DedupKeys(ms[1..], seen);
      } else {
        var rest := DedupFrom(ms[1..], seen + {k});
        DedupKeys(ms[1..], seen + {k});
        assert Keys([ms[0]] + rest) == {k} + Keys(rest) by {
          forall x | x in Keys([ms[0]] + rest) ensures x in {k} + Keys(rest) {
            var i :| 0 <= i < |[ms[0]] + rest| && ([ms[0]] + rest)[i].Key() == x;
            if i > 0 { assert ([ms[0]] + rest)[i] == rest[i - 1]; }
          }
          forall x | x in Keys(rest) ensures x in Keys([ms[0]] + rest) {
            var i :| 0 <= i < |rest| && rest[i].Key() == x;
            assert ([ms[0]] + rest)[i + 1] == rest[i];
          }
          assert ([ms[0]] + rest)[0] == ms[0];
        }
      }
    }
  }

  /** Each kept market is the first market of the input carrying its key. */
  lemma {:induction false} DedupKeepsFirst(ms: seq<DiscoveredMarket>, seen: set<(string, string)>)
    ensures forall i :: 0 <= i < |DedupFrom(ms, seen)| ==>
      DedupFrom(ms, seen)[i].Key() in Keys(ms) && DedupFrom(ms, seen)[i] == FirstWithKey(ms, DedupFrom(ms, seen)[i].Key())
    decreases |ms|
  {
    if |ms| > 0 {
      var k := ms[0].Key();
      var s' := if k in seen then seen else seen + {k};
      var rest := DedupFrom(ms[1..], s');
      DedupKeepsFirst(ms[1..], s');
      DedupDistinct(ms[1..], s');
      var u := DedupFrom(ms, seen);
      assert u == if k in seen then rest else [ms[0]] + rest;
      forall i | 0 <= i < |u|
        ensures u[i].Key() in Keys(ms) && u[i] == FirstWithKey(ms, u[i].Key())
      {
        if k !in seen && i == 0 {
          assert u[0] == ms[0];
        } else {
          var j := if k in seen then i else i - 1;
          assert u[i] == rest[j];
          assert rest[j].Key() !in s';
          assert rest[j].Key() in Keys(ms[1..]) && rest[j] == FirstWithKey(ms[1..], rest[j].Key());
          var x :| 0 <= x < |ms[1..]| && ms[1..][x].Key() == rest[j].Key();
          assert ms[x + 1] == ms[1..][x];
        }
      }
    }
  }

  /** De-duplication only deletes: the kept markets appear in input order. */
  lemma {:induction false} DedupOrder(ms: seq<DiscoveredMarket>, seen: set<(string, string)>)
    ensures IsSubsequence(DedupFrom(ms, seen), ms)
    decreases |ms|
  {
    if |ms| > 0 {
      if ms[0].Key() in seen {
        DedupOrder(ms[1..], seen);
        SubsequenceCons(DedupFrom(ms[1..], seen), ms);
      } else {
        DedupOrder(ms[1..], seen + {ms[0].Key()});
        var u := DedupFrom(ms, seen);
        assert u[0] == ms[0] && u[1..] == DedupFrom(ms[1..], seen + {ms[0].Key()});
      }
    }
  }
}
