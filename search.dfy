/** The search box: which records the table keeps for a search term. */
module Search {
  import opened Text
  import opened Coins

  /** A record is kept when its lower-cased name or its lower-cased symbol
      contains the (already lower-cased) search term. */
  predicate Matches(c: Coin, searchTerm: string) {
    Includes(LowerStr(c.name), searchTerm) || Includes(LowerStr(c.symbol), searchTerm)
  }

  /** The filter predicate, stated by positions: a record matches exactly
      when the term occurs at some position of its lower-cased name or of
      its lower-cased symbol. */
  lemma MatchesOccurs(c: Coin, searchTerm: string)
    ensures Matches(c, searchTerm) <==>
              Occurs(LowerStr(c.name), searchTerm) || Occurs(LowerStr(c.symbol), searchTerm)
  {
  }

  /** `r` can be obtained from `s` by deleting elements: the records of `r`
      appear in `s` in the same relative order. */
  ghost predicate IsSubsequence(r: seq<Coin>, s: seq<Coin>)
    decreases |s|
  {
    r == [] ||
    (s != [] &&
     ((r[0] == s[0] && IsSubsequence(r[1..], s[1..])) || IsSubsequence(r, s[1..])))
  }

  /** `s.filter(coin => Matches(coin, searchTerm))`: every kept record
      matches, and every matching record is kept. */
  function FilterCoins(s: seq<Coin>, searchTerm: string): (r: seq<Coin>)
    ensures |r| <= |s|
    ensures forall c :: c in r ==> c in s && Matches(c, searchTerm)
    ensures forall c :: c in s && Matches(c, searchTerm) ==> c in r
  {
    if s == [] then []
    else (if Matches(s[0], searchTerm) then [s[0]] else []) + FilterCoins(s[1..], searchTerm)
  }

  /** The filtered list is an order-preserving selection from its source. */
  lemma {:induction false} FilterIsSubsequence(s: seq<Coin>, searchTerm: string)
    ensures IsSubsequence(FilterCoins(s, searchTerm), s)
  {
    if s != [] {
      FilterIsSubsequence(s[1..], searchTerm);
      var r := FilterCoins(s, searchTerm);
      if Matches(s[0], searchTerm) {
        assert r[0] == s[0] && r[1..] == FilterCoins(s[1..], searchTerm);
      } else {
        assert r == FilterCoins(s[1..], searchTerm);
      }
    }
  }

  /** Filtering works record by record: filtering a concatenation is the
      concatenation of the filtered parts. With the one-record case (kept
      exactly when it matches) this determines the filter completely. */
  lemma {:induction false} FilterAppend(a: seq<Coin>, b: seq<Coin>, searchTerm: string)
    ensures FilterCoins(a + b, searchTerm) == FilterCoins(a, searchTerm) + FilterCoins(b, searchTerm)
  {
    if a == [] {
      assert a + b == b;
    } else {
      var head := if Matches(a[0], searchTerm) then [a[0]] else [];
      assert (a + b)[0] == a[0] && (a + b)[1..] == a[1..] + b;
      calc {
        FilterCoins(a + b, searchTerm);
        head + FilterCoins(a[1..] + b, searchTerm);
        { FilterAppend(a[1..], b, searchTerm); }
        head + (FilterCoins(a[1..], searchTerm) + FilterCoins(b, searchTerm));
        FilterCoins(a, searchTerm) + FilterCoins(b, searchTerm);
      }
    }
  }

  lemma FilterSingle(c: Coin, searchTerm: string)
    ensures FilterCoins([c], searchTerm) == if Matches(c, searchTerm) then [c] else []
  {
  }

  /** The list is left as it is exactly when every record matches. */
  lemma {:induction false} FilterKeepsAll(s: seq<Coin>, searchTerm: string)
    ensures FilterCoins(s, searchTerm) == s <==> forall i :: 0 <= i < |s| ==> Matches(s[i], searchTerm)
  {
    if s != [] {
      FilterKeepsAll(s[1..], searchTerm);
      if FilterCoins(s, searchTerm) == s {
        forall i | 0 <= i < |s| ensures Matches(s[i], searchTerm) {
          assert s[i] in FilterCoins(s, searchTerm);
        }
      }
      if forall i :: 0 <= i < |s| ==> Matches(s[i], searchTerm) {
        assert forall i :: 0 <= i < |s| - 1 ==> Matches(s[1..][i], searchTerm) by {
          forall i | 0 <= i < |s| - 1 ensures Matches(s[1..][i], searchTerm) {
            assert s[1..][i] == s[i + 1];
          }
        }
      }
    }
  }

  /** An empty search box keeps every record. */
  lemma EmptyTermKeepsAll(s: seq<Coin>)
    ensures FilterCoins(s, LowerStr("")) == s
  {
  }

  /** Filtering an already filtered list with the same term changes nothing. */
  lemma FilterIdempotent(s: seq<Coin>, searchTerm: string)
    ensures FilterCoins(FilterCoins(s, searchTerm), searchTerm) == FilterCoins(s, searchTerm)
  {
    var r := FilterCoins(s, searchTerm);
    forall i | 0 <= i < |r| ensures Matches(r[i], searchTerm) {
      assert r[i] in r;
    }
    FilterKeepsAll(r, searchTerm);
  }

  /** Every list is a subsequence of itself. */
  lemma {:induction false} SubsequenceRefl(s: seq<Coin>)
    ensures IsSubsequence(s, s)
  {
    if s != [] {
      SubsequenceRefl(s[1..]);
    }
  }

  /** Every record of a subsequence is a record of the list it came from. */
  lemma {:induction false} SubsequenceMembers(r: seq<Coin>, s: seq<Coin>)
    requires IsSubsequence(r, s)
    ensures forall c :: c in r ==> c in s
    decreases |s|
  {
    if r != [] {
      if r[0] == s[0] && IsSubsequence(r[1..], s[1..]) {
        SubsequenceMembers(r[1..], s[1..]);
        forall c | c in r ensures c in s {
          if c != r[0] { assert c in r[1..]; }
        }
      } else {
        SubsequenceMembers(r, s[1..]);
      }
    }
  }
}

module SearchExamples {
  import opened Text
  import opened Coins
  import opened Search

  /** A term whose first character does not occur in `s` is not included. */
  lemma NotIncludedByFirstChar(s: string, t: string)
    requires t != [] && forall i :: 0 <= i < |s| ==> s[i] != t[0]
    ensures !Includes(s, t)
  {
    forall i ensures !OccursAt(s, t, i) {
      if 0 <= i && i + |t| <= |s| {
        assert s[i..i + |t|][0] == s[i] != t[0];
      }
    }
  }

  /** Filtering two records keeps each one on its own merits, in order. */
  lemma FilterPair(a: Coin, b: Coin, searchTerm: string)
    ensures FilterCoins([a, b], searchTerm)
            == (if Matches(a, searchTerm) then [a] else []) + (if Matches(b, searchTerm) then [b] else [])
  {
  }

  /** The lower-cased strings of Bitcoin contain "bit" and not "eth". */
  lemma BitcoinStrings(name: string, symbol: string)
    requires name == "bitcoin" && symbol == "btc"
    ensures Includes(name, "bit")
    ensures !Includes(name, "eth") && !Includes(symbol, "eth")
  {
    assert OccursAt(name, "bit", 0);
    NotIncludedByFirstChar(name, "eth");
    NotIncludedByFirstChar(symbol, "eth");
  }

  /** The lower-cased strings of Ethereum contain "eth" and not "bit". */
  lemma EthereumStrings(name: string, symbol: string)
    requires name == "ethereum" && symbol == "eth"
    ensures Includes(symbol, "eth")
    ensures !Includes(name, "bit") && !Includes(symbol, "bit")
  {
    assert OccursAt(symbol, "eth", 0);
    NotIncludedByFirstChar(name, "bit");
    NotIncludedByFirstChar(symbol, "bit");
  }

  lemma BitcoinMatches(btc: Coin)
    requires btc == Coin("bitcoin", "Bitcoin", "btc")
    ensures Matches(btc, "bit") && !Matches(btc, "eth")
  {
    BitcoinStrings(LowerStr(btc.name), LowerStr(btc.symbol));
  }

  lemma EthereumMatches(eth: Coin)
    requires eth == Coin("ethereum", "Ethereum", "eth")
    ensures !Matches(eth, "bit") && Matches(eth, "eth")
  {
    EthereumStrings(LowerStr(eth.name), LowerStr(eth.symbol));
  }

  lemma LowerQueries(bitQuery: string, ethQuery: string)
    requires bitQuery == "bit" && ethQuery == "ETH"
    ensures LowerStr(bitQuery) == "bit" && LowerStr(ethQuery) == "eth"
  {
  }

  /** Typing "bit" over Bitcoin (btc) and Ethereum (eth) keeps Bitcoin only;
      typing "ETH" keeps Ethereum only, whatever the case of the query. */
  lemma BitcoinAndEthereum(btc: Coin, eth: Coin, bitQuery: string, ethQuery: string)
    requires btc == Coin("bitcoin", "Bitcoin", "btc") && eth == Coin("ethereum", "Ethereum", "eth")
    requires bitQuery == "bit" && ethQuery == "ETH"
    ensures FilterCoins([btc, eth], LowerStr(bitQuery)) == [btc]
    ensures FilterCoins([btc, eth], LowerStr(ethQuery)) == [eth]
  {
    LowerQueries(bitQuery, ethQuery);
    BitcoinMatches(btc);
    EthereumMatches(eth);
    FilterPair(btc, eth, "bit");
    FilterPair(btc, eth, "eth");
  }
}
