/** The SDK's address book and stablecoin registry: which coins a network
    offers, keyed by lower-cased address. A record built by `Object.assign` is
    an ordered list of entries, each key once, in insertion order. */
module SdkConstants {
  import opened Wrappers
  import Text

  datatype CoinInfo = CoinInfo(symbol: string, decimals: nat, logoUrl: string)

  datatype StableCoin = StableCoin(symbol: string, decimals: nat, logoUrl: string, address: string)

  type Entry = (string, StableCoin)

  const SupportedChains: seq<int> := [1, 11155111, 10, 8453, 84532, 43114]

  /** `config.stablecoins`, in key order. */
  const Stablecoins: seq<(string, CoinInfo)> := [
    ("DAI", CoinInfo("DAI", 18, "/images/logos/dai.svg")),
    ("USDC", CoinInfo("USDC", 6, "/images/logos/usdc.svg")),
    ("USDT", CoinInfo("USDT", 6, "/images/logos/usdt.svg")),
    ("CPOOL", CoinInfo("CPOOL", 18, "/images/logos/clearpool-circle.svg")),
    ("ETH", CoinInfo("ETH", 18, "/images/chains/ethereum.svg")),
    ("MATIC", CoinInfo("MATIC", 18, "/images/chains/polygon.svg")),
    ("AVAX", CoinInfo("AVAX", 18, "/images/chains/avalanche.svg"))
  ]

  /** `config.address[network]`: the contract and token addresses of a
      supported network. */
  function AddressByNetwork(network: int): Option<map<string, string>>
  {
    if network == 1 then Some(map[
      "ETH" := "0x0000000000000000000000000000000000000000",
      "Prime" := "0xE746cd792677F894ba1B8eCEBB84Bf006BA6A2D7",
      "PoolFactory" := "0x83D5c08eCfe3F711e1Ff34618c0Dcc5FeFBe1791",
      "USDT" := "0xdAC17F958D2ee523a2206206994597C13D831ec7",
      "USDC" := "0xA0b86991c6218b36c1d19D4a2e9Eb0cE3606eB48",
      "DAI" := "0x6B175474E89094C44Da98b954EedeAC495271d0F",
      "CPOOL" := "0x66761fa41377003622aee3c7675fc7b5c1c2fac5",
      "CoinKeeper" := "",
      "Multicall" := "0xcA11bde05977b3631167028862bE2a173976CA11"])
    else if network == 11155111 then Some(map[
      "ETH" := "0x0000000000000000000000000000000000000000",
      "Prime" := "0xfD7C85bBa66A627751a1EF37230e426D966eAdc4",
      "PoolFactory" := "0xf45235759EfFBE2aaE165996ccEdf4Fcb43B3850",
      "USDT" := "0x91fd3C5B736f880b0a3899b89E83b12d09729F4B",
      "USDC" := "0xEDf390a02d3caC16Ede393AD2B423B3022763260",
      "DAI" := "0x5073603f57519D2AdB631E765fBB58c51513cF3D",
      "CPOOL" := "0xEcfd527e404A0611bd21cd84e50fA62dD4Ba0E97",
      "CoinKeeper" := "0xA91ac11A4233A541D88BcB0602869aa4976C60be",
      "Multicall" := "0xcA11bde05977b3631167028862bE2a173976CA11"])
    else if network == 10 then Some(map[
      "ETH" := "0x0000000000000000000000000000000000000000",
      "Prime" := "0xC31761D26C856F6d2f31D0aCafBb1327f5Ec16de",
      "PoolFactory" := "0xe3E26D4187f3A8e100223576a37d30f2A89eb755",
      "USDT" := "0x94b008aA00579c1307B0EF2c499aD98a8ce58e58",
      "USDC" := "0x0b2C639c533813f4Aa9D7837CAf62653d097Ff85",
      "DAI" := "0xDA10009cBd5D07dd0CeCc66161FC93D7c9000da1",
      "CPOOL" := "0xc3630b805F10E91c2de084Ac26C66bCD91F3D3fE",
      "CoinKeeper" := "",
      "Multicall" := "0xcA11bde05977b3631167028862bE2a173976CA11"])
    else if network == 8453 then Some(map[
      "ETH" := "0x0000000000000000000000000000000000000000",
      "Prime" := "0xb8A7E3Ac3010eF846e9cAC18895AA82D35b50865",
      "PoolFactory" := "0xBdf5575Ec1cC0a14Bd3e94648a2453fdC7B56943",
      "USDT" := "",
      "USDC" := "0x833589fCD6eDb6E08f4c7C32D4f71b54bdA02913",
      "DAI" := "0x50c5725949a6f0c72e6c4a641f24049a917db0cb",
      "CPOOL" := "",
      "CoinKeeper" := "",
      "Multicall" := "0xcA11bde05977b3631167028862bE2a173976CA11"])
    else if network == 84532 then Some(map[
      "ETH" := "0x0000000000000000000000000000000000000000",
      "Prime" := "0x15795aadca3759d7b356DecE036c285b1FBb32aa",
      "PoolFactory" := "0xF66F6D2DC713c994182d29DF711088d4a6bE5Ab5",
      "USDT" := "0xd2f34CD75FD00b51faddF1e9fDf97128976Da82C",
      "USDC" := "0x0765A218F2Edc70cf98A0Ef7Daae8F993459D10D",
      "DAI" := "0x32a94A87091979207BDdBf3b9e5E1D4dAb0c2375",
      "CPOOL" := "",
      "CoinKeeper" := "",
      "Multicall" := "0xcA11bde05977b3631167028862bE2a173976CA11"])
    else if network == 43114 then Some(map[
      "ETH" := "0x0000000000000000000000000000000000000000",
      "Prime" := "0xb4546c6e2c69BBF5F29EaEAB3De3768D5Bb009df",
      "PoolFactory" := "0x7A05280940A23749106D8Fb2cA4b10B9D1C89067",
      "USDT" := "0x9702230a8ea53601f5cd2dc00fdbc13d4df4a8c7",
      "USDC" := "0xB97EF9Ef8734C71904D8002F8b6Bc66Dd9c48a6E",
      "DAI" := "",
      "CPOOL" := "",
      "CoinKeeper" := "",
      "Multicall" := "0xcA11bde05977b3631167028862bE2a173976CA11"])
    else None
  }

  // ---------------------------------------------------------------------------
  // Records as ordered entries

  function Get(entries: seq<Entry>, key: string): (r: Option<StableCoin>)
    ensures r.Some? ==> (key, r.value) in entries
    ensures r.None? ==> forall e :: e in entries ==> e.0 != key
  {
    if |entries| == 0 then None
    else if entries[0].0 == key then Some(entries[0].1)
    else Get(entries[1..], key)
  }

  predicate DistinctKeys(entries: seq<Entry>)
  {
    forall i, j :: 0 <= i < j < |entries| ==> entries[i].0 != entries[j].0
  }

  /** `Object.assign(record, {[key]: value})`: an existing key keeps its place
      and takes the new value; a new key goes last. */
  function Put(entries: seq<Entry>, key: string, value: StableCoin): (r: seq<Entry>)
    ensures forall e :: e in r ==> e in entries || e == (key, value)
  {
    if |entries| == 0 then [(key, value)]
    else if entries[0].0 == key then [(key, value)] + entries[1..]
    else [entries[0]] + Put(entries[1..], key, value)
  }

  lemma {:induction false} PutGet(entries: seq<Entry>, key: string, value: StableCoin, other: string)
    ensures Get(Put(entries, key, value), key) == Some(value)
    ensures other != key ==> Get(Put(entries, key, value), other) == Get(entries, other)
  {
    if |entries| > 0 && entries[0].0 != key {
      PutGet(entries[1..], key, value, other);
    }
  }

  lemma {:induction false} PutDistinct(entries: seq<Entry>, key: string, value: StableCoin)
    requires DistinctKeys(entries)
    ensures DistinctKeys(Put(entries, key, value))
  {
    if |entries| > 0 {
      var r := Put(entries, key, value);
      var rest := entries[1..];
      if entries[0].0 == key {
        assert r == [(key, value)] + rest;
        assert forall j :: 1 <= j < |r| ==> r[j] == entries[j];
      } else {
        PutDistinct(rest, key, value);
        var tail := Put(rest, key, value);
        assert r == [entries[0]] + tail;
        forall j | 1 <= j < |r|
          ensures r[0].0 != r[j].0
        {
          assert r[j] == tail[j - 1] && r[j] in tail;
          if r[j] in rest {
            var m :| 0 <= m < |rest| && rest[m] == r[j];
            assert entries[m + 1] == r[j];
          }
        }
      }
    }
  }

  // ---------------------------------------------------------------------------
  // coinsList

  /** The address a network's book gives a coin, when it is truthy. */
  predicate Configured(book: Option<map<string, string>>, coin: string)
  {
    book.Some? && coin in book.value && |book.value[coin]| > 0
  }

  /** The record entry `coinsList` adds for a configured coin. */
  function CoinEntry(book: Option<map<string, string>>, coin: (string, CoinInfo)): Entry
    requires Configured(book, coin.0)
  {
    var address := book.value[coin.0];
    (Text.Lower(address), StableCoin(coin.1.symbol, coin.1.decimals, coin.1.logoUrl, address))
  }

  /** The record after the `forEach` has visited the first `n` coins. */
  function CoinsFold(book: Option<map<string, string>>, coins: seq<(string, CoinInfo)>, n: nat): seq<Entry>
    requires n <= |coins|
  {
    if n == 0 then []
    else
      var acc := CoinsFold(book, coins, n - 1);
      if Configured(book, coins[n - 1].0) then
        var e := CoinEntry(book, coins[n - 1]);
        Put(acc, e.0, e.1)
      else acc
  }

  /** `coinsList(network)`: the stablecoins of the network, keyed by their
      lower-cased address. */
  method CoinsList(network: int) returns (stablecoins: seq<Entry>)
    ensures stablecoins == CoinsFold(AddressByNetwork(network), Stablecoins, |Stablecoins|)
  {
    var addressByNetwork := AddressByNetwork(network);
    stablecoins := AssignCoins(addressByNetwork, Stablecoins);
  }

  /** The `forEach` of `coinsList` over the coins, given the network's book. */
  method AssignCoins(addressByNetwork: Option<map<string, string>>, coins: seq<(string, CoinInfo)>) returns (stablecoins: seq<Entry>)
    ensures stablecoins == CoinsFold(addressByNetwork, coins, |coins|)
  {
    stablecoins := [];
    for i := 0 to |coins|
      invariant stablecoins == CoinsFold(addressByNetwork, coins, i)
    {
      var coin := coins[i].0;
      if addressByNetwork.Some? && coin in addressByNetwork.value && |addressByNetwork.value[coin]| > 0 {
        var address := addressByNetwork.value[coin];
        var info := coins[i].1;
        stablecoins := Put(stablecoins, Text.Lower(address), StableCoin(info.symbol, info.decimals, info.logoUrl, address));
      }
    }
  }

  /** A network without an address book has no coins. */
  lemma {:induction false} UnconfiguredEmpty(coins: seq<(string, CoinInfo)>, n: nat)
    requires n <= |coins|
    ensures CoinsFold(None, coins, n) == []
  {
    if n > 0 {
      UnconfiguredEmpty(coins, n - 1);
    }
  }

  /** The record holds each address once, and every entry is the entry of a
      configured coin. */
  lemma {:induction false} FoldEntries(book: Option<map<string, string>>, coins: seq<(string, CoinInfo)>, n: nat)
    requires n <= |coins|
    ensures DistinctKeys(CoinsFold(book, coins, n))
    ensures forall e :: e in CoinsFold(book, coins, n) ==>
      exists i :: 0 <= i < n && Configured(book, coins[i].0) && e == CoinEntry(book, coins[i])
  {
    if n > 0 {
      FoldEntries(book, coins, n - 1);
      var acc := CoinsFold(book, coins, n - 1);
      if Configured(book, coins[n - 1].0) {
        var e := CoinEntry(book, coins[n - 1]);
        PutDistinct(acc, e.0, e.1);
      }
    }
  }

  /** A key is in the record exactly when some configured coin's address
      lower-cases to it. */
  lemma {:induction false} FoldKeys(book: Option<map<string, string>>, coins: seq<(string, CoinInfo)>, n: nat, key: string)
    requires n <= |coins|
    ensures Get(CoinsFold(book, coins, n), key).Some? <==>
      exists i :: 0 <= i < n && Configured(book, coins[i].0) && Text.Lower(book.value[coins[i].0]) == key
  {
    if n > 0 {
      FoldKeys(book, coins, n - 1, key);
      var acc := CoinsFold(book, coins, n - 1);
      if Configured(book, coins[n - 1].0) {
        var e := CoinEntry(book, coins[n - 1]);
        PutGet(acc, e.0, e.1, key);
      }
    }
  }

  /** With distinct addresses, each configured coin is found under its
      lower-cased address with its symbol, decimals, logo and address. */
  lemma {:induction false} FoldValue(book: Option<map<string, string>>, coins: seq<(string, CoinInfo)>, n: nat, i: nat)
    requires i < n <= |coins|
    requires Configured(book, coins[i].0)
    requires forall j :: 0 <= j < n && j != i && Configured(book, coins[j].0) ==>
      Text.Lower(book.value[coins[j].0]) != Text.Lower(book.value[coins[i].0])
    ensures Get(CoinsFold(book, coins, n), CoinEntry(book, coins[i]).0) == Some(CoinEntry(book, coins[i]).1)
  {
    var acc := CoinsFold(book, coins, n - 1);
    var key := CoinEntry(book, coins[i]).0;
    if i < n - 1 {
      FoldValue(book, coins, n - 1, i);
      if Configured(book, coins[n - 1].0) {
        var e := CoinEntry(book, coins[n - 1]);
        PutGet(acc, e.0, e.1, key);
      }
    } else {
      PutGet(acc, key, CoinEntry(book, coins[i]).1, key);
    }
  }

  /** Base (8453) lists USDT with an empty address, so it offers no USDT. */
  lemma BaseHasNoUsdt()
    ensures forall e :: e in CoinsFold(AddressByNetwork(8453), Stablecoins, |Stablecoins|) ==> e.1.symbol != "USDT"
  {
    var book := AddressByNetwork(8453);
    FoldEntries(book, Stablecoins, |Stablecoins|);
    assert !Configured(book, Stablecoins[2].0);
    forall i | 0 <= i < |Stablecoins| && i != 2
      ensures Stablecoins[i].1.symbol != "USDT"
    {
    }
  }

  /** A network outside the address book has no coins. */
  lemma UnsupportedNetworkEmpty(network: int)
    requires network !in SupportedChains
    ensures CoinsFold(AddressByNetwork(network), Stablecoins, |Stablecoins|) == []
  {
    UnconfiguredEmpty(Stablecoins, |Stablecoins|);
  }

  // ---------------------------------------------------------------------------
  // coins

  /** What `coins` returns: `null`, the record's `undefined` for an unknown
      address, or a coin. */
  datatype CoinLookup = Null | Undefined | Found(coin: StableCoin)

  /** `coins(asset, network)`: the coin of the network at an address, in any
      letter case. */
  function Coins(asset: string, network: int): (r: CoinLookup)
    ensures r.Null? <==> asset == "" || network == 0
  {
    if asset == "" || network == 0 then Null
    else
      var found := Get(CoinsFold(AddressByNetwork(network), Stablecoins, |Stablecoins|), Text.Lower(asset));
      if found.Some? then Found(found.value) else Undefined
  }

  /** Two spellings of an address that lower-case alike find the same coin. */
  lemma CoinsCaseInsensitive(a: string, b: string, network: int)
    requires a != "" && b != "" && Text.Lower(a) == Text.Lower(b)
    ensures Coins(a, network) == Coins(b, network)
  {
  }

  /** Looking a coin up by its own address, in any case, finds it; an address
      no configured coin has is `undefined`. */
  lemma CoinsFindsConfigured(asset: string, network: int)
    requires asset != "" && network != 0
    ensures Coins(asset, network).Found? <==>
      exists i :: 0 <= i < |Stablecoins| && Configured(AddressByNetwork(network), Stablecoins[i].0) &&
        Text.Lower(AddressByNetwork(network).value[Stablecoins[i].0]) == Text.Lower(asset)
  {
    FoldKeys(AddressByNetwork(network), Stablecoins, |Stablecoins|, Text.Lower(asset));
  }

  // ---------------------------------------------------------------------------
  // coinsForBalance

  /** `Object.entries(coins).filter(([_, v]) => allowedTokens.includes(v.symbol))`. */
  function FilterBySymbol(entries: seq<Entry>, allowed: seq<string>): (r: seq<Entry>)
    ensures forall e :: e in r <==> e in entries && e.1.symbol in allowed
  {
    if |entries| == 0 then []
    else (if entries[0].1.symbol in allowed then [entries[0]] else []) + FilterBySymbol(entries[1..], allowed)
  }

  /** What the `reduce` of `coinsForBalance` yields: a record, or one coin
      object. */
  datatype Reduced = Record(entries: seq<Entry>) | CoinObject(coin: StableCoin)

  /** The `reduce` as written: its callback `(obj, [key, v]) => (obj[key] = v)`
      returns the value it assigned, so after the first entry the accumulator
      is that coin, and the result is the last coin (or the initial `{}`). */
  function ReduceAsWritten(filtered: seq<Entry>): Reduced
  {
    if |filtered| == 0 then Record([]) else CoinObject(filtered[|filtered| - 1].1)
  }

  /** `coinsForBalance(network, allowedTokens)` as written. */
  function CoinsForBalanceAsWritten(network: int, allowed: seq<string>): Reduced
  {
    ReduceAsWritten(FilterBySymbol(CoinsFold(AddressByNetwork(network), Stablecoins, |Stablecoins|), allowed))
  }

  /** As written, `coinsForBalance` returns a record only when no coin is
      allowed (and then the empty one); otherwise it returns a single coin. */
  lemma AsWrittenIsNotARecord(network: int, allowed: seq<string>)
    ensures var list := CoinsFold(AddressByNetwork(network), Stablecoins, |Stablecoins|);
      CoinsForBalanceAsWritten(network, allowed).Record? <==> forall e :: e in list ==> e.1.symbol !in allowed
    ensures CoinsForBalanceAsWritten(network, allowed).Record? ==> CoinsForBalanceAsWritten(network, allowed).entries == []
  {
    var list := CoinsFold(AddressByNetwork(network), Stablecoins, |Stablecoins|);
    var filtered := FilterBySymbol(list, allowed);
    if |filtered| > 0 {
      assert filtered[0] in filtered;
    }
  }

  /** A configured coin leaves the record non-empty. */
  lemma {:induction false} FoldNonEmpty(book: Option<map<string, string>>, coins: seq<(string, CoinInfo)>, n: nat, i: nat)
    requires i < n <= |coins| && Configured(book, coins[i].0)
    ensures |CoinsFold(book, coins, n)| > 0
  {
    if i < n - 1 {
      FoldNonEmpty(book, coins, n - 1, i);
    }
    if Configured(book, coins[n - 1].0) {
      var e := CoinEntry(book, coins[n - 1]);
      PutGet(CoinsFold(book, coins, n - 1), e.0, e.1, e.0);
    }
  }

  /** When every coin's symbol is allowed and some coin is configured on the
      network, the result as written is a single coin object. */
  lemma AllowedConfiguredIsOneCoin(network: int, allowed: seq<string>, i: nat)
    requires i < |Stablecoins| && Configured(AddressByNetwork(network), Stablecoins[i].0)
    requires forall j :: 0 <= j < |Stablecoins| ==> Stablecoins[j].1.symbol in allowed
    ensures CoinsForBalanceAsWritten(network, allowed).CoinObject?
  {
    var book := AddressByNetwork(network);
    var list := CoinsFold(book, Stablecoins, |Stablecoins|);
    FoldNonEmpty(book, Stablecoins, |Stablecoins|, i);
    FoldEntries(book, Stablecoins, |Stablecoins|);
    assert list[0] in list;
    AsWrittenIsNotARecord(network, allowed);
  }

  /** On mainnet with every symbol allowed, the result as written is one coin
      object rather than the record of the mainnet coins. */
  lemma MainnetAsWrittenIsOneCoin()
    ensures CoinsForBalanceAsWritten(1, ["DAI", "USDC", "USDT", "CPOOL", "ETH", "MATIC", "AVAX"]).CoinObject?
  {
    var allowed := ["DAI", "USDC", "USDT", "CPOOL", "ETH", "MATIC", "AVAX"];
    assert Configured(AddressByNetwork(1), Stablecoins[4].0);
    assert forall j :: 0 <= j < |Stablecoins| ==> Stablecoins[j].1.symbol in allowed;
    AllowedConfiguredIsOneCoin(1, allowed, 4);
  }

  /** The record the `reduce` evidently intends: the filtered entries
      assigned one by one into `{}`. */
  function ReduceIntoRecord(filtered: seq<Entry>, n: nat): seq<Entry>
    requires n <= |filtered|
  {
    if n == 0 then [] else Put(ReduceIntoRecord(filtered, n - 1), filtered[n - 1].0, filtered[n - 1].1)
  }

  /** `coinsForBalance` with the callback returning the accumulator. */
  function CoinsForBalance(network: int, allowed: seq<string>): Reduced
  {
    var filtered := FilterBySymbol(CoinsFold(AddressByNetwork(network), Stablecoins, |Stablecoins|), allowed);
    Record(ReduceIntoRecord(filtered, |filtered|))
  }

  /** Assigning entries with distinct keys one by one into `{}` rebuilds them. */
  lemma {:induction false} ReduceDistinct(filtered: seq<Entry>, n: nat)
    requires n <= |filtered| && DistinctKeys(filtered)
    ensures ReduceIntoRecord(filtered, n) == filtered[..n]
  {
    if n > 0 {
      ReduceDistinct(filtered, n - 1);
      var acc := filtered[..n - 1];
      PutAppends(acc, filtered[n - 1].0, filtered[n - 1].1);
      assert filtered[..n] == acc + [filtered[n - 1]];
    }
  }

  lemma {:induction false} PutAppends(entries: seq<Entry>, key: string, value: StableCoin)
    requires forall e :: e in entries ==> e.0 != key
    ensures Put(entries, key, value) == entries + [(key, value)]
  {
    if |entries| > 0 {
      assert entries[0] in entries;
      assert forall e :: e in entries[1..] ==> e in entries;
      PutAppends(entries[1..], key, value);
      assert entries == [entries[0]] + entries[1..];
    }
  }

  lemma {:induction false} FilterDistinct(entries: seq<Entry>, allowed: seq<string>)
    requires DistinctKeys(entries)
    ensures DistinctKeys(FilterBySymbol(entries, allowed))
  {
    if |entries| > 0 {
      var rest := entries[1..];
      FilterDistinct(rest, allowed);
      var r := FilterBySymbol(entries, allowed);
      var tail := FilterBySymbol(rest, allowed);
      if entries[0].1.symbol in allowed {
        assert r == [entries[0]] + tail;
        forall j | 1 <= j < |r|
          ensures r[0].0 != r[j].0
        {
          assert r[j] == tail[j - 1] && r[j] in rest;
          var m :| 0 <= m < |rest| && rest[m] == r[j];
          assert entries[m + 1] == r[j];
        }
      }
    }
  }

  /** The intended result is the network's record restricted to the allowed
      symbols: the same entries, in the same order. */
  lemma CoinsForBalanceFilters(network: int, allowed: seq<string>)
    ensures var list := CoinsFold(AddressByNetwork(network), Stablecoins, |Stablecoins|);
      CoinsForBalance(network, allowed) == Record(FilterBySymbol(list, allowed)) &&
      forall e :: e in CoinsForBalance(network, allowed).entries <==> e in list && e.1.symbol in allowed
  {
    var list := CoinsFold(AddressByNetwork(network), Stablecoins, |Stablecoins|);
    var filtered := FilterBySymbol(list, allowed);
    FoldEntries(AddressByNetwork(network), Stablecoins, |Stablecoins|);
    FilterDistinct(list, allowed);
    ReduceDistinct(filtered, |filtered|);
    assert filtered[..|filtered|] == filtered;
  }
}
