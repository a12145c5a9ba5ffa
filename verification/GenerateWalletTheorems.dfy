/** When does the edited configuration resolve to the old network with the new wallet? */
module GenerateWalletTheorems {
  import opened Wrappers
  import opened Encoding
  import opened NetworkConfig
  import opened NetworkResolution
  import opened GenerateWallet

  ghost predicate OneChain(chains: seq<ChainConfig>, id: string) {
    forall i, j ::
      0 <= i < |chains| && 0 <= j < |chains| && chains[i].chainID == id && chains[j].chainID == id ==> i == j
  }

  ghost predicate OneWallet(wallets: seq<WalletConfig>, id: string) {
    forall i, j ::
      0 <= i < |wallets| && 0 <= j < |wallets| && wallets[i].walletID == id && wallets[j].walletID == id ==> i == j
  }

  // Wallet entries.

  ghost predicate OccursLater(wallets: seq<WalletConfig>, i: nat, id: string) {
    exists j :: i < j < |wallets| && wallets[j].walletID == id
  }

  /** A changed entry counts if it is the last with its id, and otherwise not. */
  lemma {:induction false} KeysAfterUpdate(wallets: seq<WalletConfig>, i: nat, key: string)
    requires i < |wallets|
    ensures var id := wallets[i].walletID;
            KeysOf(wallets[i := WalletConfig(id, key)]) ==
            if OccursLater(wallets, i, id) then KeysOf(wallets) else KeysOf(wallets)[id := key]
  {
    var n := |wallets| - 1;
    var id := wallets[i].walletID;
    var edited := wallets[i := WalletConfig(id, key)];
    if i == n {
      assert edited[..n] == wallets[..n];
    } else {
      assert edited[..n] == wallets[..n][i := WalletConfig(id, key)];
      KeysAfterUpdate(wallets[..n], i, key);
      assert OccursLater(wallets, i, id) <==> OccursLater(wallets[..n], i, id) || wallets[n].walletID == id;
    }
  }

  lemma FirstIsOnly(wallets: seq<WalletConfig>, id: string)
    ensures OneWallet(wallets, id) <==> !OccursLater(wallets, FirstWallet(wallets, id), id)
  {
  }

  lemma KeysAfterSet(wallets: seq<WalletConfig>, id: string, key: string)
    ensures OneWallet(wallets, id) ==> KeysOf(SetKey(wallets, id, key)) == KeysOf(wallets)[id := key]
    ensures !OneWallet(wallets, id) ==> KeysOf(SetKey(wallets, id, key)) == KeysOf(wallets) && id in KeysOf(wallets)
  {
    var i := FirstWallet(wallets, id);
    FirstIsOnly(wallets, id);
    if i == |wallets| {
      assert SetKey(wallets, id, key)[..i] == wallets;
    } else {
      KeysAfterUpdate(wallets, i, key);
      KeysDomain(wallets, id);
    }
  }

  // The wallets of a chain.

  lemma WalletsAre(endpoint: Endpoint, keys: map<string, string>, ids: seq<string>, wallets: map<string, Key>)
    requires forall id :: id in wallets <==> id in ids
    requires forall id :: id in ids ==> KeyFor(endpoint, keys, id) == Ok(wallets[id])
    ensures WalletsOf(endpoint, keys, ids) == Ok(wallets)
  {
    WalletsIff(endpoint, keys, ids);
    assert WalletsOf(endpoint, keys, ids).value == wallets;
  }

  /** The entry of a wallet now yields a key; some chain may also list it anew. */
  lemma WalletsAfter(endpoint: Endpoint, keys: map<string, string>, ids: seq<string>, walletID: string,
                     privateKey: string, key: Key, anew: bool)
    requires WalletsOf(endpoint, keys, ids).Ok?
    requires anew || walletID in ids ==> DecodeKey(endpoint, privateKey) == Some(key)
    ensures var before := WalletsOf(endpoint, keys, ids).value;
            WalletsOf(endpoint, keys[walletID := privateKey], if anew then ids + [walletID] else ids) ==
            Ok(if anew || walletID in ids then before[walletID := key] else before)
  {
    WalletsIff(endpoint, keys, ids);
    var before := WalletsOf(endpoint, keys, ids).value;
    WalletsAre(endpoint, keys[walletID := privateKey], if anew then ids + [walletID] else ids,
               if anew || walletID in ids then before[walletID := key] else before);
  }

  /** A chain with the new key under the id, if it lists the id. */
  function Renewed(state: ChainState, walletID: string, key: Key, anew: bool): ChainState {
    if anew || walletID in state.wallets then state.(wallets := state.wallets[walletID := key]) else state
  }

  function Entry(c: ChainConfig, walletID: string, anew: bool): ChainConfig {
    if anew then c.(walletIDs := c.walletIDs + [walletID]) else c
  }

  lemma ChainAfter(dial: Dial, keys: map<string, string>, c: ChainConfig, walletID: string, privateKey: string,
                   key: Key, anew: bool)
    requires ResolveChain(dial, keys, c).Ok?
    requires anew || walletID in c.walletIDs ==> DecodeKey(EndpointOf(c).value, privateKey) == Some(key)
    ensures ResolveChain(dial, keys[walletID := privateKey], Entry(c, walletID, anew)) ==
            Ok(Renewed(ResolveChain(dial, keys, c).value, walletID, key, anew))
  {
    var endpoint := EndpointOf(c).value;
    WalletsAfter(endpoint, keys, c.walletIDs, walletID, privateKey, key, anew);
    WalletsIff(endpoint, keys, c.walletIDs);
  }

  // All chains.

  lemma {:induction false} SameConnections(states: seq<ChainState>, states': seq<ChainState>)
    requires |states| == |states'| && forall i :: 0 <= i < |states| ==> states[i].clients == states'[i].clients
    ensures Connections(states) == Connections(states')
  {
    if states != [] {
      SameConnections(states[..|states| - 1], states'[..|states| - 1]);
    }
  }

  lemma {:induction false} SameLast(states: seq<ChainState>, states': seq<ChainState>, id: string)
    requires |states| == |states'| && forall i :: 0 <= i < |states| ==> states[i].chainID == states'[i].chainID
    ensures LastChain(states, id) == LastChain(states', id)
  {
    if states != [] {
      SameLast(states[..|states| - 1], states'[..|states| - 1], id);
    }
  }

  // The theorem.

  /** The old network with the new wallet on its chain; another chain that listed the id already has the new key too. */
  function WithWallet(n: NetworkState, chainID: string, walletID: string, key: Key): NetworkState {
    n.(chains := map id | id in n.chains :: Renewed(n.chains[id], walletID, key, id == chainID))
  }

  /** What a caller can look up beforehand: the chain has one entry, and the wallet has at most one, unless the last
      entry holds the key already. */
  ghost predicate Unambiguous(s: Settings, n: NetworkState, chainID: string, walletID: string, key: Key)
    requires chainID in n.chains
  {
    && OneChain(s.chains, chainID)
    && (OneWallet(s.wallets, walletID) ||
        (walletID in KeysOf(s.wallets) &&
         DecodeKey(n.chains[chainID].endpoint, KeysOf(s.wallets)[walletID]) == Some(key)))
  }

  /** The resolved entry of the wallet once the configuration was edited. */
  ghost function EntryAfter(s: Settings, walletID: string, key: Key): string {
    if !OneWallet(s.wallets, walletID) && walletID in KeysOf(s.wallets) then KeysOf(s.wallets)[walletID]
    else HexEncode(key)
  }

  lemma KeysAfter(s: Settings, walletID: string, key: Key)
    ensures KeysOf(SetKey(s.wallets, walletID, HexEncode(key))) ==
            KeysOf(s.wallets)[walletID := EntryAfter(s, walletID, key)]
  {
    KeysAfterSet(s.wallets, walletID, HexEncode(key));
  }

  lemma {:induction false} FirstIsLast(chains: seq<ChainConfig>, states: seq<ChainState>, id: string)
    requires |chains| == |states| && forall j :: 0 <= j < |chains| ==> chains[j].chainID == states[j].chainID
    requires LastChain(states, id) >= 0
    ensures var i, last := FirstChain(chains, id), LastChain(states, id);
            && i < |chains| && chains[last].chainID == id
            && (OneChain(chains, id) <==> i == last)
  {
    var i, last := FirstChain(chains, id), LastChain(states, id);
    assert chains[last].chainID == states[last].chainID == id;
    if i == last {
      forall j | 0 <= j < |chains| && chains[j].chainID == id
        ensures j == i
      {
        assert states[j].chainID == id;
      }
    }
  }

  /** The only chain with an id is both the first and the last. */
  lemma OnlyChain(dial: Dial, s: Settings, chainID: string)
    requires Resolve(dial, s).Ok? && chainID in Resolve(dial, s).value.chains
    ensures var i, last := FirstChain(s.chains, chainID), LastChain(StatesOf(dial, s), chainID);
            && 0 <= last < |s.chains| == |StatesOf(dial, s)| && i < |s.chains|
            && s.chains[last].chainID == chainID
            && Resolve(dial, s).value.chains[chainID] == StatesOf(dial, s)[last]
            && (OneChain(s.chains, chainID) <==> i == last)
  {
    ResolvedIds(dial, s);
    LastChainWins(StatesOf(dial, s), chainID);
    FirstIsLast(s.chains, StatesOf(dial, s), chainID);
  }

  /** Every chain that lists the wallet reads the new key. */
  lemma ReadsKey(dial: Dial, s: Settings, chainID: string, walletID: string, key: Key, j: nat)
    requires Allowed(dial, s, chainID, walletID) && ValidKey(key)
    requires Unambiguous(s, Resolve(dial, s).value, chainID, walletID, key)
    requires j < |s.chains| && (j == FirstChain(s.chains, chainID) || walletID in s.chains[j].walletIDs)
    ensures ResolveChain(dial, KeysOf(s.wallets), s.chains[j]).Ok?
    ensures DecodeKey(EndpointOf(s.chains[j]).value, EntryAfter(s, walletID, key)) == Some(key)
  {
    var keys := KeysOf(s.wallets);
    ChainsIff(dial, keys, s.chains);
    OnlyChain(dial, s, chainID);
    var endpoint := EndpointOf(s.chains[j]).value;
    if OneWallet(s.wallets, walletID) {
      KeyRoundTrip(endpoint, key);
    } else if walletID in s.chains[j].walletIDs {
      WalletsIff(endpoint, keys, s.chains[j].walletIDs);
      assert KeyFor(endpoint, keys, walletID).Ok?;
      KeysAgree(endpoint, Resolve(dial, s).value.chains[chainID].endpoint, keys[walletID]);
    }
  }

  lemma EntryResolves(dial: Dial, s: Settings, chainID: string, walletID: string, key: Key, j: nat)
    requires Allowed(dial, s, chainID, walletID) && ValidKey(key)
    requires Unambiguous(s, Resolve(dial, s).value, chainID, walletID, key)
    requires j < |s.chains| == |StatesOf(dial, s)|
    ensures var anew := j == FirstChain(s.chains, chainID);
            ResolveChain(dial, KeysOf(s.wallets)[walletID := EntryAfter(s, walletID, key)],
                         Entry(s.chains[j], walletID, anew)) ==
            Ok(Renewed(StatesOf(dial, s)[j], walletID, key, anew))
  {
    ResolvedIds(dial, s);
    if j == FirstChain(s.chains, chainID) || walletID in s.chains[j].walletIDs {
      ReadsKey(dial, s, chainID, walletID, key, j);
    }
    ChainAfter(dial, KeysOf(s.wallets), s.chains[j], walletID, EntryAfter(s, walletID, key), key,
               j == FirstChain(s.chains, chainID));
  }

  lemma AllResolve(dial: Dial, keys: map<string, string>, chains: seq<ChainConfig>, states: seq<ChainState>)
    requires |chains| == |states|
    requires forall j :: 0 <= j < |chains| ==> ResolveChain(dial, keys, chains[j]) == Ok(states[j])
    ensures ResolveChains(dial, keys, chains) == Ok(states)
  {
    ChainsIff(dial, keys, chains);
    var resolved := ResolveChains(dial, keys, chains).value;
    forall j | 0 <= j < |states|
      ensures resolved[j] == states[j]
    {
      assert ResolveChain(dial, keys, chains[j]).value == states[j];
    }
    assert resolved == states;
  }

  function RenewAll(states: seq<ChainState>, walletID: string, key: Key, i: nat): (r: seq<ChainState>)
    ensures |r| == |states|
    ensures forall j :: 0 <= j < |r| ==> r[j] == Renewed(states[j], walletID, key, j == i)
  {
    seq(|states|, j requires 0 <= j < |states| => Renewed(states[j], walletID, key, j == i))
  }

  /** The edited chains resolve one by one. */
  lemma StatesAfter(dial: Dial, s: Settings, chainID: string, walletID: string, key: Key)
    requires Allowed(dial, s, chainID, walletID) && ValidKey(key)
    requires Unambiguous(s, Resolve(dial, s).value, chainID, walletID, key)
    ensures var s' := Edit(s, chainID, walletID, key);
            ResolveChains(dial, KeysOf(s'.wallets), s'.chains) ==
            Ok(RenewAll(StatesOf(dial, s), walletID, key, FirstChain(s.chains, chainID)))
  {
    var keys', chains' := KeysOf(SetKey(s.wallets, walletID, HexEncode(key))), ListWallet(s.chains, chainID, walletID);
    var i := FirstChain(s.chains, chainID);
    var states' := RenewAll(StatesOf(dial, s), walletID, key, i);
    ResolvedIds(dial, s);
    KeysAfter(s, walletID, key);
    forall j | 0 <= j < |chains'|
      ensures ResolveChain(dial, keys', chains'[j]) == Ok(states'[j])
    {
      assert chains'[j] == Entry(s.chains[j], walletID, j == i);
      EntryResolves(dial, s, chainID, walletID, key, j);
    }
    AllResolve(dial, keys', chains', states');
  }

  lemma EditCommutes(dial: Dial, s: Settings, chainID: string, walletID: string, key: Key)
    requires Allowed(dial, s, chainID, walletID) && ValidKey(key)
    requires Unambiguous(s, Resolve(dial, s).value, chainID, walletID, key)
    ensures Resolve(dial, Edit(s, chainID, walletID, key)) ==
            Ok(WithWallet(Resolve(dial, s).value, chainID, walletID, key))
  {
    StatesAfter(dial, s, chainID, walletID, key);
    OnlyChain(dial, s, chainID);
    NetworkAfter(Resolve(dial, s).value, StatesOf(dial, s), StatesOf(dial, Edit(s, chainID, walletID, key)),
                 FirstChain(s.chains, chainID), chainID, walletID, key);
  }

  /** Renewing the chains one by one renews the map of them. */
  lemma NetworkAfter(n: NetworkState, states: seq<ChainState>, states': seq<ChainState>, i: nat,
                     chainID: string, walletID: string, key: Key)
    requires n.chains == ChainsById(states) && n.connections == Connections(states)
    requires |states| == |states'| && i == LastChain(states, chainID)
    requires forall j :: 0 <= j < |states| ==> states'[j] == Renewed(states[j], walletID, key, j == i)
    ensures NetworkState(ChainsById(states'), Connections(states'), n.relayerGRPCAddr) ==
            WithWallet(n, chainID, walletID, key)
  {
    SameConnections(states, states');
    forall id: string
      ensures id in ChainsById(states') <==> id in n.chains
      ensures id in n.chains ==> ChainsById(states')[id] == Renewed(n.chains[id], walletID, key, id == chainID)
    {
      SameLast(states, states', id);
      LastChainWins(states, id);
      LastChainWins(states', id);
    }
    assert ChainsById(states') == WithWallet(n, chainID, walletID, key).chains;
  }

  /** The keys of a resolved chain are those of the entries of the wallets it lists. */
  lemma ResolvedWallet(dial: Dial, s: Settings, j: nat, walletID: string)
    requires Resolve(dial, s).Ok? && j < |s.chains|
    ensures j < |StatesOf(dial, s)|
    ensures var state, keys := StatesOf(dial, s)[j], KeysOf(s.wallets);
            && (walletID in state.wallets <==> walletID in s.chains[j].walletIDs)
            && (walletID in state.wallets ==>
                  walletID in keys && DecodeKey(state.endpoint, keys[walletID]) == Some(state.wallets[walletID]))
  {
    ResolvedIds(dial, s);
    WalletsIff(EndpointOf(s.chains[j]).value, KeysOf(s.wallets), s.chains[j].walletIDs);
    assert walletID in StatesOf(dial, s)[j].wallets ==>
           KeyFor(StatesOf(dial, s)[j].endpoint, KeysOf(s.wallets), walletID).Ok?;
  }

  /** The edit touches neither ids nor endpoints. */
  lemma SameChains(chains: seq<ChainConfig>, chainID: string, walletID: string)
    ensures var chains' := ListWallet(chains, chainID, walletID);
            && |chains'| == |chains|
            && forall j :: 0 <= j < |chains| ==>
                 chains'[j].chainID == chains[j].chainID && EndpointOf(chains'[j]) == EndpointOf(chains[j])
  {
  }

  lemma ResolvedEndpoints(dial: Dial, s: Settings)
    requires Resolve(dial, s).Ok?
    ensures |StatesOf(dial, s)| == |s.chains|
    ensures forall j :: 0 <= j < |s.chains| ==> EndpointOf(s.chains[j]) == Some(StatesOf(dial, s)[j].endpoint)
  {
    ResolvedIds(dial, s);
  }

  /** The chain that an id resolves to is the same entry before and after the edit, at the same endpoint. */
  lemma SameEntry(dial: Dial, s: Settings, s': Settings, chainID: string, walletID: string)
    requires Resolve(dial, s).Ok? && chainID in Resolve(dial, s).value.chains
    requires Resolve(dial, s').Ok? && s'.chains == ListWallet(s.chains, chainID, walletID)
    ensures LastChain(StatesOf(dial, s), chainID) == LastChain(StatesOf(dial, s'), chainID)
    ensures chainID in Resolve(dial, s').value.chains
    ensures Resolve(dial, s').value.chains[chainID].endpoint == Resolve(dial, s).value.chains[chainID].endpoint
  {
    var states, states' := StatesOf(dial, s), StatesOf(dial, s');
    SameChains(s.chains, chainID, walletID);
    assert |states| == |states'| && forall j :: 0 <= j < |states| ==> states[j].chainID == states'[j].chainID by {
      ResolvedIds(dial, s);
      ResolvedIds(dial, s');
    }
    SameLast(states, states', chainID);
    LastChainWins(states, chainID);
    LastChainWins(states', chainID);
    assert states[LastChain(states, chainID)].endpoint == states'[LastChain(states, chainID)].endpoint by {
      ResolvedEndpoints(dial, s);
      ResolvedEndpoints(dial, s');
    }
  }

  /** If the edited configuration resolves at all and has the new key where it belongs, nothing was ambiguous. */
  lemma KeyInPlace(dial: Dial, s: Settings, chainID: string, walletID: string, key: Key)
    requires Allowed(dial, s, chainID, walletID)
    requires var r := Resolve(dial, Edit(s, chainID, walletID, key));
             && r.Ok? && chainID in r.value.chains
             && walletID in r.value.chains[chainID].wallets && r.value.chains[chainID].wallets[walletID] == key
    ensures Unambiguous(s, Resolve(dial, s).value, chainID, walletID, key)
  {
    var s' := Edit(s, chainID, walletID, key);
    var last := LastChain(StatesOf(dial, s), chainID);
    OnlyChain(dial, s, chainID);
    OnlyChain(dial, s', chainID);
    SameEntry(dial, s, s', chainID, walletID);
    ResolvedWallet(dial, s, last, walletID);
    ResolvedWallet(dial, s', last, walletID);
    assert s'.chains[last] != s.chains[last];
    KeysAfterSet(s.wallets, walletID, HexEncode(key));
  }

  /** The edited configuration resolves to the old network with the new wallet on its chain (and the new key on every
      other chain that listed the id already) if and only if nothing was ambiguous. */
  lemma EditCommutesIff(dial: Dial, s: Settings, chainID: string, walletID: string, key: Key)
    requires Allowed(dial, s, chainID, walletID) && ValidKey(key)
    ensures Resolve(dial, Edit(s, chainID, walletID, key)) ==
            Ok(WithWallet(Resolve(dial, s).value, chainID, walletID, key)) <==>
            Unambiguous(s, Resolve(dial, s).value, chainID, walletID, key)
  {
    if Unambiguous(s, Resolve(dial, s).value, chainID, walletID, key) {
      EditCommutes(dial, s, chainID, walletID, key);
    } else if Resolve(dial, Edit(s, chainID, walletID, key)) ==
              Ok(WithWallet(Resolve(dial, s).value, chainID, walletID, key)) {
      KeyInPlace(dial, s, chainID, walletID, key);
    }
  }

  /** The network that the command has in memory is the one that the edited configuration resolves to if and only if,
      moreover, no other chain listed the id with another key: that chain keeps the old key in memory only. */
  lemma MemoryMatchesIff(dial: Dial, s: Settings, chainID: string, walletID: string, key: Key)
    requires Allowed(dial, s, chainID, walletID) && ValidKey(key)
    ensures var n := Resolve(dial, s).value;
            Resolve(dial, Edit(s, chainID, walletID, key)) == Ok(InMemory(n, chainID, walletID, key)) <==>
            && Unambiguous(s, n, chainID, walletID, key)
            && forall id :: id in n.chains && id != chainID && walletID in n.chains[id].wallets ==>
                 n.chains[id].wallets[walletID] == key
  {
    var n := Resolve(dial, s).value;
    if Unambiguous(s, n, chainID, walletID, key) {
      EditCommutes(dial, s, chainID, walletID, key);
      MemoryIsRenewal(n, chainID, walletID, key);
    } else if Resolve(dial, Edit(s, chainID, walletID, key)) == Ok(InMemory(n, chainID, walletID, key)) {
      KeyInPlace(dial, s, chainID, walletID, key);
    }
  }

  lemma MemoryIsRenewal(n: NetworkState, chainID: string, walletID: string, key: Key)
    requires chainID in n.chains
    ensures WithWallet(n, chainID, walletID, key) == InMemory(n, chainID, walletID, key) <==>
            forall id :: id in n.chains && id != chainID && walletID in n.chains[id].wallets ==>
              n.chains[id].wallets[walletID] == key
  {
    var m, m' := WithWallet(n, chainID, walletID, key).chains, InMemory(n, chainID, walletID, key).chains;
    forall id | id in n.chains && id != chainID && walletID in n.chains[id].wallets
      ensures m[id] == m'[id] <==> n.chains[id].wallets[walletID] == key
    {
      assert m[id].wallets[walletID] == key;
      assert n.chains[id].wallets[walletID] == key ==> n.chains[id].wallets[walletID := key] == n.chains[id].wallets;
    }
    if forall id :: id in n.chains && id != chainID && walletID in n.chains[id].wallets ==>
         n.chains[id].wallets[walletID] == key {
      assert m == m';
    }
  }

  // The equivalences are about something: configurations for which the command goes through and they fail.

  /** There are keys to generate; the number one, for instance. */
  lemma ValidKeys()
    ensures exists key :: ValidKey(key)
  {
    var zeros: Key := seq(31, _ => 0);
    Zeros(zeros);
    assert (zeros + [1])[..31] == zeros;
    assert ValidKey(zeros + [1]);
  }

  lemma {:induction false} Zeros(key: Key)
    requires forall i :: 0 <= i < |key| ==> key[i] == 0
    ensures BigEndian(key) == 0
  {
    if key != [] {
      Zeros(key[..|key| - 1]);
    }
  }

  /** A Cosmos chain without clients. */
  function Plain(chainID: string, walletIDs: seq<string>): ChainConfig {
    ChainConfig("cosmos", chainID, "", "", [], walletIDs, "", "")
  }

  function Reached(): Dial { (_: string, _: Endpoint) => true }

  lemma ResolvePlain(keys: map<string, string>, chainID: string)
    ensures ResolveChain(Reached(), keys, Plain(chainID, [])) ==
            Ok(ChainState(chainID, CosmosNode(""), map[], map[]))
  {
  }

  lemma ResolveTwo(keys: map<string, string>, a: ChainConfig, b: ChainConfig)
    requires ResolveChain(Reached(), keys, a).Ok? && ResolveChain(Reached(), keys, b).Ok?
    ensures var sa, sb := ResolveChain(Reached(), keys, a).value, ResolveChain(Reached(), keys, b).value;
            && ResolveChains(Reached(), keys, [a, b]) == Ok([sa, sb])
            && ChainsById([sa, sb]) == map[][sa.chainID := sa][sb.chainID := sb]
  {
    var sa, sb := ResolveChain(Reached(), keys, a).value, ResolveChain(Reached(), keys, b).value;
    AllResolve(Reached(), keys, [a, b], [sa, sb]);
    assert [sa, sb][..1] == [sa] && [sa][..0] == [];
    assert ChainsById([sa]) == map[][sa.chainID := sa];
  }

  /** A chain with two entries: the first gets the wallet, and the last is the one that counts. */
  lemma TwoChainEntries(key: Key)
    requires ValidKey(key)
    ensures var s := Settings([Plain("c", []), Plain("c", [])], [], "");
            && Allowed(Reached(), s, "c", "w")
            && Resolve(Reached(), Edit(s, "c", "w", key)) !=
               Ok(WithWallet(Resolve(Reached(), s).value, "c", "w", key))
  {
    var s := Settings([Plain("c", []), Plain("c", [])], [], "");
    ResolvePlain(KeysOf([]), "c");
    ResolveTwo(KeysOf([]), Plain("c", []), Plain("c", []));
    assert s.chains[0].chainID == s.chains[1].chainID;
    EditCommutesIff(Reached(), s, "c", "w", key);
  }

  lemma ResolveOnlyChain(wallets: seq<WalletConfig>, chainID: string)
    ensures var s := Settings([Plain(chainID, [])], wallets, "");
            && Resolve(Reached(), s).Ok?
            && Resolve(Reached(), s).value.chains ==
               map[][chainID := ChainState(chainID, CosmosNode(""), map[], map[])]
  {
    var state := ChainState(chainID, CosmosNode(""), map[], map[]);
    ResolvePlain(KeysOf(wallets), chainID);
    AllResolve(Reached(), KeysOf(wallets), [Plain(chainID, [])], [state]);
    assert [state][..0] == [];
    assert ChainsById([state]) == map[][chainID := state];
  }

  /** A wallet with two entries, as it can be left in the list when no chain uses it: the first gets the new key, and
      the last, which holds another, is the one that counts. */
  lemma TwoWalletEntries(key: Key, first: string, last: string)
    requires ValidKey(key) && HexDecode(last) != Some(key)
    ensures var s := Settings([Plain("c", [])], [WalletConfig("w", first), WalletConfig("w", last)], "");
            && Allowed(Reached(), s, "c", "w")
            && Resolve(Reached(), Edit(s, "c", "w", key)) !=
               Ok(WithWallet(Resolve(Reached(), s).value, "c", "w", key))
  {
    var wallets := [WalletConfig("w", first), WalletConfig("w", last)];
    var s := Settings([Plain("c", [])], wallets, "");
    ResolveOnlyChain(wallets, "c");
    assert wallets[0].walletID == wallets[1].walletID;
    assert KeysOf(wallets)["w"] == last;
    EditCommutesIff(Reached(), s, "c", "w", key);
  }

  /** Another chain that lists the wallet already, with another key: in memory it keeps that key, whereas the edited
      configuration gives it the new one. */
  lemma KeyOfAnotherChain(key: Key)
    requires ValidKey(key)
    ensures var s := Settings([Plain("c", []), Plain("d", ["w"])], [WalletConfig("w", "00")], "");
            && Allowed(Reached(), s, "c", "w")
            && Unambiguous(s, Resolve(Reached(), s).value, "c", "w", key)
            && Resolve(Reached(), Edit(s, "c", "w", key)) != Ok(InMemory(Resolve(Reached(), s).value, "c", "w", key))
  {
    var wallets := [WalletConfig("w", "00")];
    var s := Settings([Plain("c", []), Plain("d", ["w"])], wallets, "");
    var keys := KeysOf(wallets);
    assert keys == map["w" := "00"] by {
      assert wallets[..0] == [];
    }
    ListsWallet(keys);
    ResolvePlain(keys, "c");
    ResolveTwo(keys, Plain("c", []), Plain("d", ["w"]));
    assert Resolve(Reached(), s).value.chains["d"].wallets["w"] == [0];
    MemoryMatchesIff(Reached(), s, "c", "w", key);
  }

  lemma ListsWallet(keys: map<string, string>)
    requires keys == map["w" := "00"]
    ensures ResolveChain(Reached(), keys, Plain("d", ["w"])) ==
            Ok(ChainState("d", CosmosNode(""), map[], map["w" := [0]]))
  {
    assert HexDecode("00") == Some([0]) by {
      var data: Key := [0];
      HexRoundTrip(data);
      assert data[1..] == [] && HexEncode(data) == "00";
    }
    assert KeyFor(CosmosNode(""), keys, "w") == Ok([0]);
    WalletsAre(CosmosNode(""), keys, ["w"], map["w" := [0]]);
  }

  // Runs of the command.

  ghost predicate Unique(s: Settings) {
    && (forall id: string :: OneChain(s.chains, id))
    && (forall id: string :: OneWallet(s.wallets, id))
  }

  datatype Generation = Generation(chainID: string, walletID: string, key: Key)

  /** The configuration after a run of the command, if it went through every time. */
  function EditAll(dial: Dial, s: Settings, run: seq<Generation>): Option<Settings> {
    if run == [] then Some(s)
    else
      var g := run[|run| - 1];
      match EditAll(dial, s, run[..|run| - 1])
      case None => None
      case Some(before) =>
        if Allowed(dial, before, g.chainID, g.walletID) then Some(Edit(before, g.chainID, g.walletID, g.key)) else None
  }

  function WithWallets(n: NetworkState, run: seq<Generation>): NetworkState {
    if run == [] then n
    else
      var g := run[|run| - 1];
      WithWallet(WithWallets(n, run[..|run| - 1]), g.chainID, g.walletID, g.key)
  }

  lemma EditKeepsUnique(s: Settings, chainID: string, walletID: string, key: Key)
    requires Unique(s)
    ensures Unique(Edit(s, chainID, walletID, key))
  {
    var s' := Edit(s, chainID, walletID, key);
    forall id: string
      ensures OneChain(s'.chains, id) && OneWallet(s'.wallets, id)
    {
      assert OneChain(s.chains, id) && OneWallet(s.wallets, id);
    }
  }

  /** From a configuration with unique ids every run of the command keeps the ids unique, and the configuration
      resolves to the network with all the wallets. */
  lemma {:induction false} RunCommutes(dial: Dial, s: Settings, run: seq<Generation>)
    requires Unique(s) && Resolve(dial, s).Ok? && EditAll(dial, s, run).Some?
    requires forall g :: g in run ==> ValidKey(g.key)
    ensures var after := EditAll(dial, s, run).value;
            Unique(after) && Resolve(dial, after) == Ok(WithWallets(Resolve(dial, s).value, run))
  {
    if run != [] {
      var n := |run| - 1;
      var g := run[n];
      RunCommutes(dial, s, run[..n]);
      var before := EditAll(dial, s, run[..n]).value;
      EditKeepsUnique(before, g.chainID, g.walletID, g.key);
      EditCommutes(dial, before, g.chainID, g.walletID, g.key);
    }
  }
}
