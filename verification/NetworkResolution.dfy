/** What a configuration resolves to, in terms of the positions in its lists. */
module NetworkResolution {
  import opened Wrappers
  import opened NetworkConfig

  // Wallet entries.

  lemma {:induction false} KeysDomain(wallets: seq<WalletConfig>, id: string)
    ensures id in KeysOf(wallets) <==> exists i :: 0 <= i < |wallets| && wallets[i].walletID == id
  {
    if wallets != [] {
      var n := |wallets| - 1;
      KeysDomain(wallets[..n], id);
      if i :| 0 <= i < n && wallets[i].walletID == id {
        assert wallets[..n][i].walletID == id;
      }
    }
  }

  predicate LastWallet(wallets: seq<WalletConfig>, id: string, k: nat) {
    k < |wallets| && wallets[k].walletID == id && forall j :: k < j < |wallets| ==> wallets[j].walletID != id
  }

  lemma {:induction false} KeyIs(wallets: seq<WalletConfig>, id: string, k: nat)
    requires LastWallet(wallets, id, k)
    ensures id in KeysOf(wallets) && KeysOf(wallets)[id] == wallets[k].privateKey
  {
    if k < |wallets| - 1 {
      KeyIs(wallets[..|wallets| - 1], id, k);
    }
  }

  lemma {:induction false} FindLast(wallets: seq<WalletConfig>, id: string) returns (k: nat)
    requires id in KeysOf(wallets)
    ensures LastWallet(wallets, id, k)
  {
    var n := |wallets| - 1;
    if wallets[n].walletID == id {
      k := n;
    } else {
      k := FindLast(wallets[..n], id);
    }
  }

  // Clients.

  predicate LastClient(clients: seq<ClientConfig>, id: string, k: nat) {
    k < |clients| && clients[k].clientID == id && forall j :: k < j < |clients| ==> clients[j].clientID != id
  }

  predicate HasClient(clients: seq<ClientConfig>, id: string) {
    exists k :: 0 <= k < |clients| && clients[k].clientID == id
  }

  lemma {:induction false} ClientsDomain(clients: seq<ClientConfig>, id: string)
    ensures id in ClientsOf(clients) <==> HasClient(clients, id)
  {
    if clients != [] {
      var n := |clients| - 1;
      ClientsDomain(clients[..n], id);
      assert HasClient(clients, id) <==> HasClient(clients[..n], id) || clients[n].clientID == id;
    }
  }

  /** The last entry with a client's id says which client of which chain is at the other end. */
  lemma {:induction false} ClientIs(clients: seq<ClientConfig>, id: string, k: nat)
    requires LastClient(clients, id, k)
    ensures id in ClientsOf(clients)
    ensures ClientsOf(clients)[id].clientID == clients[k].counterpartyClientID
    ensures ClientsOf(clients)[id].chainID == clients[k].counterpartyChainID
  {
    if k < |clients| - 1 {
      ClientIs(clients[..|clients| - 1], id, k);
    }
  }

  // The wallets of a chain.

  lemma {:induction false} WalletsIff(endpoint: Endpoint, keys: map<string, string>, ids: seq<string>)
    ensures WalletsOf(endpoint, keys, ids).Ok? <==> forall id :: id in ids ==> KeyFor(endpoint, keys, id).Ok?
    ensures WalletsOf(endpoint, keys, ids).Ok? ==>
              WalletsOf(endpoint, keys, ids).value == map id | id in ids :: KeyFor(endpoint, keys, id).value
  {
    if ids != [] {
      var n := |ids| - 1;
      WalletsIff(endpoint, keys, ids[..n]);
      assert ids[n] in ids;
      assert forall id :: id in ids <==> id in ids[..n] || id == ids[n];
    }
  }

  // Chains.

  lemma {:induction false} ChainsAll(dial: Dial, keys: map<string, string>, chains: seq<ChainConfig>)
    ensures ResolveChains(dial, keys, chains).Ok? <==>
            forall i :: 0 <= i < |chains| ==> ResolveChain(dial, keys, chains[i]).Ok?
  {
    if chains != [] {
      var n := |chains| - 1;
      ChainsAll(dial, keys, chains[..n]);
      assert forall i :: 0 <= i < n ==> chains[..n][i] == chains[i];
    }
  }

  lemma {:induction false} ChainsEach(dial: Dial, keys: map<string, string>, chains: seq<ChainConfig>)
    requires ResolveChains(dial, keys, chains).Ok?
    ensures var states := ResolveChains(dial, keys, chains).value;
            |states| == |chains| &&
            forall i :: 0 <= i < |chains| ==> Ok(states[i]) == ResolveChain(dial, keys, chains[i])
  {
    if chains != [] {
      ChainsEach(dial, keys, chains[..|chains| - 1]);
    }
  }

  lemma ChainsIff(dial: Dial, keys: map<string, string>, chains: seq<ChainConfig>)
    ensures ResolveChains(dial, keys, chains).Ok? <==>
            forall i :: 0 <= i < |chains| ==> ResolveChain(dial, keys, chains[i]).Ok?
    ensures ResolveChains(dial, keys, chains).Ok? ==>
              var states := ResolveChains(dial, keys, chains).value;
              |states| == |chains| &&
              forall i :: 0 <= i < |chains| ==> Ok(states[i]) == ResolveChain(dial, keys, chains[i])
  {
    ChainsAll(dial, keys, chains);
    if ResolveChains(dial, keys, chains).Ok? {
      ChainsEach(dial, keys, chains);
    }
  }

  /** The position of the last chain with the id, or -1. */
  function LastChain(states: seq<ChainState>, id: string): (i: int)
    ensures -1 <= i < |states|
    ensures i >= 0 ==> states[i].chainID == id
    ensures forall j :: i < j < |states| ==> states[j].chainID != id
  {
    if states == [] || states[|states| - 1].chainID == id then |states| - 1 else LastChain(states[..|states| - 1], id)
  }

  lemma {:induction false} LastChainWins(states: seq<ChainState>, id: string)
    ensures id in ChainsById(states) <==> LastChain(states, id) >= 0
    ensures id in ChainsById(states) ==> ChainsById(states)[id] == states[LastChain(states, id)]
  {
    if states != [] {
      LastChainWins(states[..|states| - 1], id);
    }
  }

  // Connections.

  lemma {:induction false} ConnectionIs(states: seq<ChainState>, id: string, j: nat)
    requires j < |states| && id in states[j].clients
    requires forall i :: j < i < |states| ==> id !in states[i].clients
    ensures id in Connections(states) && Connections(states)[id] == states[j].clients[id]
  {
    if j < |states| - 1 {
      ConnectionIs(states[..|states| - 1], id, j);
    }
  }

  lemma {:induction false} NoConnection(states: seq<ChainState>, id: string)
    requires forall i :: 0 <= i < |states| ==> id !in states[i].clients
    ensures id !in Connections(states)
  {
    if states != [] {
      NoConnection(states[..|states| - 1], id);
    }
  }

  // The whole configuration.

  /** The node of a chain, by the type of the chain; there are no other types. */
  predicate NodeOf(c: ChainConfig, endpoint: Endpoint) {
    || (c.chainType == "cosmos" && endpoint.CosmosNode? && endpoint.grpcAddr == c.grpcAddr)
    || (c.chainType == "ethereum" && endpoint.EthereumNode? && endpoint.rpcAddr == c.rpcAddr
        && endpoint.ics26Address == c.ics26Address && endpoint.relayerHelperAddress == c.relayerHelperAddress)
  }

  lemma EndpointIs(c: ChainConfig)
    ensures EndpointOf(c).Some? <==> c.chainType == "cosmos" || c.chainType == "ethereum"
    ensures EndpointOf(c).Some? ==> NodeOf(c, EndpointOf(c).value)
  {
  }

  /** A wallet that a chain lists has an entry, and the chain can read the last one. */
  ghost predicate Readable(endpoint: Endpoint, wallets: seq<WalletConfig>, id: string) {
    exists k: nat :: LastWallet(wallets, id, k) && DecodeKey(endpoint, wallets[k].privateKey).Some?
  }

  lemma ReadableIff(endpoint: Endpoint, wallets: seq<WalletConfig>, id: string)
    ensures Readable(endpoint, wallets, id) <==> KeyFor(endpoint, KeysOf(wallets), id).Ok?
  {
    if id in KeysOf(wallets) {
      var k := FindLast(wallets, id);
      KeyIs(wallets, id, k);
    }
    if Readable(endpoint, wallets, id) {
      var k: nat :| LastWallet(wallets, id, k) && DecodeKey(endpoint, wallets[k].privateKey).Some?;
      KeyIs(wallets, id, k);
    }
  }

  ghost predicate CanResolve(dial: Dial, wallets: seq<WalletConfig>, c: ChainConfig) {
    && EndpointOf(c).Some?
    && dial(c.chainID, EndpointOf(c).value)
    && forall id :: id in c.walletIDs ==> Readable(EndpointOf(c).value, wallets, id)
  }

  /** A configuration resolves exactly if every chain has a known type and a node that answers, and every wallet it
      lists has an entry that the chain can read. */
  lemma ResolvesIff(dial: Dial, s: Settings)
    ensures Resolve(dial, s).Ok? <==> forall j :: 0 <= j < |s.chains| ==> CanResolve(dial, s.wallets, s.chains[j])
  {
    var keys := KeysOf(s.wallets);
    ChainsIff(dial, keys, s.chains);
    forall j | 0 <= j < |s.chains|
      ensures ResolveChain(dial, keys, s.chains[j]).Ok? <==> CanResolve(dial, s.wallets, s.chains[j])
    {
      ChainResolvesIff(dial, s.wallets, s.chains[j]);
    }
  }

  lemma ChainResolvesIff(dial: Dial, wallets: seq<WalletConfig>, c: ChainConfig)
    ensures ResolveChain(dial, KeysOf(wallets), c).Ok? <==> CanResolve(dial, wallets, c)
  {
    if EndpointOf(c).Some? {
      WalletsIff(EndpointOf(c).value, KeysOf(wallets), c.walletIDs);
      forall id: string
        ensures Readable(EndpointOf(c).value, wallets, id) <==> KeyFor(EndpointOf(c).value, KeysOf(wallets), id).Ok?
      {
        ReadableIff(EndpointOf(c).value, wallets, id);
      }
    }
  }

  function StatesOf(dial: Dial, s: Settings): seq<ChainState>
    requires Resolve(dial, s).Ok?
  {
    ResolveChains(dial, KeysOf(s.wallets), s.chains).value
  }

  lemma ResolvedIds(dial: Dial, s: Settings)
    requires Resolve(dial, s).Ok?
    ensures |StatesOf(dial, s)| == |s.chains|
    ensures forall j :: 0 <= j < |s.chains| ==>
              && ResolveChain(dial, KeysOf(s.wallets), s.chains[j]) == Ok(StatesOf(dial, s)[j])
              && s.chains[j].chainID == StatesOf(dial, s)[j].chainID
  {
    ChainsIff(dial, KeysOf(s.wallets), s.chains);
  }

  predicate LastEntry(chains: seq<ChainConfig>, j: nat) {
    j < |chains| && forall i :: j < i < |chains| ==> chains[i].chainID != chains[j].chainID
  }

  lemma LastEntryWins(dial: Dial, s: Settings, j: nat)
    requires Resolve(dial, s).Ok? && LastEntry(s.chains, j)
    ensures |StatesOf(dial, s)| == |s.chains|
    ensures s.chains[j].chainID in Resolve(dial, s).value.chains
    ensures Resolve(dial, s).value.chains[s.chains[j].chainID] == StatesOf(dial, s)[j]
  {
    ResolvedIds(dial, s);
    LastChainWins(StatesOf(dial, s), s.chains[j].chainID);
  }

  /** What a chain's entry describes: its id and node; for each client id the last entry with it; and for each wallet
      it lists the key of the wallet's last entry. */
  ghost predicate Describes(c: ChainConfig, wallets: seq<WalletConfig>, state: ChainState) {
    && state.chainID == c.chainID && NodeOf(c, state.endpoint)
    && (forall id :: id in state.clients <==> HasClient(c.clients, id))
    && (forall id: string, k: nat :: LastClient(c.clients, id, k) ==>
          && id in state.clients
          && state.clients[id].clientID == c.clients[k].counterpartyClientID
          && state.clients[id].chainID == c.clients[k].counterpartyChainID)
    && (forall id :: id in state.wallets <==> id in c.walletIDs)
    && (forall id: string, k: nat :: id in c.walletIDs && LastWallet(wallets, id, k) ==>
          id in state.wallets && DecodeKey(state.endpoint, wallets[k].privateKey) == Some(state.wallets[id]))
  }

  lemma ResolvedDescribes(dial: Dial, s: Settings, j: nat)
    requires Resolve(dial, s).Ok? && j < |s.chains|
    ensures |StatesOf(dial, s)| == |s.chains|
    ensures Describes(s.chains[j], s.wallets, StatesOf(dial, s)[j])
  {
    ResolvedIds(dial, s);
    var c, state := s.chains[j], StatesOf(dial, s)[j];
    EndpointIs(c);
    WalletsIff(state.endpoint, KeysOf(s.wallets), c.walletIDs);
    forall id: string
      ensures id in state.clients <==> HasClient(c.clients, id)
    {
      ClientsDomain(c.clients, id);
    }
    forall id: string, k: nat | LastClient(c.clients, id, k)
      ensures && id in state.clients
              && state.clients[id].clientID == c.clients[k].counterpartyClientID
              && state.clients[id].chainID == c.clients[k].counterpartyChainID
    {
      ClientIs(c.clients, id, k);
    }
    forall id: string, k: nat | id in c.walletIDs && LastWallet(s.wallets, id, k)
      ensures id in state.wallets && DecodeKey(state.endpoint, s.wallets[k].privateKey) == Some(state.wallets[id])
    {
      KeyIs(s.wallets, id, k);
      assert KeyFor(state.endpoint, KeysOf(s.wallets), id).Ok?;
    }
  }

  /** The network has the chains of the configuration, each as the last entry with its id describes it, at a node that
      answered. */
  lemma ResolvedChains(dial: Dial, s: Settings)
    requires Resolve(dial, s).Ok?
    ensures var n := Resolve(dial, s).value;
            && n.relayerGRPCAddr == s.relayerGRPCAddr
            && (forall id :: id in n.chains <==> exists j :: 0 <= j < |s.chains| && s.chains[j].chainID == id)
            && forall j: nat :: LastEntry(s.chains, j) ==>
                 var id := s.chains[j].chainID;
                 id in n.chains && dial(id, n.chains[id].endpoint) && Describes(s.chains[j], s.wallets, n.chains[id])
  {
    ResolvedIds(dial, s);
    forall id: string
      ensures id in Resolve(dial, s).value.chains <==> exists j :: 0 <= j < |s.chains| && s.chains[j].chainID == id
    {
      LastChainWins(StatesOf(dial, s), id);
    }
    forall j: nat | LastEntry(s.chains, j)
      ensures var n, id := Resolve(dial, s).value, s.chains[j].chainID;
              id in n.chains && dial(id, n.chains[id].endpoint) && Describes(s.chains[j], s.wallets, n.chains[id])
    {
      LastEntryWins(dial, s, j);
      ResolvedDescribes(dial, s, j);
    }
  }

  /** The connections are those of all entries of chains: the last entry that has a client with the id decides, and in
      it the last client with the id. */
  lemma ResolvedConnection(dial: Dial, s: Settings, id: string, j: nat, k: nat)
    requires Resolve(dial, s).Ok? && j < |s.chains| && LastClient(s.chains[j].clients, id, k)
    requires forall i :: j < i < |s.chains| ==> !HasClient(s.chains[i].clients, id)
    ensures var connections := Resolve(dial, s).value.connections;
            && id in connections
            && connections[id].clientID == s.chains[j].clients[k].counterpartyClientID
            && connections[id].chainID == s.chains[j].clients[k].counterpartyChainID
  {
    ResolvedDescribes(dial, s, j);
    forall i: nat | j < i < |s.chains|
      ensures id !in StatesOf(dial, s)[i].clients
    {
      ResolvedDescribes(dial, s, i);
    }
    ConnectionIs(StatesOf(dial, s), id, j);
  }

  lemma ResolvedNoConnection(dial: Dial, s: Settings, id: string)
    requires Resolve(dial, s).Ok? && forall i :: 0 <= i < |s.chains| ==> !HasClient(s.chains[i].clients, id)
    ensures id !in Resolve(dial, s).value.connections
  {
    ResolvedIds(dial, s);
    forall i: nat | i < |s.chains|
      ensures id !in StatesOf(dial, s)[i].clients
    {
      ResolvedDescribes(dial, s, i);
    }
    NoConnection(StatesOf(dial, s), id);
  }
}
