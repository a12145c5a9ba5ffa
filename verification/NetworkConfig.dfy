/** The configuration, and the network of chains, clients and wallets that it resolves to. Where an id occurs more than
    once in a list the last entry wins. */
module NetworkConfig {
  import opened Ibc
  import opened Wrappers
  import opened Encoding

  type Key = seq<Byte>

  datatype ClientConfig = ClientConfig(clientID: string, counterpartyChainID: string, counterpartyClientID: string)

  datatype ChainConfig = ChainConfig(
    chainType: string,
    chainID: string,
    rpcAddr: string,
    grpcAddr: string,
    clients: seq<ClientConfig>,
    walletIDs: seq<string>,
    ics26Address: string,
    relayerHelperAddress: string)

  datatype WalletConfig = WalletConfig(walletID: string, privateKey: string)

  datatype Settings = Settings(chains: seq<ChainConfig>, wallets: seq<WalletConfig>, relayerGRPCAddr: string)

  datatype ClientCounterparty = ClientCounterparty(clientID: string, chainID: string)

  datatype Endpoint =
    | CosmosNode(grpcAddr: string)
    | EthereumNode(rpcAddr: string, ics26Address: string, relayerHelperAddress: string)

  datatype ChainState = ChainState(
    chainID: string,
    endpoint: Endpoint,
    clients: map<string, ClientCounterparty>,
    wallets: map<string, Key>)

  datatype NetworkState = NetworkState(
    chains: map<string, ChainState>,
    connections: map<string, ClientCounterparty>,
    relayerGRPCAddr: string)

  /** An unsupported chain type is a panic, the others are errors. */
  datatype ResolveError = UnsupportedChainType | ChainUnavailable | WalletNotFound | InvalidKey

  /** Which nodes can be reached. */
  type Dial = (string, Endpoint) -> bool

  // Keys.

  /** The order of the group of secp256k1. */
  const CurveOrder: nat := 0xFFFFFFFF_FFFFFFFF_FFFFFFFF_FFFFFFFE_BAAEDCE6_AF48A03B_BFD25E8C_D0364141

  function BigEndian(key: Key): nat {
    if key == [] then 0 else 256 * BigEndian(key[..|key| - 1]) + key[|key| - 1]
  }

  /** The keys that both kinds of chain generate, and the only ones that an Ethereum wallet takes. */
  predicate ValidKey(key: Key) {
    |key| == 32 && 0 < BigEndian(key) < CurveOrder
  }

  function TrimPrefix(s: string, prefix: string): string {
    if prefix <= s then s[|prefix|..] else s
  }

  function DecodeKey(endpoint: Endpoint, privateKey: string): Option<Key> {
    match endpoint
    case CosmosNode(_) => HexDecode(privateKey)
    case EthereumNode(_, _, _) =>
      var key := HexDecode(TrimPrefix(privateKey, "0x"));
      if key.Some? && ValidKey(key.value) then key else None
  }

  lemma DigitsHaveNoPrefix(s: string)
    requires HexDecode(s).Some?
    ensures TrimPrefix(s, "0x") == s
  {
    HexDecodable(s);
    if |s| >= 2 {
      assert HexValue(s[1]).Some?;
    }
  }

  /** A generated key is read back as it is by every kind of chain. */
  lemma KeyRoundTrip(endpoint: Endpoint, key: Key)
    requires ValidKey(key)
    ensures DecodeKey(endpoint, HexEncode(key)) == Some(key)
  {
    HexRoundTrip(key);
    DigitsHaveNoPrefix(HexEncode(key));
  }

  /** Only an Ethereum chain reads a key with 0x before it, and only it insists on a valid key. */
  lemma PrefixedKey(cosmos: Endpoint, node: Endpoint, digits: string)
    requires cosmos.CosmosNode? && node.EthereumNode?
    ensures DecodeKey(cosmos, "0x" + digits) == None
    ensures DecodeKey(cosmos, digits) == HexDecode(digits)
    ensures && (DecodeKey(node, "0x" + digits).Some? <==> HexDecode(digits).Some? && ValidKey(HexDecode(digits).value))
            && (DecodeKey(node, "0x" + digits).Some? ==> DecodeKey(node, "0x" + digits) == HexDecode(digits))
  {
    HexDecodable("0x" + digits);
    assert ("0x" + digits)[1] == 'x';
    assert ("0x" + digits)[2..] == digits;
  }

  /** The first byte of a key counts most. */
  lemma {:induction false} BigEndianFirst(first: Byte, rest: Key)
    ensures BigEndian([first] + rest) == first * Pow(256, |rest|) + BigEndian(rest)
  {
    if rest == [] {
      assert ([first] + rest)[..0] == [];
    } else {
      var n := |rest| - 1;
      assert ([first] + rest)[..n + 1] == [first] + rest[..n];
      BigEndianFirst(first, rest[..n]);
      assert first * (256 * Pow(256, n)) == 256 * (first * Pow(256, n));
    }
  }

  /** Two chains that can read an entry read the same key. */
  lemma KeysAgree(e: Endpoint, f: Endpoint, privateKey: string)
    requires DecodeKey(e, privateKey).Some? && DecodeKey(f, privateKey).Some?
    ensures DecodeKey(e, privateKey) == DecodeKey(f, privateKey)
  {
    if e.CosmosNode? || f.CosmosNode? {
      DigitsHaveNoPrefix(privateKey);
    }
  }

  // Resolution, as functions.

  function EndpointOf(c: ChainConfig): Option<Endpoint> {
    if c.chainType == "cosmos" then Some(CosmosNode(c.grpcAddr))
    else if c.chainType == "ethereum" then Some(EthereumNode(c.rpcAddr, c.ics26Address, c.relayerHelperAddress))
    else None
  }

  function KeysOf(wallets: seq<WalletConfig>): map<string, string> {
    if wallets == [] then map[]
    else
      var n := |wallets| - 1;
      KeysOf(wallets[..n])[wallets[n].walletID := wallets[n].privateKey]
  }

  function ClientsOf(clients: seq<ClientConfig>): map<string, ClientCounterparty> {
    if clients == [] then map[]
    else
      var c := clients[|clients| - 1];
      var counterparty := ClientCounterparty(c.counterpartyClientID, c.counterpartyChainID);
      ClientsOf(clients[..|clients| - 1])[c.clientID := counterparty]
  }

  function KeyFor(endpoint: Endpoint, keys: map<string, string>, id: string): Result<Key, ResolveError> {
    if id !in keys then Err(WalletNotFound)
    else if DecodeKey(endpoint, keys[id]).None? then Err(InvalidKey)
    else Ok(DecodeKey(endpoint, keys[id]).value)
  }

  function WalletsOf(endpoint: Endpoint, keys: map<string, string>, ids: seq<string>)
    : Result<map<string, Key>, ResolveError>
  {
    if ids == [] then Ok(map[])
    else
      var id := ids[|ids| - 1];
      match WalletsOf(endpoint, keys, ids[..|ids| - 1])
      case Err(e) => Err(e)
      case Ok(wallets) =>
        match KeyFor(endpoint, keys, id)
        case Err(e) => Err(e)
        case Ok(key) => Ok(wallets[id := key])
  }

  function ResolveChain(dial: Dial, keys: map<string, string>, c: ChainConfig): Result<ChainState, ResolveError> {
    match EndpointOf(c)
    case None => Err(UnsupportedChainType)
    case Some(endpoint) =>
      if !dial(c.chainID, endpoint) then Err(ChainUnavailable)
      else
        match WalletsOf(endpoint, keys, c.walletIDs)
        case Err(e) => Err(e)
        case Ok(wallets) => Ok(ChainState(c.chainID, endpoint, ClientsOf(c.clients), wallets))
  }

  function ResolveChains(dial: Dial, keys: map<string, string>, chains: seq<ChainConfig>)
    : Result<seq<ChainState>, ResolveError>
  {
    if chains == [] then Ok([])
    else
      match ResolveChains(dial, keys, chains[..|chains| - 1])
      case Err(e) => Err(e)
      case Ok(states) =>
        match ResolveChain(dial, keys, chains[|chains| - 1])
        case Err(e) => Err(e)
        case Ok(state) => Ok(states + [state])
  }

  function ChainsById(states: seq<ChainState>): map<string, ChainState> {
    if states == [] then map[]
    else
      var n := |states| - 1;
      ChainsById(states[..n])[states[n].chainID := states[n]]
  }

  function Connections(states: seq<ChainState>): map<string, ClientCounterparty> {
    if states == [] then map[]
    else
      var n := |states| - 1;
      Connections(states[..n]) + states[n].clients
  }

  function Resolve(dial: Dial, s: Settings): Result<NetworkState, ResolveError> {
    match ResolveChains(dial, KeysOf(s.wallets), s.chains)
    case Err(e) => Err(e)
    case Ok(states) => Ok(NetworkState(ChainsById(states), Connections(states), s.relayerGRPCAddr))
  }

  /** An error at one wallet or chain is the result of the whole. */
  lemma {:induction false} WalletsStop(endpoint: Endpoint, keys: map<string, string>, ids: seq<string>, i: nat)
    requires i <= |ids|
    ensures var r := WalletsOf(endpoint, keys, ids[..i]); r.Err? ==> WalletsOf(endpoint, keys, ids) == r
  {
    if i == |ids| {
      assert ids[..i] == ids;
    } else {
      assert ids[..|ids| - 1][..i] == ids[..i];
      WalletsStop(endpoint, keys, ids[..|ids| - 1], i);
    }
  }

  lemma {:induction false} ChainsStop(dial: Dial, keys: map<string, string>, chains: seq<ChainConfig>, i: nat)
    requires i <= |chains|
    ensures var r := ResolveChains(dial, keys, chains[..i]); r.Err? ==> ResolveChains(dial, keys, chains) == r
  {
    if i == |chains| {
      assert chains[..i] == chains;
    } else {
      assert chains[..|chains| - 1][..i] == chains[..i];
      ChainsStop(dial, keys, chains[..|chains| - 1], i);
    }
  }

  // Resolution, as the program does it.

  class Chain {
    const chainID: string
    const endpoint: Endpoint
    var clients: map<string, ClientCounterparty>
    var wallets: map<string, Key>

    ghost function State(): ChainState
      reads this
    {
      ChainState(chainID, endpoint, clients, wallets)
    }

    constructor (chainID: string, endpoint: Endpoint)
      ensures State() == ChainState(chainID, endpoint, map[], map[])
    {
      this.chainID, this.endpoint := chainID, endpoint;
      clients, wallets := map[], map[];
    }

    method AddClient(clientID: string, counterparty: ClientCounterparty)
      modifies this
      ensures State() == old(State()).(clients := old(clients)[clientID := counterparty])
    {
      clients := clients[clientID := counterparty];
    }

    method AddWallet(walletID: string, privateKeyHex: string) returns (ok: bool)
      modifies this
      ensures ok <==> DecodeKey(endpoint, privateKeyHex).Some?
      ensures ok ==>
                State() == old(State()).(wallets := old(wallets)[walletID := DecodeKey(endpoint, privateKeyHex).value])
      ensures !ok ==> State() == old(State())
    {
      var key := DecodeKey(endpoint, privateKeyHex);
      if key.None? {
        return false;
      }
      wallets := wallets[walletID := key.value];
      return true;
    }

    method GetWallet(walletID: string) returns (key: Option<Key>)
      ensures key == if walletID in wallets then Some(wallets[walletID]) else None
    {
      return if walletID in wallets then Some(wallets[walletID]) else None;
    }

    /** The key is what the random source came up with, if it did. */
    method GenerateWallet(walletID: string, key: Option<Key>) returns (ok: bool)
      modifies this
      ensures ok == key.Some?
      ensures State() == if ok then old(State()).(wallets := old(wallets)[walletID := key.value]) else old(State())
    {
      if key.None? {
        return false;
      }
      wallets := wallets[walletID := key.value];
      return true;
    }
  }

  ghost function States(chains: seq<Chain>): seq<ChainState>
    reads chains
  {
    seq(|chains|, i reads chains requires 0 <= i < |chains| => chains[i].State())
  }

  lemma StatesAppend(chains: seq<Chain>, chain: Chain)
    ensures States(chains + [chain]) == States(chains) + [chain.State()]
  {
  }

  ghost function MapStates(chains: map<string, Chain>): map<string, ChainState>
    reads chains.Values
  {
    map id | id in chains :: chains[id].State()
  }

  lemma MapStatesUpdate(chains: map<string, Chain>, id: string, chain: Chain)
    ensures MapStates(chains[id := chain]) == MapStates(chains)[id := chain.State()]
  {
  }

  class Network {
    var chains: map<string, Chain>
    var connections: map<string, ClientCounterparty>
    var relayerGRPCAddr: string

    ghost function State(): NetworkState
      reads this, chains.Values
    {
      NetworkState(MapStates(chains), connections, relayerGRPCAddr)
    }

    ghost predicate Valid()
      reads this
    {
      forall id :: id in chains ==> chains[id].chainID == id
    }

    constructor (chains: map<string, Chain>, connections: map<string, ClientCounterparty>, relayerGRPCAddr: string)
      ensures this.chains == chains && this.connections == connections && this.relayerGRPCAddr == relayerGRPCAddr
    {
      this.chains, this.connections, this.relayerGRPCAddr := chains, connections, relayerGRPCAddr;
    }

    static method BuildNetwork(list: seq<Chain>, relayerGRPCAddr: string) returns (network: Network)
      ensures fresh(network)
      ensures forall id :: id in network.chains ==> network.chains[id] in list && network.chains[id].chainID == id
      ensures network.State() == NetworkState(ChainsById(States(list)), Connections(States(list)), relayerGRPCAddr)
    {
      var chains: map<string, Chain> := map[];
      var connections := map[];
      var i := 0;
      while i < |list|
        invariant 0 <= i <= |list|
        invariant forall id :: id in chains ==> chains[id] in list && chains[id].chainID == id
        invariant MapStates(chains) == ChainsById(States(list[..i]))
        invariant connections == Connections(States(list[..i]))
      {
        var chain := list[i];
        assert States(list[..i + 1]) == States(list[..i]) + [chain.State()];
        MapStatesUpdate(chains, chain.chainID, chain);
        chains := chains[chain.chainID := chain];
        connections := connections + chain.clients;
        i := i + 1;
      }
      assert list[..i] == list;
      network := new Network(chains, connections, relayerGRPCAddr);
    }

    method GetChain(chainID: string) returns (chain: Option<Chain>)
      ensures chain == if chainID in chains then Some(chains[chainID]) else None
    {
      return if chainID in chains then Some(chains[chainID]) else None;
    }
  }

  class Config {
    var chains: seq<ChainConfig>
    var wallets: seq<WalletConfig>
    var relayerGRPCAddr: string

    ghost function State(): Settings
      reads this
    {
      Settings(chains, wallets, relayerGRPCAddr)
    }

    constructor (chains: seq<ChainConfig>, wallets: seq<WalletConfig>, relayerGRPCAddr: string)
      ensures State() == Settings(chains, wallets, relayerGRPCAddr)
    {
      this.chains, this.wallets, this.relayerGRPCAddr := chains, wallets, relayerGRPCAddr;
    }

    static method AddClients(chain: Chain, clients: seq<ClientConfig>)
      requires chain.clients == map[]
      modifies chain
      ensures chain.State() == old(chain.State()).(clients := ClientsOf(clients))
    {
      var i := 0;
      while i < |clients|
        invariant 0 <= i <= |clients|
        invariant chain.State() == old(chain.State()).(clients := ClientsOf(clients[..i]))
      {
        assert clients[..i + 1][..i] == clients[..i];
        var client := clients[i];
        chain.AddClient(client.clientID, ClientCounterparty(client.counterpartyClientID, client.counterpartyChainID));
        i := i + 1;
      }
      assert clients[..i] == clients;
    }

    static method AddWallets(chain: Chain, keys: map<string, string>, ids: seq<string>)
      returns (failed: Option<ResolveError>)
      requires chain.wallets == map[]
      modifies chain
      ensures chain.State() == old(chain.State()).(wallets := chain.wallets)
      ensures WalletsOf(chain.endpoint, keys, ids) == if failed.Some? then Err(failed.value) else Ok(chain.wallets)
    {
      var i := 0;
      while i < |ids|
        invariant 0 <= i <= |ids|
        invariant chain.State() == old(chain.State()).(wallets := chain.wallets)
        invariant WalletsOf(chain.endpoint, keys, ids[..i]) == Ok(chain.wallets)
      {
        assert ids[..i + 1][..i] == ids[..i];
        WalletsStop(chain.endpoint, keys, ids, i + 1);
        if ids[i] !in keys {
          return Some(WalletNotFound);
        }
        var added := chain.AddWallet(ids[i], keys[ids[i]]);
        if !added {
          return Some(InvalidKey);
        }
        i := i + 1;
      }
      assert ids[..i] == ids;
      return None;
    }

    /** One entry of the list of chains. */
    static method ToChain(dial: Dial, keys: map<string, string>, c: ChainConfig)
      returns (r: Result<Chain, ResolveError>)
      ensures r.Ok? ==> fresh(r.value) && ResolveChain(dial, keys, c) == Ok(r.value.State())
      ensures r.Err? ==> ResolveChain(dial, keys, c) == Err(r.error)
    {
      var endpoint := EndpointOf(c);
      if endpoint.None? {
        return Err(UnsupportedChainType);
      }
      if !dial(c.chainID, endpoint.value) {
        return Err(ChainUnavailable);
      }
      var chain := new Chain(c.chainID, endpoint.value);
      AddClients(chain, c.clients);
      var failed := AddWallets(chain, keys, c.walletIDs);
      if failed.Some? {
        return Err(failed.value);
      }
      return Ok(chain);
    }

    static method ToChains(dial: Dial, keys: map<string, string>, chains: seq<ChainConfig>)
      returns (r: Result<seq<Chain>, ResolveError>)
      ensures r.Ok? ==> forall c :: c in r.value ==> fresh(c)
      ensures r.Ok? ==> ResolveChains(dial, keys, chains) == Ok(States(r.value))
      ensures r.Err? ==> ResolveChains(dial, keys, chains) == Err(r.error)
    {
      var list: seq<Chain> := [];
      assert States(list) == [];
      var i := 0;
      while i < |chains|
        invariant 0 <= i <= |chains|
        invariant forall c :: c in list ==> fresh(c)
        invariant ResolveChains(dial, keys, chains[..i]) == Ok(States(list))
      {
        assert chains[..i + 1][..i] == chains[..i];
        ChainsStop(dial, keys, chains, i + 1);
        ghost var before := States(list);
        var chain := ToChain(dial, keys, chains[i]);
        if chain.Err? {
          return Err(chain.error);
        }
        assert States(list) == before;
        StatesAppend(list, chain.value);
        list := list + [chain.value];
        i := i + 1;
      }
      assert chains[..i] == chains;
      return Ok(list);
    }

    method ToNetwork(dial: Dial) returns (r: Result<Network, ResolveError>)
      ensures r.Ok? ==> fresh(r.value) && r.value.Valid()
      ensures r.Ok? ==> forall id :: id in r.value.chains ==> fresh(r.value.chains[id])
      ensures r.Ok? ==> Resolve(dial, State()) == Ok(r.value.State())
      ensures r.Err? ==> Resolve(dial, State()) == Err(r.error)
    {
      var keys := map[];
      var i := 0;
      while i < |wallets|
        invariant 0 <= i <= |wallets|
        invariant keys == KeysOf(wallets[..i])
      {
        assert wallets[..i + 1][..i] == wallets[..i];
        keys := keys[wallets[i].walletID := wallets[i].privateKey];
        i := i + 1;
      }
      assert wallets[..i] == wallets;
      var list := ToChains(dial, keys, chains);
      if list.Err? {
        return Err(list.error);
      }
      var network := Network.BuildNetwork(list.value, relayerGRPCAddr);
      return Ok(network);
    }
  }
}
