/** The generate-wallet command: its edit of the configuration changes the first entries with an id, whereas the
    configuration resolves to the last ones. */
module GenerateWallet {
  import opened Wrappers
  import opened Encoding
  import opened NetworkConfig

  // The edit.

  /** The position of the first chain with the id, or the length of the list. */
  function FirstChain(chains: seq<ChainConfig>, id: string): (i: nat)
    ensures i <= |chains|
    ensures i < |chains| ==> chains[i].chainID == id
    ensures forall j :: 0 <= j < i ==> chains[j].chainID != id
  {
    if chains == [] || chains[0].chainID == id then 0 else 1 + FirstChain(chains[1..], id)
  }

  function FirstWallet(wallets: seq<WalletConfig>, id: string): (i: nat)
    ensures i <= |wallets|
    ensures i < |wallets| ==> wallets[i].walletID == id
    ensures forall j :: 0 <= j < i ==> wallets[j].walletID != id
  {
    if wallets == [] || wallets[0].walletID == id then 0 else 1 + FirstWallet(wallets[1..], id)
  }

  function ListWallet(chains: seq<ChainConfig>, chainID: string, walletID: string): seq<ChainConfig> {
    var i := FirstChain(chains, chainID);
    if i == |chains| then chains else chains[i := chains[i].(walletIDs := chains[i].walletIDs + [walletID])]
  }

  function SetKey(wallets: seq<WalletConfig>, id: string, privateKey: string): seq<WalletConfig> {
    var i := FirstWallet(wallets, id);
    if i == |wallets| then wallets + [WalletConfig(id, privateKey)]
    else wallets[i := wallets[i].(privateKey := privateKey)]
  }

  function Edit(s: Settings, chainID: string, walletID: string, key: Key): Settings {
    s.(chains := ListWallet(s.chains, chainID, walletID), wallets := SetKey(s.wallets, walletID, HexEncode(key)))
  }

  lemma FirstChainIs(chains: seq<ChainConfig>, id: string, i: nat)
    requires i <= |chains| && forall j :: 0 <= j < i ==> chains[j].chainID != id
    requires i < |chains| ==> chains[i].chainID == id
    ensures FirstChain(chains, id) == i
  {
  }

  lemma FirstWalletIs(wallets: seq<WalletConfig>, id: string, i: nat)
    requires i <= |wallets| && forall j :: 0 <= j < i ==> wallets[j].walletID != id
    requires i < |wallets| ==> wallets[i].walletID == id
    ensures FirstWallet(wallets, id) == i
  {
  }

  datatype CommandError = NotResolved(error: ResolveError) | ChainNotFound | WalletExists | NotGenerated | NotSaved

  /** The network as the command's own copy of it stands after the key was generated. */
  function InMemory(n: NetworkState, chainID: string, walletID: string, key: Key): NetworkState
    requires chainID in n.chains
  {
    var chain := n.chains[chainID];
    n.(chains := n.chains[chainID := chain.(wallets := chain.wallets[walletID := key])])
  }

  /** What must hold for the command to generate a key. */
  predicate Allowed(dial: Dial, s: Settings, chainID: string, walletID: string) {
    var n := Resolve(dial, s);
    n.Ok? && chainID in n.value.chains && walletID !in n.value.chains[chainID].wallets
  }

  /** The command up to funding. `key` is what the random source came up with, and `saveFails` says whether the file
      could not be written. */
  method GenerateWalletCmd(cfg: Config, dial: Dial, chainID: string, walletID: string, key: Option<Key>,
                           saveFails: bool)
    returns (r: Result<Network, CommandError>)
    modifies cfg
    ensures r.Ok? <==> Allowed(dial, old(cfg.State()), chainID, walletID) && key.Some? && !saveFails
    ensures r.Ok? || r.error == NotSaved ==>
              && Allowed(dial, old(cfg.State()), chainID, walletID) && key.Some?
              && cfg.State() == Edit(old(cfg.State()), chainID, walletID, key.value)
    ensures r.Ok? ==>
              r.value.State() == InMemory(Resolve(dial, old(cfg.State())).value, chainID, walletID, key.value)
    ensures r.Err? && r.error != NotSaved ==> cfg.State() == old(cfg.State())
  {
    var resolved := cfg.ToNetwork(dial);
    if resolved.Err? {
      return Err(NotResolved(resolved.error));
    }
    var network := resolved.value;
    var refused := GenerateOn(network, chainID, walletID, key);
    if refused.Some? {
      return Err(refused.value);
    }
    EditConfig(cfg, chainID, walletID, key.value);
    if saveFails {
      return Err(NotSaved);
    }
    return Ok(network);
  }

  /** The part of the command that works on the network. */
  method GenerateOn(network: Network, chainID: string, walletID: string, key: Option<Key>)
    returns (refused: Option<CommandError>)
    requires network.Valid()
    modifies network.chains.Values
    ensures var n := old(network.State());
            && (refused.None? <==> chainID in n.chains && walletID !in n.chains[chainID].wallets && key.Some?)
            && (refused.None? ==> network.State() == InMemory(n, chainID, walletID, key.value))
            && refused != Some(NotSaved)
  {
    var found := network.GetChain(chainID);
    if found.None? {
      return Some(ChainNotFound);
    }
    var chain := found.value;
    var wallet := chain.GetWallet(walletID);
    if wallet.Some? {
      return Some(WalletExists);
    }
    var generated := chain.GenerateWallet(walletID, key);
    if !generated {
      return Some(NotGenerated);
    }
    assert forall id :: id in network.chains && id != chainID ==> network.chains[id] != chain;
    return None;
  }

  method EditConfig(cfg: Config, chainID: string, walletID: string, key: Key)
    modifies cfg
    ensures cfg.State() == Edit(old(cfg.State()), chainID, walletID, key)
  {
    var i := 0;
    while i < |cfg.chains|
      invariant 0 <= i <= |cfg.chains|
      invariant cfg.State() == old(cfg.State())
      invariant forall j :: 0 <= j < i ==> cfg.chains[j].chainID != chainID
    {
      if cfg.chains[i].chainID == chainID {
        FirstChainIs(cfg.chains, chainID, i);
        cfg.chains := cfg.chains[i := cfg.chains[i].(walletIDs := cfg.chains[i].walletIDs + [walletID])];
        break;
      }
      i := i + 1;
    }
    assert cfg.chains == ListWallet(old(cfg.chains), chainID, walletID) by {
      FirstChainIs(old(cfg.chains), chainID, i);
    }
    var walletExists := false;
    i := 0;
    while i < |cfg.wallets|
      invariant 0 <= i <= |cfg.wallets| && !walletExists
      invariant cfg.State() == old(cfg.State()).(chains := ListWallet(old(cfg.chains), chainID, walletID))
      invariant forall j :: 0 <= j < i ==> cfg.wallets[j].walletID != walletID
    {
      if cfg.wallets[i].walletID == walletID {
        cfg.wallets := cfg.wallets[i := cfg.wallets[i].(privateKey := HexEncode(key))];
        walletExists := true;
        break;
      }
      i := i + 1;
    }
    FirstWalletIs(old(cfg.wallets), walletID, i);
    if !walletExists {
      cfg.wallets := cfg.wallets + [WalletConfig(walletID, HexEncode(key))];
    }
  }
}
