/** The runtime settings: three environments, two chain records, and the
    choice of environment from the process environment with a fallback to
    development. */
module Config {
  import opened Js

  datatype NativeCurrency = NativeCurrency(name: string, symbol: string, decimals: nat)

  /** The wallet_addEthereumChain-style description of a chain. */
  datatype ChainDetail = ChainDetail(
    chainId: string,
    chainName: string,
    nativeCurrency: NativeCurrency,
    rpcUrls: seq<string>,
    blockExplorerUrls: seq<string>,
    iconUrls: seq<string>)

  datatype ChainConfig = ChainConfig(chainId: nat, rpcUrls: map<nat, string>, supportedChains: seq<ChainDetail>)

  datatype Settings = Settings(apiDomain: string, environment: string, chain: ChainConfig)

  const ETHER := NativeCurrency("Ether", "ETH", 18)
  const BASE_ICON := "https://avatars.githubusercontent.com/u/108554348?s=200&v=4"

  const BASE_SEPOLIA_CONFIG := ChainConfig(
    84532,
    map[84532 := "https://sepolia.base.org"],
    [ChainDetail("0x14a34", "Base Sepolia", ETHER, ["https://sepolia.base.org"],
                 ["https://sepolia.basescan.org"], [BASE_ICON])])

  const BASE_MAINNET_CONFIG := ChainConfig(
    8453,
    map[8453 := "https://mainnet.base.org"],
    [ChainDetail("0x2105", "Base", ETHER, ["https://mainnet.base.org"],
                 ["https://basescan.org"], [BASE_ICON])])

  const DEVELOPMENT := Settings("http://localhost:5001", "development", BASE_SEPOLIA_CONFIG)
  const STAGING := Settings("https://staging-api.slicehub.com", "staging", BASE_SEPOLIA_CONFIG)
  const PRODUCTION := Settings("https://api.slicehub.com", "production", BASE_MAINNET_CONFIG)

  /** `NEXT_PUBLIC_APP_ENV || NODE_ENV || "development"`: the first variable
      that is set and non-empty. */
  function EnvKey(appEnv: Option<string>, nodeEnv: Option<string>): (r: string)
    ensures Truthy(appEnv) ==> r == appEnv.value
    ensures !Truthy(appEnv) && Truthy(nodeEnv) ==> r == nodeEnv.value
    ensures !Truthy(appEnv) && !Truthy(nodeEnv) ==> r == "development"
    ensures r != ""
  {
    if Truthy(appEnv) then appEnv.value
    else if Truthy(nodeEnv) then nodeEnv.value
    else "development"
  }

  /** `configs[env] || configs.development`. */
  function SettingsFor(key: string): (r: Settings)
    // A known key selects its own record, whose environment names it.
    ensures key in {"development", "staging", "production"} ==> r.environment == key
    // Any other key selects development.
    ensures key !in {"development", "staging", "production"} ==> r == DEVELOPMENT
    ensures r in {DEVELOPMENT, STAGING, PRODUCTION}
  {
    if key == "staging" then STAGING
    else if key == "production" then PRODUCTION
    else DEVELOPMENT
  }

  /** The exported `settings`. */
  function SelectedSettings(appEnv: Option<string>, nodeEnv: Option<string>): (r: Settings)
    ensures r in {DEVELOPMENT, STAGING, PRODUCTION}
    // A set NEXT_PUBLIC_APP_ENV decides; its record is chosen exactly when it names one.
    ensures Truthy(appEnv) ==> (r.environment == appEnv.value <==> appEnv.value in {"development", "staging", "production"})
    // A set but unknown NEXT_PUBLIC_APP_ENV selects development; NODE_ENV is not consulted.
    ensures Truthy(appEnv) && appEnv.value !in {"development", "staging", "production"} ==> r == DEVELOPMENT
    // Only when NEXT_PUBLIC_APP_ENV is unset or empty does NODE_ENV decide, in the same way.
    ensures !Truthy(appEnv) && Truthy(nodeEnv) ==>
              (r.environment == nodeEnv.value <==> nodeEnv.value in {"development", "staging", "production"})
    ensures !Truthy(appEnv) && Truthy(nodeEnv) && nodeEnv.value !in {"development", "staging", "production"} ==>
              r == DEVELOPMENT
    ensures !Truthy(appEnv) && !Truthy(nodeEnv) ==> r == DEVELOPMENT
  {
    SettingsFor(EnvKey(appEnv, nodeEnv))
  }

  /** The value of a hexadecimal digit, or None. */
  function HexDigit(c: char): Option<nat> {
    if '0' <= c <= '9' then Some(c as int - '0' as int)
    else if 'a' <= c <= 'f' then Some(c as int - 'a' as int + 10)
    else if 'A' <= c <= 'F' then Some(c as int - 'A' as int + 10)
    else None
  }

  function HexDigits(s: string): Option<nat>
    decreases |s|
  {
    if s == [] then None
    else
      var last := HexDigit(s[|s| - 1]);
      if last.None? then None
      else if |s| == 1 then last
      else match HexDigits(s[..|s| - 1])
        case None => None
        case Some(v) => Some(16 * v + last.value)
  }

  /** A "0x"-prefixed hexadecimal number. */
  function ParseHex(s: string): Option<nat> {
    if |s| < 2 || s[..2] != "0x" then None else HexDigits(s[2..])
  }

  /** A chain record is self-consistent: it describes one chain, whose hex
      id is its numeric id and whose entry in the RPC map is the RPC URL the
      description lists first. */
  predicate Consistent(c: ChainConfig) {
    && |c.supportedChains| == 1
    && ParseHex(c.supportedChains[0].chainId) == Some(c.chainId)
    && c.chainId in c.rpcUrls
    && |c.supportedChains[0].rpcUrls| > 0
    && c.rpcUrls[c.chainId] == c.supportedChains[0].rpcUrls[0]
  }

  lemma SepoliaConsistent()
    ensures Consistent(BASE_SEPOLIA_CONFIG)
  {
    var h1, h2, h3, h4, h5 := "1", "14", "14a", "14a3", "14a34";
    assert BASE_SEPOLIA_CONFIG.supportedChains[0].chainId[2..] == h5;
    assert h2[..1] == h1 && h3[..2] == h2 && h4[..3] == h3 && h5[..4] == h4;
    assert HexDigits(h2) == Some(20);
    assert HexDigits(h3) == Some(330);
    assert HexDigits(h4) == Some(5283);
  }

  lemma MainnetConsistent()
    ensures Consistent(BASE_MAINNET_CONFIG)
  {
    var h1, h2, h3, h4 := "2", "21", "210", "2105";
    assert BASE_MAINNET_CONFIG.supportedChains[0].chainId[2..] == h4;
    assert h2[..1] == h1 && h3[..2] == h2 && h4[..3] == h3;
    assert HexDigits(h2) == Some(33);
    assert HexDigits(h3) == Some(528);
  }

  /** Whatever the environment variables say, the selected settings run on
      Base Sepolia (84532) outside production and on Base (8453) in it, and
      their chain record is self-consistent. */
  lemma SelectedChain(appEnv: Option<string>, nodeEnv: Option<string>)
    ensures var s := SelectedSettings(appEnv, nodeEnv);
            && Consistent(s.chain)
            && (s.environment == "production" ==> s.chain.chainId == 8453)
            && (s.environment != "production" ==> s.chain.chainId == 84532)
            && s.environment in {"development", "staging", "production"}
  {
    SepoliaConsistent();
    MainnetConsistent();
  }
}
