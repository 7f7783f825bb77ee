/** The network selector of the multi-party Solana signing tool: the four
    clusters a command can target, the case-insensitive parser that turns a
    command-line word into one of them, and the fixed RPC endpoint of each. */
module NetworkSelector {

  /** The clusters a command can be pointed at. */
  datatype Network = Mainnet | Testnet | Devnet | Local

  /** The crate's error type. Only the variant the selector raises is part of
      this model; it carries the input exactly as the user typed it. */
  datatype Error = WrongNetwork(input: string)

  datatype Result<T> = Ok(value: T) | Err(error: Error)

  datatype Option<T> = None | Some(value: T)

  /** The word the command line uses for the default network. */
  const DefaultNetworkName: string := "testnet"

  // ---------------------------------------------------------------------
  // Case folding

  predicate IsAsciiUpper(c: char) {
    'A' <= c <= 'Z'
  }

  /** ASCII case folding of one character; every other character is kept. */
  function LowerChar(c: char): (d: char)
    ensures !IsAsciiUpper(d)
    ensures IsAsciiUpper(c) ==> d == "abcdefghijklmnopqrstuvwxyz"[c as int - 'A' as int]
    ensures !IsAsciiUpper(c) ==> d == c
  {
    if IsAsciiUpper(c) then (c as int + 32) as char else c
  }

  /** No character of `s` is an ASCII capital. */
  predicate IsLowerCase(s: string) {
    forall i :: 0 <= i < |s| ==> !IsAsciiUpper(s[i])
  }

  /** Lower-cases a string character by character. */
  function ToLower(s: string): (r: string)
    ensures |r| == |s|
    ensures forall i :: 0 <= i < |s| ==> r[i] == LowerChar(s[i])
  {
    if s == [] then [] else [LowerChar(s[0])] + ToLower(s[1..])
  }

  /** Two strings that differ at most in letter case. */
  predicate EqualIgnoringCase(s: string, t: string) {
    ToLower(s) == ToLower(t)
  }

  /** The lower-cased form of any string has no capitals. */
  lemma ToLowerIsLowerCase(s: string)
    ensures IsLowerCase(ToLower(s))
  {
  }

  /** A string with no capitals is its own lower-case form. */
  lemma ToLowerOfLowerCase(s: string)
    requires IsLowerCase(s)
    ensures ToLower(s) == s
  {
  }

  /** Lower-casing twice is lower-casing once. */
  lemma ToLowerIdempotent(s: string)
    ensures ToLower(ToLower(s)) == ToLower(s)
  {
  }

  // ---------------------------------------------------------------------
  // Names and parsing

  /** The canonical (lower-case) command-line word for each network. */
  function Name(n: Network): (name: string)
    ensures IsLowerCase(name)
    ensures 5 <= |name| <= 7
  {
    match n
    case Mainnet => "mainnet"
    case Testnet => "testnet"
    case Devnet => "devnet"
    case Local => "local"
  }

  /** Parses a network from a command-line word, ignoring letter case.
      Succeeds exactly when the lower-cased word is the name of a network,
      and then yields that network; otherwise the error carries the
      original word, not its lower-cased form. */
  function FromStr(s: string): (r: Result<Network>)
    ensures r.Ok? ==> Name(r.value) == ToLower(s)
    ensures r.Err? ==> r.error == WrongNetwork(s)
    ensures r.Err? ==> forall n: Network :: Name(n) != ToLower(s)
  {
    match ToLower(s)
    case "mainnet" => Ok(Mainnet)
    case "testnet" => Ok(Testnet)
    case "devnet" => Ok(Devnet)
    case "local" => Ok(Local)
    case _ => Err(WrongNetwork(s))
  }

  /** Distinct networks have distinct names. */
  lemma NameInjective(a: Network, b: Network)
    requires Name(a) == Name(b)
    ensures a == b
  {
  }

  /** `FromStr(s)` yields `n` if and only if `s` is `n`'s name up to case. */
  lemma FromStrIff(s: string, n: Network)
    ensures FromStr(s) == Ok(n) <==> ToLower(s) == Name(n)
  {
  }

  /** The canonical name of every network parses back to it. */
  lemma FromStrName(n: Network)
    ensures FromStr(Name(n)) == Ok(n)
  {
  }

  /** Parsing succeeds exactly on the names of the four networks, up to case. */
  lemma FromStrSucceedsIff(s: string)
    ensures FromStr(s).Ok? <==> exists n: Network :: EqualIgnoringCase(s, Name(n))
  {
  }

  /** Letter case does not matter: words that are equal up to case parse to
      the same network, or both fail (each error carrying its own word). */
  lemma FromStrIgnoresCase(s: string, t: string)
    requires EqualIgnoringCase(s, t)
    ensures FromStr(s).Ok? <==> FromStr(t).Ok?
    ensures FromStr(s).Ok? ==> FromStr(s) == FromStr(t)
    ensures FromStr(s).Err? ==> FromStr(s) == Err(WrongNetwork(s)) && FromStr(t) == Err(WrongNetwork(t))
  {
  }

  /** Parsing a word and parsing its lower-cased form agree on success. */
  lemma FromStrOfToLower(s: string)
    ensures FromStr(ToLower(s)).Ok? <==> FromStr(s).Ok?
    ensures FromStr(s).Ok? ==> FromStr(ToLower(s)) == FromStr(s)
  {
    ToLowerIdempotent(s);
    FromStrIgnoresCase(s, ToLower(s));
  }

  /** Mixed and upper case spellings are accepted. */
  lemma FromStrAcceptsAnyCase()
    ensures FromStr("DevNet") == Ok(Devnet)
    ensures FromStr("DEVNET") == Ok(Devnet)
    ensures FromStr("devnet") == Ok(Devnet)
  {
    assert ToLower("DevNet") == "devnet";
    assert ToLower("DEVNET") == "devnet";
    FromStrName(Devnet);
  }

  /** Unknown words, the empty word included, are refused, and the error
      keeps the word as typed rather than its lower-cased form. */
  lemma FromStrRejects()
    ensures FromStr("") == Err(WrongNetwork(""))
    ensures FromStr("Mainnet-Beta") == Err(WrongNetwork("Mainnet-Beta"))
  {
  }

  /** A word too short or too long to be a network name is refused. */
  lemma RejectsWrongLength(s: string)
    requires |s| < 5 || 7 < |s|
    ensures FromStr(s) == Err(WrongNetwork(s))
  {
  }

  // ---------------------------------------------------------------------
  // Endpoints

  /** The RPC endpoint of each cluster. The public clusters are reached over
      TLS; only the local validator is plain http on the loopback address. */
  function ClusterUrl(n: Network): (url: string)
    ensures n != Local ==> |url| > 8 && url[..8] == "https://"
    ensures n == Local ==> |url| > 17 && url[..17] == "http://127.0.0.1:"
  {
    match n
    case Mainnet => "https://api.mainnet-beta.solana.com"
    case Testnet => "https://api.testnet.solana.com"
    case Devnet => "https://api.devnet.solana.com"
    case Local => "http://127.0.0.1:8899"
  }

  /** Reads the cluster back from its endpoint; the inverse of ClusterUrl.
      A string that is no cluster's endpoint yields `None`. */
  function ClusterOfUrl(url: string): (r: Option<Network>)
    ensures r.Some? ==> ClusterUrl(r.value) == url
    ensures r.None? ==> forall n: Network :: ClusterUrl(n) != url
  {
    if url == ClusterUrl(Mainnet) then Some(Mainnet)
    else if url == ClusterUrl(Testnet) then Some(Testnet)
    else if url == ClusterUrl(Devnet) then Some(Devnet)
    else if url == ClusterUrl(Local) then Some(Local)
    else None
  }

  /** Every cluster's endpoint identifies that cluster. */
  lemma ClusterOfClusterUrl(n: Network)
    ensures ClusterOfUrl(ClusterUrl(n)) == Some(n)
  {
  }

  /** Distinct clusters have distinct endpoints: both are read back from the
      same string, so they are the same cluster. */
  lemma ClusterUrlInjective(a: Network, b: Network)
    requires ClusterUrl(a) == ClusterUrl(b)
    ensures a == b
  {
    ClusterOfClusterUrl(a);
    ClusterOfClusterUrl(b);
  }

  /** Name, then parse, then look up: the endpoint of the named cluster,
      whatever the letter case of the name. */
  lemma NameToEndpoint(n: Network, s: string)
    requires EqualIgnoringCase(s, Name(n))
    ensures FromStr(s).Ok? && ClusterUrl(FromStr(s).value) == ClusterUrl(n)
  {
    ToLowerOfLowerCase(Name(n));
    FromStrIff(s, n);
  }

  /** The default word parses to the test cluster and its endpoint. */
  lemma DefaultNetwork()
    ensures FromStr(DefaultNetworkName) == Ok(Testnet)
    ensures ClusterUrl(FromStr(DefaultNetworkName).value) == "https://api.testnet.solana.com"
  {
    FromStrName(Testnet);
  }
}
