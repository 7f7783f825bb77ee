/** The commands of the signing tool as values, and the argument-count
    constraints their declarations place on the list-valued arguments.
    Keys, hashes and the three protocol messages are opaque here: only
    how many of them a command receives is modelled. */
module CliOptions {
  import opened NetworkSelector

  /** A Solana address, treated as an opaque byte string. */
  datatype Pubkey = Pubkey(bytes: seq<bv8>)

  /** A block hash, treated as an opaque byte string. */
  datatype Hash = Hash(bytes: seq<bv8>)

  /** A transfer amount: a 64-bit floating-point value that the commands only
      pass through, kept as its bit pattern. */
  datatype Amount = Amount(bits: bv64)

  /** The three protocol messages, opaque: their decoding is not part of
      this model. */
  datatype AggMessage1 = AggMessage1(encoded: seq<bv8>)
  datatype SecretAggStepOne = SecretAggStepOne(encoded: seq<bv8>)
  datatype PartialSignature = PartialSignature(encoded: seq<bv8>)

  /** One value per command of the tool, with that command's arguments. */
  datatype Options =
    | Generate
    | Balance(address: Pubkey, net: Network)
    | Airdrop(to: Pubkey, amount: Amount, net: Network)
    | SendSingle(keypair: string, amount: Amount, to: Pubkey, net: Network, memo: Option<string>)
    | RecentBlockHash(net: Network)
    | AggregateKeys(keys: seq<Pubkey>)
    | AggSendStepOne(keypair: string)
    | AggSendStepTwo(keypair: string, amount: Amount, to: Pubkey, memo: Option<string>,
                     recentBlockHash: Hash, keys: seq<Pubkey>,
                     firstMessages: seq<AggMessage1>, secretState: SecretAggStepOne)
    | AggregateSignaturesAndBroadcast(signatures: seq<PartialSignature>, amount: Amount,
                                      to: Pubkey, memo: Option<string>, recentBlockHash: Hash,
                                      net: Network, keys: seq<Pubkey>)

  /** The argument counts the command declarations require: at least two keys
      wherever keys are listed, at least one first-round message, and at least
      two partial signatures. */
  predicate WellFormed(o: Options) {
    match o
    case AggregateKeys(keys) => |keys| >= 2
    case AggSendStepTwo(_, _, _, _, _, keys, firstMessages, _) =>
      |keys| >= 2 && |firstMessages| >= 1
    case AggregateSignaturesAndBroadcast(signatures, _, _, _, _, _, keys) =>
      |signatures| >= 2 && |keys| >= 2
    case _ => true
  }

  /** A list-valued argument: its name, the least number of values its
      declaration accepts, and how many it was given. */
  datatype ListArg = ListArg(name: string, minimum: nat, count: nat)

  predicate Satisfied(a: ListArg) {
    a.count >= a.minimum
  }

  /** The list-valued arguments of a command, in declaration order, each with
      the minimum its `num_args` declaration gives and the count it received.
      Only the three aggregate-signing commands that take lists have any. */
  function ListArgs(o: Options): (r: seq<ListArg>)
    ensures |r| > 0 <==> o.AggregateKeys? || o.AggSendStepTwo? || o.AggregateSignaturesAndBroadcast?
    ensures forall a :: a in r && a.name == "keys" ==> a.minimum == 2 && a.count == |o.keys|
    ensures forall a :: a in r ==> a.minimum >= 1
  {
    match o
    case AggregateKeys(keys) => [ListArg("keys", 2, |keys|)]
    case AggSendStepTwo(_, _, _, _, _, keys, firstMessages, _) =>
      [ListArg("keys", 2, |keys|), ListArg("first_messages", 1, |firstMessages|)]
    case AggregateSignaturesAndBroadcast(signatures, _, _, _, _, _, keys) =>
      [ListArg("signatures", 2, |signatures|), ListArg("keys", 2, |keys|)]
    case _ => []
  }

  /** The first argument, in the order given, that has fewer values than it
      accepts, if any. */
  function FirstShort(args: seq<ListArg>): (r: Option<ListArg>)
    ensures r.None? <==> forall i :: 0 <= i < |args| ==> Satisfied(args[i])
    ensures r.Some? ==> exists k :: 0 <= k < |args| && args[k] == r.value && !Satisfied(args[k])
                                     && forall j :: 0 <= j < k ==> Satisfied(args[j])
  {
    if args == [] then None
    else if !Satisfied(args[0]) then Some(args[0])
    else FirstShort(args[1..])
  }

  /** The count check a command's declarations impose: `None` when every
      list-valued argument has enough values, else the one reported. */
  function CheckCounts(o: Options): (r: Option<ListArg>)
    ensures r.Some? ==> r.value.count < r.value.minimum
  {
    FirstShort(ListArgs(o))
  }

  /** The count check passes exactly on well-formed commands. */
  lemma CheckCountsIff(o: Options)
    ensures CheckCounts(o).None? <==> WellFormed(o)
  {
    var args := ListArgs(o);
    if CheckCounts(o).None? {
      forall i | 0 <= i < |args| ensures Satisfied(args[i]) { }
      match o
      case AggregateKeys(_) => assert Satisfied(args[0]);
      case AggSendStepTwo(_, _, _, _, _, _, _, _) => assert Satisfied(args[0]) && Satisfied(args[1]);
      case AggregateSignaturesAndBroadcast(_, _, _, _, _, _, _) => assert Satisfied(args[0]) && Satisfied(args[1]);
      case _ =>
    }
  }

  /** Every command that takes a key list refuses one with fewer than two
      addresses. */
  lemma TooFewKeysRefused(o: Options)
    requires o.AggregateKeys? || o.AggSendStepTwo? || o.AggregateSignaturesAndBroadcast?
    requires |o.keys| < 2
    ensures !WellFormed(o)
    ensures CheckCounts(o).Some?
  {
    CheckCountsIff(o);
  }

  /** The refusal of a single-address key list names the `keys` argument. */
  lemma SingleKeyRefused(k: Pubkey)
    ensures CheckCounts(AggregateKeys([k])) == Some(ListArg("keys", 2, 1))
  {
  }

  /** The network a command targets, when it takes one; an absent `--net`
      falls back to the default word, which is parsed like any other. */
  function NetArg(given: Option<string>): (r: Result<Network>)
    ensures given.None? ==> r == Ok(Testnet)
    ensures given.Some? && r.Ok? ==> EqualIgnoringCase(given.value, Name(r.value))
    ensures given.Some? && r.Err? ==> r.error == WrongNetwork(given.value)
    ensures given.Some? && r.Err? ==> forall n: Network :: !EqualIgnoringCase(given.value, Name(n))
  {
    match given
    case None => DefaultNetwork(); FromStr(DefaultNetworkName)
    case Some(word) => FromStr(word)
  }

  /** Without `--net`, a command talks to the test cluster's endpoint. */
  lemma DefaultEndpoint()
    ensures NetArg(None).Ok?
    ensures ClusterUrl(NetArg(None).value) == "https://api.testnet.solana.com"
  {
  }
}
