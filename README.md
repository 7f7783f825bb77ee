# Network selector and command arity of the sol_mpc signing tool

`sol_mpc` lets several parties jointly sign one Solana transfer with an
aggregated Schnorr key. Its command-line layer, `src/cli.rs`, chooses the
cluster a command talks to and declares how many keys, first-round messages
and partial signatures the aggregate-signing commands take. This project
models that layer:

- `network.dfy`, module `NetworkSelector`: the `Network` enum (mainnet,
  testnet, devnet, local), its case-insensitive parser `FromStr` with the
  `WrongNetwork` error, and `ClusterUrl`, the fixed RPC endpoint of each
  cluster. Lower-casing is modelled by `ToLower`, ASCII case folding
  applied character by character.
- `options.dfy`, module `CliOptions`: one datatype value per command
  (`Options`), the argument-count constraints of the list-valued arguments
  (`WellFormed`, and the check `CheckCounts` that reports the first short
  argument in declaration order), and the `--net` default of "testnet".

What is proved: parsing succeeds exactly on the four names up to letter
case and returns the named cluster; words that are equal up to case parse
alike; every other word fails with an error that carries the word as typed;
each name parses back to its cluster; the endpoints are pairwise distinct
(through an inverse lookup); and the default word leads to
`https://api.testnet.solana.com`. For commands, the count check passes
exactly on the commands whose key lists have at least two entries, whose
first-message list has at least one, and whose signature list has at least
two.

## Model

| member | source | states |
|---|---|---|
| `NetworkSelector.FromStr` | src/cli.rs:159-166 | a success yields the network whose name is the lower-cased input; a failure is `WrongNetwork` carrying the original input, and then no network's name equals the lower-cased input |
| `NetworkSelector.FromStrIff` | src/cli.rs:160-164 | `FromStr(s) == Ok(n)` if and only if the lower-cased `s` is the name of `n` |
| `NetworkSelector.FromStrSucceedsIff` | src/cli.rs:160-165 | parsing succeeds if and only if the input equals one of the four names up to letter case |
| `NetworkSelector.FromStrIgnoresCase` | src/cli.rs:160 | inputs equal up to case both succeed with the same network or both fail, each error carrying its own input |
| `NetworkSelector.FromStrOfToLower` | src/cli.rs:160 | parsing an input and parsing its lower-cased form agree on success and on the network returned |
| `NetworkSelector.FromStrName` | src/cli.rs:161-164 | the canonical name of every network parses back to that network |
| `NetworkSelector.FromStrAcceptsAnyCase` | src/cli.rs:160-163 | "DevNet", "DEVNET" and "devnet" all parse to `Devnet` |
| `NetworkSelector.FromStrRejects` | src/cli.rs:165 | the empty word and "Mainnet-Beta" are refused with `WrongNetwork` of the word as typed, not lower-cased |
| `NetworkSelector.RejectsWrongLength` | src/cli.rs:160-165 | any word shorter than five or longer than seven characters is refused with its own `WrongNetwork` error |
| `NetworkSelector.Name` | src/cli.rs:161-164 | the four accepted words "mainnet", "testnet", "devnet" and "local" contain no capitals and are 5 to 7 characters long |
| `NetworkSelector.NameInjective` | src/cli.rs:161-164 | the four accepted names are pairwise distinct |
| `NetworkSelector.ToLower` | src/cli.rs:160 | the lower-cased string has the input's length and folds each character on its own |
| `NetworkSelector.LowerChar` | src/cli.rs:160 | a capital A–Z folds to the letter at the same position of the lower-case alphabet; every other character is kept; no result is a capital |
| `NetworkSelector.ToLowerIsLowerCase` | src/cli.rs:160 | the lower-cased form of any string has no capitals, so only lower-case arms can match |
| `NetworkSelector.ToLowerIdempotent` | src/cli.rs:160 | lower-casing twice equals lower-casing once |
| `NetworkSelector.ToLowerOfLowerCase` | src/cli.rs:161-164 | a string without capitals is its own lower-case form |
| `NetworkSelector.ClusterUrl` | src/cli.rs:147-154 | the endpoints are `https://api.mainnet-beta.solana.com`, `https://api.testnet.solana.com`, `https://api.devnet.solana.com` and `http://127.0.0.1:8899`; the contract states that the three public clusters use `https://` and the local validator plain http on 127.0.0.1 |
| `NetworkSelector.ClusterOfClusterUrl` | src/cli.rs:147-153 | every cluster's endpoint is read back as that cluster, so the lookup is total and invertible |
| `NetworkSelector.ClusterUrlInjective` | src/cli.rs:149-152 | distinct clusters have distinct endpoints |
| `NetworkSelector.NameToEndpoint` | src/cli.rs:147-164 | any spelling of a cluster's name, up to case, parses to a cluster whose endpoint is that cluster's |
| `NetworkSelector.DefaultNetwork` | src/cli.rs:33 | the default word "testnet" parses to `Testnet`, whose endpoint is `https://api.testnet.solana.com` |
| `CliOptions.WellFormed` | src/cli.rs:73-135 | at least two keys for `aggregate-keys`, `agg-send-step-two` and `aggregate-signatures-and-broadcast`, at least one first message for `agg-send-step-two`, at least two signatures for `aggregate-signatures-and-broadcast`; no constraint on the other commands |
| `CliOptions.ListArgs` | src/cli.rs:73-135 | only the three commands with list arguments have any; every `keys` entry has minimum 2 and counts the command's keys; every minimum is at least 1 |
| `CliOptions.FirstShort` | src/cli.rs:75 | no argument is reported exactly when every list argument has its minimum count; a reported one is short and every argument before it is satisfied |
| `CliOptions.CheckCounts` | src/cli.rs:75 | a reported argument was given fewer values than its declared minimum |
| `CliOptions.CheckCountsIff` | src/cli.rs:73-135 | the count check passes exactly on commands with at least two keys, at least one first message and at least two signatures where those lists exist |
| `CliOptions.TooFewKeysRefused` | src/cli.rs:75 | each of the three commands taking keys refuses fewer than two |
| `CliOptions.SingleKeyRefused` | src/cli.rs:73-76 | a one-key `aggregate-keys` is reported as the `keys` argument with minimum 2 and count 1 |
| `CliOptions.NetArg` | src/cli.rs:32-34 | an absent `--net` yields `Testnet`; a given word parses to a network whose name it equals up to case, and fails, carrying the word, only when it equals no network's name up to case |
| `CliOptions.DefaultEndpoint` | src/cli.rs:45-46 | a command without `--net` talks to `https://api.testnet.solana.com` |

## Left out

- `ToLower`: folds only the ASCII letters A–Z, while Rust's `str::to_lowercase` applies full Unicode lower-casing. The accepted words are unchanged. Only two non-ASCII characters have a lower-case form that contains an ASCII letter. The Kelvin sign becomes `k`, and no network name contains `k`. U+0130 becomes `i` followed by the combining dot U+0307, and that dot keeps a word such as "MAİNNET" from matching "mainnet".
- `FirstShort`: reports the first short list argument in declaration order. The command-line library reports in the order the user typed, and it reports an absent required list as missing rather than as a count of 0; neither is modelled.
- Parsing of the command line itself (matching words to commands, flags, help and version text) is done by the clap library. Only the declared minimum counts and the `--net` default are modelled.
- The three base58 wrappers `parse_agg_message1`, `parse_secret_agg_step_one` and `parse_partial_signature` delegate to a serialization module that is not part of this model. The protocol messages are opaque byte strings here.
- The signing protocol (key aggregation, nonce rounds, partial and final signatures, the wire codec) lives in files that are not part of this model.
- `Pubkey` and `Hash` parsing belongs to the Solana SDK. Both are opaque byte strings here.
- The `amount` arguments are 64-bit floats that are only passed through. They are kept as bit patterns, and no float arithmetic is modelled.
- The RPC endpoints are modelled only as strings. Connecting to them is not modelled.
- The crate's `Error` type is not shown beyond `WrongNetwork`, so only that variant is modelled.
