# ENS name registration through a Flashbots relay — Dafny model

The repository is one script, `scripts/ensRegister.ts`, that registers an ENS
name on Goerli in two steps. It commits a hidden commitment to the ETH
registrar controller. After the registrar's minimum commitment age it
reveals the registration with `registerWithConfig`, sent as a Flashbots
bundle. On every new block, while the captured flag `isRegisterBundleIncluded`
is unset, it sends the same register transaction as a bundle for the next
block. Only a `BundleIncluded` resolution sets the flag and removes the block
listener; every other outcome is retried on the next block.

The model has six modules:

- `Results` (results.dfy): Option and Result.
- `SecretHex` (secret_hex.dfy): the secret encoder. Each byte's
  `toString(16)` is left-padded with `padStart(2, "0")`, the pieces are
  joined, and `"0x"` goes in front. The random bytes are an input. A decoder
  is the model's own partner: a round trip holds in both directions.
- `Preflight` (preflight.dfy): the name-length check in UTF-16 code units,
  the availability gate, the 10% markup with integer division, and the
  seconds-to-milliseconds conversion. That conversion fails like
  `BigNumber.toNumber()` beyond 2^53 - 1.
- `RegisterBundle` (register_bundle.dfy): the commit transaction, and the
  register bundle as a function of the registration and the target block.
- `BlockHandler` (block_handler.dfy): the block callback as a step function
  `HandleBlock` over the listener state (listening, flag, bundles sent).
  `Run` folds it over a sequence of block notifications. The lemmas
  characterise `Run` exactly.
- `Session` (session.dfy): `main` as a class with the fields `phase`,
  `registration`, `commitTx`, `sleptMs`, `listening`, `included` and
  `attempts`. Its methods are the steps in the script's order: `Validate`,
  `Commit`, `Sleep`, `Listen`, and the callback `OnBlock`. `Valid()` keeps
  the phases in order. `OnBlock` is proved equal to `HandleBlock`, and a run
  of notifications equal to `Run`.

Inputs that stand in for the network: the normalised name; the owner
address; the registrar's `available`, `rentPrice` and `minCommitmentAge`
answers; the commitment, as a function of the `makeCommitmentWithConfig`
arguments; whether the commit transaction was mined; and the outcome of each
bundle attempt. An outcome is one of: `sendBundle` threw; the relay answered
with an error object; `wait()` threw; or `wait()` resolved to one of the
three `FlashbotsBundleResolution` values.

The model follows the script as written, which is simpler than a general
commit-reveal controller:

- the commit is one ordinary transaction awaited once, not a bundle retried
  per block;
- the only wait is a fixed sleep of `minCommitmentAge * 1000` ms after the
  commit receipt;
- every error outcome is retried, with no non-retryable class;
- a relay error response is not a separate verdict. The script calls
  `wait()` on the error object, that throws, and the `catch` retries.

## Model

| member | source | states |
|---|---|---|
| SecretHex.HexDigit | scripts/ensRegister.ts:30 | a value below 16 becomes a lowercase hex digit that reads back as that value |
| SecretHex.HexValue | scripts/ensRegister.ts:30 | decoder partner: exactly the lowercase hex digits have a value, and it is below 16 |
| SecretHex.ToBase16 | scripts/ensRegister.ts:30 | `toString(16)` of a non-negative integer is non-empty, and a single digit exactly for values below 16 |
| SecretHex.PadStart | scripts/ensRegister.ts:30 | `padStart` yields a string of the requested width, and returns the string itself unchanged when it is already that long |
| SecretHex.ByteToHex | scripts/ensRegister.ts:30 | padded `toString(16)` of a byte is exactly two digits: the high nibble, then the low nibble |
| SecretHex.HexJoin | scripts/ensRegister.ts:29-31 | joining the per-byte strings gives two characters per byte |
| SecretHex.EncodeSecret | scripts/ensRegister.ts:27-31 | the secret is "0x" followed by two characters per random byte |
| SecretHex.DecodeSecret | scripts/ensRegister.ts:27-31 | decoder partner of the secret: a decodable string is "0x" followed by two digits per byte |
| SecretHex.DecodeHex | scripts/ensRegister.ts:29-31 | decoder partner: a decoded string holds two digits per byte |
| SecretHex.HexJoinAt | scripts/ensRegister.ts:29-31 | byte i becomes characters 2i and 2i+1, high nibble first, in byte order |
| SecretHex.DecodeHexJoin | scripts/ensRegister.ts:29-31 | decoding the joined digits recovers the bytes |
| SecretHex.HexJoinDecoded | scripts/ensRegister.ts:29-31 | every string that decodes is the joined encoding of its bytes |
| SecretHex.SecretRoundTrip | scripts/ensRegister.ts:25-31 | decoding the secret recovers the random bytes |
| SecretHex.SecretCanonical | scripts/ensRegister.ts:25-31 | a string that decodes to some bytes is exactly their secret encoding |
| SecretHex.SecretLayout | scripts/ensRegister.ts:25-31 | for 32 bytes: "0x", then 64 lowercase hex digits, byte k at positions 2+2k and 3+2k |
| Preflight.Utf16Length | scripts/ensRegister.ts:33 | `name.length` counts UTF-16 code units: between one and two per character |
| Preflight.MarkUp | scripts/ensRegister.ts:43 | the price paid is floor(rentPrice * 110 / 100): at least rentPrice and at most 11/10 of it |
| Preflight.WaitMillis | scripts/ensRegister.ts:44-45 | the wait is minCommitmentAge * 1000 ms, and fails exactly when that exceeds 2^53 - 1 |
| Preflight.Prepare | scripts/ensRegister.ts:32-45 | validation succeeds exactly when the name has at least 3 code units, is available and the wait converts; the price is then floor(rentPrice * 110 / 100) and the wait minCommitmentAge * 1000 ms |
| Preflight.PrepareFailures | scripts/ensRegister.ts:32-45 | too short fails first, then unavailable, then a wait overflow; otherwise validation succeeds |
| Preflight.PreparedRegistration | scripts/ensRegister.ts:32-45 | a registration keeps name and owner, lasts one year and uses the public resolver; its price is exactly MarkUp(rentPrice), so between rentPrice and 11/10 of it; its secret is the encoding of the random bytes and decodes back to them; it waits age*1000 ms |
| RegisterBundle.CommitmentRequestFor | scripts/ensRegister.ts:48-54 | the commitment is asked for (name, owner, secret, resolver, owner): the owner in both address slots |
| RegisterBundle.CommitTransaction | scripts/ensRegister.ts:57-61 | the commit transaction carries the commitment unchanged, with gas limit 60000 and fees of 3 and 2 gwei |
| RegisterBundle.RegisterTransaction | scripts/ensRegister.ts:76-92 | the register transaction pays the registration's price to the controller, calls registerWithConfig with the owner as owner and as address, on chain 5 as type 2 with gas limit 300000 |
| RegisterBundle.Build | scripts/ensRegister.ts:73-97 | a register bundle is one transaction for the given target block |
| RegisterBundle.OnlyTargetDiffers | scripts/ensRegister.ts:76-96 | two bundles for one registration have identical transactions, and are equal exactly when their target blocks are |
| RegisterBundle.RegisterCallArguments | scripts/ensRegister.ts:76-92 | the transaction sends the marked-up price to the controller and calls registerWithConfig(name, owner, duration, secret, resolver, owner) |
| RegisterBundle.RevealMatchesCommitment | scripts/ensRegister.ts:48-54 | the register call repeats every argument the commitment was made from |
| BlockHandler.HandleBlock | scripts/ensRegister.ts:68-115 | one callback: the flag becomes set exactly when it was set or the listener was live and the attempt was included; the listener is never reinstalled; bundles are only appended, one exactly when the listener was live and the flag unset |
| BlockHandler.Run | scripts/ensRegister.ts:67-115 | over any run of notifications the flag stays set once set, the listener is never reinstalled, and the bundles sent only grow, by at most one per notification |
| BlockHandler.FirstInclusion | scripts/ensRegister.ts:103 | index of the first notification whose attempt is included; none before it is |
| BlockHandler.BundlesFor | scripts/ensRegister.ts:69-96 | one bundle per notification |
| BlockHandler.RunWhenStopped | scripts/ensRegister.ts:70 | with the flag set or the listener removed, notifications change nothing |
| BlockHandler.RunWhileUnset | scripts/ensRegister.ts:67-115 | from a live listener with the flag unset: each notification up to the first inclusion sends one bundle for block+1; that inclusion sets the flag and removes the listener; with no inclusion nothing else changes |
| BlockHandler.RunAppend | scripts/ensRegister.ts:68 | handling two stretches of notifications is handling the first, then the second |
| BlockHandler.FlagIsSticky | scripts/ensRegister.ts:103-109 | the flag is never reset, and no bundle is sent while it is set |
| BlockHandler.IncludedIffSomeInclusion | scripts/ensRegister.ts:98-113 | the flag ends set exactly when some attempt was resolved BundleIncluded, and the listener is removed exactly then |
| BlockHandler.AttemptsTargetNextBlock | scripts/ensRegister.ts:69-96 | attempt j is triggered by notification j, targets its block + 1 and carries the same transaction; attempts stop at the first inclusion |
| BlockHandler.NothingAfterInclusion | scripts/ensRegister.ts:107-109 | notifications after an inclusion send nothing |
| BlockHandler.FailuresAreRetried | scripts/ensRegister.ts:98-113 | with no inclusion, every notification sends a bundle, and the flag stays unset with the listener installed |
| BlockHandler.ThreeFailuresThenIncluded | scripts/ensRegister.ts:67-115 | a relay error, a throwing wait() and a missed block, then an inclusion: four bundles for the next four blocks, then nothing |
| Session.Session.constructor | scripts/ensRegister.ts:18-23 | a fresh session has nothing validated, committed or sent |
| Session.Session.Validate | scripts/ensRegister.ts:32-45 | validation either prepares the registration or fails the script; either way nothing is committed |
| Session.Session.Commit | scripts/ensRegister.ts:48-62 | commits the registrar's commitment of (name, owner, secret, resolver, owner); the script goes on only once the commit is mined |
| Session.Session.Sleep | scripts/ensRegister.ts:65-66 | after the commit receipt it sleeps for exactly the registration's wait |
| Session.Session.Listen | scripts/ensRegister.ts:67-68 | the listener is installed with the flag unset and no bundle sent |
| Session.Session.OnBlock | scripts/ensRegister.ts:68-115 | one notification is HandleBlock on the listener state, ends the script Registered on inclusion, and changes nothing else |
| Session.RunScript | scripts/ensRegister.ts:18-68 | a failed check leaves no commitment and no listener; an unmined commit leaves no listener; otherwise the listener starts after a sleep of minCommitmentAge * 1000 ms |
| Session.Deliver | scripts/ensRegister.ts:68-115 | a session handling notifications one at a time follows Run, and is Registered exactly when the flag is set |

## Left out

- Network and wallet. The WebSocket provider, the wallet and `getAddress`,
  the contract calls (`available`, `rentPrice`, `minCommitmentAge`,
  `makeCommitmentWithConfig`, `commit`) and the Flashbots client are left
  out. Their answers are inputs or outcome values.
- ABI encoding (`encodeFunctionData`) and signing. A call is kept as a value
  holding its arguments. The signer that goes with each bundle entry is not
  modelled.
- Randomness. `crypto.getRandomValues` is replaced by the 32 random bytes,
  given as an input.
- Name normalisation. `namehash.normalize` is not modelled; the normalised
  name is an input.
- Time. `setTimeout` is a `Sleep` step that records the milliseconds it
  waits. Node fires a timer whose delay is above 2^31 - 1 ms after 1 ms. That
  behaviour is not modelled.
- Concurrency. Overlapping async callbacks are not modelled: the flag test
  comes before the awaits, so in the script several attempts can be in
  flight at once. Each notification is handled to completion before the
  next one.
- Gas fields, chain id and type. They are kept as constants; nothing is
  proved about them.
- Logging, `provider.destroy()` and the process exit code. Removing the
  listener is the `listening` field. A rejected `main` is the `Failed`
  phase.
- SecretHex.PadStart: the contract states the length and the unchanged case,
  not that fill characters go in front; stating that made the proofs about
  the joined hex string run out of resource. ByteToHex still states both
  digits of every padded byte.
- Hardhat configuration. `hardhat.config.ts` is network configuration only.
