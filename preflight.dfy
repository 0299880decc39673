/**
 * What the script checks and computes before it commits
 * (scripts/ensRegister.ts, lines 32-45): the name length, the availability
 * answer, the 10% price markup and the wait in milliseconds. Name
 * normalisation and the registrar's answers are inputs.
 */
module Preflight {
  import opened Results
  import opened SecretHex

  /** Fewest UTF-16 code units a name may have. */
  const MinNameLength: nat := 3
  /** Registration period requested: one year in seconds. */
  const Duration: nat := 31536000
  /** Largest value BigNumber.toNumber() converts without throwing (2^53 - 1). */
  const MaxSafeInteger: nat := 0x1F_FFFF_FFFF_FFFF
  /** The public resolver every registration is configured with. */
  const PublicResolverAddress: string := "0x4B1488B7a6B320d2D721406204aBc3eeAa9AD329"

  datatype PreflightError =
    | NameTooShort      // "Name should be atleast 3 characters long"
    | NameUnavailable   // "<name> is not available"
    | WaitTooLong       // toNumber() overflow on minCommitmentAge * 1000

  /** Everything the script obtains before the commitment: random bytes, the normalised name and registrar answers. */
  datatype Inputs = Inputs(
    random: seq<Byte>,
    name: string,
    owner: string,
    available: bool,
    rentPrice: nat,
    minCommitmentAge: nat)

  /** The fixed parameters of one registration, created once and never changed. */
  datatype Registration = Registration(
    name: string,
    owner: string,
    duration: nat,
    secret: string,
    resolver: string,
    price: nat,
    waitMs: nat)

  /** JavaScript's String.length: characters outside the basic plane take two code units. */
  function Utf16Length(s: string): (n: nat)
    ensures |s| <= n <= 2 * |s|
  {
    if s == [] then 0
    else (if s[0] as int >= 0x10000 then 2 else 1) + Utf16Length(s[1..])
  }

  /** rentPrice.mul(110).div(100): the price plus 10%, rounded down. */
  function MarkUp(rentPrice: nat): (price: nat)
    ensures rentPrice <= price
    ensures 10 * price <= 11 * rentPrice
    ensures 100 * price <= 110 * rentPrice < 100 * price + 100
  {
    rentPrice * 110 / 100
  }

  /** minCommitmentAge.mul(1000).toNumber(): seconds to milliseconds, failing beyond the safe-integer range. */
  function WaitMillis(minCommitmentAge: nat): (r: Result<nat, PreflightError>)
    ensures r.Ok? <==> minCommitmentAge * 1000 <= MaxSafeInteger
    ensures r.Ok? ==> r.value / 1000 == minCommitmentAge && r.value % 1000 == 0
    ensures r.Err? ==> r.error == WaitTooLong
  {
    var ms := minCommitmentAge * 1000;
    if ms <= MaxSafeInteger then Ok(ms) else Err(WaitTooLong)
  }

  /** The checks of lines 33-45 in the script's order, and the registration they produce. */
  function Prepare(inputs: Inputs): (r: Result<Registration, PreflightError>)
    requires |inputs.random| == SecretLength
    ensures r.Ok? <==>
      Utf16Length(inputs.name) >= MinNameLength && inputs.available &&
      inputs.minCommitmentAge * 1000 <= MaxSafeInteger
    ensures r.Ok? ==> r.value.price == MarkUp(inputs.rentPrice) && r.value.waitMs == inputs.minCommitmentAge * 1000
  {
    if Utf16Length(inputs.name) < MinNameLength then Err(NameTooShort)
    else if !inputs.available then Err(NameUnavailable)
    else
      match WaitMillis(inputs.minCommitmentAge)
      case Err(e) => Err(e)
      case Ok(ms) =>
        Ok(Registration(inputs.name, inputs.owner, Duration, EncodeSecret(inputs.random),
                        PublicResolverAddress, MarkUp(inputs.rentPrice), ms))
  }

  /**
   * Prepare fails exactly when the name is too short, unavailable or the
   * wait overflows, and it reports the first of these in the script's order.
   */
  lemma PrepareFailures(inputs: Inputs)
    requires |inputs.random| == SecretLength
    ensures Prepare(inputs) == Err(NameTooShort) <==> Utf16Length(inputs.name) < MinNameLength
    ensures Prepare(inputs) == Err(NameUnavailable) <==>
      Utf16Length(inputs.name) >= MinNameLength && !inputs.available
    ensures Prepare(inputs) == Err(WaitTooLong) <==>
      Utf16Length(inputs.name) >= MinNameLength && inputs.available &&
      inputs.minCommitmentAge * 1000 > MaxSafeInteger
    ensures Prepare(inputs).Ok? <==>
      Utf16Length(inputs.name) >= MinNameLength && inputs.available &&
      inputs.minCommitmentAge * 1000 <= MaxSafeInteger
  {
  }

  /**
   * A prepared registration keeps the name and owner, asks for one year,
   * carries a secret that decodes to the random bytes, pays the marked-up
   * price and waits minCommitmentAge * 1000 milliseconds.
   */
  lemma PreparedRegistration(inputs: Inputs)
    requires |inputs.random| == SecretLength
    requires Prepare(inputs).Ok?
    ensures var reg := Prepare(inputs).value;
      reg.name == inputs.name && reg.owner == inputs.owner &&
      reg.duration == Duration && reg.resolver == PublicResolverAddress &&
      reg.secret == EncodeSecret(inputs.random) &&
      DecodeSecret(reg.secret) == Some(inputs.random) && |reg.secret| == 66 &&
      reg.price == MarkUp(inputs.rentPrice) &&
      inputs.rentPrice <= reg.price && 10 * reg.price <= 11 * inputs.rentPrice &&
      reg.waitMs == inputs.minCommitmentAge * 1000
  {
    SecretRoundTrip(inputs.random);
  }
}
