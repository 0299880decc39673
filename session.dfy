/**
 * main() of scripts/ensRegister.ts (lines 18-116) as an object whose fields
 * the steps update: validate, commit and await the receipt, sleep for the
 * commitment age, install the block listener; then the listener's callback
 * with the captured isRegisterBundleIncluded flag (lines 67-115).
 * Network calls are parameters: the registrar's answers, the commitment
 * oracle, whether the commit was mined, and each attempt's outcome.
 */
module Session {
  import opened Results
  import opened SecretHex
  import opened Preflight
  import opened RegisterBundle
  import opened BlockHandler

  /** Why main's promise was rejected. */
  datatype Failure = PreflightFailed(error: PreflightError) | CommitFailed

  /** How far main has got; Failed ends it before the listener is installed. */
  datatype Phase = Start | Prepared | Committed | Waited | Listening | Registered | Failed(failure: Failure)

  class Session {
    var phase: Phase
    var registration: Option<Registration>
    /** The commit transaction handed to controller.commit. */
    var commitTx: Option<CommitTx>
    /** Milliseconds slept by the setTimeout of line 66. */
    var sleptMs: nat
    /** The block listener is installed. */
    var listening: bool
    /** isRegisterBundleIncluded. */
    var included: bool
    /** Every bundle handed to sendBundle, in order. */
    var attempts: seq<Bundle>

    /** The listener's part of the state. */
    function State(): Listener
      reads this
    {
      Listener(listening, included, attempts)
    }

    /**
     * The phases happen in order: a registration exists once validation
     * passed, a commitment once it was sent, the sleep and the listener only
     * after the commit was mined, and every attempt carries the one register
     * transaction of the registration.
     */
    ghost predicate Valid()
      reads this
    {
      (registration.None? <==> phase == Start || (phase.Failed? && phase.failure.PreflightFailed?)) &&
      (commitTx.Some? <==> phase in {Committed, Waited, Listening, Registered, Failed(CommitFailed)}) &&
      (sleptMs == if phase in {Waited, Listening, Registered} then registration.value.waitMs else 0) &&
      (listening <==> phase == Listening) &&
      (included <==> phase == Registered) &&
      (attempts != [] ==> phase in {Listening, Registered}) &&
      (phase == Registered ==> attempts != []) &&
      (forall i :: 0 <= i < |attempts| ==>
         attempts[i].transactions == [RegisterTransaction(registration.value)])
    }

    constructor ()
      ensures Valid()
      ensures phase == Start && registration == None && commitTx == None && sleptMs == 0
      ensures State() == Listener(false, false, [])
    {
      phase := Start;
      registration := None;
      commitTx := None;
      sleptMs := 0;
      listening := false;
      included := false;
      attempts := [];
    }

    /** Lines 32-45: a failed check rejects main before anything is committed. */
    method Validate(inputs: Inputs) returns (r: Result<Registration, PreflightError>)
      requires Valid() && phase == Start
      requires |inputs.random| == SecretLength
      modifies this
      ensures Valid()
      ensures r == Prepare(inputs)
      ensures phase == if r.Ok? then Prepared else Failed(PreflightFailed(r.error))
      ensures registration == if r.Ok? then Some(r.value) else None
      ensures commitTx == None && sleptMs == 0 && State() == old(State())
    {
      r := Prepare(inputs);
      if r.Ok? {
        registration := Some(r.value);
        phase := Prepared;
      } else {
        phase := Failed(PreflightFailed(r.error));
      }
    }

    /**
     * Lines 48-62: commit the registrar's commitment of (name, owner,
     * secret, resolver, owner) and await the receipt; mined is false when
     * commit() or wait() rejects, which rejects main.
     */
    method Commit(makeCommitment: CommitmentRequest -> string, mined: bool)
      requires Valid() && phase == Prepared
      modifies this
      ensures Valid()
      ensures registration == old(registration) && sleptMs == old(sleptMs) && State() == old(State())
      ensures commitTx == Some(CommitTransaction(makeCommitment(CommitmentRequestFor(registration.value))))
      ensures phase == if mined then Committed else Failed(CommitFailed)
    {
      commitTx := Some(CommitTransaction(makeCommitment(CommitmentRequestFor(registration.value))));
      phase := if mined then Committed else Failed(CommitFailed);
    }

    /** Line 66: after the receipt, sleep for the whole wait. */
    method Sleep()
      requires Valid() && phase == Committed
      modifies this
      ensures Valid()
      ensures phase == Waited && sleptMs == registration.value.waitMs
      ensures registration == old(registration) && commitTx == old(commitTx) && State() == old(State())
    {
      sleptMs := registration.value.waitMs;
      phase := Waited;
    }

    /** Lines 67-68: the flag is declared unset and the block listener installed. */
    method Listen()
      requires Valid() && phase == Waited
      modifies this
      ensures Valid()
      ensures phase == Listening && State() == Installed
      ensures registration == old(registration) && commitTx == old(commitTx) && sleptMs == old(sleptMs)
    {
      listening := true;
      included := false;
      phase := Listening;
    }

    /**
     * Lines 68-114: one block notification. Without a listener nothing
     * happens; otherwise it is HandleBlock, and an inclusion ends the script
     * in Registered.
     */
    method OnBlock(blockNumber: nat, outcome: Outcome)
      requires Valid()
      modifies this
      ensures Valid()
      ensures registration == old(registration) && commitTx == old(commitTx) && sleptMs == old(sleptMs)
      ensures old(listening) ==>
        State() == HandleBlock(registration.value, old(State()), BlockEvent(blockNumber, outcome))
      ensures !old(listening) ==> State() == old(State())
      ensures phase == if included then Registered else old(phase)
    {
      if listening {
        var targetBlockNumber := blockNumber + 1;
        if !included {
          attempts := attempts + [Build(registration.value, targetBlockNumber)];
          if IsInclusion(outcome) {
            included := true;
            listening := false;
            phase := Registered;
          }
        }
      }
    }
  }

  /**
   * main up to the installed listener: a failed check leaves no commitment
   * and no listener; a commit that is not mined leaves no listener; otherwise
   * the listener is installed after a sleep of minCommitmentAge * 1000 ms.
   */
  method RunScript(inputs: Inputs, makeCommitment: CommitmentRequest -> string, mined: bool)
    returns (s: Session)
    requires |inputs.random| == SecretLength
    ensures fresh(s) && s.Valid()
    ensures Prepare(inputs).Err? ==>
      s.phase == Failed(PreflightFailed(Prepare(inputs).error)) && s.commitTx == None &&
      s.State() == Listener(false, false, [])
    ensures Prepare(inputs).Ok? && !mined ==>
      s.phase == Failed(CommitFailed) && s.State() == Listener(false, false, [])
    ensures Prepare(inputs).Ok? && mined ==>
      s.phase == Listening && s.State() == Installed &&
      s.registration == Some(Prepare(inputs).value) &&
      s.commitTx == Some(CommitTransaction(makeCommitment(CommitmentRequestFor(Prepare(inputs).value)))) &&
      s.sleptMs == inputs.minCommitmentAge * 1000
  {
    s := new Session();
    var r := s.Validate(inputs);
    if r.Err? {
      return;
    }
    s.Commit(makeCommitment, mined);
    if !mined {
      return;
    }
    s.Sleep();
    s.Listen();
  }

  /**
   * The provider delivering block notifications one at a time, each handled
   * to completion: the session follows Run, and ends Registered exactly
   * when the flag was set.
   */
  method Deliver(s: Session, events: seq<BlockEvent>)
    requires s.Valid()
    modifies s
    ensures s.Valid()
    ensures s.registration == old(s.registration) && s.commitTx == old(s.commitTx)
    ensures old(s.listening) ==> s.State() == Run(s.registration.value, old(s.State()), events)
    ensures !old(s.listening) ==> s.State() == old(s.State())
    ensures s.phase == if s.included then Registered else old(s.phase)
  {
    ghost var start := s.State();
    ghost var listened := s.listening;
    for i := 0 to |events|
      invariant s.Valid()
      invariant s.registration == old(s.registration) && s.commitTx == old(s.commitTx)
      invariant s.phase == if s.included then Registered else old(s.phase)
      invariant listened ==> s.State() == Run(s.registration.value, start, events[..i])
      invariant !listened ==> s.State() == start
    {
      s.OnBlock(events[i].block, events[i].outcome);
      if listened {
        RunAppend(s.registration.value, start, events[..i], [events[i]]);
        assert events[..i + 1] == events[..i] + [events[i]];
      }
    }
    assert events[..|events|] == events;
  }
}
