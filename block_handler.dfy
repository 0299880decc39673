/**
 * The provider.on("block", ...) callback of scripts/ensRegister.ts
 * (lines 67-115) as a step function over the listener's state, one block
 * notification processed to completion at a time. HandleBlock is one
 * callback; Run is a sequence of callbacks.
 */
module BlockHandler {
  import opened Preflight
  import opened RegisterBundle

  /** The relay's FlashbotsBundleResolution values. */
  datatype Resolution = BundleIncluded | BlockPassedWithoutInclusion | AccountNonceTooHigh

  /**
   * How an attempt ends: sendBundle throws; the relay answers with an
   * "error" response (whose missing wait() then throws); wait() throws;
   * or wait() resolves.
   */
  datatype Outcome = SendThrew | RelayError | WaitThrew | Resolved(resolution: Resolution)

  /** One block notification and how the attempt it triggers, if any, would end. */
  datatype BlockEvent = BlockEvent(block: nat, outcome: Outcome)

  /**
   * listening: the block listener is still installed;
   * included: isRegisterBundleIncluded;
   * attempts: the bundles handed to sendBundle, in order.
   */
  datatype Listener = Listener(listening: bool, included: bool, attempts: seq<Bundle>)

  /** The state right after provider.on("block", ...): the flag starts out unset. */
  const Installed: Listener := Listener(true, false, [])

  /** The only outcome that sets the flag. */
  predicate IsInclusion(o: Outcome) {
    o == Resolved(BundleIncluded)
  }

  /**
   * One callback: nothing once the listener is gone; otherwise, while the
   * flag is unset, send the bundle for block + 1 and, on inclusion only,
   * set the flag and remove the listener. Every other outcome is caught and
   * leaves the flag as it was.
   */
  function HandleBlock(reg: Registration, s: Listener, e: BlockEvent): (t: Listener)
    ensures t.included <==> s.included || (s.listening && IsInclusion(e.outcome))
    ensures t.listening ==> s.listening
    ensures s.attempts <= t.attempts && |t.attempts| <= |s.attempts| + 1
    ensures |t.attempts| == |s.attempts| + 1 <==> s.listening && !s.included
  {
    if !s.listening || s.included then s
    else
      var sent := s.attempts + [Build(reg, e.block + 1)];
      if IsInclusion(e.outcome) then Listener(false, true, sent) else Listener(true, false, sent)
  }

  /** Callbacks for the events, in order. */
  function Run(reg: Registration, s: Listener, events: seq<BlockEvent>): (t: Listener)
    ensures s.included ==> t.included
    ensures t.listening ==> s.listening
    ensures s.attempts <= t.attempts && |t.attempts| <= |s.attempts| + |events|
    decreases |events|
  {
    if events == [] then s else Run(reg, HandleBlock(reg, s, events[0]), events[1..])
  }

  /** Index of the first event whose attempt is included, |events| if there is none. */
  function FirstInclusion(events: seq<BlockEvent>): (k: nat)
    ensures k <= |events|
    ensures forall i :: 0 <= i < k ==> !IsInclusion(events[i].outcome)
    ensures k < |events| ==> IsInclusion(events[k].outcome)
  {
    if events == [] then 0
    else if IsInclusion(events[0].outcome) then 0
    else 1 + FirstInclusion(events[1..])
  }

  /** The bundles that a run of callbacks over the events sends: one per event, for its block + 1. */
  function BundlesFor(reg: Registration, events: seq<BlockEvent>): (bs: seq<Bundle>)
    ensures |bs| == |events|
  {
    seq(|events|, i requires 0 <= i < |events| => Build(reg, events[i].block + 1))
  }

  /** Once the listener is gone or the flag is set, no callback changes anything. */
  lemma {:induction false} RunWhenStopped(reg: Registration, s: Listener, events: seq<BlockEvent>)
    requires !s.listening || s.included
    ensures Run(reg, s, events) == s
    decreases |events|
  {
    if events != [] {
      RunWhenStopped(reg, HandleBlock(reg, s, events[0]), events[1..]);
    }
  }

  /**
   * From a listening state with the flag unset, every event up to and
   * including the first inclusion sends exactly one bundle, for its block
   * + 1; the first inclusion sets the flag and removes the listener; with no
   * inclusion the listener stays and the flag stays unset.
   */
  lemma {:induction false} RunWhileUnset(reg: Registration, s: Listener, events: seq<BlockEvent>)
    requires s.listening && !s.included
    ensures var k := FirstInclusion(events);
      Run(reg, s, events) ==
        if k < |events| then Listener(false, true, s.attempts + BundlesFor(reg, events[..k + 1]))
        else Listener(true, false, s.attempts + BundlesFor(reg, events))
    decreases |events|
  {
    if events != [] {
      var e := events[0];
      var b := Build(reg, e.block + 1);
      var next := HandleBlock(reg, s, e);
      assert BundlesFor(reg, events[..1]) == [b];
      if IsInclusion(e.outcome) {
        RunWhenStopped(reg, next, events[1..]);
      } else {
        var rest := events[1..];
        RunWhileUnset(reg, next, rest);
        var k := FirstInclusion(rest);
        assert FirstInclusion(events) == k + 1;
        if k < |rest| {
          assert events[..k + 2] == [e] + rest[..k + 1];
          assert BundlesFor(reg, events[..k + 2]) == [b] + BundlesFor(reg, rest[..k + 1]);
        } else {
          assert events == [e] + rest;
          assert BundlesFor(reg, events) == [b] + BundlesFor(reg, rest);
        }
      }
    }
  }

  /** Running over two stretches of events is running over the first, then the second. */
  lemma {:induction false} RunAppend(reg: Registration, s: Listener, xs: seq<BlockEvent>, ys: seq<BlockEvent>)
    ensures Run(reg, s, xs + ys) == Run(reg, Run(reg, s, xs), ys)
    decreases |xs|
  {
    if xs != [] {
      assert (xs + ys)[0] == xs[0];
      assert (xs + ys)[1..] == xs[1..] + ys;
      RunAppend(reg, HandleBlock(reg, s, xs[0]), xs[1..], ys);
    } else {
      assert xs + ys == ys;
    }
  }

  /** The flag is never reset, and while it is set nothing more is sent. */
  lemma FlagIsSticky(reg: Registration, s: Listener, events: seq<BlockEvent>)
    requires s.included
    ensures Run(reg, s, events).included
    ensures Run(reg, s, events).attempts == s.attempts
  {
    RunWhenStopped(reg, s, events);
  }

  /** From the installed listener, the flag ends up set exactly when some event's attempt is included. */
  lemma IncludedIffSomeInclusion(reg: Registration, events: seq<BlockEvent>)
    ensures Run(reg, Installed, events).included <==>
      exists i :: 0 <= i < |events| && IsInclusion(events[i].outcome)
    ensures Run(reg, Installed, events).listening == !Run(reg, Installed, events).included
  {
    RunWhileUnset(reg, Installed, events);
  }

  /**
   * From the installed listener, attempt j is triggered by event j and
   * targets its block + 1, with the same transactions every time; there is
   * one attempt per event up to the first inclusion, and none after it.
   */
  lemma AttemptsTargetNextBlock(reg: Registration, events: seq<BlockEvent>)
    ensures var r := Run(reg, Installed, events);
      var k := FirstInclusion(events);
      |r.attempts| == (if k < |events| then k + 1 else |events|) &&
      forall j :: 0 <= j < |r.attempts| ==>
        r.attempts[j].targetBlock == events[j].block + 1 &&
        r.attempts[j].transactions == [RegisterTransaction(reg)]
  {
    RunWhileUnset(reg, Installed, events);
  }

  /** Blocks that arrive after an inclusion send nothing: the listener has been removed. */
  lemma NothingAfterInclusion(reg: Registration, s: Listener, before: seq<BlockEvent>, after: seq<BlockEvent>)
    requires Run(reg, s, before).included
    ensures Run(reg, s, before + after) == Run(reg, s, before)
  {
    RunAppend(reg, s, before, after);
    RunWhenStopped(reg, Run(reg, s, before), after);
  }

  /** Failures of every kind are retried on the next block: none of them sets the flag or removes the listener. */
  lemma FailuresAreRetried(reg: Registration, events: seq<BlockEvent>)
    requires forall i :: 0 <= i < |events| ==> !IsInclusion(events[i].outcome)
    ensures Run(reg, Installed, events) == Listener(true, false, BundlesFor(reg, events))
  {
    RunWhileUnset(reg, Installed, events);
    assert Installed.attempts + BundlesFor(reg, events) == BundlesFor(reg, events);
  }

  /**
   * A relay error, a throwing wait() and a block passed without inclusion,
   * then an inclusion: four attempts for the next four blocks, and later
   * blocks send nothing.
   */
  lemma ThreeFailuresThenIncluded(reg: Registration, b: nat, later: seq<BlockEvent>)
    ensures var events := [
        BlockEvent(b, RelayError), BlockEvent(b + 1, WaitThrew),
        BlockEvent(b + 2, Resolved(BlockPassedWithoutInclusion)),
        BlockEvent(b + 3, Resolved(BundleIncluded))] + later;
      Run(reg, Installed, events) ==
        Listener(false, true, [Build(reg, b + 1), Build(reg, b + 2), Build(reg, b + 3), Build(reg, b + 4)])
  {
    var first := [
      BlockEvent(b, RelayError), BlockEvent(b + 1, WaitThrew),
      BlockEvent(b + 2, Resolved(BlockPassedWithoutInclusion)),
      BlockEvent(b + 3, Resolved(BundleIncluded))];
    RunWhileUnset(reg, Installed, first);
    assert IsInclusion(first[3].outcome);
    assert !IsInclusion(first[0].outcome) && !IsInclusion(first[1].outcome) && !IsInclusion(first[2].outcome);
    assert FirstInclusion(first) == 3;
    assert first[..4] == first;
    NothingAfterInclusion(reg, Installed, first, later);
  }
}
