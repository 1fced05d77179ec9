/** Every message is tried, once by its sender, whatever the interleaving of senders and sweeps (wsclient/ws.go). */
module ResendTries {
  import opened ResendQueue

  /** The number of messages that senders have brought; the next one gets this number. */
  function SendsIn(steps: seq<Step>): nat
    decreases |steps|
  {
    if steps == [] then 0 else (if steps[0].Send? then 1 else 0) + SendsIn(steps[1..])
  }

  /** The attempts that the steps ask for: one for each message that can be encoded, and one for each resend. */
  function AttemptsAsked(steps: seq<Step>): nat
    decreases |steps|
  {
    if steps == [] then 0
    else (if steps[0].Resend? || (steps[0].Send? && steps[0].encodes) then 1 else 0) + AttemptsAsked(steps[1..])
  }

  lemma {:induction false} Prefixes(s: State, steps: seq<Step>, i: nat)
    requires Runs(s, steps) && i <= |steps|
    ensures Runs(s, steps[..i]) && Runs(Run(s, steps[..i]), steps[i..])
    ensures Run(Run(s, steps[..i]), steps[i..]) == Run(s, steps)
    decreases |steps|
  {
    if i == 0 {
      assert steps[..0] == [] && steps[0..] == steps;
    } else {
      assert steps[..i][1..] == steps[1..][..i - 1] && steps[1..][i - 1..] == steps[i..];
      Prefixes(Next(s, steps[0]), steps[1..], i - 1);
    }
  }

  /** Attempts are never taken back, and are as many as the steps ask for; messages are numbered by their senders. */
  lemma {:induction false} AttemptsGrow(s: State, steps: seq<Step>)
    requires Runs(s, steps)
    ensures s.attempts <= Run(s, steps).attempts
    ensures |Run(s, steps).attempts| == |s.attempts| + AttemptsAsked(steps)
    ensures Run(s, steps).next == s.next + SendsIn(steps)
    decreases |steps|
  {
    if steps != [] {
      AttemptsGrow(Next(s, steps[0]), steps[1..]);
    }
  }

  lemma {:induction false} Counts(attempts: seq<Attempt>, k: nat)
    requires k < |attempts|
    ensures Tries(attempts, attempts[k].msg) > 0
    ensures attempts[k].written ==> Writes(attempts, attempts[k].msg) > 0
  {
    var init := attempts[..|attempts| - 1];
    if k < |init| {
      assert init[k] == attempts[k];
      Counts(init, k);
    }
  }

  /** Nobody has the message. */
  ghost predicate Unseen(s: State, m: Msg) {
    && Tries(s.attempts, m) == 0 && m !in s.queue
    && (forall w :: w in s.sweeps ==> m !in s.sweeps[w].snapshot)
    && (s.append.Some? ==> m !in s.append.value.read && m != s.append.value.msg)
  }

  lemma StaysUnseen(s: State, step: Step, m: Msg)
    requires Enabled(s, step) && Unseen(s, m) && (step.Send? && step.encodes ==> m != s.next)
    ensures Unseen(Next(s, step), m)
  {
    var s' := Next(s, step);
    if s'.attempts != s.attempts {
      OneMore(s.attempts, s'.attempts[|s.attempts|], m);
      assert s'.attempts == s.attempts + [s'.attempts[|s.attempts|]];
    }
  }

  lemma {:induction false} NumbersUnseen(s: State, steps: seq<Step>, m: Msg)
    requires Runs(s, steps) && Unseen(s, m) && (m < s.next || m >= Run(s, steps).next)
    ensures Unseen(Run(s, steps), m)
    decreases |steps|
  {
    if steps != [] {
      AttemptsGrow(Next(s, steps[0]), steps[1..]);
      StaysUnseen(s, steps[0], m);
      NumbersUnseen(Next(s, steps[0]), steps[1..], m);
    }
  }

  /**
   * In every interleaving each call with a message that can be encoded makes exactly one attempt, at its own message
   * and with its own outcome, so in the end that message was written, is queued or being queued, or was dropped by a
   * clearing. A message that cannot be encoded is never tried by anybody.
   */
  lemma EverySendIsTried(steps: seq<Step>, i: nat)
    requires Runs(Init(), steps) && i < |steps| && steps[i].Send?
    ensures Runs(Init(), steps[..i]) && Runs(Init(), steps[..i + 1])
    ensures var m, end := SendsIn(steps[..i]), Run(Init(), steps);
            && Run(Init(), steps[..i + 1]).attempts
               == Run(Init(), steps[..i]).attempts + (if steps[i].encodes then [Attempt(m, steps[i].written)] else [])
            && (steps[i].encodes ==> Tries(end.attempts, m) > 0 && Kept(end, m))
            && (steps[i].encodes && steps[i].written ==> Writes(end.attempts, m) > 0)
            && (!steps[i].encodes ==> Tries(end.attempts, m) == 0)
  {
    var m, end := SendsIn(steps[..i]), Run(Init(), steps);
    Prefixes(Init(), steps, i);
    Prefixes(Init(), steps, i + 1);
    var before := Run(Init(), steps[..i]);
    AttemptsGrow(Init(), steps[..i]);
    OneMoreStep(Init(), steps, i);
    var after := Run(Init(), steps[..i + 1]);
    AttemptsGrow(after, steps[i + 1..]);
    if steps[i].encodes {
      assert end.attempts[|before.attempts|] == Attempt(m, steps[i].written);
      Counts(end.attempts, |before.attempts|);
      NothingVanishes(steps, m);
    } else {
      NumbersUnseen(Init(), steps[..i], m);
      StaysUnseen(before, steps[i], m);
      NumbersUnseen(after, steps[i + 1..], m);
    }
  }

  /** Each turn of a sweep makes one attempt, at the next message of the sweep and with its own outcome. */
  lemma EveryResendIsTried(steps: seq<Step>, i: nat)
    requires Runs(Init(), steps) && i < |steps| && steps[i].Resend?
    ensures Runs(Init(), steps[..i]) && Runs(Init(), steps[..i + 1])
    ensures var before, after := Run(Init(), steps[..i]), Run(Init(), steps[..i + 1]); var w := steps[i].w;
            && w in before.sweeps && before.sweeps[w].pos < |before.sweeps[w].snapshot|
            && var m := before.sweeps[w].snapshot[before.sweeps[w].pos];
              && after.attempts == before.attempts + [Attempt(m, steps[i].written)]
              && (steps[i].written ==> Writes(Run(Init(), steps).attempts, m) > 0)
              && Kept(Run(Init(), steps), m)
  {
    OneMoreStep(Init(), steps, i);
    Prefixes(Init(), steps, i + 1);
    var before, after, end := Run(Init(), steps[..i]), Run(Init(), steps[..i + 1]), Run(Init(), steps);
    AttemptsGrow(after, steps[i + 1..]);
    var m := before.sweeps[steps[i].w].snapshot[before.sweeps[steps[i].w].pos];
    assert end.attempts[|before.attempts|] == Attempt(m, steps[i].written);
    Counts(end.attempts, |before.attempts|);
    NothingVanishes(steps, m);
  }

  lemma OneMoreStep(s: State, steps: seq<Step>, i: nat)
    requires Runs(s, steps) && i < |steps|
    ensures Runs(s, steps[..i]) && Runs(s, steps[..i + 1]) && Enabled(Run(s, steps[..i]), steps[i])
    ensures Run(s, steps[..i + 1]) == Next(Run(s, steps[..i]), steps[i])
  {
    Prefixes(s, steps, i);
    Prefixes(s, steps, i + 1);
    Prefixes(s, steps[..i + 1], i);
    assert steps[..i + 1][..i] == steps[..i] && steps[..i + 1][i..] == [steps[i]];
    assert [steps[i]][1..] == [];
  }

  /** Between clearings the queue only grows, at its end, by the message whose append is stored. */
  lemma QueueGrowsAtEnd(s: State, step: Step)
    requires Enabled(s, step) && !step.EndSweep? && (s.append.Some? ==> s.queue <= s.append.value.read)
    ensures var s' := Next(s, step);
            && s.queue <= s'.queue
            && (step.Store? ==> s'.queue != [] && s'.queue[|s'.queue| - 1] == s.append.value.msg)
            && (s'.queue != s.queue ==> step.Store?)
  {
  }
}
