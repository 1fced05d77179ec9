/**
 * Sending with a resend queue, as interleaved atomic steps (wsclient/ws.go). A call of SendMessage holds the mutex
 * to its end. The sweep over failed messages and its final clearing do not, so they may fall anywhere, also
 * between the two halves of a failing call: having written in vain it reads the queue, and then it stores the queue
 * with the message appended. (That the write and the reading are one step loses nothing: a clearing between them
 * does what it would do before them.) Messages are numbered in the order in which they are first sent.
 */
module ResendQueue {
  import opened Wrappers

  type Msg = nat

  /** One WriteMessage call. */
  datatype Attempt = Attempt(msg: Msg, written: bool)

  /** A running sweep: the messages its loop ranges over, and how many it has handled. */
  datatype Sweep = Sweep(snapshot: seq<Msg>, pos: nat)

  /** An append under way: the queue as it was read, the message, and the sweep that is sending it, if any. */
  datatype Append = Append(read: seq<Msg>, msg: Msg, sweeper: Option<nat>)

  datatype State = State(
    next: Msg,
    queue: seq<Msg>,
    sweeps: map<nat, Sweep>,
    append: Option<Append>,
    attempts: seq<Attempt>,
    dropped: set<Msg>)

  datatype Step =
    | Send(encodes: bool, written: bool)   // a new message; one that cannot be encoded is not sent at all
    | Store
    | BeginSweep(w: nat)
    | Resend(w: nat, written: bool)
    | EndSweep(w: nat)

  function Init(): State {
    State(0, [], map[], None, [], {})
  }

  /** While an append is under way the mutex is held, and the sweep that started it waits for it. */
  predicate Enabled(s: State, step: Step) {
    match step
    case Send(_, _) => s.append.None?
    case Store => s.append.Some?
    case BeginSweep(w) => w !in s.sweeps
    case Resend(w, _) => w in s.sweeps && s.sweeps[w].pos < |s.sweeps[w].snapshot| && s.append.None?
    case EndSweep(w) =>
      && w in s.sweeps && s.sweeps[w].pos == |s.sweeps[w].snapshot|
      && (s.append.Some? ==> s.append.value.sweeper != Some(w))
  }

  /** SendMessage up to the store: a failed write reads the queue. */
  function Attempted(s: State, m: Msg, written: bool, sweeper: Option<nat>): State {
    s.(attempts := s.attempts + [Attempt(m, written)],
       append := if written then None else Some(Append(s.queue, m, sweeper)))
  }

  function Messages(q: seq<Msg>): set<Msg> {
    set m | m in q
  }

  function Next(s: State, step: Step): State
    requires Enabled(s, step)
  {
    match step
    case Send(encodes, written) =>
      var s' := s.(next := s.next + 1);
      if encodes then Attempted(s', s.next, written, None) else s'
    case Store => s.(queue := s.append.value.read + [s.append.value.msg], append := None)
    case BeginSweep(w) => s.(sweeps := s.sweeps[w := Sweep(s.queue, 0)])
    case Resend(w, written) =>
      var sweep := s.sweeps[w];
      Attempted(s.(sweeps := s.sweeps[w := sweep.(pos := sweep.pos + 1)]), sweep.snapshot[sweep.pos], written, Some(w))
    case EndSweep(w) => s.(sweeps := s.sweeps - {w}, queue := [], dropped := s.dropped + Messages(s.queue))
  }

  predicate Runs(s: State, steps: seq<Step>)
    decreases |steps|
  {
    steps == [] || (Enabled(s, steps[0]) && Runs(Next(s, steps[0]), steps[1..]))
  }

  function Run(s: State, steps: seq<Step>): State
    requires Runs(s, steps)
    decreases |steps|
  {
    if steps == [] then s else Run(Next(s, steps[0]), steps[1..])
  }

  // ---------------------------------------------------------------- careful runs

  predicate BeingResent(s: State, m: Msg) {
    exists w :: w in s.sweeps && m in s.sweeps[w].snapshot
  }

  /**
   * A sweep begins only when no queued message belongs to an active sweep, and the queue is cleared only when no
   * append under way has read a message of the sweep that clears it.
   */
  ghost predicate CarefulStep(s: State, step: Step) {
    match step
    case BeginSweep(_) => forall m :: m in s.queue ==> !BeingResent(s, m)
    case EndSweep(w) =>
      s.append.Some? && w in s.sweeps ==> forall m :: m in s.append.value.read ==> m !in s.sweeps[w].snapshot
    case _ => true
  }

  ghost predicate Careful(s: State, steps: seq<Step>)
    requires Runs(s, steps)
    decreases |steps|
  {
    steps == [] || (CarefulStep(s, steps[0]) && Careful(Next(s, steps[0]), steps[1..]))
  }

  /** A sweep only begins when none is active. */
  predicate OneAtATime(s: State, steps: seq<Step>)
    requires Runs(s, steps)
    decreases |steps|
  {
    steps == [] || ((steps[0].BeginSweep? ==> s.sweeps == map[]) && OneAtATime(Next(s, steps[0]), steps[1..]))
  }

  /** The queue is never cleared during an append. */
  predicate ClearsBetweenAppends(s: State, steps: seq<Step>)
    requires Runs(s, steps)
    decreases |steps|
  {
    steps == [] || ((steps[0].EndSweep? ==> s.append.None?) && ClearsBetweenAppends(Next(s, steps[0]), steps[1..]))
  }

  lemma {:induction false} OneAtATimeIsCareful(s: State, steps: seq<Step>)
    requires Runs(s, steps) && OneAtATime(s, steps) && ClearsBetweenAppends(s, steps)
    ensures Careful(s, steps)
    decreases |steps|
  {
    if steps != [] {
      OneAtATimeIsCareful(Next(s, steps[0]), steps[1..]);
    }
  }

  // ---------------------------------------------------------------- counting

  function Tries(attempts: seq<Attempt>, m: Msg): nat {
    if attempts == [] then 0
    else Tries(attempts[..|attempts| - 1], m) + if attempts[|attempts| - 1].msg == m then 1 else 0
  }

  function Writes(attempts: seq<Attempt>, m: Msg): nat {
    if attempts == [] then 0
    else Writes(attempts[..|attempts| - 1], m) + if attempts[|attempts| - 1] == Attempt(m, true) then 1 else 0
  }

  lemma OneMore(attempts: seq<Attempt>, a: Attempt, m: Msg)
    ensures Tries(attempts + [a], m) == Tries(attempts, m) + if a.msg == m then 1 else 0
    ensures Writes(attempts + [a], m) == Writes(attempts, m) + if a == Attempt(m, true) then 1 else 0
  {
  }

  // ---------------------------------------------------------------- the invariant

  ghost predicate Distinct(q: seq<Msg>) {
    forall i, j :: 0 <= i < j < |q| ==> q[i] != q[j]
  }

  predicate TriedOnce(s: State, m: Msg) {
    m < s.next && Tries(s.attempts, m) == 1 && Writes(s.attempts, m) == 0
  }

  predicate TriedTwice(s: State, m: Msg) {
    m < s.next && Tries(s.attempts, m) == 2 && Writes(s.attempts, m) <= 1
  }

  predicate SameTries(s: State, s': State, m: Msg) {
    (TriedOnce(s, m) ==> TriedOnce(s', m)) && (TriedTwice(s, m) ==> TriedTwice(s', m))
  }

  predicate Bounded(s: State, m: Msg) {
    && Tries(s.attempts, m) <= 2 && Writes(s.attempts, m) <= 1
    && (m >= s.next ==> Tries(s.attempts, m) == 0 && Writes(s.attempts, m) == 0)
  }

  /** The queue as it will be once an append under way is stored. */
  function Coming(s: State): seq<Msg> {
    if s.append.Some? then s.append.value.read + [s.append.value.msg] else s.queue
  }

  /** What a sweep has handled was tried twice, the rest once. */
  ghost predicate SweepSound(s: State, sweep: Sweep) {
    && sweep.pos <= |sweep.snapshot| && Distinct(sweep.snapshot)
    && (forall i :: 0 <= i < sweep.pos ==> TriedTwice(s, sweep.snapshot[i]))
    && (forall i :: sweep.pos <= i < |sweep.snapshot| ==> TriedOnce(s, sweep.snapshot[i]))
  }

  /** No message belongs to two sweeps. */
  ghost predicate SweepsApart(s: State) {
    forall v, w, m ::
      v in s.sweeps && w in s.sweeps && m in s.sweeps[v].snapshot && m in s.sweeps[w].snapshot ==> v == w
  }

  /** What is queued was tried once and is queued once, unless a sweep is resending it. */
  ghost predicate QueueSound(s: State) {
    var q := Coming(s);
    && (forall i :: 0 <= i < |q| ==> BeingResent(s, q[i]) || TriedOnce(s, q[i]))
    && (forall i, j :: 0 <= i < j < |q| && q[i] == q[j] ==> BeingResent(s, q[i]))
  }

  predicate AppendSound(s: State) {
    s.append.Some? ==>
      var a := s.append.value;
      && (s.queue == a.read || s.queue == [])
      && (a.sweeper.None? ==> TriedOnce(s, a.msg))
      && (a.sweeper.Some? ==> a.sweeper.value in s.sweeps && a.msg in s.sweeps[a.sweeper.value].snapshot)
  }

  ghost predicate Inv(s: State) {
    && (forall w :: w in s.sweeps ==> SweepSound(s, s.sweeps[w]))
    && SweepsApart(s) && QueueSound(s) && AppendSound(s)
    && (forall m :: Bounded(s, m))
  }

  /** Steps without an attempt. */
  lemma SameAttempts(s: State, s': State)
    requires s'.attempts == s.attempts && s'.next >= s.next && forall m :: Bounded(s, m)
    ensures forall m :: SameTries(s, s', m) && Bounded(s', m)
  {
    forall m ensures SameTries(s, s', m) && Bounded(s', m) {
      assert Bounded(s, m);
    }
  }

  /** Steps with an attempt at a message leave the others alone. */
  lemma OthersKept(s: State, s': State, a: Attempt)
    requires s'.attempts == s.attempts + [a] && s'.next >= s.next && a.msg < s'.next && forall m :: Bounded(s, m)
    requires Tries(s.attempts, a.msg) <= 1 && Writes(s.attempts, a.msg) == 0
    ensures forall m :: m != a.msg ==> SameTries(s, s', m)
    ensures forall m :: Bounded(s', m)
    ensures Tries(s'.attempts, a.msg) == Tries(s.attempts, a.msg) + 1
    ensures Writes(s'.attempts, a.msg) == if a.written then 1 else 0
  {
    OneMore(s.attempts, a, a.msg);
    forall m ensures Bounded(s', m) && (m != a.msg ==> SameTries(s, s', m)) {
      OneMore(s.attempts, a, m);
      assert Bounded(s, m);
    }
  }

  lemma SameSweeps(s: State, s': State)
    requires forall w :: w in s.sweeps ==> w in s'.sweeps && s'.sweeps[w].snapshot == s.sweeps[w].snapshot
    ensures forall m :: BeingResent(s, m) ==> BeingResent(s', m)
  {
    forall m | BeingResent(s, m) ensures BeingResent(s', m) {
      var w :| w in s.sweeps && m in s.sweeps[w].snapshot;
      assert w in s'.sweeps && m in s'.sweeps[w].snapshot;
    }
  }

  lemma SendKeepsInv(s: State, written: bool)
    requires Inv(s) && s.append.None?
    ensures Inv(Next(s, Send(true, written)))
  {
    var s' := Next(s, Send(true, written));
    assert Bounded(s, s.next);
    OthersKept(s, s', Attempt(s.next, written));
    forall w | w in s'.sweeps ensures SweepSound(s', s'.sweeps[w]) {
      assert SweepSound(s, s.sweeps[w]);
    }
    ComingAfterAttempt(s, s', s.next);
  }

  /** A failed message joins what is coming; the entries before it keep what they had. */
  lemma ComingAfterAttempt(s: State, s': State, m: Msg)
    requires QueueSound(s) && s.append.None? && s'.queue == s.queue
    requires s'.append.Some? ==> s'.append.value.read == s.queue && s'.append.value.msg == m
    requires forall k :: BeingResent(s, k) ==> BeingResent(s', k)
    requires forall k :: k != m && TriedOnce(s, k) ==> TriedOnce(s', k)
    requires || BeingResent(s', m)
             || (!BeingResent(s, m) && !TriedOnce(s, m) && (s'.append.Some? ==> TriedOnce(s', m)))
    ensures QueueSound(s')
  {
    var q, q' := Coming(s), Coming(s');
    forall i | 0 <= i < |q'| ensures BeingResent(s', q'[i]) || TriedOnce(s', q'[i]) {
      if i < |q| {
        assert q'[i] == q[i];
      }
    }
    forall i, j | 0 <= i < j < |q'| && q'[i] == q'[j] ensures BeingResent(s', q'[i]) {
      assert q'[i] == q[i];
    }
  }

  lemma SkipKeepsInv(s: State, written: bool)
    requires Inv(s) && s.append.None?
    ensures Inv(Next(s, Send(false, written)))
  {
    var s' := Next(s, Send(false, written));
    SameAttempts(s, s');
    forall w | w in s'.sweeps ensures SweepSound(s', s'.sweeps[w]) {
      assert SweepSound(s, s.sweeps[w]);
    }
    SameSweeps(s, s');
    assert Coming(s') == Coming(s);
  }

  lemma StoreKeepsInv(s: State)
    requires Inv(s) && s.append.Some?
    ensures Inv(Next(s, Store))
  {
    var s' := Next(s, Store);
    SameAttempts(s, s');
    forall w | w in s'.sweeps ensures SweepSound(s', s'.sweeps[w]) {
      assert SweepSound(s, s.sweeps[w]);
    }
    assert Coming(s') == Coming(s);
    SameSweeps(s, s');
  }

  /** The queue is the front of what is coming, or it has just been cleared. */
  lemma QueuedIsComing(s: State, i: nat)
    requires AppendSound(s) && i < |s.queue|
    ensures i < |Coming(s)| && Coming(s)[i] == s.queue[i]
  {
  }

  /** Without a message of an active sweep, the queue makes a sound sweep. */
  lemma QueueMakesSweep(s: State)
    requires Inv(s) && forall m :: m in s.queue ==> !BeingResent(s, m)
    ensures SweepSound(s, Sweep(s.queue, 0))
  {
    forall i | 0 <= i < |s.queue| ensures TriedOnce(s, s.queue[i]) {
      QueuedIsComing(s, i);
      assert s.queue[i] in s.queue;
    }
    forall i, j | 0 <= i < j < |s.queue| ensures s.queue[i] != s.queue[j] {
      QueuedIsComing(s, i);
      QueuedIsComing(s, j);
      assert s.queue[i] in s.queue;
    }
  }

  lemma BeginKeepsInv(s: State, w: nat)
    requires Inv(s) && w !in s.sweeps && CarefulStep(s, BeginSweep(w))
    ensures Inv(Next(s, BeginSweep(w)))
  {
    var s' := Next(s, BeginSweep(w));
    SameAttempts(s, s');
    QueueMakesSweep(s);
    forall v | v in s'.sweeps ensures SweepSound(s', s'.sweeps[v]) {
      if v != w {
        assert SweepSound(s, s.sweeps[v]);
      }
    }
    SameSweeps(s, s');
    forall u, v, m | u in s'.sweeps && v in s'.sweeps && m in s'.sweeps[u].snapshot && m in s'.sweeps[v].snapshot
      ensures u == v
    {
      assert u in s.sweeps ==> BeingResent(s, m);
      assert v in s.sweeps ==> BeingResent(s, m);
    }
    assert Coming(s') == Coming(s);
  }

  /** The message resent has been tried twice; those of the other sweeps are others. */
  lemma ResendKeepsSweeps(s: State, w: nat, written: bool)
    requires Inv(s) && Enabled(s, Resend(w, written))
    ensures var s' := Next(s, Resend(w, written));
            forall v :: v in s'.sweeps ==> SweepSound(s', s'.sweeps[v])
  {
    var s' := Next(s, Resend(w, written));
    var m := s.sweeps[w].snapshot[s.sweeps[w].pos];
    assert SweepSound(s, s.sweeps[w]) && m in s.sweeps[w].snapshot;
    OthersKept(s, s', Attempt(m, written));
    forall v | v in s'.sweeps ensures SweepSound(s', s'.sweeps[v]) {
      assert SweepSound(s, s.sweeps[v]);
      if v != w {
        assert m !in s.sweeps[v].snapshot;
      }
    }
  }

  lemma ResendKeepsInv(s: State, w: nat, written: bool)
    requires Inv(s) && Enabled(s, Resend(w, written))
    ensures Inv(Next(s, Resend(w, written)))
  {
    var s' := Next(s, Resend(w, written));
    var m := s.sweeps[w].snapshot[s.sweeps[w].pos];
    assert SweepSound(s, s.sweeps[w]);
    OthersKept(s, s', Attempt(m, written));
    ResendKeepsSweeps(s, w, written);
    SameSweeps(s, s');
    assert w in s'.sweeps && m in s'.sweeps[w].snapshot;
    ComingAfterAttempt(s, s', m);
  }

  /** When a sweep ends, what it resent is not coming back. */
  lemma EndedIsGone(s: State, w: nat, m: Msg)
    requires Inv(s) && Enabled(s, EndSweep(w)) && CarefulStep(s, EndSweep(w))
    requires s.append.Some? && m in Coming(s)
    ensures m !in s.sweeps[w].snapshot
  {
    assert SweepSound(s, s.sweeps[w]);
  }

  lemma EndKeepsInv(s: State, w: nat)
    requires Inv(s) && Enabled(s, EndSweep(w)) && CarefulStep(s, EndSweep(w))
    ensures Inv(Next(s, EndSweep(w)))
  {
    var s' := Next(s, EndSweep(w));
    SameAttempts(s, s');
    forall v | v in s'.sweeps ensures SweepSound(s', s'.sweeps[v]) {
      assert SweepSound(s, s.sweeps[v]);
    }
    if s.append.Some? {
      assert Coming(s') == Coming(s);
      forall m | m in Coming(s) && BeingResent(s, m) ensures BeingResent(s', m) {
        var v :| v in s.sweeps && m in s.sweeps[v].snapshot;
        EndedIsGone(s, w, m);
        assert v in s'.sweeps && m in s'.sweeps[v].snapshot;
      }
      assert forall i :: 0 <= i < |Coming(s)| ==> Coming(s)[i] in Coming(s);
    }
  }

  lemma StepKeepsInv(s: State, step: Step)
    requires Inv(s) && Enabled(s, step) && CarefulStep(s, step)
    ensures Inv(Next(s, step))
  {
    match step
    case Send(encodes, written) =>
      if encodes {
        SendKeepsInv(s, written);
      } else {
        SkipKeepsInv(s, written);
      }
    case Store => StoreKeepsInv(s);
    case BeginSweep(w) => BeginKeepsInv(s, w);
    case Resend(w, written) => ResendKeepsInv(s, w, written);
    case EndSweep(w) => EndKeepsInv(s, w);
  }

  lemma {:induction false} RunKeepsInv(s: State, steps: seq<Step>)
    requires Inv(s) && Runs(s, steps) && Careful(s, steps)
    ensures Inv(Run(s, steps))
    decreases |steps|
  {
    if steps != [] {
      StepKeepsInv(s, steps[0]);
      RunKeepsInv(Next(s, steps[0]), steps[1..]);
    }
  }

  /** Over every careful interleaving a message is tried at most twice and written at most once. */
  lemma AtMostOnce(steps: seq<Step>, m: Msg)
    requires Runs(Init(), steps) && Careful(Init(), steps)
    ensures var s := Run(Init(), steps);
            Tries(s.attempts, m) <= 2 && Writes(s.attempts, m) <= 1
  {
    RunKeepsInv(Init(), steps);
    assert Bounded(Run(Init(), steps), m);
  }

  /**
   * What a careful sweep throws away when it ends: messages it tried a second time, written or not, and messages
   * that no sweep is resending, which failed for the first time since and are lost after one try.
   */
  lemma WhatASweepDrops(steps: seq<Step>, w: nat, m: Msg)
    requires Runs(Init(), steps) && Careful(Init(), steps)
    requires Enabled(Run(Init(), steps), EndSweep(w)) && m in Run(Init(), steps).queue
    ensures var s := Run(Init(), steps);
            && m in Next(s, EndSweep(w)).dropped && Next(s, EndSweep(w)).queue == []
            && (m in s.sweeps[w].snapshot ==> Tries(s.attempts, m) == 2)
            && (!BeingResent(s, m) ==> Tries(s.attempts, m) == 1 && Writes(s.attempts, m) == 0)
  {
    RunKeepsInv(Init(), steps);
    var s := Run(Init(), steps);
    assert SweepSound(s, s.sweeps[w]);
    var i :| 0 <= i < |s.queue| && s.queue[i] == m;
    QueuedIsComing(s, i);
  }

  // ---------------------------------------------------------------- nothing vanishes, whatever the interleaving

  /** Every message tried was written, is queued, was dropped, or is being appended; appends keep what is queued. */
  ghost predicate Accounted(s: State) {
    && (forall m :: Tries(s.attempts, m) > 0 ==> Kept(s, m))
    && (s.append.Some? ==> forall m :: m in s.queue ==> m in s.append.value.read)
  }

  predicate Kept(s: State, m: Msg) {
    Writes(s.attempts, m) > 0 || m in s.queue || m in s.dropped || (s.append.Some? && s.append.value.msg == m)
  }

  lemma StepAccounts(s: State, step: Step)
    requires Accounted(s) && Enabled(s, step)
    ensures Accounted(Next(s, step))
  {
    var s' := Next(s, step);
    forall m | Tries(s'.attempts, m) > 0 ensures Kept(s', m) {
      if s'.attempts != s.attempts {
        var a := s'.attempts[|s.attempts|];
        assert s'.attempts == s.attempts + [a];
        OneMore(s.attempts, a, m);
      }
      assert Tries(s.attempts, m) > 0 ==> Kept(s, m);
    }
  }

  lemma {:induction false} RunAccounts(s: State, steps: seq<Step>)
    requires Accounted(s) && Runs(s, steps)
    ensures Accounted(Run(s, steps))
    decreases |steps|
  {
    if steps != [] {
      StepAccounts(s, steps[0]);
      RunAccounts(Next(s, steps[0]), steps[1..]);
    }
  }

  /** In every interleaving, careful or not, a message tried was written, is queued or being queued, or was dropped. */
  lemma NothingVanishes(steps: seq<Step>, m: Msg)
    requires Runs(Init(), steps) && Tries(Run(Init(), steps).attempts, m) > 0
    ensures Kept(Run(Init(), steps), m)
  {
    RunAccounts(Init(), steps);
  }

  // ---------------------------------------------------------------- what a sweep tries

  /** The messages a sweep tries in a run, in order. */
  function ResentBy(s: State, steps: seq<Step>, w: nat): seq<Msg>
    requires Runs(s, steps)
    decreases |steps|
  {
    if steps == [] then []
    else
      (match steps[0]
       case Resend(v, _) => if v == w then [s.sweeps[w].snapshot[s.sweeps[w].pos]] else []
       case _ => [])
      + ResentBy(Next(s, steps[0]), steps[1..], w)
  }

  predicate KeepsSweeping(steps: seq<Step>, w: nat) {
    forall i :: 0 <= i < |steps| ==> steps[i] != EndSweep(w)
  }

  /** However many sweeps and senders run beside it, a sweep tries the rest of its messages in order. */
  lemma {:induction false} SweepProgress(s: State, steps: seq<Step>, w: nat)
    requires Runs(s, steps) && w in s.sweeps && KeepsSweeping(steps, w)
    requires s.sweeps[w].pos <= |s.sweeps[w].snapshot|
    ensures var s' := Run(s, steps);
            && w in s'.sweeps && s'.sweeps[w].snapshot == s.sweeps[w].snapshot
            && s.sweeps[w].pos <= s'.sweeps[w].pos <= |s.sweeps[w].snapshot|
            && ResentBy(s, steps, w) == s.sweeps[w].snapshot[s.sweeps[w].pos..s'.sweeps[w].pos]
    decreases |steps|
  {
    if steps != [] {
      assert steps[0] != EndSweep(w);
      forall i | 0 <= i < |steps[1..]| ensures steps[1..][i] != EndSweep(w) {
        assert steps[1..][i] == steps[i + 1];
      }
      SweepProgress(Next(s, steps[0]), steps[1..], w);
    }
  }

  /** From begin to end a sweep tries exactly the messages that were queued when it began. */
  lemma SweepTriesTheQueue(s: State, steps: seq<Step>, w: nat)
    requires Enabled(s, BeginSweep(w)) && Runs(Next(s, BeginSweep(w)), steps) && KeepsSweeping(steps, w)
    requires Enabled(Run(Next(s, BeginSweep(w)), steps), EndSweep(w))
    ensures ResentBy(Next(s, BeginSweep(w)), steps, w) == s.queue
  {
    SweepProgress(Next(s, BeginSweep(w)), steps, w);
  }

  lemma OneStep(s: State, step: Step, steps: seq<Step>)
    requires Enabled(s, step) && Runs(Next(s, step), steps)
    ensures var all := [step] + steps;
            && Runs(s, all) && Run(s, all) == Run(Next(s, step), steps)
            && ((step.BeginSweep? ==> s.sweeps == map[]) && OneAtATime(Next(s, step), steps) ==> OneAtATime(s, all))
            && ((step.EndSweep? ==> s.append.None?) && ClearsBetweenAppends(Next(s, step), steps)
                ==> ClearsBetweenAppends(s, all))
  {
  }
}
