/** The guards of careful runs are exact, and runs that lose or repeat messages (wsclient/ws.go). */
module ResendGuards {
  import opened Wrappers
  import opened ResendQueue

  /** Nothing but stores and turns of the sweeps that are active already. */
  predicate OnlyResends(steps: seq<Step>) {
    forall i :: 0 <= i < |steps| ==> steps[i].Resend? || steps[i].Store?
  }

  ghost predicate ResendsTo(s: State, t: State) {
    exists steps :: Runs(s, steps) && OnlyResends(steps) && Run(s, steps) == t
  }

  lemma ResendsNothing(s: State)
    ensures ResendsTo(s, s)
  {
    assert Runs(s, []) && OnlyResends([]) && Run(s, []) == s;
  }

  lemma ResendsBy(s: State, step: Step, t: State)
    requires Enabled(s, step) && (step.Resend? || step.Store?) && ResendsTo(Next(s, step), t)
    ensures ResendsTo(s, t)
  {
    var rest :| Runs(Next(s, step), rest) && OnlyResends(rest) && Run(Next(s, step), rest) == t;
    OneStep(s, step, rest);
    assert OnlyResends([step] + rest);
  }

  lemma {:induction false} RunsOn(s: State, first: seq<Step>, t: State)
    requires Runs(s, first) && OnlyResends(first) && ResendsTo(Run(s, first), t)
    ensures ResendsTo(s, t)
    decreases |first|
  {
    if first != [] {
      assert OnlyResends(first[1..]) by {
        assert forall i :: 0 <= i < |first| - 1 ==> first[1..][i] == first[i + 1];
      }
      RunsOn(Next(s, first[0]), first[1..], t);
      ResendsBy(s, first[0], t);
    }
  }

  lemma ResendsFurther(s: State, u: State, t: State)
    requires ResendsTo(s, u) && ResendsTo(u, t)
    ensures ResendsTo(s, t)
  {
    var steps :| Runs(s, steps) && OnlyResends(steps) && Run(s, steps) == u;
    RunsOn(s, steps, t);
  }

  /** A sweep goes on until it has tried its i-th message, all writes succeeding. */
  lemma {:induction false} TryUpTo(s: State, w: nat, i: nat) returns (t: State)
    requires s.append.None? && w in s.sweeps && s.sweeps[w].pos <= i < |s.sweeps[w].snapshot|
    ensures ResendsTo(s, t) && t.append.None?
    ensures t.sweeps == s.sweeps[w := s.sweeps[w].(pos := i + 1)]
    ensures forall m :: Tries(t.attempts, m) >= Tries(s.attempts, m)
    ensures Tries(t.attempts, s.sweeps[w].snapshot[i]) > Tries(s.attempts, s.sweeps[w].snapshot[i])
    decreases i - s.sweeps[w].pos
  {
    var sweep := s.sweeps[w];
    var a := Attempt(sweep.snapshot[sweep.pos], true);
    var s1 := Next(s, Resend(w, true));
    forall m ensures Tries(s1.attempts, m) == Tries(s.attempts, m) + if a.msg == m then 1 else 0 {
      OneMore(s.attempts, a, m);
    }
    if sweep.pos == i {
      t := s1;
      ResendsNothing(t);
    } else {
      t := TryUpTo(s1, w, i);
    }
    ResendsBy(s, Resend(w, true), t);
  }

  /** The sweep that is to begin, and the append under way stored. */
  lemma BegunAndStored(s: State, w: nat) returns (t: State)
    requires w !in s.sweeps
    ensures ResendsTo(Next(s, BeginSweep(w)), t) && t.append.None? && t.attempts == s.attempts
    ensures t.sweeps == s.sweeps[w := Sweep(s.queue, 0)]
  {
    t := Next(s, BeginSweep(w));
    ResendsNothing(t);
    if t.append.Some? {
      var begun := t;
      t := Next(begun, Store);
      ResendsNothing(t);
      ResendsBy(begun, Store, t);
    }
  }

  /** A sweep begun while a queued message belongs to an active sweep can try that message a third time. */
  lemma CarelessBegin(s: State, w: nat, v: nat, m: Msg) returns (t: State)
    requires Inv(s) && w !in s.sweeps && m in s.queue && v in s.sweeps && m in s.sweeps[v].snapshot
    ensures ResendsTo(Next(s, BeginSweep(w)), t) && Tries(t.attempts, m) >= 3
  {
    assert SweepSound(s, s.sweeps[v]);
    var begun := Next(s, BeginSweep(w));
    var u := BegunAndStored(s, w);
    var i :| 0 <= i < |s.queue| && s.queue[i] == m;
    var j :| 0 <= j < |s.sweeps[v].snapshot| && s.sweeps[v].snapshot[j] == m;
    if j >= s.sweeps[v].pos {
      var u' := TryUpTo(u, v, j);
      ResendsFurther(begun, u, u');
      u := u';
    }
    t := TryUpTo(u, w, i);
    ResendsFurther(begun, u, t);
  }

  /** All that the sweeps active then can do leaves every message tried at most twice. */
  ghost predicate ResendsStayBounded(s: State) {
    forall t, m :: ResendsTo(s, t) ==> Tries(t.attempts, m) <= 2
  }

  lemma {:induction false} ResendsAreCareful(s: State, steps: seq<Step>)
    requires Runs(s, steps) && OnlyResends(steps)
    ensures Careful(s, steps)
    decreases |steps|
  {
    if steps != [] {
      assert OnlyResends(steps[1..]) by {
        assert forall i :: 0 <= i < |steps| - 1 ==> steps[1..][i] == steps[i + 1];
      }
      ResendsAreCareful(Next(s, steps[0]), steps[1..]);
    }
  }

  lemma SoundStaysBounded(s: State)
    requires Inv(s)
    ensures ResendsStayBounded(s)
  {
    forall t, m | ResendsTo(s, t) ensures Tries(t.attempts, m) <= 2 {
      var steps :| Runs(s, steps) && OnlyResends(steps) && Run(s, steps) == t;
      ResendsAreCareful(s, steps);
      RunKeepsInv(s, steps);
      assert Bounded(t, m);
    }
  }

  /** A sweep may begin exactly when no queued message belongs to an active sweep. */
  lemma BeginExactly(s: State, w: nat)
    requires Inv(s) && w !in s.sweeps
    ensures CarefulStep(s, BeginSweep(w)) <==> ResendsStayBounded(Next(s, BeginSweep(w)))
  {
    if CarefulStep(s, BeginSweep(w)) {
      BeginKeepsInv(s, w);
      SoundStaysBounded(Next(s, BeginSweep(w)));
    } else {
      var m :| m in s.queue && BeingResent(s, m);
      var v :| v in s.sweeps && m in s.sweeps[v].snapshot;
      var t := CarelessBegin(s, w, v, m);
    }
  }

  /** A sweep ends while an append is under way, the append is stored, and the next sweep begins. */
  function EndStoreBegin(s: State, w: nat): State
    requires Enabled(s, EndSweep(w)) && s.append.Some?
  {
    Next(Next(Next(s, EndSweep(w)), Store), BeginSweep(w))
  }

  /**
   * The only active sweep may end during an append exactly when the append has read none of its messages: otherwise
   * they are queued again, and the next sweep tries them a third time.
   */
  lemma EndExactly(s: State, w: nat)
    requires Inv(s) && s.sweeps.Keys == {w} && Enabled(s, EndSweep(w)) && s.append.Some?
    ensures CarefulStep(s, EndSweep(w)) <==> ResendsStayBounded(EndStoreBegin(s, w))
  {
    var s1 := Next(s, EndSweep(w));
    var s2 := Next(s1, Store);
    if CarefulStep(s, EndSweep(w)) {
      EndKeepsInv(s, w);
      StoreKeepsInv(s1);
      BeginKeepsInv(s2, w);
      SoundStaysBounded(EndStoreBegin(s, w));
    } else {
      var m :| m in s.append.value.read && m in s.sweeps[w].snapshot;
      assert SweepSound(s, s.sweeps[w]);
      var u := BegunAndStored(s2, w);
      var i :| 0 <= i < |s.append.value.read| && s.append.value.read[i] == m;
      assert s2.queue[i] == m;
      var t := TryUpTo(u, w, i);
      ResendsFurther(EndStoreBegin(s, w), u, t);
    }
  }

  // ---------------------------------------------------------------- runs that lose or repeat messages

  /** A first message fails and is queued. */
  function FirstFailed(): State {
    Next(Next(Init(), Send(true, false)), Store)
  }

  lemma StartWithFailure(steps: seq<Step>)
    requires Runs(FirstFailed(), steps)
    ensures var all := [Send(true, false), Store] + steps;
            && Runs(Init(), all) && Run(Init(), all) == Run(FirstFailed(), steps)
            && (OneAtATime(FirstFailed(), steps) ==> OneAtATime(Init(), all))
            && (ClearsBetweenAppends(FirstFailed(), steps) ==> ClearsBetweenAppends(Init(), all))
  {
    var s1 := Next(Init(), Send(true, false));
    OneStep(s1, Store, steps);
    OneStep(Init(), Send(true, false), [Store] + steps);
    assert [Send(true, false), Store] + steps == [Send(true, false)] + ([Store] + steps);
  }

  lemma FirstFailedState()
    ensures FirstFailed() == State(1, [0], map[], None, [Attempt(0, false)], {})
  {
    assert [] + [0] == [0] && [] + [Attempt(0, false)] == [Attempt(0, false)];
  }

  /** Two sweeps, as after a reconnect during a sweep, can write the same message twice. */
  lemma TwoSweepersWriteTwice()
    ensures var steps := [Send(true, false), Store] + [BeginSweep(0), BeginSweep(1), Resend(0, true), Resend(1, true)];
            && Runs(Init(), steps) && ClearsBetweenAppends(Init(), steps)
            && Writes(Run(Init(), steps).attempts, 0) == 2
  {
    FirstFailedState();
    var s2 := FirstFailed();
    var s3 := Next(s2, BeginSweep(0));
    var s4 := Next(s3, BeginSweep(1));
    var s5 := Next(s4, Resend(0, true));
    var s6 := Next(s5, Resend(1, true));
    OneMore(s4.attempts, Attempt(0, true), 0);
    OneMore(s5.attempts, Attempt(0, true), 0);
    OneStep(s5, Resend(1, true), []);
    OneStep(s4, Resend(0, true), [Resend(1, true)]);
    OneStep(s3, BeginSweep(1), [Resend(0, true), Resend(1, true)]);
    OneStep(s2, BeginSweep(0), [BeginSweep(1), Resend(0, true), Resend(1, true)]);
    StartWithFailure([BeginSweep(0), BeginSweep(1), Resend(0, true), Resend(1, true)]);
  }

  /** The first message is written by a sweep, and queued again by an append that outlasts the clearing. */
  function BroughtBack(): State {
    State(2, [0, 1], map[], None, [Attempt(0, false)] + [Attempt(0, true)] + [Attempt(1, false)], {0})
  }

  lemma ClearDuringAppend(steps: seq<Step>)
    requires Runs(BroughtBack(), steps) && OneAtATime(BroughtBack(), steps)
    ensures var all := [BeginSweep(0), Resend(0, true), Send(true, false), EndSweep(0), Store] + steps;
            && Runs(FirstFailed(), all) && OneAtATime(FirstFailed(), all)
            && Run(FirstFailed(), all) == Run(BroughtBack(), steps)
  {
    FirstFailedState();
    var s2 := FirstFailed();
    var s3 := Next(s2, BeginSweep(0));
    var s4 := Next(s3, Resend(0, true));
    var s5 := Next(s4, Send(true, false));
    var s6 := Next(s5, EndSweep(0));
    assert s6.sweeps == map[] && s6.dropped == {0};
    assert Next(s6, Store) == BroughtBack();
    OneStep(s6, Store, steps);
    OneStep(s5, EndSweep(0), [Store] + steps);
    OneStep(s4, Send(true, false), [EndSweep(0)] + ([Store] + steps));
    var rest := [Send(true, false)] + ([EndSweep(0)] + ([Store] + steps));
    OneStep(s3, Resend(0, true), rest);
    OneStep(s2, BeginSweep(0), [Resend(0, true)] + rest);
    assert [BeginSweep(0), Resend(0, true), Send(true, false), EndSweep(0), Store] + steps
        == [BeginSweep(0)] + ([Resend(0, true)] + rest);
  }

  /** One sweep at a time is not enough: a clearing during an append brings a message back that was written already. */
  lemma ClearDuringAppendWritesTwice()
    ensures var steps := [Send(true, false), Store]
                         + ([BeginSweep(0), Resend(0, true), Send(true, false), EndSweep(0), Store]
                            + [BeginSweep(0), Resend(0, true)]);
            && Runs(Init(), steps) && OneAtATime(Init(), steps)
            && Writes(Run(Init(), steps).attempts, 0) == 2
  {
    var s7 := BroughtBack();
    var s8 := Next(s7, BeginSweep(0));
    OneMore([Attempt(0, false)], Attempt(0, true), 0);
    OneMore([Attempt(0, false)] + [Attempt(0, true)], Attempt(1, false), 0);
    OneMore(s7.attempts, Attempt(0, true), 0);
    OneStep(s8, Resend(0, true), []);
    OneStep(s7, BeginSweep(0), [Resend(0, true)]);
    ClearDuringAppend([BeginSweep(0), Resend(0, true)]);
    StartWithFailure([BeginSweep(0), Resend(0, true), Send(true, false), EndSweep(0), Store]
                     + [BeginSweep(0), Resend(0, true)]);
  }

  /** A loss in a careful run: the second message fails once while the first is being sent again. */
  lemma FailureDuringSweepIsLost()
    ensures var steps := [Send(true, false), Store]
                         + [BeginSweep(0), Send(true, false), Store, Resend(0, true), EndSweep(0)];
            && Runs(Init(), steps) && OneAtATime(Init(), steps) && ClearsBetweenAppends(Init(), steps)
            && var s := Run(Init(), steps);
              1 in s.dropped && s.queue == [] && Tries(s.attempts, 1) == 1 && Writes(s.attempts, 1) == 0
  {
    FirstFailedState();
    var s2 := FirstFailed();
    var s3 := Next(s2, BeginSweep(0));
    var s4 := Next(s3, Send(true, false));
    var s5 := Next(s4, Store);
    var s6 := Next(s5, Resend(0, true));
    OneMore([], Attempt(0, false), 1);
    OneMore(s3.attempts, Attempt(1, false), 1);
    OneMore(s5.attempts, Attempt(0, true), 1);
    OneStep(s6, EndSweep(0), []);
    OneStep(s5, Resend(0, true), [EndSweep(0)]);
    OneStep(s4, Store, [Resend(0, true), EndSweep(0)]);
    OneStep(s3, Send(true, false), [Store, Resend(0, true), EndSweep(0)]);
    OneStep(s2, BeginSweep(0), [Send(true, false), Store, Resend(0, true), EndSweep(0)]);
    StartWithFailure([BeginSweep(0), Send(true, false), Store, Resend(0, true), EndSweep(0)]);
  }
}
