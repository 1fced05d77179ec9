/**
 * The client as the original has it: the failed messages are a slice, a sweep ranges over a copy of the slice
 * header, and appending may write into the array both share (wsclient/ws.go). Each method is one atomic step.
 */
module WebSocketClient {
  import opened Wrappers
  import opened ResendQueue

  /** A slice header; the capacity is the array's length. */
  datatype Slice = Slice(arr: array<Msg>, len: nat) {
    ghost predicate Valid() {
      len <= arr.Length
    }

    /** Sharing the other's array, it is no longer than the other. */
    ghost predicate Within(other: Slice) {
      arr == other.arr ==> len <= other.len
    }

    ghost function Elements(): (s: seq<Msg>)
      requires Valid()
      reads arr
    {
      arr[..len]
    }
  }

  /** A loop over a slice: the header it was entered with, and the next index. */
  datatype Range = Range(slice: Slice, pos: nat) {
    ghost predicate Valid() {
      slice.Valid() && pos <= slice.len
    }

    ghost function Abs(): Sweep
      requires slice.Valid()
      reads slice.arr
    {
      Sweep(slice.Elements(), pos)
    }
  }

  /** A failing call between reading the slice and storing the longer one. */
  datatype Held = Held(slice: Slice, msg: Msg, sweeper: Option<nat>)

  /** The built-in append: in place while there is capacity, otherwise into a fresh array of some larger capacity. */
  method AppendTo(slice: Slice, m: Msg, spare: nat) returns (longer: Slice)
    requires slice.Valid()
    modifies slice.arr
    ensures longer.arr == slice.arr || fresh(longer.arr)
    ensures longer.Valid() && longer.len == slice.len + 1 && longer.Elements() == old(slice.Elements()) + [m]
    ensures slice.Elements() == old(slice.Elements())
  {
    var arr, n := slice.arr, slice.len;
    if n == arr.Length {
      arr := new Msg[n + 1 + spare];
      for i := 0 to n
        modifies arr
        invariant arr[..i] == slice.arr[..i]
      {
        arr[i] := slice.arr[i];
      }
    }
    arr[n] := m;
    longer := Slice(arr, n + 1);
  }

  /** `state` is the state of the interleaving model that the fields realise, and `repr` the arrays they may use. */
  class Client {
    var sendFailures: Slice
    var ranges: map<nat, Range>
    var held: Option<Held>
    ghost var state: State
    ghost var repr: set<array<Msg>>

    ghost predicate RangeValid(r: Range, sweep: Sweep)
      reads this, repr
    {
      && r.Valid() && r.slice.arr in repr && r.Abs() == sweep
      && r.slice.Within(sendFailures) && (held.Some? ==> r.slice.Within(held.value.slice))
    }

    ghost predicate HeldValid(h: Held, append: Append)
      reads this, repr
    {
      && h.slice.Valid() && h.slice.arr in repr && Append(h.slice.Elements(), h.msg, h.sweeper) == append
      && (h.slice.arr == sendFailures.arr ==> h.slice.len == sendFailures.len)
    }

    ghost predicate Valid()
      reads this, repr
    {
      && sendFailures.Valid() && sendFailures.arr in repr && sendFailures.Elements() == state.queue
      && ranges.Keys == state.sweeps.Keys
      && (forall w :: w in ranges ==> RangeValid(ranges[w], state.sweeps[w]))
      && (held.Some? <==> state.append.Some?)
      && (held.Some? ==> HeldValid(held.value, state.append.value))
    }

    constructor ()
      ensures Valid() && state == Init() && fresh(repr)
    {
      var empty := new Msg[0];
      sendFailures, ranges, held := Slice(empty, 0), map[], None;
      state, repr := Init(), {empty};
    }

    /** SendMessage for an encoded message, under the mutex, up to the store: a failed write reads the slice header. */
    method WriteOrHold(m: Msg, written: bool, sweeper: Option<nat>)
      requires Valid() && held.None?
      modifies this`held, this`state
      ensures Valid() && state == Attempted(old(state), m, written, sweeper)
    {
      state := Attempted(state, m, written, sweeper);
      if !written {
        held := Some(Held(sendFailures, m, sweeper));
      }
    }

    /** The rest of a failing call: the message is appended to the slice as it was read, and the result stored. */
    method StoreLonger(spare: nat)
      requires Valid() && held.Some?
      modifies this`sendFailures, this`held, this`state, this`repr, repr
      ensures Valid() && state == Next(old(state), Store) && held.None? && fresh(repr - old(repr))
    {
      ghost var queue := state.append.value.read + [held.value.msg];
      var longer := AppendTo(held.value.slice, held.value.msg, spare);
      assert longer.Elements() == queue;
      sendFailures, held := longer, None;
      state, repr := state.(queue := queue, append := None), repr + {longer.arr};
      forall w | w in ranges ensures RangeValid(ranges[w], state.sweeps[w]) {
        assert old(RangeValid(ranges[w], state.sweeps[w]));
      }
    }

    /** A sender's call with a message of its own. */
    method SendMessage(m: Msg, encodes: bool, written: bool)
      requires Valid() && m == state.next && held.None?
      modifies this`held, this`state
      ensures Valid() && state == Next(old(state), Send(encodes, written))
    {
      state := state.(next := state.next + 1);
      if encodes {
        WriteOrHold(m, written, None);
      }
    }

    /** Entering the loop of processFailedMessages: the slice header is copied, its elements are not. */
    method EnterSweep(w: nat)
      requires Valid() && w !in ranges
      modifies this`ranges, this`state
      ensures Valid() && state == Next(old(state), BeginSweep(w))
    {
      ranges := ranges[w := Range(sendFailures, 0)];
      state := Next(state, BeginSweep(w));
    }

    /** One turn of the loop: the element is read now, from the shared array. */
    method ResendOne(w: nat, written: bool)
      requires Valid() && w in ranges && ranges[w].pos < ranges[w].slice.len && held.None?
      modifies this`held, this`ranges, this`state
      ensures Valid() && state == Next(old(state), Resend(w, written))
    {
      var r := ranges[w];
      var failedMessage := r.slice.arr[r.pos];
      ranges := ranges[w := r.(pos := r.pos + 1)];
      state := state.(sweeps := state.sweeps[w := state.sweeps[w].(pos := r.pos + 1)]);
      WriteOrHold(failedMessage, written, Some(w));
    }

    /** After the loop the slice is replaced by an empty one, whoever may be appending to it. */
    method FinishSweep(w: nat)
      requires Valid() && w in ranges && ranges[w].pos == ranges[w].slice.len
      requires held.Some? ==> held.value.sweeper != Some(w)
      modifies this`sendFailures, this`ranges, this`state, this`repr
      ensures Valid() && state == Next(old(state), EndSweep(w)) && fresh(repr - old(repr))
    {
      var empty := new Msg[0];
      sendFailures, ranges := Slice(empty, 0), ranges - {w};
      state, repr := Next(state, EndSweep(w)), repr + {empty};
    }

    /** One step of the interleaving by the method that performs it; `m` is the message that a sender brings. */
    method Perform(step: Step, m: Msg, spare: nat)
      requires Valid() && Enabled(state, step) && m == state.next
      modifies this, repr
      ensures Valid() && state == Next(old(state), step) && fresh(repr - old(repr))
    {
      if step.Resend? || step.EndSweep? {
        LoopMatches(step.w);
      }
      match step
      case Send(encodes, written) => SendMessage(m, encodes, written);
      case Store => StoreLonger(spare);
      case BeginSweep(w) => EnterSweep(w);
      case Resend(w, written) => ResendOne(w, written);
      case EndSweep(w) => FinishSweep(w);
    }

    /** Any interleaving of the methods is a run of the model; senders bring messages numbered from `first` on. */
    method PerformAll(steps: seq<Step>, first: Msg, spare: nat)
      requires Valid() && Runs(state, steps) && first == state.next
      modifies this, repr
      ensures Valid() && state == Run(old(state), steps) && fresh(repr - old(repr))
    {
      var m := first;
      for i := 0 to |steps|
        invariant Valid() && fresh(repr - old(repr)) && m == state.next
        invariant Runs(state, steps[i..]) && Run(state, steps[i..]) == Run(old(state), steps)
      {
        assert steps[i..][0] == steps[i] && steps[i..][1..] == steps[i + 1..];
        Perform(steps[i], m, spare);
        m := if steps[i].Send? then m + 1 else m;
      }
      assert steps[|steps|..] == [];
    }

    /** One turn with nothing in between, up to the store. */
    method ResendAndStore(w: nat, written: bool, spare: nat)
      requires Valid() && Enabled(state, Resend(w, written))
      modifies this, repr
      ensures Valid() && state == Turn(old(state), w, written) && fresh(repr - old(repr))
    {
      LoopMatches(w);
      TurnIsSteps(state, w, written);
      ResendOne(w, written);
      if held.Some? {
        StoreLonger(spare);
      }
    }

    /** A turn is possible in the model just when the loop has an element left. */
    lemma LoopMatches(w: nat)
      requires Valid() && w in ranges
      ensures w in state.sweeps && (held.None? <==> state.append.None?)
      ensures ranges[w].pos == state.sweeps[w].pos && ranges[w].slice.len == |state.sweeps[w].snapshot|
    {
      assert RangeValid(ranges[w], state.sweeps[w]);
    }

    /** The turn after the first i of a sweep with nothing in between. */
    method NextTurn(ghost begun: State, w: nat, i: nat, written: nat -> bool, spare: nat)
      requires Valid() && Begun(begun, w) && i < |begun.sweeps[w].snapshot| && state == Turns(begun, w, written, i)
      modifies this, repr
      ensures Valid() && state == Turns(begun, w, written, i + 1) && fresh(repr - old(repr))
    {
      NextTurnPossible(begun, w, written, i);
      ResendAndStore(w, written(i), spare);
    }

    /** The loop of a sweep with nothing in between; `written(i)` says whether the i-th resend succeeds. */
    method ResendAll(w: nat, written: nat -> bool, spare: nat)
      requires Valid() && Begun(state, w)
      modifies this, repr
      ensures Valid() && fresh(repr - old(repr))
      ensures state == Turns(old(state), w, written, |old(state).sweeps[w].snapshot|)
    {
      LoopMatches(w);
      ghost var begun := state;
      var n := ranges[w].slice.len;
      for i := 0 to n
        invariant Valid() && fresh(repr - old(repr))
        invariant state == Turns(begun, w, written, i)
      {
        NextTurn(begun, w, i, written, spare);
      }
    }

    /** A whole sweep with nothing in between. */
    method ProcessFailedMessages(w: nat, written: nat -> bool, spare: nat)
      requires Valid() && w !in ranges && state.append.None?
      modifies this, repr
      ensures Valid() && fresh(repr - old(repr)) && state == AfterSweep(old(state), w, written)
    {
      ghost var before := state;
      EnterSweep(w);
      ResendAll(w, written, spare);
      TurnsSoFar(Next(before, BeginSweep(w)), w, written, |before.queue|);
      LoopMatches(w);
      FinishSweep(w);
    }
  }

  // ---------------------------------------------------------------- a sweep with nothing in between

  /** The attempts of a sweep over `q` after n turns. */
  ghost function Resends(q: seq<Msg>, written: nat -> bool, n: nat): seq<Attempt>
    requires n <= |q|
  {
    if n == 0 then [] else Resends(q, written, n - 1) + [Attempt(q[n - 1], written(n - 1))]
  }

  /** A turn of the loop, to the end of its call. */
  ghost function Turn(s: State, w: nat, written: bool): State {
    if w in s.sweeps && s.sweeps[w].pos < |s.sweeps[w].snapshot| then
      var sweep := s.sweeps[w];
      var m := sweep.snapshot[sweep.pos];
      s.(sweeps := s.sweeps[w := Sweep(sweep.snapshot, sweep.pos + 1)],
         attempts := s.attempts + [Attempt(m, written)],
         queue := if written then s.queue else s.queue + [m])
    else s
  }

  lemma TurnIsSteps(s: State, w: nat, written: bool)
    requires Enabled(s, Resend(w, written))
    ensures var s' := Next(s, Resend(w, written));
            Turn(s, w, written) == if written then s' else Next(s', Store)
  {
  }

  ghost predicate Begun(s: State, w: nat) {
    w in s.sweeps && s.sweeps[w].pos == 0 && s.append.None?
  }

  ghost function Turns(s: State, w: nat, written: nat -> bool, n: nat): State {
    if n == 0 then s else Turn(Turns(s, w, written, n - 1), w, written(n - 1))
  }

  /** What n turns leave: each message of the sweep was tried once, in order. */
  lemma {:induction false} TurnsSoFar(s: State, w: nat, written: nat -> bool, n: nat)
    requires Begun(s, w) && n <= |s.sweeps[w].snapshot|
    ensures var t := Turns(s, w, written, n);
            && t.append.None? && t.sweeps == s.sweeps[w := Sweep(s.sweeps[w].snapshot, n)]
            && t.attempts == s.attempts + Resends(s.sweeps[w].snapshot, written, n)
  {
    if n == 0 {
      assert s.sweeps == s.sweeps[w := Sweep(s.sweeps[w].snapshot, 0)];
      assert s.attempts == s.attempts + [];
    } else {
      TurnsSoFar(s, w, written, n - 1);
    }
  }

  lemma NextTurnPossible(s: State, w: nat, written: nat -> bool, n: nat)
    requires Begun(s, w) && n < |s.sweeps[w].snapshot|
    ensures Enabled(Turns(s, w, written, n), Resend(w, written(n)))
  {
    TurnsSoFar(s, w, written, n);
  }

  ghost function AfterSweep(s: State, w: nat, written: nat -> bool): State
    requires w !in s.sweeps && s.append.None?
  {
    var begun := Next(s, BeginSweep(w));
    TurnsSoFar(begun, w, written, |s.queue|);
    Next(Turns(begun, w, written, |s.queue|), EndSweep(w))
  }

  /** A sweep with nothing in between tries the queued messages once each, in order, and leaves the queue empty. */
  lemma WholeSweep(s: State, w: nat, written: nat -> bool)
    requires w !in s.sweeps && s.append.None?
    ensures var t := AfterSweep(s, w, written);
            && t.queue == [] && t.sweeps == s.sweeps && t.append.None?
            && t.attempts == s.attempts + Resends(s.queue, written, |s.queue|)
  {
    TurnsSoFar(Next(s, BeginSweep(w)), w, written, |s.queue|);
  }
}
