/** The object whose methods are the steps of the gateway session (golang-bot/kaihela/api/base/state_session.go). */
module StateSession {
  import opened Wrappers
  import opened GatewaySession

  /** The fields; the channels with their consumers and the heartbeat with its watchers are held as values. */
  class Session {
    const timeout: int
    var fsm: Status
    var gateWay: string
    var sessionId: string
    var maxSn: int
    var now: int               // the time the clock shows
    var recvQueues: Delivery
    var heartbeat: Heartbeat
    ghost var accepted: seq<int>

    ghost function Abs(): State
      reads this
    {
      State(fsm, gateWay, sessionId, maxSn, accepted, now, recvQueues, heartbeat)
    }

    constructor (gateWay: string, timeout: int, now: int)
      ensures Abs() == Fresh(gateWay, now) && this.timeout == timeout
    {
      this.timeout, this.gateWay, this.now := timeout, gateWay, now;
      fsm, sessionId, maxSn, accepted := Status.Start, "", 0, [];
      recvQueues, heartbeat := NO_FRAMES, NO_PINGS;
    }

    method FireEvent(e: Event)
      modifies this`fsm
      ensures fsm == Fire(old(fsm), e)
    {
      var target := Transition(fsm, e);
      if target.Some? {
        fsm := target.value;
      }
    }

    method AdvanceClock(elapsed: nat)
      modifies this`now
      ensures Abs() == Next(old(Abs()), timeout, Tick(elapsed))
    {
      now := now + elapsed;
    }

    /** Start up to the first request or dial. */
    method Start()
      modifies this`fsm, this`recvQueues
      ensures Abs() == Next(old(Abs()), timeout, Begin)
    {
      recvQueues := recvQueues.(starting := recvQueues.starting + 1);
      if gateWay == "" {
        fsm := Init;
      } else {
        fsm := Gateway;
      }
    }

    /** The rest of Start: a consumer takes frames from whatever queue is current now. */
    method StartProcessEvent()
      requires recvQueues.starting > 0
      modifies this`recvQueues
      ensures Abs() == Next(old(Abs()), timeout, Listen)
    {
      recvQueues := recvQueues.(starting := recvQueues.starting - 1,
                                listened := recvQueues.listened + {recvQueues.channel});
    }

    method GetGateway(address: string)
      modifies this`fsm, this`gateWay
      ensures Abs() == Next(old(Abs()), timeout, GatewayReply(address))
    {
      if address != "" {
        gateWay := address;
        FireEvent(GotGateway);
      }
    }

    method WsConnectOk()
      modifies this`fsm
      ensures Abs() == Next(old(Abs()), timeout, DialOk)
    {
      FireEvent(WsConnect);
    }

    method WsConnectFailed()
      modifies this`fsm
      ensures Abs() == Next(old(Abs()), timeout, DialGivenUp)
    {
      FireEvent(WsConnectFail);
    }

    method RecordPong()
      modifies this`heartbeat
      ensures heartbeat == PongRecorded(old(heartbeat), now)
    {
      heartbeat := heartbeat.(lastPong := Some(now), pongs := heartbeat.pongs + {now});
    }

    method ReceiveHello(code: Option<int>, id: string)
      modifies this`fsm, this`heartbeat, this`sessionId
      ensures Abs() == Next(old(Abs()), timeout, Receive(HelloSignal(code, id)))
    {
      var c := 40100;
      if code.Some? {
        c := code.value;
      }
      if c == 0 {
        RecordPong();
        sessionId := id;
        FireEvent(HelloReceived);
      } else if c in [40100, 40101, 40102, 40103] {
        FireEvent(HelloGatewayErrFail);
      }
    }

    method ReceivePong()
      modifies this`fsm, this`heartbeat
      ensures Abs() == Next(old(Abs()), timeout, Receive(PongSignal))
    {
      FireEvent(PongReceived);
      RecordPong();
    }

    method ResumeOk()
      modifies this`fsm
      ensures Abs() == Next(old(Abs()), timeout, Receive(ResumeAckSignal))
    {
      if fsm != Connected {
        FireEvent(ResumeReceivedOk);
      }
    }

    method Reconnect()
      modifies this`fsm, this`gateWay, this`recvQueues, this`maxSn, this`sessionId, this`accepted
      ensures Abs() == Next(old(Abs()), timeout, Receive(ReconnectSignal))
    {
      gateWay := "";
      recvQueues := recvQueues.(channel := recvQueues.channel + 1);
      maxSn := 0;
      sessionId := "";
      fsm := Init;
      accepted := [];
    }

    /** An event frame; in the connected state it is offered to the current queue. */
    method ReceiveEvent(frame: Frame)
      modifies this`maxSn, this`recvQueues, this`accepted
      ensures Abs() == Next(old(Abs()), timeout, Receive(EventSignal(frame)))
    {
      if fsm == Connected {
        if frame.sn > maxSn {
          maxSn := frame.sn;
        }
        var c, q := recvQueues.channel, recvQueues;
        recvQueues := q.(waiting := q.waiting[c := On(q.waiting, c) + [frame]],
                         offered := q.offered[c := On(q.offered, c) + [frame]]);
        accepted := accepted + [frame.sn];
      }
    }

    method ReceiveFrameHandler(signal: Signal)
      modifies this
      ensures Abs() == Next(old(Abs()), timeout, Receive(signal))
    {
      match signal
      case EventSignal(frame) => ReceiveEvent(frame);
      case HelloSignal(code, id) => ReceiveHello(code, id);
      case PongSignal => ReceivePong();
      case ResumeAckSignal => ResumeOk();
      case ReconnectSignal => Reconnect();
      case OtherSignal =>
    }

    /** A consumer started by StartProcessEvent takes the next frame of its queue. */
    method ProcessEvent(c: nat) returns (frame: Frame)
      requires c in recvQueues.listened && On(recvQueues.waiting, c) != []
      modifies this`recvQueues
      ensures frame == On(old(recvQueues.waiting), c)[0]
      ensures Abs() == Next(old(Abs()), timeout, HandOn(c))
    {
      frame := On(recvQueues.waiting, c)[0];
      var q := recvQueues;
      recvQueues := q.(waiting := q.waiting[c := On(q.waiting, c)[1..]],
                       handedOn := q.handedOn[c := On(q.handedOn, c) + [frame]]);
    }

    /** SendHeartBeat up to the write; returns the serial number put into the ping. */
    method SendHeartBeat(delivered: bool) returns (sn: int)
      modifies this`heartbeat
      ensures sn == PingSn(old(Abs())) && Abs() == Next(old(Abs()), timeout, SendPing(delivered))
    {
      sn := maxSn;
      heartbeat := heartbeat.(lastPing := Some(now), pings := heartbeat.pings + {now});
      if delivered {
        heartbeat := heartbeat.(unposted := heartbeat.unposted + 1);
      }
    }

    /** The rest of SendHeartBeat: the deadline is computed from the latest ping and offered to the watchers. */
    method PostDeadline()
      requires heartbeat.unposted > 0 && heartbeat.lastPing.Some?
      modifies this`heartbeat
      ensures Abs() == Next(old(Abs()), timeout, Post)
    {
      var deadline := heartbeat.lastPing.value + timeout;
      heartbeat := heartbeat.(unposted := heartbeat.unposted - 1, posted := heartbeat.posted + multiset{deadline});
    }

    method CheckDeadline(deadline: int)
      requires deadline in heartbeat.posted
      modifies this`heartbeat
      ensures Abs() == Next(old(Abs()), timeout, Check(deadline))
    {
      heartbeat := heartbeat.(posted := heartbeat.posted - multiset{deadline});
      if fsm != Connected && fsm != Retry {
        return;
      }
      if now < deadline {
        heartbeat := heartbeat.(sleeping := heartbeat.sleeping + multiset{deadline});
      }
    }

    method WakeWatcher(deadline: int)
      requires deadline in heartbeat.sleeping && deadline <= now
      modifies this`heartbeat, this`fsm
      ensures Abs() == Next(old(Abs()), timeout, Wake(deadline))
    {
      heartbeat := heartbeat.(sleeping := heartbeat.sleeping - multiset{deadline});
      if heartbeat.lastPong.None? || heartbeat.lastPong.value < deadline - timeout {
        heartbeat := heartbeat.(late := heartbeat.late + 1);
        if fsm == Connected {
          FireEvent(HeartbeatTimeout);
        }
      }
    }

    method FinishLateCheck()
      requires heartbeat.late > 0
      modifies this`fsm, this`heartbeat
      ensures Abs() == Next(old(Abs()), timeout, WakeAgain)
    {
      heartbeat := heartbeat.(late := heartbeat.late - 1);
      if fsm == Retry {
        FireEvent(RetryHeartbeatTimeout);
      }
    }

    /** Carries out one step of the interleaving with the method that performs it. */
    method Perform(step: Step)
      requires Enabled(Abs(), step)
      modifies this
      ensures Abs() == Next(old(Abs()), timeout, step)
    {
      match step
      case Tick(elapsed) => AdvanceClock(elapsed);
      case Begin => Start();
      case Listen => StartProcessEvent();
      case GatewayReply(address) => GetGateway(address);
      case DialOk => WsConnectOk();
      case DialGivenUp => WsConnectFailed();
      case Receive(signal) => ReceiveFrameHandler(signal);
      case HandOn(c) => var _ := ProcessEvent(c);
      case SendPing(delivered) => var _ := SendHeartBeat(delivered);
      case Post => PostDeadline();
      case Check(deadline) => CheckDeadline(deadline);
      case Wake(deadline) => WakeWatcher(deadline);
      case WakeAgain => FinishLateCheck();
    }

    /** Any interleaving of the methods is a run of the state machine, and keeps its invariant. */
    method PerformAll(steps: seq<Step>)
      requires Runs(Abs(), timeout, steps)
      modifies this
      ensures Abs() == Run(old(Abs()), timeout, steps)
      ensures Inv(old(Abs()), timeout) ==> Inv(Abs(), timeout)
    {
      for i := 0 to |steps|
        invariant Runs(Abs(), timeout, steps[i..])
        invariant Run(Abs(), timeout, steps[i..]) == Run(old(Abs()), timeout, steps)
      {
        assert steps[i..][0] == steps[i] && steps[i..][1..] == steps[i + 1..];
        Perform(steps[i]);
      }
      assert steps[|steps|..] == [];
      if Inv(old(Abs()), timeout) {
        RunKeepsInv(old(Abs()), timeout, steps);
      }
    }
  }
}
