/** send/3 (src/gen_utp.erl) against the driver: the loop of wait, retry and cancel in the sending process,
    with its mailbox, and the handler it commands. */
module Sending {
  import opened Bytes
  import opened Options
  import opened Driver
  import opened Lifecycle
  import opened ReadSide
  import opened Framing
  import opened SharedCaller

  // ---------------------------------------------------------------- time

  /** os:timestamp(). */
  datatype Timestamp = Timestamp(mega: int, sec: int, micro: int)

  /** timer:now_diff, in microseconds. */
  function NowDiff(t2: Timestamp, t1: Timestamp): int {
    ((t2.mega - t1.mega) * 1000000 + t2.sec - t1.sec) * 1000000 + t2.micro - t1.micro
  }

  /** The div of Erlang, which truncates. */
  function Div1000(a: int): int {
    if a >= 0 then a / 1000 else -((-a) / 1000)
  }

  function Elapsed(start: Timestamp, now: Timestamp): int { Div1000(NowDiff(now, start)) }

  /** The time left of the send timeout, in milliseconds. */
  function Wait(start: Timestamp, now: Timestamp, timeout: int): int {
    var done := Timestamp(start.mega, start.sec, timeout * 1000 + start.micro);
    Div1000(NowDiff(done, now))
  }

  /** Under a clock that does not go back, a finite wait is never negative, never longer than what the
      elapsed time leaves of the timeout, and ends within the last millisecond before the deadline
      counted from the start of the whole send. */
  lemma WaitWithinBudget(start: Timestamp, now: Timestamp, timeout: int)
    requires NowDiff(now, start) >= 0 && Elapsed(start, now) < timeout
    ensures 0 <= Wait(start, now, timeout) <= timeout - Elapsed(start, now)
    ensures 0 <= timeout * 1000 - (NowDiff(now, start) + Wait(start, now, timeout) * 1000) < 1000
  {
    var done := Timestamp(start.mega, start.sec, timeout * 1000 + start.micro);
    assert NowDiff(done, now) == timeout * 1000 - NowDiff(now, start);
  }

  // ---------------------------------------------------------------- the sender

  /** What send returns: the driver's third element, or einval for a port that is gone. */
  datatype Result = Got(r: SendResult) | Inval

  datatype Sent = Sent(data: seq<byte>, result: Result)

  /** Where the sending process is: outside send, awaiting the reply to its command, awaiting a retry
      (perhaps for a limited time), about to cancel, or looking for a last reply after the cancel. */
  datatype Phase =
    | Idle
    | AwaitReply(data: seq<byte>, start: Timestamp)
    | AwaitRetry(data: seq<byte>, start: Timestamp)
    | AwaitRetryFor(data: seq<byte>, start: Timestamp, wait: int)
    | Expiring(data: seq<byte>)
    | Cancelled(data: seq<byte>)

  /** The port, the only process that sends on it, its utp_reply messages not yet received, and the sends
      that returned. */
  datatype Sys = Sys(w: World, me: Pid, phase: Phase, mailbox: seq<SendResult>, done: seq<Sent>)

  datatype SendEvent =
    | Begin(data: seq<byte>, start: Timestamp, up: Uptake)   // send/2 is called: port_command
    | TakeReply(now: Timestamp)                              // the outer receive
    | TakeRetry(up: Uptake)                                  // retry received: port_command again
    | Expire                                                 // the wait is over
    | Cancel                                                 // port_control(UTP_CANCEL_SEND)
    | Drain                                                  // the receive after the cancel
    | Elsewhere(e: Event)                                    // anything else at the port

  function NewSys(role: Role, opts: SockOpts, me: Pid): Sys {
    Sys(Start(role, opts), me, Idle, [], [])
  }

  /** The replies that go to a process. */
  function RepliesTo(me: Pid, sends: seq<SendMsg>): seq<SendResult> {
    if sends == [] then []
    else (if sends[0].to == Proc(me) then [sends[0].result] else []) + RepliesTo(me, sends[1..])
  }

  function NewSends(before: World, after: World): seq<SendMsg> {
    var n := |before.s.b.hist.link.sends|;
    if n <= |after.s.b.hist.link.sends| then after.s.b.hist.link.sends[n..] else []
  }

  /** The port takes a step, and what it sends arrives. */
  function Drive(x: Sys, e: Event): Sys {
    var w := Next(x.w, e);
    x.(w := w, mailbox := x.mailbox + RepliesTo(x.me, NewSends(x.w, w)))
  }

  function Finish(x: Sys, data: seq<byte>, result: Result): Sys {
    x.(phase := Idle, done := x.done + [Sent(data, result)])
  }

  function Command(x: Sys, data: seq<byte>, start: Timestamp, up: Uptake): Sys {
    if x.w.env.stopped then Finish(x, data, Inval)
    else Drive(x, EvOutputv(x.me, data, up)).(phase := AwaitReply(data, start))
  }

  /** The mailbox without its first retry. */
  function WithoutRetry(mailbox: seq<SendResult>): seq<SendResult> {
    if mailbox == [] then []
    else if mailbox[0].SendRetry? then mailbox[1..]
    else [mailbox[0]] + WithoutRetry(mailbox[1..])
  }

  predicate HasRetry(mailbox: seq<SendResult>) {
    exists i :: 0 <= i < |mailbox| && mailbox[i].SendRetry?
  }

  /** The branch that gives up on the spot, and leaves the waiter registered in the driver. */
  predicate GivesUpEarly(x: Sys, now: Timestamp) {
    && x.phase.AwaitReply? && x.mailbox != [] && x.mailbox[0].SendWaitFor?
    && Elapsed(x.phase.start, now) >= x.mailbox[0].ms
  }

  function Receive(x: Sys, now: Timestamp): Sys
    requires x.phase.AwaitReply? && x.mailbox != []
  {
    var data, start := x.phase.data, x.phase.start;
    var rest := x.(mailbox := x.mailbox[1..]);
    match x.mailbox[0]
    case SendWait => rest.(phase := AwaitRetry(data, start))
    case SendWaitFor(timeout) =>
      if Elapsed(start, now) >= timeout then Finish(rest, data, Got(SendTimedOut))
      else rest.(phase := AwaitRetryFor(data, start, Wait(start, now, timeout)))
    case r => Finish(rest, data, Got(r))
  }

  predicate SendAllowed(x: Sys, ev: SendEvent) {
    match ev
    case Begin(data, _, up) => x.phase.Idle? && (x.w.env.stopped || Allowed(x.w, EvOutputv(x.me, data, up)))
    case TakeReply(_) => x.phase.AwaitReply? && x.mailbox != []
    case TakeRetry(up) =>
      && (x.phase.AwaitRetry? || x.phase.AwaitRetryFor?) && HasRetry(x.mailbox)
      && (x.w.env.stopped || Allowed(x.w, EvOutputv(x.me, x.phase.data, up)))
    case Expire => x.phase.AwaitRetryFor? && !HasRetry(x.mailbox)
    case Cancel => x.phase.Expiring? && (x.w.env.stopped || Allowed(x.w, EvCancelSend))
    case Drain => x.phase.Cancelled?
    case Elsewhere(e) => Allowed(x.w, e) && !e.EvOutputv? && !e.EvCancelSend?
  }

  function NextSys(x: Sys, ev: SendEvent): Sys
    requires SendAllowed(x, ev)
  {
    match ev
    case Begin(data, start, up) => Command(x, data, start, up)
    case TakeReply(now) => Receive(x, now)
    case TakeRetry(up) => Command(x.(mailbox := WithoutRetry(x.mailbox)), x.phase.data, x.phase.start, up)
    case Expire => x.(phase := Expiring(x.phase.data))
    case Cancel =>
      if x.w.env.stopped then Finish(x, x.phase.data, Inval)
      else Drive(x, EvCancelSend).(phase := Cancelled(x.phase.data))
    case Drain =>
      if x.mailbox != [] && x.mailbox[0].SendOk? then Finish(x.(mailbox := x.mailbox[1..]), x.phase.data, Got(SendOk))
      else Finish(x.(mailbox := if x.mailbox == [] then [] else x.mailbox[1..]), x.phase.data, Got(SendTimedOut))
    case Elsewhere(e) => Drive(x, e)
  }

  predicate AllowedSends(x: Sys, evs: seq<SendEvent>)
    decreases |evs|
  {
    evs == [] || (SendAllowed(x, evs[0]) && AllowedSends(NextSys(x, evs[0]), evs[1..]))
  }

  function RunSys(x: Sys, evs: seq<SendEvent>): Sys
    requires AllowedSends(x, evs)
    decreases |evs|
  {
    if evs == [] then x else RunSys(NextSys(x, evs[0]), evs[1..])
  }

  /** Every send on an open port begins with no utp_reply left over. */
  predicate CleanStarts(x: Sys, evs: seq<SendEvent>)
    requires AllowedSends(x, evs)
    decreases |evs|
  {
    evs == [] || ((evs[0].Begin? && !x.w.env.stopped ==> x.mailbox == []) && CleanStarts(NextSys(x, evs[0]), evs[1..]))
  }

  /** No send gives up early. */
  predicate Patient(x: Sys, evs: seq<SendEvent>)
    requires AllowedSends(x, evs)
    decreases |evs|
  {
    evs == [] || ((evs[0].TakeReply? ==> !GivesUpEarly(x, evs[0].now)) && Patient(NextSys(x, evs[0]), evs[1..]))
  }

  // ---------------------------------------------------------------- the invariant

  /** The data of the sends that returned ok. */
  function OkData(done: seq<Sent>): seq<seq<byte>> {
    if done == [] then []
    else
      var last := done[|done| - 1];
      OkData(done[..|done| - 1]) + (if last.result == Got(SendOk) then [last.data] else [])
  }

  lemma OkDataSnoc(done: seq<Sent>, s: Sent)
    ensures OkData(done + [s]) == OkData(done) + (if s.result == Got(SendOk) then [s.data] else [])
  {
    assert (done + [s])[..|done|] == done;
  }

  predicate ProperResult(r: Result) {
    r.Inval? || r.r.SendOk? || r.r.SendNotConn? || r.r.SendTimedOut?
  }

  /** The data of a send whose ok is on its way. */
  function InTransit(x: Sys): seq<seq<byte>> {
    if x.phase.AwaitReply? && x.mailbox != [] && x.mailbox[0].SendOk? then [x.phase.data] else []
  }

  predicate AtMostRetry(mailbox: seq<SendResult>) {
    mailbox == [] || mailbox == [SendRetry]
  }

  predicate Mailbox(x: Sys) {
    if x.phase.AwaitReply? then x.mailbox != [] && !x.mailbox[0].SendRetry? && AtMostRetry(x.mailbox[1..])
    else AtMostRetry(x.mailbox)
  }

  predicate ExactlyOnce(x: Sys) {
    && x.w.s.b.hist.link.accepted == OkData(x.done) + InTransit(x)
    && (forall i :: 0 <= i < |x.done| ==> ProperResult(x.done[i].result))
  }

  predicate Waits(r: SendResult) { r.SendWait? || r.SendWaitFor? }

  ghost predicate SendInv(x: Sys) {
    && Reachable(x.w)
    && Mailbox(x)
    && (HasRetry(x.mailbox) ==> !x.w.s.c.senderWaiting)
    && ExactlyOnce(x)
  }

  /** With nobody giving up early, no reply and no waiter outlives a send on an open port. */
  predicate Tidy(x: Sys) {
    !x.w.env.stopped ==>
      && (x.phase.Idle? ==> x.mailbox == [] && !x.w.s.c.senderWaiting)
      && (x.phase.AwaitReply? && x.mailbox != [] && !Waits(x.mailbox[0]) ==> |x.mailbox| == 1 && !x.w.s.c.senderWaiting)
      && (x.phase.Cancelled? ==> !x.w.s.c.senderWaiting)
  }

  /** A sender that has been told to wait, and has no retry yet. */
  predicate Sleeps(x: Sys) {
    || (x.phase.AwaitReply? && |x.mailbox| == 1 && Waits(x.mailbox[0]))
    || ((x.phase.AwaitRetry? || x.phase.AwaitRetryFor? || x.phase.Expiring?) && x.mailbox == [])
  }

  /** A sleeping sender is the one the driver will wake. */
  predicate Wakeable(x: Sys) {
    Sleeps(x) ==> x.w.s.c.senderWaiting && x.w.s.c.caller == Proc(x.me)
  }

  // ---------------------------------------------------------------- what the port sends a sender

  lemma OutputvReplies(s: State, pid: Pid, data: seq<byte>, up: Uptake) returns (r: SendResult)
    ensures var t := Outputv(s, pid, data, up);
            && t.b.hist.link.sends == s.b.hist.link.sends + [SendMsg(Proc(pid), r)]
            && !r.SendRetry?
            && t.b.hist.link.accepted == s.b.hist.link.accepted + (if r.SendOk? then [data] else [])
            && (if Waits(r) then t.c.senderWaiting && t.c.caller == Proc(pid)
                else t.c.senderWaiting == s.c.senderWaiting && t.c.caller == s.c.caller)
    ensures WriteSide(s) && r.SendOk? ==> !s.c.senderWaiting
    ensures r == if s.c.status != Connected || !s.c.utp then SendNotConn
                 else if s.c.writable then SendOk
                 else if s.b.opts.sendTmout == 0 then SendTimedOut
                 else if s.b.opts.sendTmout == -1 then SendWait else SendWaitFor(s.b.opts.sendTmout)
  {
    hide Frame;
    r := if s.c.status != Connected || !s.c.utp then SendNotConn
         else if s.c.writable then SendOk
         else if s.b.opts.sendTmout == 0 then SendTimedOut
         else if s.b.opts.sendTmout == -1 then SendWait else SendWaitFor(s.b.opts.sendTmout);
  }

  lemma RepliesToOne(me: Pid, m: SendMsg)
    ensures RepliesTo(me, []) == [] && RepliesTo(me, [m]) == if m.to == Proc(me) then [m.result] else []
  {
    assert [m][1..] == [];
  }

  /** A port step that sends nothing, or one message, to senders. */
  lemma DriveOne(x: Sys, e: Event, m: SendMsg)
    ensures Next(x.w, e).s.b.hist.link.sends == x.w.s.b.hist.link.sends ==> Drive(x, e).mailbox == x.mailbox
    ensures Next(x.w, e).s.b.hist.link.sends == x.w.s.b.hist.link.sends + [m] ==>
              Drive(x, e).mailbox == x.mailbox + (if m.to == Proc(x.me) then [m.result] else [])
  {
    hide Next;
    RepliesToOne(x.me, m);
    assert x.mailbox + [] == x.mailbox;
  }

  // ---------------------------------------------------------------- what a send returns

  /** A limited wait is refused exactly if the limit, counted in microseconds, is over; otherwise the wait that
      is left ends within the last millisecond before it. */
  lemma WaitExactly(x: Sys, now: Timestamp)
    requires x.phase.AwaitReply? && x.mailbox != [] && x.mailbox[0].SendWaitFor? && NowDiff(now, x.phase.start) >= 0
    ensures var y := Receive(x, now);
            var spent, limit := NowDiff(now, x.phase.start), x.mailbox[0].ms * 1000;
            && y.mailbox == x.mailbox[1..] && y.w == x.w
            && if spent >= limit then y.phase.Idle? && y.done == x.done + [Sent(x.phase.data, Got(SendTimedOut))]
               else
                 && y.phase.AwaitRetryFor? && y.phase.data == x.phase.data && y.phase.start == x.phase.start
                 && y.done == x.done && 0 <= limit - (spent + y.phase.wait * 1000) < 1000
  {
    if Elapsed(x.phase.start, now) < x.mailbox[0].ms {
      WaitWithinBudget(x.phase.start, now, x.mailbox[0].ms);
    }
  }

  /** What the first answer of the driver makes of a send: enotconn exactly without a connection or a handle; ok
      exactly on a writable one; etimedout exactly on one that is not writable, once the finite send timeout is
      over, in microseconds from the start of the send; and otherwise it waits, with the data not accepted. */
  lemma SendOutcome(x: Sys, data: seq<byte>, start: Timestamp, up: Uptake, now: Timestamp)
    requires x.phase.Idle? && x.mailbox == [] && !x.w.env.stopped && Allowed(x.w, EvOutputv(x.me, data, up))
    requires NowDiff(now, start) >= 0
    ensures SendAllowed(x, Begin(data, start, up)) && SendAllowed(NextSys(x, Begin(data, start, up)), TakeReply(now))
    ensures var s := x.w.s;
            var y := NextSys(NextSys(x, Begin(data, start, up)), TakeReply(now));
            var tmout := s.b.opts.sendTmout;
            if s.c.status != Connected || !s.c.utp then y.done == x.done + [Sent(data, Got(SendNotConn))]
            else if s.c.writable then y.done == x.done + [Sent(data, Got(SendOk))]
            else if tmout != -1 && tmout * 1000 <= NowDiff(now, start) then
              y.done == x.done + [Sent(data, Got(SendTimedOut))]
            else
              && y.done == x.done && Sleeps(y)
              && y.w.s.b.hist.link.accepted == s.b.hist.link.accepted
              && y.w.s.c.senderWaiting && y.w.s.c.caller == Proc(x.me)
  {
    var r := OutputvReplies(x.w.s, x.me, data, up);
    DriveOne(x, EvOutputv(x.me, data, up), SendMsg(Proc(x.me), r));
    var b := NextSys(x, Begin(data, start, up));
    hide Outputv, Allowed;
    if b.mailbox[0].SendWaitFor? {
      WaitExactly(b, now);
    }
  }

  // ---------------------------------------------------------------- preservation

  /** What a step must keep beside the reachability of the port. */
  predicate Kept(x: Sys) {
    Mailbox(x) && (HasRetry(x.mailbox) ==> !x.w.s.c.senderWaiting) && ExactlyOnce(x)
  }

  lemma FinishKeeps(x: Sys, y: Sys, data: seq<byte>, result: Result)
    requires y == Finish(x, data, result) && AtMostRetry(x.mailbox) && (HasRetry(x.mailbox) ==> !x.w.s.c.senderWaiting)
    requires forall i :: 0 <= i < |x.done| ==> ProperResult(x.done[i].result)
    requires ProperResult(result)
    requires x.w.s.b.hist.link.accepted == OkData(x.done) + (if result == Got(SendOk) then [data] else [])
    ensures Kept(y)
  {
    OkDataSnoc(x.done, Sent(data, result));
  }

  lemma CommandKeeps(x: Sys, data: seq<byte>, start: Timestamp, up: Uptake)
    requires Inv(x.w) && AtMostRetry(x.mailbox) && (x.w.env.stopped || x.mailbox == [])
    requires HasRetry(x.mailbox) ==> !x.w.s.c.senderWaiting
    requires !x.phase.AwaitReply? && ExactlyOnce(x)
    ensures var y := Command(x, data, start, up);
            && Kept(y) && (!x.w.env.stopped ==> |y.mailbox| == 1)
            && (!x.w.env.stopped ==>
                  if Waits(y.mailbox[0]) then y.w.s.c.senderWaiting && y.w.s.c.caller == Proc(x.me)
                  else y.w.s.c.senderWaiting == x.w.s.c.senderWaiting)
            && y.w.env == x.w.env
  {
    hide Outputv, Inv, OkData;
    assert OkData(x.done) + [] == OkData(x.done);
    if x.w.env.stopped {
      FinishKeeps(x, Command(x, data, start, up), data, Inval);
    } else {
      OutputvWhole(x, data, start, up);
    }
  }

  lemma OutputvWhole(x: Sys, data: seq<byte>, start: Timestamp, up: Uptake)
    requires Inv(x.w) && !x.w.env.stopped && x.mailbox == [] && ExactlyOnce(x) && !x.phase.AwaitReply?
    ensures var y := Command(x, data, start, up);
            && Kept(y) && |y.mailbox| == 1
            && (if Waits(y.mailbox[0]) then y.w.s.c.senderWaiting && y.w.s.c.caller == Proc(x.me)
                else y.w.s.c.senderWaiting == x.w.s.c.senderWaiting)
  {
    hide Outputv, OkData, WriteSide, Frames;
    var e := EvOutputv(x.me, data, up);
    var r := OutputvReplies(x.w.s, x.me, data, up);
    assert Next(x.w, e) == x.w.(s := Outputv(x.w.s, x.me, data, up));
    hide Inv, Next;
    DriveOne(x, e, SendMsg(Proc(x.me), r));
    assert OkData(x.done) + [] == OkData(x.done);
    var y := Command(x, data, start, up);
    assert y.mailbox == [r];
    assert r.SendOk? ==> InTransit(y) == [data];
    assert !r.SendOk? ==> InTransit(y) == [];
  }

  lemma ReceiveKeeps(x: Sys, now: Timestamp)
    requires Kept(x) && x.phase.AwaitReply? && x.mailbox != []
    ensures Kept(Receive(x, now))
  {
    hide OkData, Elapsed, Wait;
    var r := x.mailbox[0];
    var rest := x.(mailbox := x.mailbox[1..]);
    assert HasRetry(rest.mailbox) ==> HasRetry(x.mailbox);
    assert OkData(x.done) + [] == OkData(x.done);
    if r.SendOk? || r.SendNotConn? || r.SendTimedOut? {
      FinishKeeps(rest, Receive(x, now), x.phase.data, Got(r));
    } else if r.SendWaitFor? && Elapsed(x.phase.start, now) >= r.ms {
      FinishKeeps(rest, Receive(x, now), x.phase.data, Got(SendTimedOut));
    }
  }

  lemma DrainKeeps(x: Sys)
    requires Kept(x) && x.phase.Cancelled?
    ensures Kept(NextSys(x, Drain))
  {
    hide OkData;
    assert OkData(x.done) + [] == OkData(x.done);
    var rest := x.(mailbox := if x.mailbox == [] then [] else x.mailbox[1..]);
    FinishKeeps(rest, NextSys(x, Drain), x.phase.data, Got(SendTimedOut));
  }

  /** A step of the port that the sender has no part in. */
  lemma PortKeeps(x: Sys, e: Event)
    requires Kept(x) && Allowed(x.w, e) && !e.EvOutputv? && !e.EvCancelSend?
    ensures Kept(Drive(x, e))
    ensures var y := Drive(x, e);
            if y.mailbox == x.mailbox then y.w.s.c.senderWaiting ==> x.w.s.c.senderWaiting
            else y.mailbox == x.mailbox + [SendRetry] && x.w.s.c.senderWaiting && !y.w.s.c.senderWaiting
    ensures !e.EvWritable? ==> Drive(x, e).w.s.c.senderWaiting == x.w.s.c.senderWaiting
  {
    hide OkData, OnWritable, Next, NoEmptyFrame, UptakeAllowed, Merge;
    var y := Drive(x, e);
    StreamGrows(x.w, e);
    DriveOne(x, e, SendMsg(x.w.s.c.caller, SendRetry));
    if e.EvWritable? {
      WritableWakes(x.w.s, e.up);
      NextWritable(x.w, e.up);
    } else {
      ElsewhereUnsent(x.w, e);
    }
    assert x.w.s.c.senderWaiting ==> !HasRetry(x.mailbox);
    if y.mailbox == x.mailbox + [SendRetry] {
      NoRetryYet(x.mailbox);
    }
  }

  lemma NoRetryYet(mailbox: seq<SendResult>)
    ensures mailbox == [SendRetry] ==> HasRetry(mailbox)
    ensures mailbox != [] && mailbox[1..] == [SendRetry] ==> HasRetry(mailbox)
  {
    if mailbox == [SendRetry] {
      assert mailbox[0].SendRetry?;
    } else if mailbox != [] && mailbox[1..] == [SendRetry] {
      assert mailbox[1] == mailbox[1..][0];
    }
  }

  lemma NextWritable(w: World, up: Uptake)
    ensures Next(w, EvWritable(up)) == w.(s := OnWritable(w.s, up))
  {
  }

  lemma TheRetry(mailbox: seq<SendResult>)
    requires AtMostRetry(mailbox) && HasRetry(mailbox)
    ensures mailbox == [SendRetry] && WithoutRetry(mailbox) == []
  {
    assert mailbox == [SendRetry];
    assert mailbox[1..] == [];
  }

  lemma SendStep(x: Sys, ev: SendEvent)
    requires SendInv(x) && SendAllowed(x, ev)
    requires ev.Begin? && !x.w.env.stopped ==> x.mailbox == []
    ensures SendInv(NextSys(x, ev))
  {
    hide Reachable, Next, Allowed, OkData, Drive;
    ReachableInv(x.w);
    hide Inv;
    match ev
    case Begin(data, start, up) =>
      CommandKeeps(x, data, start, up);
      CommandReachable(x, data, start, up);
    case TakeReply(now) => ReceiveKeeps(x, now);
    case TakeRetry(up) =>
      TheRetry(x.mailbox);
      CommandKeeps(x.(mailbox := []), x.phase.data, x.phase.start, up);
      CommandReachable(x.(mailbox := []), x.phase.data, x.phase.start, up);
    case Expire =>
    case Cancel => CancelKeeps(x);
    case Drain => DrainKeeps(x);
    case Elsewhere(e) =>
      PortKeeps(x, e);
      ReachableNext(x.w, e);
      assert Drive(x, e).w == Next(x.w, e) by { DriveWorld(x, e); }
      assert Kept(NextSys(x, ev));
  }

  lemma DriveWorld(x: Sys, e: Event)
    ensures Drive(x, e) == x.(w := Next(x.w, e), mailbox := Drive(x, e).mailbox)
  {
  }

  lemma CommandReachable(x: Sys, data: seq<byte>, start: Timestamp, up: Uptake)
    requires Reachable(x.w) && (x.w.env.stopped || Allowed(x.w, EvOutputv(x.me, data, up)))
    ensures Reachable(Command(x, data, start, up).w)
  {
    hide Reachable, Next, Allowed;
    if !x.w.env.stopped {
      ReachableNext(x.w, EvOutputv(x.me, data, up));
    }
  }

  lemma CancelKeeps(x: Sys)
    requires SendInv(x) && SendAllowed(x, Cancel)
    ensures SendInv(NextSys(x, Cancel))
    ensures var y := NextSys(x, Cancel); y.mailbox == x.mailbox && (!x.w.env.stopped ==> !y.w.s.c.senderWaiting)
  {
    hide Reachable, OkData, NoEmptyFrame, Merge;
    assert OkData(x.done) + [] == OkData(x.done);
    if x.w.env.stopped {
      FinishKeeps(x, NextSys(x, Cancel), x.phase.data, Inval);
    } else {
      ReachableNext(x.w, EvCancelSend);
      DriveOne(x, EvCancelSend, SendMsg(NilTerm, SendRetry));
    }
  }

  lemma {:induction false} SendRun(x: Sys, evs: seq<SendEvent>)
    requires SendInv(x) && AllowedSends(x, evs) && CleanStarts(x, evs)
    ensures SendInv(RunSys(x, evs))
    decreases |evs|
  {
    hide SendInv;
    if evs != [] {
      SendStep(x, evs[0]);
      SendRun(NextSys(x, evs[0]), evs[1..]);
    }
  }

  lemma NewSysInv(role: Role, opts: SockOpts, me: Pid)
    requires PlainOptions(opts)
    ensures SendInv(NewSys(role, opts, me)) && Tidy(NewSys(role, opts, me)) && Wakeable(NewSys(role, opts, me))
  {
    StartReachable(role, opts);
    hide Reachable;
  }

  // ---------------------------------------------------------------- theorems

  /** The states of runs in which every send on an open port begins with no utp_reply left over. */
  ghost predicate CleanlyReachable(x: Sys) {
    exists role, opts, me, evs ::
      && PlainOptions(opts) && AllowedSends(NewSys(role, opts, me), evs) && CleanStarts(NewSys(role, opts, me), evs)
      && x == RunSys(NewSys(role, opts, me), evs)
  }

  lemma CleanlyReachableInv(x: Sys)
    requires CleanlyReachable(x)
    ensures SendInv(x)
  {
    hide SendInv, NewSys;
    var role, opts, me, evs :|
      && PlainOptions(opts) && AllowedSends(NewSys(role, opts, me), evs) && CleanStarts(NewSys(role, opts, me), evs)
      && x == RunSys(NewSys(role, opts, me), evs);
    NewSysInv(role, opts, me);
    SendRun(NewSys(role, opts, me), evs);
  }

  /** Exactly once. Over every run in which no send on an open port begins with a utp_reply left over, the
      payloads the driver accepted are the data of the sends that returned ok, in order and each once,
      with at most the one whose ok is on its way; whatever was not handed out of those bytes is queued or
      was dropped by an EOF. A send returns ok, a timeout, not connected, or einval for a port that is
      gone, and only ok stands for accepted bytes. */
  lemma SendExactlyOnce(x: Sys)
    requires CleanlyReachable(x)
    ensures var link := x.w.s.b.hist.link;
            && link.accepted == OkData(x.done) + InTransit(x)
            && Frames(x.w.s.b.opts.packet, OkData(x.done) + InTransit(x)) == link.handed + x.w.s.c.wq + link.dropped
            && forall i :: 0 <= i < |x.done| ==> ProperResult(x.done[i].result)
  {
    CleanlyReachableInv(x);
    hide Reachable, CleanlyReachable;
    GracefulClose(x.w);
  }

  lemma TidyStep(x: Sys, ev: SendEvent)
    requires SendInv(x) && Tidy(x) && SendAllowed(x, ev)
    requires ev.TakeReply? ==> !GivesUpEarly(x, ev.now)
    ensures Tidy(NextSys(x, ev))
  {
    hide Reachable, Next, Allowed, OkData, Drive, Elapsed, Wait;
    ReachableInv(x.w);
    hide Inv;
    match ev
    case Begin(data, start, up) =>
      CommandKeeps(x, data, start, up);
    case TakeReply(now) => NoRetryYet(x.mailbox);
    case TakeRetry(up) =>
      TheRetry(x.mailbox);
      CommandKeeps(x.(mailbox := []), x.phase.data, x.phase.start, up);
    case Expire =>
    case Cancel => CancelKeeps(x);
    case Drain =>
    case Elsewhere(e) =>
      PortKeeps(x, e);
      DriveWorld(x, e);
      StopStays(x.w, e);
  }

  lemma StopStays(w: World, e: Event)
    ensures w.env.stopped ==> Next(w, e).env.stopped
  {
  }

  /** Only giving up early leaves anything over: if no send does, every send begins clean. */
  lemma {:induction false} PatientSendsStartClean(x: Sys, evs: seq<SendEvent>)
    requires SendInv(x) && Tidy(x) && AllowedSends(x, evs) && Patient(x, evs)
    ensures CleanStarts(x, evs)
    decreases |evs|
  {
    hide SendInv;
    if evs != [] {
      TidyStep(x, evs[0]);
      SendStep(x, evs[0]);
      hide Tidy;
      PatientSendsStartClean(NextSys(x, evs[0]), evs[1..]);
    }
  }

  /** The states of runs in which no send gives up early. */
  ghost predicate PatientlyReachable(x: Sys) {
    exists role, opts, me, evs ::
      && PlainOptions(opts) && AllowedSends(NewSys(role, opts, me), evs) && Patient(NewSys(role, opts, me), evs)
      && x == RunSys(NewSys(role, opts, me), evs)
  }

  /** So it is exactly once over every run in which no send gives up early. */
  lemma PatientExactlyOnce(x: Sys)
    requires PatientlyReachable(x)
    ensures CleanlyReachable(x)
    ensures x.w.s.b.hist.link.accepted == OkData(x.done) + InTransit(x)
  {
    hide SendInv, Tidy, Wakeable, NewSys;
    var role, opts, me, evs :|
      && PlainOptions(opts) && AllowedSends(NewSys(role, opts, me), evs) && Patient(NewSys(role, opts, me), evs)
      && x == RunSys(NewSys(role, opts, me), evs);
    NewSysInv(role, opts, me);
    PatientSendsStartClean(NewSys(role, opts, me), evs);
    SendExactlyOnce(x);
  }

  /** A send that begins with a retry left over returns that retry, whether or not its data was taken. */
  lemma LeftoverRetry(x: Sys, data: seq<byte>, start: Timestamp, up: Uptake, now: Timestamp)
    requires SendAllowed(x, Begin(data, start, up)) && !x.w.env.stopped && x.mailbox != [] && x.mailbox[0].SendRetry?
    ensures var y := NextSys(x, Begin(data, start, up));
            && SendAllowed(y, TakeReply(now))
            && NextSys(y, TakeReply(now)).done == x.done + [Sent(data, Got(SendRetry))]
  {
    hide Next, Allowed, RepliesTo, NewSends;
  }

  /** What a sender takes for the reply to its command is that reply. */
  predicate OwnReply(x: Sys) {
    x.phase.AwaitReply? && x.mailbox != [] ==> !x.mailbox[0].SendRetry?
  }

  predicate AlwaysOwnReply(x: Sys, evs: seq<SendEvent>)
    requires AllowedSends(x, evs)
    decreases |evs|
  {
    OwnReply(x) && (evs == [] || AlwaysOwnReply(NextSys(x, evs[0]), evs[1..]))
  }

  lemma UncleanStart(x: Sys, data: seq<byte>, start: Timestamp, up: Uptake)
    requires Mailbox(x) && SendAllowed(x, Begin(data, start, up)) && !x.w.env.stopped && x.mailbox != []
    ensures !OwnReply(NextSys(x, Begin(data, start, up)))
  {
    hide Next, Allowed, RepliesTo, NewSends;
  }

  lemma {:induction false} OwnReplyRun(x: Sys, evs: seq<SendEvent>)
    requires SendInv(x) && AllowedSends(x, evs)
    ensures AlwaysOwnReply(x, evs) <==> CleanStarts(x, evs)
    decreases |evs|
  {
    hide SendInv, OwnReply, SendAllowed, NextSys;
    InvOwnReply(x);
    if evs != [] {
      if evs[0].Begin? && !x.w.env.stopped && x.mailbox != [] {
        UncleanStart(x, evs[0].data, evs[0].start, evs[0].up);
        assert !AlwaysOwnReply(NextSys(x, evs[0]), evs[1..]);
      } else {
        SendStep(x, evs[0]);
        OwnReplyRun(NextSys(x, evs[0]), evs[1..]);
      }
    }
  }

  lemma InvOwnReply(x: Sys)
    requires SendInv(x)
    ensures OwnReply(x) && Mailbox(x) && (x.phase.Idle? ==> AtMostRetry(x.mailbox))
  {
  }

  /** The condition is exact: at every point of a run what a sender takes for its reply is its own, if and
      only if every send on an open port begins with no utp_reply left over. */
  lemma OwnRepliesExactly(role: Role, opts: SockOpts, me: Pid, evs: seq<SendEvent>)
    requires PlainOptions(opts) && AllowedSends(NewSys(role, opts, me), evs)
    ensures AlwaysOwnReply(NewSys(role, opts, me), evs) <==> CleanStarts(NewSys(role, opts, me), evs)
  {
    NewSysInv(role, opts, me);
    OwnReplyRun(NewSys(role, opts, me), evs);
  }

  // ---------------------------------------------------------------- wakeups

  /** A step that takes the wakeup of a sleeping sender away. */
  predicate LosesWakeup(x: Sys, ev: SendEvent) {
    ev.Elsewhere? && Sleeps(x) && Unregisters(x.w.s, ev.e, x.me)
  }

  lemma UnregistersExactly(w: World, me: Pid, e: Event)
    requires w.s.c.caller == Proc(me) && !e.EvOutputv? && !e.EvCancelSend?
    ensures Next(w, e).s.c.caller == Proc(me) <==> !Unregisters(w.s, e, me)
  {
    hide Step, RegistersSend, RegistersRecv, ServesRecv, AnswersCloser, CloseWaits;
    CallerAfter(w.s, e);
  }

  lemma WakeableElsewhere(x: Sys, e: Event)
    requires Kept(x) && Wakeable(x) && Allowed(x.w, e) && !e.EvOutputv? && !e.EvCancelSend?
    ensures Wakeable(Drive(x, e)) <==> !LosesWakeup(x, Elsewhere(e))
  {
    hide OnWritable, Next, Allowed, ExactlyOnce, Unregisters;
    DriveOne(x, e, SendMsg(x.w.s.c.caller, SendRetry));
    if Sleeps(x) {
      UnregistersExactly(x.w, x.me, e);
    }
    NoRetryYet(x.mailbox);
    if e.EvWritable? {
      WritableWakes(x.w.s, e.up);
      NextWritable(x.w, e.up);
      assert !Unregisters(x.w.s, e, x.me) by { WritableUnregistersNobody(x.w.s, x.me, e.up); }
    } else {
      ElsewhereUnsent(x.w, e);
    }
  }

  lemma WritableUnregistersNobody(s: State, me: Pid, up: Uptake)
    ensures !Unregisters(s, EvWritable(up), me)
  {
  }

  /** Whether a sleeping sender will still be woken after a step. */
  lemma WakeableStep(x: Sys, ev: SendEvent)
    requires SendInv(x) && Wakeable(x) && SendAllowed(x, ev)
    requires ev.Begin? && !x.w.env.stopped ==> x.mailbox == []
    ensures Wakeable(NextSys(x, ev)) <==> !LosesWakeup(x, ev)
  {
    hide Reachable, Next, Allowed, OkData, Drive, Elapsed, Wait, Unregisters;
    ReachableInv(x.w);
    hide Inv;
    NoRetryYet(x.mailbox);
    match ev
    case Begin(data, start, up) =>
      CommandKeeps(x, data, start, up);
      DriveWorld(x, EvOutputv(x.me, data, up));
    case TakeReply(now) =>
    case TakeRetry(up) =>
      TheRetry(x.mailbox);
      CommandKeeps(x.(mailbox := []), x.phase.data, x.phase.start, up);
      DriveWorld(x.(mailbox := []), EvOutputv(x.me, x.phase.data, up));
    case Expire =>
    case Cancel => CancelKeeps(x);
    case Drain =>
    case Elsewhere(e) => WakeableElsewhere(x, e);
  }

  /** At every point of a run a sleeping sender will still be woken. */
  predicate AlwaysWakeable(x: Sys, evs: seq<SendEvent>)
    requires AllowedSends(x, evs)
    decreases |evs|
  {
    Wakeable(x) && (evs == [] || AlwaysWakeable(NextSys(x, evs[0]), evs[1..]))
  }

  /** No step of a run takes a wakeup away. */
  predicate KeepsWakeups(x: Sys, evs: seq<SendEvent>)
    requires AllowedSends(x, evs)
    decreases |evs|
  {
    evs == [] || (!LosesWakeup(x, evs[0]) && KeepsWakeups(NextSys(x, evs[0]), evs[1..]))
  }

  lemma {:induction false} WakeableRun(x: Sys, evs: seq<SendEvent>)
    requires SendInv(x) && Wakeable(x) && AllowedSends(x, evs) && CleanStarts(x, evs)
    ensures AlwaysWakeable(x, evs) <==> KeepsWakeups(x, evs)
    decreases |evs|
  {
    hide SendInv, Wakeable, LosesWakeup, NextSys, SendAllowed;
    if evs != [] {
      WakeableStep(x, evs[0]);
      SendStep(x, evs[0]);
      if !LosesWakeup(x, evs[0]) {
        WakeableRun(NextSys(x, evs[0]), evs[1..]);
      } else {
        assert !AlwaysWakeable(NextSys(x, evs[0]), evs[1..]);
      }
    }
  }

  /** No lost wakeup, exactly: over runs whose sends begin clean, the driver would wake a sleeping sender at
      every point of the run if and only if no step of it overwrites the sender's registration while it
      sleeps. */
  lemma NoLostWakeup(role: Role, opts: SockOpts, me: Pid, evs: seq<SendEvent>)
    requires PlainOptions(opts)
    requires AllowedSends(NewSys(role, opts, me), evs) && CleanStarts(NewSys(role, opts, me), evs)
    ensures AlwaysWakeable(NewSys(role, opts, me), evs) <==> KeepsWakeups(NewSys(role, opts, me), evs)
  {
    NewSysInv(role, opts, me);
    WakeableRun(NewSys(role, opts, me), evs);
  }

  /** What that means to the sender: a WRITABLE that leaves the connection writable brings it the retry, if
      it does not have it already, exactly if the driver would wake it. */
  lemma WakeupArrives(x: Sys, up: Uptake)
    requires CleanlyReachable(x) && (x.phase.AwaitRetry? || x.phase.AwaitRetryFor?)
    requires OnWritable(x.w.s, up).c.writable
    ensures Drive(x, EvWritable(up)).mailbox == [SendRetry] <==> Wakeable(x)
  {
    CleanlyReachableInv(x);
    hide CleanlyReachable, Next, ExactlyOnce, OnWritable;
    NoRetryYet(x.mailbox);
    DriveOne(x, EvWritable(up), SendMsg(x.w.s.c.caller, SendRetry));
    WritableWakes(x.w.s, up);
    NextWritable(x.w, up);
  }

  // ---------------------------------------------------------------- what the theorems do not promise

  ghost predicate SysReachable(x: Sys) {
    exists role, opts, me, evs ::
      PlainOptions(opts) && AllowedSends(NewSys(role, opts, me), evs) && x == RunSys(NewSys(role, opts, me), evs)
  }

  lemma {:induction false} SendsSnoc(x: Sys, evs: seq<SendEvent>, ev: SendEvent)
    requires AllowedSends(x, evs) && SendAllowed(RunSys(x, evs), ev)
    ensures AllowedSends(x, evs + [ev]) && RunSys(x, evs + [ev]) == NextSys(RunSys(x, evs), ev)
    decreases |evs|
  {
    hide SendAllowed, NextSys;
    if evs == [] {
      assert (evs + [ev])[1..] == [];
      assert AllowedSends(NextSys(x, ev), []);
    } else {
      assert (evs + [ev])[1..] == evs[1..] + [ev];
      SendsSnoc(NextSys(x, evs[0]), evs[1..], ev);
    }
  }

  lemma SysReachableNext(x: Sys, ev: SendEvent)
    requires SysReachable(x) && SendAllowed(x, ev)
    ensures SysReachable(NextSys(x, ev))
  {
    hide SendAllowed, NextSys;
    var role, opts, me, evs :|
      PlainOptions(opts) && AllowedSends(NewSys(role, opts, me), evs) && x == RunSys(NewSys(role, opts, me), evs);
    SendsSnoc(NewSys(role, opts, me), evs, ev);
  }

  /** A sender on a connection whose handle is open. */
  ghost predicate Running(x: Sys, opts: SockOpts) {
    var b, link := x.w.s.b, x.w.s.b.hist.link;
    && SysReachable(x) && x.me == 1 && b.opts == opts && b.portq == [] && !b.closePending
    && x.w.env == Env(false, false, false, false) && link.freed == 0 && link.acquired == 1 && link.closes == []
    && x.w.s.c.status == Connected && x.w.s.c.utp
  }

  lemma ConnectedSender(opts: SockOpts) returns (x: Sys)
    requires PlainOptions(opts) && opts.packet == 0
    ensures Running(x, opts) && x.phase.Idle? && x.mailbox == [] && x.w.s.c.writable && x.w.s.c.wq == []
    ensures !x.w.s.c.senderWaiting
    ensures x.w.s.b.hist.link.accepted == []
  {
    hide SysReachable, Outputv, Recv, OnRead, SetOptsBase, Close, Stop, OnWritable, OnEof, OnDestroying, OnError,
         ConnectValidate,
         OnIncoming, NoEmptyFrame, Merge;
    var x0 := NewSys(Client, opts, 1);
    NewSysReachable(opts);
    SysReachableNext(x0, Elsewhere(EvConnect));
    x := NextSys(x0, Elsewhere(EvConnect));
    assert x.w.s == OnConnect(x0.w.s);
    DriveOne(x0, EvConnect, SendMsg(NilTerm, SendRetry));
  }

  lemma NewSysReachable(opts: SockOpts)
    requires PlainOptions(opts)
    ensures SysReachable(NewSys(Client, opts, 1))
  {
    hide NewSys;
    var x := NewSys(Client, opts, 1);
    assert AllowedSends(x, []) && x == RunSys(x, []);
  }

  /** A send of one byte that libutp does not take yet. */
  lemma SendOneByte(x: Sys, opts: SockOpts, d: byte) returns (y: Sys)
    requires Running(x, opts) && opts.packet == 0 && x.phase.Idle? && x.w.s.c.writable && x.w.s.c.wq == []
    ensures Running(y, opts) && y.phase == AwaitReply([d], Timestamp(0, 0, 0)) && y.mailbox == x.mailbox + [SendOk]
    ensures !y.w.s.c.writable && y.w.s.c.wq == [d] && y.w.s.c.senderWaiting == x.w.s.c.senderWaiting && y.done == x.done
    ensures y.w.s.b.hist.link.accepted == x.w.s.b.hist.link.accepted + [[d]]
  {
    hide SysReachable, Recv, OnRead, SetOptsBase, Close, Stop, OnWritable, OnEof, OnDestroying, OnError,
         ConnectValidate,
         OnIncoming, NoEmptyFrame, Merge;
    var up := Uptake([], false);
    assert Frame(0, [d]) == [d];
    var ev := Begin([d], Timestamp(0, 0, 0), up);
    SysReachableNext(x, ev);
    y := NextSys(x, ev);
    DriveOne(x, EvOutputv(1, [d], up), SendMsg(Proc(1), SendOk));
    assert y.w.s == Outputv(x.w.s, 1, [d], up);
  }

  /** A sender that has one byte queued in front of its next send. */
  ghost predicate Blocked(x: Sys, opts: SockOpts) {
    && Running(x, opts) && !x.w.s.c.writable && |x.w.s.c.wq| == 1
  }

  lemma BlockedSender(opts: SockOpts) returns (x: Sys)
    requires PlainOptions(opts) && opts.packet == 0
    ensures Blocked(x, opts) && x.phase.Idle? && x.mailbox == []
  {
    hide SysReachable, Next;
    var x0 := ConnectedSender(opts);
    var x1 := SendOneByte(x0, opts, 7);
    SysReachableNext(x1, TakeReply(Timestamp(0, 0, 0)));
    x := NextSys(x1, TakeReply(Timestamp(0, 0, 0)));
    assert x1.mailbox[1..] == [];
  }

  /** The next send has to wait. */
  lemma WaitingSender(opts: SockOpts) returns (x: Sys)
    requires PlainOptions(opts) && opts.packet == 0 && opts.sendTmout != 0
    ensures Blocked(x, opts) && x.phase == AwaitReply([8], Timestamp(0, 0, 0))
    ensures x.mailbox == [if opts.sendTmout == -1 then SendWait else SendWaitFor(opts.sendTmout)]
    ensures x.w.s.c.senderWaiting && x.w.s.c.caller == Proc(1)
  {
    hide SysReachable, Recv, OnRead, SetOptsBase, Close, Stop, OnWritable, OnEof, OnDestroying, OnError,
         ConnectValidate,
         OnIncoming, NoEmptyFrame, Merge, UtpWrite;
    var x0 := BlockedSender(opts);
    var ev := Begin([8], Timestamp(0, 0, 0), Uptake([], false));
    SysReachableNext(x0, ev);
    x := NextSys(x0, ev);
    var r := if opts.sendTmout == -1 then SendWait else SendWaitFor(opts.sendTmout);
    DriveOne(x0, EvOutputv(1, [8], Uptake([], false)), SendMsg(Proc(1), r));
    assert x.w.s == Outputv(x0.w.s, 1, [8], Uptake([], false));
  }

  /** WRITABLE takes the queued byte, and wakes whoever the driver has noted. */
  lemma Unblock(x: Sys, opts: SockOpts) returns (y: Sys)
    requires Blocked(x, opts) && x.w.s.c.senderWaiting
    ensures Running(y, opts) && y.w.s.c.writable && y.w.s.c.wq == [] && !y.w.s.c.senderWaiting
    ensures y.phase == x.phase && y.done == x.done
    ensures y.mailbox == x.mailbox + (if x.w.s.c.caller == Proc(1) then [SendRetry] else [])
  {
    hide SysReachable, Recv, OnRead, SetOptsBase, Close, Stop, Outputv, OnEof, OnDestroying, OnError, ConnectValidate,
         OnIncoming, NoEmptyFrame, Merge;
    var up := Uptake([1], true);
    assert Sum(up.pieces) == 1 + Sum([]);
    var ev := Elsewhere(EvWritable(up));
    SysReachableNext(x, ev);
    y := NextSys(x, ev);
    DriveOne(x, EvWritable(up), SendMsg(x.w.s.c.caller, SendRetry));
    assert y.w.s == OnWritable(x.w.s, up);
  }

  /** Giving up early leaves the waiter registered. Its retry arrives later, and the next send takes it for
      its own reply: it returns retry although its data was accepted. */
  lemma EarlyTimeoutLeavesRetry()
    ensures exists x :: SysReachable(x) && x.done != [] && x.w.s.b.hist.link.accepted != [] &&
                        x.done[|x.done| - 1] == Sent([9], Got(SendRetry)) &&
                        x.w.s.b.hist.link.accepted[|x.w.s.b.hist.link.accepted| - 1] == [9]
  {
    hide SysReachable, Next;
    var opts := DEFAULTS.(sendTmout := 10);
    var x1 := WaitingSender(opts);
    var late := Timestamp(0, 1, 0);
    SysReachableNext(x1, TakeReply(late));
    var x2 := NextSys(x1, TakeReply(late));
    assert x1.mailbox[1..] == [];
    var x3 := Unblock(x2, opts);
    var x4 := SendOneByte(x3, opts, 9);
    assert x4.mailbox == [SendRetry, SendOk];
    SysReachableNext(x4, TakeReply(late));
    var x5 := NextSys(x4, TakeReply(late));
  }

  /** recv and send share the field that says whom to wake: a recv of another process while a sender waits
      takes the sender's retry away, and the sender is left asleep on a writable connection. */
  lemma RecvStealsWakeup()
    ensures exists x ::
              && SysReachable(x) && x.phase.AwaitRetry? && x.mailbox == []
              && x.w.s.c.writable && !x.w.s.c.senderWaiting
  {
    hide SysReachable, OnRead, SetOptsBase, Close, Stop, Outputv, OnWritable, OnEof, OnDestroying, OnError,
         ConnectValidate,
         OnIncoming, NoEmptyFrame, Merge;
    var opts := DEFAULTS.(active := ActiveFalse);
    var x1 := WaitingSender(opts);
    SysReachableNext(x1, TakeReply(Timestamp(0, 0, 0)));
    var x2 := NextSys(x1, TakeReply(Timestamp(0, 0, 0)));
    assert x1.mailbox[1..] == [];
    var x3 := OvertakenSender(x2, opts);
    var x4 := Unblock(x3, opts);
  }

  lemma OvertakenSender(x: Sys, opts: SockOpts) returns (y: Sys)
    requires Blocked(x, opts) && opts.active == ActiveFalse && x.w.s.c.senderWaiting && x.phase.AwaitRetry?
    requires x.mailbox == []
    ensures Blocked(y, opts) && y.w.s.c.senderWaiting && y.phase == x.phase && y.mailbox == []
    ensures y.w.s.c.caller == Proc(2)
  {
    hide SysReachable, OnRead, SetOptsBase, Close, Stop, Outputv, OnWritable, OnEof, OnDestroying, OnError,
         ConnectValidate,
         OnIncoming, NoEmptyFrame, Merge, Take;
    var ev := Elsewhere(EvRecv(2, 0, 0));
    SysReachableNext(x, ev);
    y := NextSys(x, ev);
    DriveOne(x, EvRecv(2, 0, 0), SendMsg(NilTerm, SendRetry));
    assert y.w.s == Recv(x.w.s, 2, 0, 0);
  }
}
