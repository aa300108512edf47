/** Whether a process that waits in send or recv can still be woken, and how it is left behind. */
module Waiting {
  import opened Bytes
  import opened Options
  import opened Driver
  import opened Lifecycle
  import opened ReadSide
  import opened SharedCaller
  import opened BlockingCalls

  // ---------------------------------------------------------------- a waiting sender

  /** A retry has been sent to a process since. */
  ghost predicate RetrySince(before: seq<SendMsg>, after: seq<SendMsg>, pid: Pid) {
    exists i :: |before| <= i < |after| && after[i] == SendMsg(Proc(pid), SendRetry)
  }

  /** Some way for the run to go on sends the process its retry. */
  ghost predicate CanBeWoken(w: World, pid: Pid) {
    exists es :: AllowedRun(w, es) && RetrySince(w.s.b.hist.link.sends, Run(w, es).s.b.hist.link.sends, pid)
  }

  predicate NoRetryFrom(sends: seq<SendMsg>, n: nat) {
    n <= |sends| && forall i :: n <= i < |sends| ==> !sends[i].result.SendRetry?
  }

  lemma OutputvNeverRetries(s: State, pid: Pid, data: seq<byte>, up: Uptake, n: nat)
    requires NoRetryFrom(s.b.hist.link.sends, n)
    ensures NoRetryFrom(Outputv(s, pid, data, up).b.hist.link.sends, n)
  {
    hide Frame;
  }

  /** Only WRITABLE sends a retry. */
  lemma OnlyWritableRetries(w: World, e: Event, n: nat)
    requires NoRetryFrom(w.s.b.hist.link.sends, n) && !e.EvWritable?
    ensures NoRetryFrom(Next(w, e).s.b.hist.link.sends, n)
  {
    hide NoRetryFrom, Outputv, Recv, OnRead, SetOptsBase, Close, Stop, OnWritable, OnEof, OnDestroying, OnError,
         ConnectValidate,
         OnConnect, OnIncoming;
    match e
    case EvOutputv(pid, data, up) => OutputvNeverRetries(w.s, pid, data, up, n);
    case EvCancelSend =>
    case _ => ElsewhereUnsent(w, e);
  }

  lemma {:induction false} NoRetryAfterDestroying(w: World, es: seq<Event>, n: nat)
    requires w.env.destroyed && AllowedRun(w, es) && NoRetryFrom(w.s.b.hist.link.sends, n)
    ensures NoRetryFrom(Run(w, es).s.b.hist.link.sends, n)
    decreases |es|
  {
    hide NoRetryFrom, Step;
    if es != [] {
      OnlyWritableRetries(w, es[0], n);
      NoRetryAfterDestroying(Next(w, es[0]), es[1..], n);
    }
  }

  lemma WokenByWritable(w: World, pid: Pid)
    requires HandleSide(w) && Registered(w.s, pid) && !w.env.destroyed
    ensures CanBeWoken(w, pid)
  {
    var up := Uptake([|w.s.c.wq|], true);
    assert Sum(up.pieces) == |w.s.c.wq| + Sum([]);
    var e := EvWritable(up);
    assert Allowed(w, e) by { WritableAllowed(w, up); }
    assert OnWritable(w.s, up).c.writable by { WritableTakesAll(w.s, up); }
    WritableWakes(w.s, up);
    var t := Next(w, e);
    assert t.s == OnWritable(w.s, up);
    hide Next, OnWritable, Allowed, Sum;
    assert Run(t, []) == t && AllowedRun(t, []);
    assert [e][1..] == [];
    assert AllowedRun(w, [e]) && Run(w, [e]) == t;
    var sends := w.s.b.hist.link.sends;
    assert t.s.b.hist.link.sends[|sends|] == SendMsg(Proc(pid), SendRetry);
  }

  lemma WritableAllowed(w: World, up: Uptake)
    requires w.s.b.hist.link.acquired > 0 && !w.env.destroyed && up.ok && Sum(up.pieces) == |w.s.c.wq|
    ensures Allowed(w, EvWritable(up))
  {
  }

  lemma WritableTakesAll(s: State, up: Uptake)
    requires up.ok
    ensures OnWritable(s, up).c.writable
  {
    var t := ResumeWriting(s, up);
    assert t.c.writable;
    hide ResumeWriting;
  }

  /** A sender that waits, and is the one on record, can be woken exactly until DESTROYING has come: an EOF or a
      closed handle alone do not keep it waiting for ever, DESTROYING does. */
  lemma SenderLeftBehind(w: World, pid: Pid)
    requires Reachable(w) && Registered(w.s, pid)
    ensures CanBeWoken(w, pid) ==> !w.env.destroyed
    ensures !w.env.destroyed ==> CanBeWoken(w, pid)
  {
    ReachableInv(w);
    InvParts(w);
    hide Inv, Reachable;
    if !w.env.destroyed {
      WokenByWritable(w, pid);
    } else {
      forall es | AllowedRun(w, es)
        ensures !RetrySince(w.s.b.hist.link.sends, Run(w, es).s.b.hist.link.sends, pid)
      {
        NoRetryAfterDestroying(w, es, |w.s.b.hist.link.sends|);
      }
    }
  }

  /** A sender that waits when the peer ends the connection: EOF drops what is queued and closes the handle,
      DESTROYING follows, and the sender is told nothing. */
  lemma SenderForgotten()
    ensures exists w :: Reachable(w) && Registered(w.s, 2) && !CanBeWoken(w, 2)
  {
    hide Reachable, OnRead, Recv, SetOptsBase, Close, Stop, OnWritable, OnError, ConnectValidate, OnConnect,
         OnIncoming, Merge,
         Parse, NoEmptyFrame, CanBeWoken;
    var w0 := WaitingReceiver();
    var send := EvOutputv(2, [9], Uptake([], false));
    ReachableNext(w0, send);
    var w1 := Next(w0, send);
    SenderNoted(w0.s, Uptake([], false));
    hide Outputv;
    ReachableNext(w1, EvEof);
    var w2 := Next(w1, EvEof);
    EofCloses(w1.s);
    hide OnEof;
    ReachableNext(w2, EvDestroying);
    var w3 := Next(w2, EvDestroying);
    DestroyingKeepsSender(w2.s, 2);
    hide OnDestroying;
    SenderLeftBehind(w3, 2);
  }

  lemma SenderNoted(s: State, up: Uptake)
    requires RegistersSend(s) && !s.b.closePending
    ensures var t := Outputv(s, 2, [9], up);
            && Registered(t, 2) && t.c.status == Connected && t.c.utp && !t.b.closePending
            && t.b.hist.link.acquired == s.b.hist.link.acquired
  {
    hide Frame;
  }

  lemma EofCloses(s: State)
    requires Registered(s, 2) && s.c.status == Connected && s.c.utp && !s.b.closePending
    ensures var t := OnEof(s);
            && Registered(t, 2) && t.b.hist.link.closes != [] && !t.b.closePending
            && t.b.hist.link.acquired == s.b.hist.link.acquired
  {
  }

  lemma DestroyingKeepsSender(s: State, pid: Pid)
    requires Registered(s, pid) && !s.b.closePending
    ensures Registered(OnDestroying(s), pid)
  {
  }

  // ---------------------------------------------------------------- a waiting recv

  /** A recv is outstanding and has not been answered. */
  predicate AwaitsRecv(x: Session) {
    Unanswered(x, Receiving)
  }

  /** Bytes may still arrive: the port is open, DESTROYING has not come, and there is a handle, or a server's is
      still to come. */
  predicate Live(w: World) {
    && !w.env.stopped && !w.env.destroyed
    && (w.s.b.hist.link.acquired > 0 || (w.s.c.role == Server && w.s.c.status == NotConnected))
  }

  /** y is a way for x to go on. */
  ghost predicate Leads(x: Session, y: Session) {
    exists evs :: AllowedSession(x, evs) && y == RunSession(x, evs)
  }

  /** In y the last call of x has its reply. */
  predicate Served(x: Session, y: Session) {
    |y.calls| == |x.calls| && y.calls != [] && Last(y).replies != []
  }

  ghost predicate CanBeServed(x: Session) {
    exists y :: Leads(x, y) && Served(x, y)
  }

  /** While a recv waits, the handler has it on record. */
  predicate RecvHeld(x: Session) {
    AwaitsRecv(x) ==> x.w.s.c.receiverWaiting
  }

  lemma AwaitsRecvBefore(x: Session, e: Event)
    requires !e.EvRecv? && AwaitsRecv(NextSession(x, Port(e)))
    ensures AwaitsRecv(x) && !e.EvCancelRecv? && Tail(Answers(x.w), Answers(Next(x.w, e))) == []
  {
    hide Next, Tail;
  }

  lemma RecvHeldRead(x: Session, bytes: seq<byte>)
    requires AwaitsRecv(x) && x.w.s.c.receiverWaiting && Tail(Answers(x.w), Answers(Next(x.w, EvRead(bytes)))) == []
    ensures Next(x.w, EvRead(bytes)).s.c.receiverWaiting
  {
    hide OnRead;
    assert Next(x.w, EvRead(bytes)).s == OnRead(x.w.s, bytes);
    if bytes != [] && x.w.s.b.opts.active == ActiveFalse {
      ReadReplies(x.w.s, bytes);
    } else {
      QuietRead(x.w.s, bytes);
    }
  }

  lemma RecvHeldCall(x: Session, pid: Pid, ref: Ref, len: nat)
    requires !x.w.s.b.closePending && !x.waiting
    ensures RecvHeld(NextSession(x, Port(EvRecv(pid, ref, len))))
  {
    hide Recv;
    RecvReplies(x.w.s, pid, ref, len);
    assert Next(x.w, EvRecv(pid, ref, len)).s == Recv(x.w.s, pid, ref, len);
  }

  lemma RecvHeldStep(x: Session, ev: SessionEvent)
    requires SessionInv(x) && SessionAllowed(x, ev) && RecvHeld(x)
    ensures RecvHeld(NextSession(x, ev))
  {
    match ev
    case Return =>
    case Port(e) =>
      var y := NextSession(x, ev);
      assert y.w == Next(x.w, e);
      if e.EvRecv? {
        IdleHasNoClose(x);
        RecvHeldCall(x, e.pid, e.ref, e.len);
      } else if AwaitsRecv(y) {
        hide Reachable, Ledger, Noted, Allowed, NextSession;
        AwaitsRecvBefore(x, e);
        if e.EvRead? {
          RecvHeldRead(x, e.bytes);
        } else {
          hide Step;
          CallerAfter(x.w.s, e);
        }
      }
  }

  lemma IdleHasNoClose(x: Session)
    requires Noted(x)
    ensures !x.waiting ==> !x.w.s.b.closePending
  {
  }

  lemma {:induction false} RecvHeldRun(x: Session, evs: seq<SessionEvent>)
    requires SessionInv(x) && RecvHeld(x) && AllowedSession(x, evs)
    ensures RecvHeld(RunSession(x, evs))
    decreases |evs|
  {
    hide SessionInv, RecvHeld, SessionAllowed, NextSession;
    if evs != [] {
      SessionStep(x, evs[0]);
      RecvHeldStep(x, evs[0]);
      RecvHeldRun(NextSession(x, evs[0]), evs[1..]);
    }
  }

  // ---------------------------------------------------------------- a recv that will never be served

  lemma LiveEnds(w: World, e: Event)
    requires Inv(w) && Allowed(w, e) && !Live(w)
    requires !e.EvClose? && !e.EvRecv? && !e.EvOutputv? && !e.EvValidate? && !e.EvCancelSend? && !e.EvCancelRecv?
    ensures !Live(Next(w, e)) && !e.EvRead?
  {
    hide Outputv, Recv, OnRead, SetOptsBase, Close, OnWritable, OnEof, OnDestroying, OnError, ConnectValidate,
         OnConnect,
         NoEmptyFrame, Merge, Parse, UptakeAllowed, Frames;
    if e.EvSetOpts? {
      SetOptsFrame(w.s.b, e.bin);
    }
  }

  /** The n-th call is past: it returned unanswered, or waits in a recv that nothing can serve. */
  predicate Past(x: Session, n: nat) {
    && n > 0
    && (|x.calls| > n
        || (|x.calls| == n && Last(x).replies == [] && (!x.waiting || (AwaitsRecv(x) && !Live(x.w)))))
  }

  lemma CallsGrow(x: Session, e: Event)
    ensures |NextSession(x, Port(e)).calls| == |Issued(x, e)| >= |x.calls|
    ensures Answers(Next(x.w, e)) == Answers(x.w) && Issued(x, e) == x.calls ==>
              NextSession(x, Port(e)).calls == x.calls
  {
    hide Next;
    TailNone(Answers(x.w), CallMsg(ToConnected, None, ConnectOk));
    LedgerKept(x.calls);
  }

  /** While a recv waits, only bytes make the handler send a reply. */
  lemma OnlyBytesServe(x: Session, e: Event)
    requires SessionInv(x) && AwaitsRecv(x) && SessionAllowed(x, Port(e)) && !e.EvRead?
    ensures Answers(Next(x.w, e)) == Answers(x.w) && Issued(x, e) == x.calls
    ensures e.EvCancelRecv? || !(e.EvClose? || e.EvRecv? || e.EvOutputv? || e.EvValidate? || e.EvCancelSend?)
    ensures StillWaits(x, e) <==> !e.EvCancelRecv?
  {
    hide Reachable, Ledger, Quiet, Next, NoEmptyFrame, UptakeAllowed, Merge, Parse, Fresh;
    if e.EvCancelRecv? {
      CancelSendsNothing(x.w);
    } else {
      QuietStep(x.w, e);
      QuietSends(x.w.s, Next(x.w, e).s);
    }
  }

  lemma CancelSendsNothing(w: World)
    ensures Answers(Next(w, EvCancelRecv)) == Answers(w)
  {
  }

  lemma QuietSends(s: State, t: State)
    requires Quiet(s, t)
    ensures t.b.hist.calls.answers == s.b.hist.calls.answers
  {
  }

  lemma PastStep(x: Session, ev: SessionEvent, n: nat)
    requires SessionInv(x) && SessionAllowed(x, ev) && Past(x, n)
    ensures Past(NextSession(x, ev), n)
  {
    match ev
    case Return =>
    case Port(e) =>
      ReachableInv(x.w);
      hide Reachable, Ledger, Next, Live, Inv, Allowed, Noted;
      CallsGrow(x, e);
      if |x.calls| == n && !x.waiting {
        if Issued(x, e) == x.calls {
          IdleStep(x, e);
        }
      } else if |x.calls| == n {
        LiveRead(x.w, e);
        OnlyBytesServe(x, e);
        if !e.EvCancelRecv? {
          LiveEnds(x.w, e);
        }
      }
  }

  lemma LiveRead(w: World, e: Event)
    requires Allowed(w, e) && !Live(w)
    ensures !e.EvRead?
  {
    hide NoEmptyFrame, UptakeAllowed, Merge, Parse;
  }

  lemma IdleStep(x: Session, e: Event)
    requires Noted(x) && SessionAllowed(x, Port(e)) && !x.waiting && Issued(x, e) == x.calls
    ensures Answers(Next(x.w, e)) == Answers(x.w) && !StillWaits(x, e)
  {
    hide NoEmptyFrame, UptakeAllowed, Merge, Parse, Fresh, Next;
    QuietWhenIdle(x, e);
  }

  lemma {:induction false} PastRun(x: Session, evs: seq<SessionEvent>, n: nat)
    requires SessionInv(x) && AllowedSession(x, evs) && Past(x, n)
    ensures Past(RunSession(x, evs), n)
    decreases |evs|
  {
    hide SessionInv, Past, SessionAllowed, NextSession;
    if evs != [] {
      SessionStep(x, evs[0]);
      PastStep(x, evs[0], n);
      PastRun(NextSession(x, evs[0]), evs[1..], n);
    }
  }

  // ---------------------------------------------------------------- bytes that complete what is queued

  /** The queue is made of whole frames, none of them empty. */
  predicate AllWhole(p: nat, q: seq<byte>)
    requires p > 0
    decreases |q|
  {
    || q == []
    || (p <= |q| && FrameLength(p, q) != 0 && p + FrameLength(p, q) <= |q|
        && AllWhole(p, q[p + FrameLength(p, q)..]))
  }

  lemma {:induction false} WholeHasNoEmptyFrame(p: nat, q: seq<byte>)
    requires p > 0 && AllWhole(p, q)
    ensures NoEmptyFrame(p, q)
    decreases |q|
  {
    if q != [] {
      WholeHasNoEmptyFrame(p, q[p + FrameLength(p, q)..]);
    }
  }

  /** Whole frames stay so when others follow. */
  lemma {:induction false} WholeAppend(p: nat, a: seq<byte>, b: seq<byte>)
    requires p > 0 && AllWhole(p, a) && AllWhole(p, b)
    ensures AllWhole(p, a + b)
    decreases |a|
  {
    if a == [] {
      assert a + b == b;
    } else {
      var n := FrameLength(p, a);
      assert (a + b)[..p] == a[..p];
      assert (a + b)[p + n..] == a[p + n..] + b;
      WholeAppend(p, a[p + n..], b);
    }
  }

  function Zeros(n: nat): (r: seq<byte>)
    ensures |r| == n
  {
    seq(n, _ => 0)
  }

  /** A prefix that ends in a 1 does not announce an empty frame. */
  lemma PrefixNotZero(p: nat, q: seq<byte>)
    requires 0 < p <= |q| && q[p - 1] == 1
    ensures FrameLength(p, q) != 0
  {
    assert q[..p][..p - 1] == q[..p - 1];
  }

  /** The last frame can be completed, however little of it has arrived. */
  lemma {:induction false} Complete(p: nat, q: seq<byte>) returns (rest: seq<byte>)
    requires p > 0 && NoEmptyFrame(p, q)
    ensures AllWhole(p, q + rest) && (|q| < p ==> rest != [])
    decreases |q|
  {
    if |q| < p {
      var prefix := Zeros(p - |q| - 1) + [1];
      var head := q + prefix;
      rest := prefix + Zeros(FrameLength(p, head));
      var all := q + rest;
      assert all[..p] == head[..p] && all[p - 1] == 1;
      PrefixNotZero(p, all);
      assert |all| == p + FrameLength(p, all);
      assert all[p + FrameLength(p, all)..] == [];
    } else if |q| < p + FrameLength(p, q) {
      rest := Zeros(p + FrameLength(p, q) - |q|);
      assert (q + rest)[..p] == q[..p];
      assert (q + rest)[p + FrameLength(p, q)..] == [];
    } else {
      var n := FrameLength(p, q);
      rest := Complete(p, q[p + n..]);
      assert (q + rest)[..p] == q[..p];
      assert (q + rest)[p + n..] == q[p + n..] + rest;
    }
  }

  /** One more frame. */
  lemma AnotherFrame(p: nat, q: seq<byte>) returns (more: seq<byte>)
    requires p > 0 && AllWhole(p, q)
    ensures more != [] && AllWhole(p, q + more)
  {
    more := Complete(p, []);
    assert [] + more == more;
    WholeAppend(p, q, more);
  }

  /** As many frames as it takes. */
  lemma {:induction false} Lengthen(p: nat, q: seq<byte>, len: nat) returns (more: seq<byte>)
    requires p > 0 && AllWhole(p, q)
    ensures more != [] && AllWhole(p, q + more) && |q + more| >= len
    decreases if |q| < len then len - |q| else 0
  {
    more := AnotherFrame(p, q);
    if |q + more| < len {
      var again := Lengthen(p, q + more, len);
      assert q + more + again == q + (more + again);
      more := more + again;
    }
  }

  /** Whatever is queued, some bytes may arrive that complete a request of any length. */
  lemma EnoughMayArrive(b: Base, len: nat) returns (bytes: seq<byte>)
    requires PlainOptions(b.opts) && NoEmptyFrame(b.opts.packet, b.portq)
    ensures bytes != [] && NoEmptyFrame(b.opts.packet, b.portq + bytes) && Enough(Queued(b, bytes), len)
  {
    var p := b.opts.packet;
    if p == 0 {
      bytes := Zeros(len + 1);
      assert (b.portq + bytes)[..0] == [];
    } else {
      var rest := Complete(p, b.portq);
      var more := Lengthen(p, b.portq + rest, len);
      bytes := rest + more;
      assert b.portq + rest + more == b.portq + bytes;
      WholeHasNoEmptyFrame(p, b.portq + bytes);
    }
  }

  // ---------------------------------------------------------------- from waiting to served

  lemma LeadsOn(x: Session, y: Session, ev: SessionEvent)
    requires Leads(x, y) && SessionAllowed(y, ev)
    ensures Leads(x, NextSession(y, ev))
  {
    hide SessionAllowed, NextSession;
    var evs :| AllowedSession(x, evs) && y == RunSession(x, evs);
    SessionSnoc(x, evs, ev);
  }

  lemma LeadsNowhere(x: Session)
    ensures Leads(x, x)
  {
    assert AllowedSession(x, []) && RunSession(x, []) == x;
  }

  /** A recv that waits on the way to being served: nothing about it has changed. */
  ghost predicate Waits(x: Session, y: Session) {
    Leads(x, y) && SessionInv(y) && AwaitsRecv(y) && RecvHeld(y) && Live(y.w) && y.calls == x.calls
  }

  lemma WaitsOn(x: Session, y: Session, e: Event)
    requires Waits(x, y) && SessionAllowed(y, Port(e)) && !e.EvRead? && !e.EvCancelRecv? && Live(Next(y.w, e))
    ensures Waits(x, NextSession(y, Port(e)))
  {
    var z := NextSession(y, Port(e));
    assert z.w == Next(y.w, e);
    LeadsOn(x, y, Port(e));
    hide Leads, RecvHeld, Live, SessionAllowed;
    SessionStep(y, Port(e));
    RecvHeldStep(y, Port(e));
    hide SessionInv;
    StaysCalled(y, e);
  }

  lemma StaysCalled(y: Session, e: Event)
    requires SessionInv(y) && AwaitsRecv(y) && SessionAllowed(y, Port(e)) && !e.EvRead? && !e.EvCancelRecv?
    ensures NextSession(y, Port(e)).calls == y.calls && AwaitsRecv(NextSession(y, Port(e)))
  {
    OnlyBytesServe(y, e);
    hide SessionInv, Next, Allowed, Disciplined;
    CallsGrow(y, e);
  }

  /** A server's handle may come first. */
  lemma HandleComes(x: Session, y: Session) returns (z: Session)
    requires Waits(x, y)
    ensures Waits(x, z) && z.w.s.b.hist.link.acquired > 0
  {
    z := y;
    if y.w.s.b.hist.link.acquired == 0 {
      var w := Next(y.w, EvIncoming);
      assert SessionAllowed(y, Port(EvIncoming)) && Live(w) && w.s.b.hist.link.acquired > 0
        by { IncomingComes(y); }
      WaitsOn(x, y, EvIncoming);
      z := NextSession(y, Port(EvIncoming));
    }
  }

  lemma IncomingComes(y: Session)
    requires SessionInv(y) && Live(y.w) && y.w.s.b.hist.link.acquired == 0
    ensures SessionAllowed(y, Port(EvIncoming)) && Live(Next(y.w, EvIncoming))
    ensures Next(y.w, EvIncoming).s.b.hist.link.acquired > 0
  {
    ReachableInv(y.w);
    InvParts(y.w);
    hide Reachable, Inv, Noted, Ledger, NoEmptyFrame, Merge, Parse;
  }

  const MAKE_PASSIVE: seq<byte> := [ACTIVE_OPT, 0]

  lemma PassiveParses(opts: SockOpts)
    ensures Parse(MAKE_PASSIVE) == Some([ActiveItem(ActiveFalse)])
    ensures Merge(opts, MAKE_PASSIVE) == Some(opts.(active := ActiveFalse))
  {
    var items := [ActiveItem(ActiveFalse)];
    assert MAKE_PASSIVE[2..] == [];
    assert ReadItem(MAKE_PASSIVE) == Some((Some(ActiveItem(ActiveFalse)), 2));
    assert Parse(MAKE_PASSIVE) == Some(items + []);
    assert items + [] == items && items[1..] == [];
    assert ApplyAll(opts, items) == ApplyAll(Apply(opts, items[0]), []);
  }

  /** And somebody may make the socket passive. */
  lemma PassiveComes(x: Session, y: Session) returns (z: Session)
    requires Waits(x, y) && y.w.s.b.hist.link.acquired > 0
    ensures Waits(x, z) && z.w.s.b.hist.link.acquired > 0 && z.w.s.b.opts.active == ActiveFalse
  {
    var e := EvSetOpts(MAKE_PASSIVE);
    SetPassive(y);
    WaitsOn(x, y, e);
    z := NextSession(y, Port(e));
    assert z.w == Next(y.w, e);
  }

  lemma SetPassive(y: Session)
    requires Live(y.w) && y.w.s.b.hist.link.acquired > 0
    ensures var e := EvSetOpts(MAKE_PASSIVE);
            && SessionAllowed(y, Port(e)) && Live(Next(y.w, e))
            && Next(y.w, e).s.b.hist.link.acquired > 0 && Next(y.w, e).s.b.opts.active == ActiveFalse
  {
    PassiveParses(y.w.s.b.opts);
    hide EmitReadBuffer, Merge, Parse;
  }

  lemma QueueHasNoEmptyFrame(w: World)
    requires Reachable(w) && !w.env.stopped
    ensures NoEmptyFrame(w.s.b.opts.packet, w.s.b.portq) && PlainOptions(w.s.b.opts)
  {
    ReachableInv(w);
    ReadsOfReachable(w);
    hide Reachable, Frames;
  }

  /** Then bytes may arrive that complete what the recv asks for. */
  lemma BytesServe(y: Session, bytes: seq<byte>)
    requires SessionInv(y) && AwaitsRecv(y) && ServesRecv(y.w.s, bytes)
    ensures Served(y, NextSession(y, Port(EvRead(bytes))))
  {
    ServedReply(y.w.s, bytes);
    var x :| OnRead(y.w.s, bytes).b.hist.calls.answers
             == y.w.s.b.hist.calls.answers + [CallMsg(ToCaller(y.w.s.c.caller), y.w.s.c.callerRef, RecvOk(x))];
    assert Next(y.w, EvRead(bytes)).s == OnRead(y.w.s, bytes);
    hide SessionInv, ServesRecv, OnRead, Next;
    TailNone(Answers(y.w), CallMsg(ToCaller(y.w.s.c.caller), y.w.s.c.callerRef, RecvOk(x)));
  }

  lemma ReadComes(y: Session, bytes: seq<byte>)
    requires Live(y.w) && y.w.s.b.hist.link.acquired > 0 && NoEmptyFrame(y.w.s.b.opts.packet, y.w.s.b.portq + bytes)
    ensures SessionAllowed(y, Port(EvRead(bytes)))
  {
  }

  lemma RecvReached(x: Session)
    requires SessionInv(x) && RecvHeld(x) && AwaitsRecv(x) && Live(x.w)
    ensures CanBeServed(x)
  {
    LeadsNowhere(x);
    hide SessionInv, Live, NextSession, Leads;
    var y := HandleComes(x, x);
    y := PassiveComes(x, y);
    var bytes := BytesFor(y);
    LeadsOn(x, y, Port(EvRead(bytes)));
    assert Leads(x, NextSession(y, Port(EvRead(bytes)))) && Served(x, NextSession(y, Port(EvRead(bytes))));
  }

  lemma BytesFor(y: Session) returns (bytes: seq<byte>)
    requires SessionInv(y) && AwaitsRecv(y) && RecvHeld(y) && Live(y.w) && y.w.s.b.hist.link.acquired > 0
    requires y.w.s.b.opts.active == ActiveFalse
    ensures SessionAllowed(y, Port(EvRead(bytes))) && Served(y, NextSession(y, Port(EvRead(bytes))))
  {
    hide Noted, Ledger, NextSession, Served, NoEmptyFrame, SessionAllowed, Reachable, Enough;
    QueueHasNoEmptyFrame(y.w);
    bytes := EnoughMayArrive(y.w.s.b, y.w.s.c.recvLen);
    ReadComes(y, bytes);
    BytesServe(y, bytes);
  }

  // ---------------------------------------------------------------- theorems

  /** In every reachable state a waiting recv can still be served, by some way for the run to go on, if and only
      if bytes may still arrive; once the port has been stopped or DESTROYING has come no way of going on ever
      sends it a reply, and it is told nothing. */
  lemma RecvLeftBehind(role: Role, opts: SockOpts, evs: seq<SessionEvent>, x: Session)
    requires PlainOptions(opts) && AllowedSession(Begin(role, opts), evs) && x == RunSession(Begin(role, opts), evs)
    requires AwaitsRecv(x)
    ensures CanBeServed(x) ==> Live(x.w)
    ensures Live(x.w) ==> CanBeServed(x)
  {
    hide RunSession, AllowedSession, Begin, SessionInv, CanBeServed, RecvHeld, Live;
    BeginInv(role, opts);
    BeginHeld(role, opts);
    SessionRun(Begin(role, opts), evs);
    RecvHeldRun(Begin(role, opts), evs);
    if Live(x.w) {
      RecvReached(x);
    } else {
      NeverServed(x);
    }
  }

  lemma BeginHeld(role: Role, opts: SockOpts)
    ensures RecvHeld(Begin(role, opts))
  {
  }

  lemma NeverServed(x: Session)
    requires SessionInv(x) && AwaitsRecv(x) && !Live(x.w)
    ensures !CanBeServed(x)
  {
    hide SessionInv, Live;
    forall y | Leads(x, y)
      ensures !Served(x, y)
    {
      var evs :| AllowedSession(x, evs) && y == RunSession(x, evs);
      PastRun(x, evs, |x.calls|);
    }
  }

  /** The handle count, and a server's wait for its handle, through reading and option changes, */
  lemma LiveReading(w: World, e: Event)
    requires Allowed(w, e) && Live(w) && (e.EvSetOpts? || e.EvRead?)
    ensures Live(Next(w, e))
  {
    hide OnRead, SetOptsBase, NoEmptyFrame, Merge, Parse, UptakeAllowed;
    if e.EvSetOpts? {
      SetOptsFrame(w.s.b, e.bin);
    } else {
      ReadFrame(w.s, e.bytes);
    }
  }

  /** through callbacks, */
  lemma LiveCallback(w: World, e: Event)
    requires w.s.b.hist.link.acquired > 0 && (e.EvEof? || e.EvError? || e.EvIncoming?)
    ensures Next(w, e).s.b.hist.link.acquired > 0
  {
  }

  lemma LiveWritable(w: World, up: Uptake)
    requires w.s.b.hist.link.acquired > 0
    ensures Next(w, EvWritable(up)).s.b.hist.link.acquired > 0
  {
    var t := ResumeWriting(w.s, up);
    assert t.b.hist.link.acquired == w.s.b.hist.link.acquired;
    hide ResumeWriting;
  }

  /** and when the handle comes. */
  lemma LiveIncoming(w: World)
    requires Inv(w) && Allowed(w, EvIncoming)
    ensures Next(w, EvIncoming).s.b.hist.link.acquired > 0
  {
    InvParts(w);
    hide Inv, NoEmptyFrame, Merge, Parse;
  }

  /** What can happen while a recv waits, besides its cancel. */
  predicate DuringRecv(e: Event) {
    || e.EvSetOpts? || e.EvStop? || e.EvRead? || e.EvWritable? || e.EvEof? || e.EvDestroying? || e.EvError?
    || e.EvIncoming?
  }

  lemma LiveUntil(w: World, e: Event)
    requires Inv(w) && Allowed(w, e) && Live(w)
    requires DuringRecv(e)
    ensures Live(Next(w, e)) <==> !e.EvStop? && !e.EvDestroying?
  {
    hide Inv, Step, NoEmptyFrame, Merge, Parse, UptakeAllowed;
    match e
    case EvSetOpts(_) => LiveReading(w, e);
    case EvRead(_) => LiveReading(w, e);
    case EvWritable(up) => LiveWritable(w, up);
    case EvEof => LiveCallback(w, e);
    case EvError(_) => LiveCallback(w, e);
    case EvIncoming => LiveIncoming(w);
    case EvStop =>
    case EvDestroying =>
  }

  lemma OnlyWhileReceiving(x: Session, e: Event)
    requires Noted(x) && AwaitsRecv(x) && SessionAllowed(x, Port(e)) && !e.EvCancelRecv?
    ensures DuringRecv(e)
  {
    hide NoEmptyFrame, Merge, Parse, UptakeAllowed, Fresh;
  }

  /** While a recv waits that can be served, it loses that exactly by a stop and by DESTROYING, whether it is
      cancelled or not. */
  lemma RecvLoses(role: Role, opts: SockOpts, evs: seq<SessionEvent>, x: Session, e: Event)
    requires PlainOptions(opts) && AllowedSession(Begin(role, opts), evs) && x == RunSession(Begin(role, opts), evs)
    requires AwaitsRecv(x) && Live(x.w) && SessionAllowed(x, Port(e)) && !e.EvCancelRecv?
    ensures Live(Next(x.w, e)) <==> !e.EvStop? && !e.EvDestroying?
  {
    hide RunSession, AllowedSession, Begin, Live, Next, Reachable, Ledger, Noted, AwaitsRecv, Allowed, Disciplined;
    BeginInv(role, opts);
    SessionRun(Begin(role, opts), evs);
    ReachableInv(x.w);
    OnlyWhileReceiving(x, e);
    LiveUntil(x.w, e);
  }

  /** A passive server's connection. */
  lemma PassiveConnection() returns (x: Session)
    ensures SessionReachable(x) && x.calls == [] && !x.waiting && x.w.env == Env(false, false, false, false)
    ensures x.w.s == OnIncoming(Initial(Server, DEFAULTS.(active := ActiveFalse)))
  {
    hide SessionReachable, Outputv, Recv, OnRead, SetOptsBase, Close, Stop, OnWritable, OnEof, OnDestroying,
         ConnectValidate,
         OnConnect, OnError, NoEmptyFrame, Merge, Parse;
    var opts := DEFAULTS.(active := ActiveFalse);
    var x0 := Begin(Server, opts);
    BeginReachable(Server, opts);
    SessionReachableNext(x0, Port(EvIncoming));
    x := NextSession(x0, Port(EvIncoming));
  }

  ghost predicate Receiver(x: Session) {
    && SessionReachable(x) && AwaitsRecv(x) && !x.w.env.stopped && !x.w.env.destroyed
    && x.w.s.b.hist.link.acquired == 1 && !x.w.s.b.closePending
  }

  lemma WaitingSession() returns (x: Session)
    ensures Receiver(x) && x.w.s.c.status == Connected && x.w.s.c.utp
  {
    hide SessionReachable, Outputv, Recv, OnRead, SetOptsBase, Close, Stop, OnWritable, OnEof, OnDestroying,
         ConnectValidate,
         OnConnect, OnError, NoEmptyFrame, Merge, Parse;
    var x0 := PassiveConnection();
    SessionReachableNext(x0, Port(EvRecv(1, 5, 0)));
    x := NextSession(x0, Port(EvRecv(1, 5, 0)));
    PendingRecv(x0.w.s);
    assert x.w.s == Recv(x0.w.s, 1, 5, 0);
    TailNone(Answers(x0.w), CallMsg(ToConnected, None, ConnectOk));
  }

  /** The same after the peer's EOF. */
  lemma ReceiverAfterEof() returns (x: Session)
    ensures Receiver(x) && x.w.s.b.hist.link.closes != []
  {
    hide SessionReachable, Outputv, Recv, OnRead, SetOptsBase, Close, Stop, OnWritable, OnDestroying, ConnectValidate,
         OnConnect,
         OnError, OnIncoming, NoEmptyFrame, Merge, Parse;
    var x0 := WaitingSession();
    SessionReachableNext(x0, Port(EvEof));
    x := NextSession(x0, Port(EvEof));
    assert x.w.s == OnEof(x0.w.s);
    TailNone(Answers(x0.w), CallMsg(ToConnected, None, ConnectOk));
    LedgerKept(x0.calls);
  }

  /** A recv that waits when the peer ends the connection is told nothing: EOF and DESTROYING pass it by. */
  lemma RecvForgotten()
    ensures exists x :: SessionReachable(x) && AwaitsRecv(x) && x.w.env.destroyed && !CanBeServed(x)
  {
    hide SessionInv, CanBeServed, AwaitsRecv, SessionReachable;
    var x := ReceiverDestroyed();
    ReachableSession(x);
    NeverServed(x);
  }

  lemma ReceiverDestroyed() returns (x: Session)
    ensures SessionReachable(x) && AwaitsRecv(x) && x.w.env.destroyed
  {
    hide SessionReachable, Outputv, Recv, OnRead, SetOptsBase, Close, Stop, OnWritable, OnEof, ConnectValidate,
         OnConnect,
         OnError, OnIncoming, NoEmptyFrame, Merge, Parse;
    var x0 := ReceiverAfterEof();
    SessionReachableNext(x0, Port(EvDestroying));
    x := NextSession(x0, Port(EvDestroying));
    assert x.w.s == OnDestroying(x0.w.s);
    TailNone(Answers(x0.w), CallMsg(ToConnected, None, ConnectOk));
    LedgerKept(x0.calls);
  }
}
