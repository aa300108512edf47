/** What a recv asks for is what it gets: its length, the bytes that have arrived, and its answer. */
module Requests {
  import opened Bytes
  import opened Options
  import opened Driver
  import opened Lifecycle
  import opened ReadSide
  import opened SharedCaller
  import opened BlockingCalls
  import opened Waiting
  import opened Framing

  /** The bytes that have arrived and not been delivered, as the history tells. */
  function Undelivered(w: World): seq<byte> {
    var rd, p := w.s.b.hist.rd, w.s.b.opts.packet;
    var done := if p == 0 then DeliveredBytes(rd.deliveries) else Frames(p, Payloads(rd.deliveries));
    if done <= Flatten(rd.chunks) then Flatten(rd.chunks)[|done|..] else []
  }

  /** The answer m that a recv of this length deserves when q is undelivered. Without framing: as many bytes as
      it asked for, or all there are, if it asked for none in particular, but not nothing. With framing: the
      next message, once its whole frame is there, and as many bytes as asked for. */
  predicate Deserves(p: nat, q: seq<byte>, len: nat, m: seq<byte>) {
    if p != 0 then Frameable(p, m) && Frame(p, m) <= q && len <= |q|
    else if len == 0 then q != [] && m == q
    else len <= |q| && m == q[..len]
  }

  ghost predicate Servable(p: nat, q: seq<byte>, len: nat) {
    exists m :: Deserves(p, q, len, m)
  }

  // ---------------------------------------------------------------- what an emission hands out

  lemma FramedAnswer(p: nat, q: seq<byte>, len: nat, m: seq<byte>)
    requires p != 0 && NoEmptyFrame(p, q)
    ensures Deserves(p, q, len, m) <==>
            len <= |q| && WholeFrame(p, q) && m == q[p..p + FrameLength(p, q)]
  {
    if p <= |q| {
      FrontFrame(p, q);
      var n := FrameLength(p, q);
      if Frameable(p, m) && Frame(p, m) <= q {
        BigEndianRoundTrip(|m|, p);
        ModUnique(|m|, Pow256(p), 0, |m|);
        assert q[..p] == Frame(p, m)[..p] == BigEndian(|m|, p);
        assert q[p..p + |m|] == Frame(p, m)[p..] == m;
      }
    }
  }

  lemma RawAnswer(b: Base, len: nat)
    requires b.opts.packet == 0
    ensures Enough(b, len) <==> b.portq != [] && len <= |b.portq|
  {
    assert b.portq[..0] == [];
  }

  /** An emission to a caller on a passive socket hands out what the request deserves, or nothing. */
  lemma EmitDeserved(b: Base, len: nat, caller: Caller, ref: Option<Ref>, m: seq<byte>)
    requires b.opts.active == ActiveFalse && NoEmptyFrame(b.opts.packet, b.portq)
    requires Deserves(b.opts.packet, b.portq, len, m)
    ensures var e := EmitReadBuffer(b, len, CallReceiver(caller, ref));
            e.sent && e.b.hist.calls.answers == b.hist.calls.answers + [CallMsg(ToCaller(caller), ref, RecvOk(m))]
  {
    if b.opts.packet != 0 {
      FramedAnswer(b.opts.packet, b.portq, len, m);
    } else {
      RawAnswer(b, len);
      assert b.portq[..0] == [] && b.portq[..|b.portq|] == b.portq;
    }
    assert Enough(b, len);
    var t := Take(b, len);
    assert t.parts == [m];
    hide Take, Enough;
    DeliverSingle(b.(portq := t.portq, readCount := t.readCount), CallReceiver(caller, ref), m);
  }

  lemma EnoughServes(b: Base, len: nat)
    requires Enough(b, len) && NoEmptyFrame(b.opts.packet, b.portq)
    ensures Servable(b.opts.packet, b.portq, len)
  {
    var p, q := b.opts.packet, b.portq;
    if p != 0 {
      FramedAnswer(p, q, len, q[p..p + FrameLength(p, q)]);
    } else {
      RawAnswer(b, len);
      assert Deserves(p, q, len, if len == 0 then q else q[..len]);
    }
  }

  lemma EmitUndeserved(b: Base, len: nat, r: Receiver)
    requires b.opts.active == ActiveFalse && NoEmptyFrame(b.opts.packet, b.portq)
    requires !Servable(b.opts.packet, b.portq, len)
    ensures var e := EmitReadBuffer(b, len, r); !e.sent && e.b.hist.calls.answers == b.hist.calls.answers
  {
    if Enough(b, len) {
      EnoughServes(b, len);
    }
  }

  // ---------------------------------------------------------------- the queue is what is undelivered

  lemma QueueIsUndelivered(w: World)
    requires Reachable(w) && !w.env.stopped
    ensures w.s.b.portq == Undelivered(w)
    ensures NoEmptyFrame(w.s.b.opts.packet, w.s.b.portq)
  {
    ReadsOfReachable(w);
    QueueHasNoEmptyFrame(w);
    hide Reachable, Frames, NoEmptyFrame;
    if w.s.b.opts.packet == 0 {
      RawWorldMeans(w, Pending(w.s.b.hist.rd));
    }
  }

  // ---------------------------------------------------------------- the length on record

  /** While a recv waits, the handler has its length on record. */
  predicate LengthHeld(x: Session) {
    AwaitsRecv(x) ==> x.w.s.c.receiverWaiting && x.w.s.c.recvLen == Last(x).len
  }

  /** Only recv, its cancel and its answer write the length. */
  lemma LengthKept(s: State, e: Event)
    requires !e.EvRecv? && !e.EvCancelRecv?
    ensures Step(s, e).c.receiverWaiting ==> Step(s, e).c.recvLen == s.c.recvLen
  {
    hide Outputv, OnRead, SetOptsBase, Close, Stop, OnWritable, OnEof, OnDestroying, OnError, ConnectValidate,
         OnConnect, OnIncoming;
    match e
    case EvOutputv(pid, data, up) => CommandsKeepLength(s, pid, data, up, 0);
    case EvClose(pid, ref) => CommandsKeepLength(s, pid, [], Uptake([], false), ref);
    case EvValidate(ref) => CommandsKeepLength(s, 0, [], Uptake([], false), ref);
    case EvRead(bytes) => ReadKeepsLength(s, bytes);
    case EvWritable(up) => WritableKeepsLength(s, up);
    case EvStop => EndsKeepLength(s);
    case EvEof => EndsKeepLength(s);
    case EvDestroying => EndsKeepLength(s);
    case EvConnect => ConnectKeepsLength(s, ConnReset);
    case EvError(err) => ConnectKeepsLength(s, err);
    case EvIncoming => ConnectKeepsLength(s, ConnReset);
    case EvSetOpts(_) =>
    case EvCancelSend =>
  }

  lemma CommandsKeepLength(s: State, pid: Pid, data: seq<byte>, up: Uptake, ref: Ref)
    ensures Outputv(s, pid, data, up).c.recvLen == s.c.recvLen
    ensures Close(s, pid, ref).c.recvLen == s.c.recvLen && ConnectValidate(s, ref).c.recvLen == s.c.recvLen
  {
    hide Frame, Emit;
  }

  lemma ReadKeepsLength(s: State, bytes: seq<byte>)
    ensures OnRead(s, bytes).c.receiverWaiting ==> OnRead(s, bytes).c.recvLen == s.c.recvLen
  {
    hide EmitReadBuffer;
  }

  lemma WritableKeepsLength(s: State, up: Uptake)
    ensures OnWritable(s, up).c.recvLen == s.c.recvLen
  {
    hide Emit;
  }

  lemma EndsKeepLength(s: State)
    ensures Stop(s).c.recvLen == s.c.recvLen
    ensures OnEof(s).c.recvLen == s.c.recvLen
    ensures OnDestroying(s).c.recvLen == s.c.recvLen
  {
    hide Emit;
  }

  lemma ConnectKeepsLength(s: State, e: Errno)
    ensures OnConnect(s).c.recvLen == s.c.recvLen
    ensures OnError(s, e).c.recvLen == s.c.recvLen
    ensures OnIncoming(s).c.recvLen == s.c.recvLen
  {
    hide Emit;
  }

  lemma LengthOnCall(x: Session, pid: Pid, ref: Ref, len: nat)
    requires !x.w.s.b.closePending && !x.waiting
    ensures LengthHeld(NextSession(x, Port(EvRecv(pid, ref, len))))
  {
    var e := EvRecv(pid, ref, len);
    RecvHeldCall(x, pid, ref, len);
    AttributeEnd(Issued(x, e), Tail(Answers(x.w), Answers(Next(x.w, e))));
    assert Next(x.w, e).s == Recv(x.w.s, pid, ref, len);
    var y := NextSession(x, Port(e));
    if AwaitsRecv(y) {
      hide Recv;
      RecvReplies(x.w.s, pid, ref, len);
      RecvLength(x.w.s, pid, ref, len);
    }
  }

  lemma AttributeEnd(calls: seq<Call>, msgs: seq<CallMsg>)
    ensures |Attribute(calls, msgs)| == |calls|
    ensures calls != [] ==>
              var last := calls[|calls| - 1];
              Attribute(calls, msgs)[|calls| - 1] == last.(replies := last.replies + msgs)
  {
  }

  /** A recv that is not answered at once is registered with its length. */
  lemma RecvLength(s: State, pid: Pid, ref: Ref, len: nat)
    ensures var t := Recv(s, pid, ref, len);
            t.b.hist.calls.answers == s.b.hist.calls.answers && s.b.opts.active == ActiveFalse ==> t.c.recvLen == len
  {
    hide EmitReadBuffer;
    if s.b.opts.active == ActiveFalse {
      EmitAnswers(s.b, len, Proc(pid), Some(ref));
    }
  }

  lemma EmitAnswers(b: Base, len: nat, caller: Caller, ref: Option<Ref>)
    requires b.opts.active == ActiveFalse
    ensures var e := EmitReadBuffer(b, len, CallReceiver(caller, ref));
            e.sent ==> |e.b.hist.calls.answers| == |b.hist.calls.answers| + 1
  {
    hide EmitReadBuffer;
    EmitOneReply(b, len, caller, ref);
  }

  lemma LengthStep(x: Session, ev: SessionEvent)
    requires SessionInv(x) && SessionAllowed(x, ev) && LengthHeld(x)
    ensures LengthHeld(NextSession(x, ev))
  {
    RecvHeldStep(x, ev);
    match ev
    case Return =>
    case Port(e) =>
      var y := NextSession(x, ev);
      assert y.w == Next(x.w, e);
      if e.EvRecv? {
        IdleHasNoClose(x);
        LengthOnCall(x, e.pid, e.ref, e.len);
      } else if AwaitsRecv(y) {
        hide Reachable, Ledger, Noted, Allowed, NextSession, Step;
        AwaitsRecvBefore(x, e);
        LengthKept(x.w.s, e);
        SameLength(x, e);
      }
  }

  lemma SameLength(x: Session, e: Event)
    requires !e.EvRecv? && AwaitsRecv(x) && AwaitsRecv(NextSession(x, Port(e)))
    ensures Last(NextSession(x, Port(e))).len == Last(x).len
  {
    hide Next, Tail;
    AttributeEnd(Issued(x, e), Tail(Answers(x.w), Answers(Next(x.w, e))));
  }

  lemma {:induction false} LengthRun(x: Session, evs: seq<SessionEvent>)
    requires SessionInv(x) && LengthHeld(x) && AllowedSession(x, evs)
    ensures LengthHeld(RunSession(x, evs)) && SessionInv(RunSession(x, evs))
    decreases |evs|
  {
    hide SessionInv, LengthHeld, SessionAllowed, NextSession;
    if evs != [] {
      SessionStep(x, evs[0]);
      LengthStep(x, evs[0]);
      LengthRun(NextSession(x, evs[0]), evs[1..]);
    }
  }

  // ---------------------------------------------------------------- what a read or a call answers

  lemma PassiveRead(s: State, bytes: seq<byte>, m: seq<byte>)
    requires s.b.opts.active == ActiveFalse && s.c.receiverWaiting && bytes != []
    requires NoEmptyFrame(s.b.opts.packet, s.b.portq + bytes)
    ensures Deserves(s.b.opts.packet, s.b.portq + bytes, s.c.recvLen, m) ==>
              OnRead(s, bytes).b.hist.calls.answers
              == s.b.hist.calls.answers + [CallMsg(ToCaller(s.c.caller), s.c.callerRef, RecvOk(m))]
    ensures !Servable(s.b.opts.packet, s.b.portq + bytes, s.c.recvLen) ==>
              OnRead(s, bytes).b.hist.calls.answers == s.b.hist.calls.answers
  {
    hide EmitReadBuffer, Deserves;
    var b1 := Queued(s.b, bytes);
    if Deserves(b1.opts.packet, b1.portq, s.c.recvLen, m) {
      EmitDeserved(b1, s.c.recvLen, s.c.caller, s.c.callerRef, m);
    }
    if !Servable(b1.opts.packet, b1.portq, s.c.recvLen) {
      EmitUndeserved(b1, s.c.recvLen, CallReceiver(s.c.caller, s.c.callerRef));
    }
  }

  lemma PassiveRecv(s: State, pid: Pid, ref: Ref, len: nat, m: seq<byte>)
    requires s.b.opts.active == ActiveFalse && NoEmptyFrame(s.b.opts.packet, s.b.portq)
    ensures Deserves(s.b.opts.packet, s.b.portq, len, m) ==>
              Recv(s, pid, ref, len).b.hist.calls.answers
              == s.b.hist.calls.answers + [CallMsg(ToCaller(Proc(pid)), Some(ref), RecvOk(m))]
    ensures !Servable(s.b.opts.packet, s.b.portq, len) ==>
              Recv(s, pid, ref, len).b.hist.calls.answers == s.b.hist.calls.answers
  {
    hide EmitReadBuffer, Deserves;
    if Deserves(s.b.opts.packet, s.b.portq, len, m) {
      EmitDeserved(s.b, len, Proc(pid), Some(ref), m);
    }
    if !Servable(s.b.opts.packet, s.b.portq, len) {
      EmitUndeserved(s.b, len, CallReceiver(Proc(pid), Some(ref)));
    }
  }

  /** A read while a recv waits answers it exactly if the socket is passive and what is then undelivered is
      what the recv deserves, and with just that. */
  lemma ReadAnswers(x: Session, bytes: seq<byte>, m: seq<byte>)
    requires SessionInv(x) && LengthHeld(x) && AwaitsRecv(x) && SessionAllowed(x, Port(EvRead(bytes)))
    ensures var q, p := Undelivered(x.w) + bytes, x.w.s.b.opts.packet;
            var passive := x.w.s.b.opts.active == ActiveFalse && bytes != [];
            && (passive && Deserves(p, q, Last(x).len, m) ==>
                  Answers(Next(x.w, EvRead(bytes))) == Answers(x.w) + [CallMsg(Last(x).dest, Last(x).ref, RecvOk(m))])
            && (!passive || !Servable(p, q, Last(x).len) ==> Answers(Next(x.w, EvRead(bytes))) == Answers(x.w))
  {
    hide Reachable, Ledger, Deserves, OnRead;
    QueueIsUndelivered(x.w);
    assert Next(x.w, EvRead(bytes)).s == OnRead(x.w.s, bytes);
    if x.w.s.b.opts.active == ActiveFalse && bytes != [] {
      PassiveRead(x.w.s, bytes, m);
    } else {
      QuietRead(x.w.s, bytes);
    }
  }

  /** recv on a passive socket answers at once exactly if what is undelivered is what it deserves. */
  lemma CallAnswers(x: Session, pid: Pid, ref: Ref, len: nat, m: seq<byte>)
    requires SessionInv(x) && SessionAllowed(x, Port(EvRecv(pid, ref, len)))
    ensures var q, p := Undelivered(x.w), x.w.s.b.opts.packet;
            var passive := x.w.s.b.opts.active == ActiveFalse;
            var t := Next(x.w, EvRecv(pid, ref, len));
            && (passive && Deserves(p, q, len, m) ==>
                  Answers(t) == Answers(x.w) + [CallMsg(ToCaller(Proc(pid)), Some(ref), RecvOk(m))])
            && (!passive || !Servable(p, q, len) ==> Answers(t) == Answers(x.w))
  {
    QueueIsUndelivered(x.w);
    hide SessionInv, Deserves, Recv, NoEmptyFrame;
    assert Next(x.w, EvRecv(pid, ref, len)).s == Recv(x.w.s, pid, ref, len);
    if x.w.s.b.opts.active == ActiveFalse {
      PassiveRecv(x.w.s, pid, ref, len, m);
    } else {
      ActiveRecv(x.w.s, pid, ref, len);
    }
  }

  lemma ActiveRecv(s: State, pid: Pid, ref: Ref, len: nat)
    requires s.b.opts.active != ActiveFalse
    ensures Recv(s, pid, ref, len).b.hist.calls.answers == s.b.hist.calls.answers
  {
  }

  // ---------------------------------------------------------------- a recv that is overlooked

  /** What the waiting recv deserves has arrived, and it still waits. */
  ghost predicate Overlooked(x: Session) {
    AwaitsRecv(x) && Servable(x.w.s.b.opts.packet, Undelivered(x.w), Last(x).len)
  }

  /** The step that overlooks a waiting recv: with framing, a read on a socket that has been made active since,
      which hands its first frame to the connected process and leaves a second one that the recv could have. */
  predicate Overlooks(x: Session, e: Event) {
    var p := x.w.s.b.opts.packet;
    && p != 0 && AwaitsRecv(x) && e.EvRead? && e.bytes != [] && x.w.s.b.opts.active != ActiveFalse
    && var q := Undelivered(x.w) + e.bytes;
       TwoWholeFrames(p, q) && Last(x).len <= |q| - (p + FrameLength(p, q))
  }

  lemma ServableFramed(p: nat, q: seq<byte>, len: nat)
    requires p != 0 && NoEmptyFrame(p, q)
    ensures Servable(p, q, len) <==> len <= |q| && WholeFrame(p, q)
  {
    if WholeFrame(p, q) {
      FramedAnswer(p, q, len, q[p..p + FrameLength(p, q)]);
    }
    forall m | Deserves(p, q, len, m)
      ensures len <= |q| && WholeFrame(p, q)
    {
      FramedAnswer(p, q, len, m);
    }
  }

  lemma ServableRaw(q: seq<byte>, len: nat)
    ensures Servable(0, q, len) <==> |q| >= (if len == 0 then 1 else len)
  {
    if |q| >= (if len == 0 then 1 else len) {
      assert Deserves(0, q, len, if len == 0 then q else q[..len]);
    }
  }

  /** The queue after a read on an active socket, with framing. */
  lemma ActiveReadLeaves(s: State, bytes: seq<byte>)
    requires Framed(s.b) && bytes != [] && s.b.opts.active != ActiveFalse
    requires NoEmptyFrame(s.b.opts.packet, s.b.portq + bytes)
    ensures var p, q := s.b.opts.packet, s.b.portq + bytes;
            && p != 0 && OnRead(s, bytes).b.opts.packet == p
            && OnRead(s, bytes).b.portq == if WholeFrame(p, q) then q[p + FrameLength(p, q)..] else q
  {
    hide EmitReadBuffer, Framed, FrameLength;
    ReadQueued(s.b, bytes);
    EmitTakesFrame(Queued(s.b, bytes), 0, ConnectedReceiver);
  }

  lemma SetOptsLeaves(s: State, bin: seq<byte>)
    requires Framed(s.b) && KeepsFraming(s.b.opts, bin)
    ensures var p, q := s.b.opts.packet, s.b.portq;
            var t := SetOpts(s, bin).b;
            && p != 0 && t.opts.packet == p
            && (t.portq == q || (WholeFrame(p, q) && t.portq == q[p + FrameLength(p, q)..]))
  {
    hide EmitReadBuffer, Merge, FrameLength;
    if Merge(s.b.opts, bin).Some? {
      var opts := Merge(s.b.opts, bin).value;
      FramedReopts(s.b, opts);
      hide Framed;
      EmitTakesFrame(Emit(s.b.(opts := opts), OptionsSet(opts.active)), 0, ConnectedReceiver);
    }
    FramedPacket(s.b);
  }

  lemma SetOptsShrinks(b: Base, bin: seq<byte>)
    requires KeepsFraming(b.opts, bin)
    ensures |SetOptsBase(b, bin).portq| <= |b.portq| && SetOptsBase(b, bin).opts.packet == b.opts.packet
  {
    hide EmitReadBuffer, Merge;
    SetOptsFrame(b, bin);
    if Merge(b.opts, bin).Some? {
      var opts := Merge(b.opts, bin).value;
      EmitShrinks(Emit(b.(opts := opts), OptionsSet(opts.active)), 0, ConnectedReceiver);
    }
  }

  lemma EmitShrinks(b: Base, len: nat, r: Receiver)
    ensures |EmitReadBuffer(b, len, r).b.portq| <= |b.portq|
  {
    if !CloseToReport(b) && Enough(b, len) {
      TakeShrinks(b, len);
      var t := Take(b, len);
      hide Take;
      DeliverAllKeeps(b.(portq := t.portq, readCount := t.readCount), r, t.parts);
    }
  }

  lemma TakeShrinks(b: Base, len: nat)
    requires Enough(b, len)
    ensures |Take(b, len).portq| <= |b.portq|
  {
  }

  lemma RawActiveRead(s: State, bytes: seq<byte>)
    requires s.b.opts.packet == 0 && s.b.opts.active != ActiveFalse && s.b.portq == [] && s.b.readCount == []
    ensures bytes != [] ==> OnRead(s, bytes).b.portq == []
  {
    if bytes != [] {
      var b1 := Queued(s.b, bytes);
      assert b1.portq == bytes && b1.readCount == [|bytes|] && bytes[..0] == [];
      assert Sum([|bytes|]) == |bytes| by { SumOne(|bytes|); }
      var t := Take(b1, 0);
      assert t.portq == [];
      hide Take;
      DeliverAllKeeps(b1.(portq := t.portq, readCount := t.readCount), ConnectedReceiver, t.parts);
    }
  }

  /** An active socket without framing has nothing queued. */
  lemma RawActiveEmpty(w: World)
    requires Reachable(w) && !w.env.stopped && w.s.b.opts.packet == 0 && w.s.b.opts.active != ActiveFalse
    ensures w.s.b.portq == [] && w.s.b.readCount == []
  {
    ReadsOfReachable(w);
    ReadOkOfReachable(w);
    hide Reachable;
    AllSpent(w.s.b.readCount);
  }

  lemma AllSpent(counts: seq<nat>)
    requires AllPositive(counts)
    ensures Sum(counts) == 0 ==> counts == []
  {
  }

  lemma RestUndelivered(w: World, e: Event)
    requires !e.EvRead? && !e.EvSetOpts? && !e.EvRecv?
    ensures Undelivered(Next(w, e)) == Undelivered(w) && Next(w, e).s.b.opts.packet == w.s.b.opts.packet
  {
    hide Step, Undelivered;
    if e.EvStop? {
      ClosingKeepsReads(w.s, 0, 0);
      StopMeans(w);
    } else {
      OtherStepsKeepReads(w.s, e);
    }
    SameReads(w, Next(w, e));
  }

  lemma StopMeans(w: World)
    ensures Next(w, EvStop).s == Stop(w.s)
  {
  }

  lemma SameReads(v: World, w: World)
    requires w.s.b.hist.rd == v.s.b.hist.rd && w.s.b.opts.packet == v.s.b.opts.packet
    ensures Undelivered(w) == Undelivered(v)
  {
  }

  /** What a step without an answer does to the outstanding call. */
  lemma UnansweredStep(x: Session, e: Event)
    requires AwaitsRecv(x) && Answers(Next(x.w, e)) == Answers(x.w) && (e.EvRead? || e.EvSetOpts?)
    ensures AwaitsRecv(NextSession(x, Port(e))) && Last(NextSession(x, Port(e))).len == Last(x).len
  {
    hide Next;
    TailNone(Answers(x.w), CallMsg(ToConnected, None, ConnectOk));
    LedgerKept(x.calls);
  }

  lemma AnsweredStep(x: Session, e: Event, m: CallMsg)
    requires AwaitsRecv(x) && Answers(Next(x.w, e)) == Answers(x.w) + [m] && e.EvRead?
    ensures !AwaitsRecv(NextSession(x, Port(e)))
  {
    hide Next;
    TailNone(Answers(x.w), m);
  }

  lemma OverlookPassive(x: Session, bytes: seq<byte>)
    requires SessionInv(x) && LengthHeld(x) && AwaitsRecv(x) && SessionAllowed(x, Port(EvRead(bytes)))
    requires bytes != [] && x.w.s.b.opts.active == ActiveFalse
    ensures !Overlooked(NextSession(x, Port(EvRead(bytes))))
  {
    var e := EvRead(bytes);
    var y := NextSession(x, Port(e));
    var q, p := Undelivered(x.w) + bytes, x.w.s.b.opts.packet;
    SessionStep(x, Port(e));
    QueueIsUndelivered(x.w);
    QueueIsUndelivered(y.w);
    assert y.w == Next(x.w, e) && y.w.s == OnRead(x.w.s, bytes);
    hide SessionInv, LengthHeld, NextSession, Next, Allowed, Undelivered, Deserves, AwaitsRecv;
    if Servable(p, q, Last(x).len) {
      var m :| Deserves(p, q, Last(x).len, m);
      ReadAnswers(x, bytes, m);
      AnsweredStep(x, e, CallMsg(Last(x).dest, Last(x).ref, RecvOk(m)));
    } else {
      ReadAnswers(x, bytes, []);
      UnansweredStep(x, e);
      UnsentKeeps(x.w.s, bytes);
    }
  }

  /** A read that answers nobody on a passive socket stays queued. */
  lemma UnsentKeeps(s: State, bytes: seq<byte>)
    requires bytes != [] && s.b.opts.active == ActiveFalse
    requires OnRead(s, bytes).b.hist.calls.answers == s.b.hist.calls.answers
    ensures OnRead(s, bytes).b.portq == s.b.portq + bytes && OnRead(s, bytes).b.opts.packet == s.b.opts.packet
  {
    hide EmitReadBuffer;
    var b1 := Queued(s.b, bytes);
    EmitAnswers(b1, s.c.recvLen, s.c.caller, s.c.callerRef);
    EmitUnsent(b1, s.c.recvLen, CallReceiver(s.c.caller, s.c.callerRef));
  }

  lemma EmitUnsent(b: Base, len: nat, r: Receiver)
    ensures var e := EmitReadBuffer(b, len, r); !e.sent ==> e.b.portq == b.portq && e.b.opts == b.opts
  {
  }

  lemma OverlookActive(x: Session, bytes: seq<byte>)
    requires SessionInv(x) && LengthHeld(x) && AwaitsRecv(x) && SessionAllowed(x, Port(EvRead(bytes)))
    requires bytes != [] && x.w.s.b.opts.active != ActiveFalse
    ensures Overlooked(NextSession(x, Port(EvRead(bytes)))) <==> Overlooks(x, EvRead(bytes))
  {
    var e := EvRead(bytes);
    var y := NextSession(x, Port(e));
    var p := x.w.s.b.opts.packet;
    SessionStep(x, Port(e));
    QueueIsUndelivered(x.w);
    QueueIsUndelivered(y.w);
    assert y.w == Next(x.w, e) && y.w.s == OnRead(x.w.s, bytes);
    QuietRead(x.w.s, bytes);
    ReadKeepsPacket(x.w.s, bytes);
    ReadAllowed(x, bytes);
    hide NextSession, Next, OnRead, SessionAllowed;
    UnansweredStep(x, e);
    hide LengthHeld, Undelivered, FrameLength, NoEmptyFrame, SessionInv;
    if p == 0 {
      RawActiveServes(x.w, bytes, Last(x).len);
    } else {
      FramedActiveServes(x.w, bytes, Last(x).len);
    }
  }

  lemma ReadAllowed(x: Session, bytes: seq<byte>)
    requires SessionAllowed(x, Port(EvRead(bytes)))
    ensures NoEmptyFrame(x.w.s.b.opts.packet, x.w.s.b.portq + bytes)
  {
  }

  lemma RawActiveServes(w: World, bytes: seq<byte>, len: nat)
    requires Reachable(w) && !w.env.stopped && w.s.b.opts.packet == 0 && w.s.b.opts.active != ActiveFalse && bytes != []
    ensures OnRead(w.s, bytes).b.opts.packet == 0 && !Servable(0, OnRead(w.s, bytes).b.portq, len)
  {
    RawActiveEmpty(w);
    RawActiveRead(w.s, bytes);
    ReadKeepsPacket(w.s, bytes);
    hide Reachable, OnRead;
    ServableRaw([], len);
  }

  lemma FramedActiveServes(w: World, bytes: seq<byte>, len: nat)
    requires Reachable(w) && !w.env.stopped && w.s.b.opts.packet != 0 && w.s.b.opts.active != ActiveFalse && bytes != []
    requires NoEmptyFrame(w.s.b.opts.packet, w.s.b.portq + bytes)
    requires NoEmptyFrame(w.s.b.opts.packet, OnRead(w.s, bytes).b.portq)
    ensures var p, q := w.s.b.opts.packet, w.s.b.portq + bytes;
            && OnRead(w.s, bytes).b.opts.packet == p
            && (Servable(p, OnRead(w.s, bytes).b.portq, len) <==>
                  TwoWholeFrames(p, q) && len <= |q| - (p + FrameLength(p, q)))
  {
    FramedOfReachable(w);
    hide Reachable, OnRead, NoEmptyFrame, FrameLength, Framed, Servable, WholeFrame, TwoWholeFrames;
    ActiveReadLeaves(w.s, bytes);
    var p, left := w.s.b.opts.packet, OnRead(w.s, bytes).b.portq;
    ServableFramed(p, left, len);
    SecondFrame(p, w.s.b.portq + bytes, left, len);
  }

  lemma SecondFrame(p: nat, q: seq<byte>, left: seq<byte>, len: nat)
    requires left == if WholeFrame(p, q) then q[p + FrameLength(p, q)..] else q
    ensures len <= |left| && WholeFrame(p, left) <==> TwoWholeFrames(p, q) && len <= |q| - (p + FrameLength(p, q))
  {
    hide FrameLength;
  }

  lemma ReadKeepsPacket(s: State, bytes: seq<byte>)
    ensures OnRead(s, bytes).b.opts.packet == s.b.opts.packet
  {
    ReadFrame(s, bytes);
  }

  lemma FramedOfReachable(w: World)
    requires Reachable(w) && !w.env.stopped && w.s.b.opts.packet != 0
    ensures Framed(w.s.b)
  {
    ReadsOfReachable(w);
  }

  lemma OverlookSetOpts(x: Session, bin: seq<byte>)
    requires SessionInv(x) && AwaitsRecv(x) && !Overlooked(x) && SessionAllowed(x, Port(EvSetOpts(bin)))
    ensures !Overlooked(NextSession(x, Port(EvSetOpts(bin))))
  {
    var e := EvSetOpts(bin);
    var y := NextSession(x, Port(e));
    var p := x.w.s.b.opts.packet;
    SessionStep(x, Port(e));
    QueueIsUndelivered(x.w);
    QueueIsUndelivered(y.w);
    assert y.w == Next(x.w, e) && y.w.s == SetOpts(x.w.s, bin);
    QuietSetOpts(x.w.s, bin);
    UnansweredStep(x, e);
    if p == 0 {
      hide SessionInv, NextSession, Next, Undelivered, NoEmptyFrame, Merge, Parse, UptakeAllowed;
      SetOptsShrinks(x.w.s.b, bin);
      ServableRaw(x.w.s.b.portq, Last(x).len);
      ServableRaw(y.w.s.b.portq, Last(x).len);
    } else {
      FramedOfReachable(x.w);
      hide SessionInv, NextSession, Next, Undelivered, FrameLength, NoEmptyFrame, Merge, Parse, UptakeAllowed;
      SetOptsLeaves(x.w.s, bin);
      ServableFramed(p, x.w.s.b.portq, Last(x).len);
      ServableFramed(p, y.w.s.b.portq, Last(x).len);
    }
  }

  lemma OverlookCall(x: Session, pid: Pid, ref: Ref, len: nat)
    requires SessionInv(x) && SessionAllowed(x, Port(EvRecv(pid, ref, len)))
    ensures !Overlooked(NextSession(x, Port(EvRecv(pid, ref, len))))
  {
    var e := EvRecv(pid, ref, len);
    var y := NextSession(x, Port(e));
    var q, p := Undelivered(x.w), x.w.s.b.opts.packet;
    SessionStep(x, Port(e));
    QueueIsUndelivered(x.w);
    QueueIsUndelivered(y.w);
    assert y.w == Next(x.w, e) && y.w.s == Recv(x.w.s, pid, ref, len);
    IssuedRecv(x, pid, ref, len);
    hide SessionInv, NextSession, Next, Allowed, Undelivered, Deserves, AwaitsRecv;
    if x.w.s.b.opts.active == ActiveFalse {
      if Servable(p, q, len) {
        var m :| Deserves(p, q, len, m);
        CallAnswers(x, pid, ref, len, m);
      } else {
        CallAnswers(x, pid, ref, len, []);
        UnsentRecv(x.w.s, pid, ref, len);
      }
    }
  }

  lemma IssuedRecv(x: Session, pid: Pid, ref: Ref, len: nat)
    ensures var e := EvRecv(pid, ref, len);
            var y := NextSession(x, Port(e));
            && y.calls != [] && Last(y).len == len
            && (AwaitsRecv(y) ==> x.w.s.b.opts.active == ActiveFalse && Tail(Answers(x.w), Answers(Next(x.w, e))) == [])
  {
    var e := EvRecv(pid, ref, len);
    hide Next, Tail;
    AttributeEnd(Issued(x, e), Tail(Answers(x.w), Answers(Next(x.w, e))));
  }

  lemma UnsentRecv(s: State, pid: Pid, ref: Ref, len: nat)
    requires s.b.opts.active == ActiveFalse
    requires Recv(s, pid, ref, len).b.hist.calls.answers == s.b.hist.calls.answers
    ensures Recv(s, pid, ref, len).b.portq == s.b.portq && Recv(s, pid, ref, len).b.opts.packet == s.b.opts.packet
  {
    hide EmitReadBuffer;
    EmitAnswers(s.b, len, Proc(pid), Some(ref));
    EmitUnsent(s.b, len, CallReceiver(Proc(pid), Some(ref)));
  }

  lemma OverlookNobody(x: Session, e: Event)
    requires !AwaitsRecv(x) && !e.EvRecv?
    ensures !Overlooked(NextSession(x, Port(e))) && !Overlooks(x, e)
  {
    hide NextSession, Servable, Undelivered;
    if AwaitsRecv(NextSession(x, Port(e))) {
      AwaitsRecvBefore(x, e);
    }
  }

  lemma OverlookOther(x: Session, e: Event)
    requires !Overlooked(x) && AwaitsRecv(x) && !e.EvRecv? && !e.EvRead? && !e.EvSetOpts?
    ensures !Overlooked(NextSession(x, Port(e)))
  {
    hide Servable, Undelivered, Next;
    RestUndelivered(x.w, e);
    var y := NextSession(x, Port(e));
    assert y.w == Next(x.w, e);
    if AwaitsRecv(y) {
      SameLength(x, e);
    }
  }

  lemma ReadOfNothing(x: Session)
    requires !Overlooked(x) && AwaitsRecv(x)
    ensures !Overlooked(NextSession(x, Port(EvRead([]))))
  {
    hide Servable, Undelivered;
    assert Next(x.w, EvRead([])) == x.w;
    UnansweredStep(x, EvRead([]));
  }

  /** A waiting recv comes to be overlooked exactly by those steps. */
  lemma OverlookStep(x: Session, ev: SessionEvent)
    requires SessionInv(x) && LengthHeld(x) && SessionAllowed(x, ev) && !Overlooked(x)
    ensures Overlooked(NextSession(x, ev)) <==> ev.Port? && Overlooks(x, ev.e)
  {
    hide SessionInv, LengthHeld, Overlooked, SessionAllowed, Overlooks;
    match ev
    case Return => ReturnOverlooks(x);
    case Port(e) =>
      NotOverlooks(x, e);
      if e.EvRecv? {
        OverlookCall(x, e.pid, e.ref, e.len);
      } else if !AwaitsRecv(x) {
        OverlookNobody(x, e);
      } else if e.EvRead? {
        if e.bytes == [] {
          ReadOfNothing(x);
        } else if x.w.s.b.opts.active == ActiveFalse {
          OverlookPassive(x, e.bytes);
        } else {
          OverlookActive(x, e.bytes);
        }
      } else if e.EvSetOpts? {
        OverlookSetOpts(x, e.bin);
      } else {
        OverlookOther(x, e);
      }
  }

  lemma NotOverlooks(x: Session, e: Event)
    ensures !e.EvRead? || (e.EvRead? && (e.bytes == [] || x.w.s.b.opts.active == ActiveFalse)) ==> !Overlooks(x, e)
  {
  }

  lemma ReturnOverlooks(x: Session)
    ensures !Overlooked(NextSession(x, Return))
  {
  }

  /** At no point of a run does a recv wait for what is already there. */
  ghost predicate NeverOverlooked(x: Session, evs: seq<SessionEvent>)
    decreases |evs|
  {
    !Overlooked(x) && (evs == [] || NeverOverlooked(NextSession(x, evs[0]), evs[1..]))
  }

  predicate NeverOverlooks(x: Session, evs: seq<SessionEvent>)
    decreases |evs|
  {
    evs == [] || (!(evs[0].Port? && Overlooks(x, evs[0].e)) && NeverOverlooks(NextSession(x, evs[0]), evs[1..]))
  }

  lemma {:induction false} OverlookRun(x: Session, evs: seq<SessionEvent>)
    requires SessionInv(x) && LengthHeld(x) && AllowedSession(x, evs) && !Overlooked(x)
    ensures NeverOverlooked(x, evs) <==> NeverOverlooks(x, evs)
    decreases |evs|
  {
    hide SessionInv, LengthHeld, Overlooked, SessionAllowed, NextSession, Overlooks;
    if evs != [] {
      OverlookStep(x, evs[0]);
      SessionStep(x, evs[0]);
      LengthStep(x, evs[0]);
      if !Overlooked(NextSession(x, evs[0])) {
        OverlookRun(NextSession(x, evs[0]), evs[1..]);
      } else {
        assert !NeverOverlooked(NextSession(x, evs[0]), evs[1..]);
      }
    }
  }

  // ---------------------------------------------------------------- theorems

  lemma BeginLength(role: Role, opts: SockOpts)
    ensures LengthHeld(Begin(role, opts)) && !Overlooked(Begin(role, opts))
  {
  }

  /** In every run of one blocking call at a time, recv is answered in the very step in which what it deserves
      is there, while it calls or while it waits on a passive socket, and with exactly that: a recv of length n
      with the next n undelivered bytes, one of length 0 with all of them, with framing either with the next
      message. Nothing else answers it. */
  lemma RecvGetsWhatItAsks(role: Role, opts: SockOpts, evs: seq<SessionEvent>, x: Session, e: Event, m: seq<byte>)
    requires PlainOptions(opts) && AllowedSession(Begin(role, opts), evs) && x == RunSession(Begin(role, opts), evs)
    requires SessionAllowed(x, Port(e)) && x.w.s.b.opts.active == ActiveFalse
    ensures e.EvRecv? && Deserves(x.w.s.b.opts.packet, Undelivered(x.w), e.len, m) ==>
              Answers(Next(x.w, e)) == Answers(x.w) + [CallMsg(ToCaller(Proc(e.pid)), Some(e.ref), RecvOk(m))]
    ensures e.EvRecv? && !Servable(x.w.s.b.opts.packet, Undelivered(x.w), e.len) ==>
              Answers(Next(x.w, e)) == Answers(x.w)
    ensures AwaitsRecv(x) && e.EvRead? && e.bytes != []
            && Deserves(x.w.s.b.opts.packet, Undelivered(x.w) + e.bytes, Last(x).len, m) ==>
              Answers(Next(x.w, e)) == Answers(x.w) + [CallMsg(Last(x).dest, Last(x).ref, RecvOk(m))]
    ensures AwaitsRecv(x) && e.EvRead? && !Servable(x.w.s.b.opts.packet, Undelivered(x.w) + e.bytes, Last(x).len) ==>
              Answers(Next(x.w, e)) == Answers(x.w)
    ensures AwaitsRecv(x) && !e.EvRead? ==> Answers(Next(x.w, e)) == Answers(x.w)
  {
    hide RunSession, AllowedSession, Begin, SessionInv, LengthHeld, Deserves, Undelivered, AwaitsRecv,
         SessionAllowed, Next;
    BeginInv(role, opts);
    BeginLength(role, opts);
    LengthRun(Begin(role, opts), evs);
    if e.EvRecv? {
      CallAnswers(x, e.pid, e.ref, e.len, m);
    }
    if AwaitsRecv(x) {
      if e.EvRead? {
        ReadAnswers(x, e.bytes, m);
      } else {
        OnlyBytesServe(x, e);
      }
    }
  }

  /** No waiting recv is overlooked: at no point of a run does one wait while what it deserves is there, exactly
      if no step overlooks it, a read on a framed socket that was made active since. */
  lemma RecvInTime(role: Role, opts: SockOpts, evs: seq<SessionEvent>)
    requires PlainOptions(opts) && AllowedSession(Begin(role, opts), evs)
    ensures NeverOverlooked(Begin(role, opts), evs) <==> NeverOverlooks(Begin(role, opts), evs)
  {
    hide Begin, SessionInv, LengthHeld, Overlooked;
    BeginInv(role, opts);
    BeginLength(role, opts);
    OverlookRun(Begin(role, opts), evs);
  }

  lemma {:induction false} RawOverlookRun(x: Session, evs: seq<SessionEvent>)
    requires SessionInv(x) && LengthHeld(x) && AllowedSession(x, evs) && !Overlooked(x) && x.w.s.b.opts.packet == 0
    ensures !Overlooked(RunSession(x, evs)) && RunSession(x, evs).w.s.b.opts.packet == 0
    decreases |evs|
  {
    hide SessionInv, LengthHeld, Overlooked, NextSession, Next, Allowed;
    if evs != [] {
      OverlookStep(x, evs[0]);
      SessionStep(x, evs[0]);
      LengthStep(x, evs[0]);
      RawSession(x, evs[0]);
      RawOverlookRun(NextSession(x, evs[0]), evs[1..]);
    }
  }

  lemma RawSession(x: Session, ev: SessionEvent)
    requires SessionAllowed(x, ev) && x.w.s.b.opts.packet == 0
    ensures NextSession(x, ev).w.s.b.opts.packet == 0 && !(ev.Port? && Overlooks(x, ev.e))
  {
    if ev.Port? {
      PacketKept(x.w, ev.e);
    }
  }

  /** Without framing a recv waits exactly for as long as fewer bytes are undelivered than it asked for, and one
      of length 0 as long as there are none. */
  lemma RawRecvInTime(role: Role, opts: SockOpts, evs: seq<SessionEvent>, x: Session)
    requires PlainOptions(opts) && AllowedSession(Begin(role, opts), evs) && x == RunSession(Begin(role, opts), evs)
    requires opts.packet == 0 && AwaitsRecv(x)
    ensures |Undelivered(x.w)| < (if Last(x).len == 0 then 1 else Last(x).len)
  {
    BeginInv(role, opts);
    BeginLength(role, opts);
    assert Begin(role, opts).w.s.b.opts.packet == 0;
    hide Begin, SessionInv, LengthHeld;
    RawOverlookRun(Begin(role, opts), evs);
    ServableRaw(Undelivered(x.w), Last(x).len);
  }

  /** The next message, if with the next n bytes its whole frame will have arrived, and len bytes in all. */
  function NextArrived(net: Net, n: nat, len: nat): Option<seq<byte>>
    requires n <= |InFlight(net)|
  {
    var p, rd := net.a.s.b.opts.packet, net.b.s.b.hist.rd;
    var received := Flatten(rd.chunks) + InFlight(net)[..n];
    var done := |rd.deliveries|;
    if && done < |Sent(net)| && Frames(p, Sent(net)[..done + 1]) <= received
       && len <= |received| - |Frames(p, Payloads(rd.deliveries))|
    then Some(Sent(net)[done]) else None
  }

  lemma ArrivedServes(net: Net, n: nat, len: nat)
    requires NetInv(net) && NetAllowed(net, Transmit(n)) && n <= |InFlight(net)|
    ensures var b := net.b.s.b;
            var q := b.portq + InFlight(net)[..n];
            && NoEmptyFrame(b.opts.packet, q)
            && (Servable(b.opts.packet, q, len) <==> NextArrived(net, n, len).Some?)
            && (NextArrived(net, n, len).Some? ==> Deserves(b.opts.packet, q, len, NextArrived(net, n, len).value))
  {
    ArrivalAligned(net, n);
    hide NetInv, NetAllowed, InFlight, Frames, NoEmptyFrame, Payloads, Sent, Deserves, AllFrameable, Flatten;
    var b := net.b.s.b;
    MessageArrives(b.opts.packet, Payloads(b.hist.rd.deliveries), Sent(net), b.portq + InFlight(net)[..n], len);
  }

  /** Between two ends, a recv that waits is answered by the arrival of bytes exactly if they complete the next
      message's frame (and are as many as asked for), and with that message. */
  lemma WaitingRecvGetsMessage(net: Net, n: nat)
    requires NetReachable(net) && NetAllowed(net, Transmit(n)) && 0 < n <= |InFlight(net)|
    requires net.b.s.c.receiverWaiting && net.b.s.b.opts.active == ActiveFalse
    ensures var s := net.b.s;
            var m := NextArrived(net, n, s.c.recvLen);
            Answers(NextNet(net, Transmit(n)).b) == Answers(net.b)
              + (if m.Some? then [CallMsg(ToCaller(s.c.caller), s.c.callerRef, RecvOk(m.value))] else [])
  {
    hide NetReachable, NetAllowed;
    NetReachableInv(net);
    ArrivedServes(net, n, net.b.s.c.recvLen);
    hide NetInv, InFlight, NoEmptyFrame, OnRead, Next, Deserves, NextArrived;
    var m := NextArrived(net, n, net.b.s.c.recvLen);
    ReadMeans(net.b, InFlight(net)[..n]);
    PassiveRead(net.b.s, InFlight(net)[..n], if m.Some? then m.value else []);
  }

  lemma ReadMeans(w: World, bytes: seq<byte>)
    ensures Next(w, EvRead(bytes)).s == OnRead(w.s, bytes)
  {
  }

  lemma MessageArrives(p: nat, done: seq<seq<byte>>, sent: seq<seq<byte>>, q: seq<byte>, len: nat)
    requires p != 0 && done <= sent && AllFrameable(p, sent[|done|..])
    requires q <= Frames(p, sent[|done|..]) && NoEmptyFrame(p, q)
    ensures var complete := && |done| < |sent| && Frames(p, sent[..|done| + 1]) <= Frames(p, done) + q && len <= |q|;
            && (Servable(p, q, len) <==> complete)
            && (complete ==> Deserves(p, q, len, sent[|done|]))
  {
    hide Frames, Frame, FrameLength, NoEmptyFrame, Pow256;
    var rest := sent[|done|..];
    StreamEnough(p, rest, q);
    ServableFramed(p, q, len);
    if rest != [] {
      assert sent[..|done| + 1] == done + [rest[0]];
      FramesSnoc(p, done, rest[0]);
      PrefixCancel(Frames(p, done), Frame(p, rest[0]), q);
    }
  }

  /** The stream at the receiving end, with the next n bytes. */
  lemma ArrivalAligned(net: Net, n: nat)
    requires NetInv(net) && NetAllowed(net, Transmit(n)) && n <= |InFlight(net)|
    ensures var p, b := net.a.s.b.opts.packet, net.b.s.b;
            var done := Payloads(b.hist.rd.deliveries);
            var q := b.portq + InFlight(net)[..n];
            && p == b.opts.packet != 0 && done <= Sent(net) && |done| == |b.hist.rd.deliveries|
            && AllFrameable(p, Sent(net)[|done|..]) && q <= Frames(p, Sent(net)[|done|..]) && NoEmptyFrame(p, q)
            && Flatten(b.hist.rd.chunks) + InFlight(net)[..n] == Frames(p, done) + q
  {
    hide Reachable, Frames, Frame, NoEmptyFrame, FrameLength, Frameable, Pow256, Flatten, Payloads;
    var p := net.a.s.b.opts.packet;
    var done := Payloads(net.b.s.b.hist.rd.deliveries);
    GracefulClose(net.a);
    EmptyMessagesVanish(p, net.a.s.b.hist.link.accepted);
    Aligned(net);
    FramedAccounting(net.b);
    InFlightReadable(net, n);
    var q := net.b.s.b.portq + InFlight(net)[..n];
    var received := Flatten(net.b.s.b.hist.rd.chunks);
    assert Frames(p, done) + q == received + InFlight(net)[..n];
    assert Frames(p, done) + q <= Frames(p, Sent(net));
    PrefixCode(p, done, Sent(net), q);
  }
}
