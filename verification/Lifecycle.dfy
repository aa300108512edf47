/** Whole runs of a port handler against libutp and the Erlang VM: which events the environment may
    deliver when, and what holds in every reachable state. */
module Lifecycle {
  import opened Bytes
  import opened Options
  import opened Driver

  /** What has happened to the port and the handle so far. */
  datatype Env = Env(stopped: bool, stopFoundEmpty: bool, destroyed: bool, sawEof: bool)

  datatype World = World(s: State, env: Env)

  function Start(role: Role, opts: SockOpts): World {
    World(Initial(role, opts), Env(false, false, false, false))
  }

  function Next(w: World, e: Event): World {
    World(Step(w.s, e),
          match e
          case EvStop => w.env.(stopped := true, stopFoundEmpty := w.s.c.wq == [])
          case EvDestroying => w.env.(destroyed := true)
          case EvEof => w.env.(sawEof := true)
          case _ => w.env)
  }

  predicate IsCommand(e: Event) {
    || e.EvOutputv? || e.EvRecv? || e.EvCancelSend? || e.EvCancelRecv?
    || e.EvClose? || e.EvSetOpts? || e.EvValidate? || e.EvStop?
  }

  /** Every frame whose length prefix is in the queue has a non-zero length. */
  predicate NoEmptyFrame(packet: nat, q: seq<byte>)
    decreases |q|
  {
    packet == 0 || |q| < packet ||
    (var n := FrameLength(packet, q);
     n != 0 && (packet + n <= |q| ==> NoEmptyFrame(packet, q[packet + n..])))
  }

  /** UTP_Write as this call makes it respects libutp's side of the contract. */
  predicate UptakeAllowed(s: State, e: Event) {
    match e
    case EvOutputv(_, data, up) =>
      s.c.status == Connected && s.c.utp && s.c.writable ==> Fits(up, |Frame(s.b.opts.packet, data)|)
    case EvWritable(up) => s.c.wq != [] ==> Fits(up, |s.c.wq|)
    case _ => true
  }

  /** What the environment may do next. Commands stop with the port; a callback concerns a handle that
      was acquired and not yet destroyed; DESTROYING follows UTP_Close. Options arrive as the encoder
      writes them. The packet size stays as it was and no peer sends an empty frame. */
  predicate Allowed(w: World, e: Event) {
    var s := w.s;
    var link := s.b.hist.link;
    && (IsCommand(e) ==> !w.env.stopped)
    && (!IsCommand(e) && !e.EvIncoming? ==> link.acquired > 0 && !w.env.destroyed)
    && UptakeAllowed(s, e)
    && (e.EvValidate? ==> s.c.role == Client)
    && (e.EvSetOpts? ==> Parse(e.bin).Some? && KeepsFraming(s.b.opts, e.bin))
    && (e.EvRead? ==> !w.env.stopped && NoEmptyFrame(s.b.opts.packet, s.b.portq + e.bytes))
    && (e.EvConnect? ==> s.c.role == Client && s.c.status == ConnectPending)
    && (e.EvDestroying? ==> link.closes != [])
    && (e.EvIncoming? ==> s.c.role == Server && link.acquired == 0 && s.c.status == NotConnected)
  }

  function Run(w: World, es: seq<Event>): World
    decreases |es|
  {
    if es == [] then w else Run(Next(w, es[0]), es[1..])
  }

  predicate AllowedRun(w: World, es: seq<Event>)
    decreases |es|
  {
    es == [] || (Allowed(w, es[0]) && AllowedRun(Next(w, es[0]), es[1..]))
  }

  /** The reachable states of a handler. */
  ghost predicate Reachable(w: World) {
    exists role, opts, es :: PlainOptions(opts) && AllowedRun(Start(role, opts), es) && w == Run(Start(role, opts), es)
  }

  // ---------------------------------------------------------------- frames

  /** The bytes of a list of payloads. */
  function Frames(packet: nat, payloads: seq<seq<byte>>): seq<byte> {
    if payloads == [] then [] else Frame(packet, payloads[0]) + Frames(packet, payloads[1..])
  }

  lemma {:induction false} FramesAppend(packet: nat, a: seq<seq<byte>>, b: seq<seq<byte>>)
    ensures Frames(packet, a + b) == Frames(packet, a) + Frames(packet, b)
  {
    if a == [] {
      assert a + b == b;
    } else {
      assert (a + b)[1..] == a[1..] + b;
      FramesAppend(packet, a[1..], b);
    }
  }

  lemma FramesSnoc(packet: nat, a: seq<seq<byte>>, x: seq<byte>)
    ensures Frames(packet, a + [x]) == Frames(packet, a) + Frame(packet, x)
  {
    FramesAppend(packet, a, [x]);
    assert Frames(packet, [x]) == Frame(packet, x) + Frames(packet, []);
  }

  // ---------------------------------------------------------------- the invariant

  predicate Unconnected(st: Status) {
    st == NotConnected || st == ConnectPending || st == ConnectFailed
  }

  predicate Finished(st: Status) {
    st == Closing || st == Stopped || st == Destroying
  }

  /** The write side: a writable connection has nothing queued, nor has one without a handle, and a
      waiting sender means the connection is not writable. */
  predicate WriteSide(s: State) {
    var c := s.c;
    && (c.writable ==> c.wq == [])
    && (!c.utp ==> c.wq == [])
    && (c.senderWaiting ==> !c.writable)
    && (Unconnected(c.status) ==> c.wq == [] && !c.senderWaiting)
  }

  /** Every call of UTP_Write had a handle and offered everything queued. */
  predicate GoodOffers(link: Link) {
    forall i :: 0 <= i < |link.offers| ==> link.offers[i].open && link.offers[i].count == link.offers[i].queued
  }

  /** The handle: acquired at most once, closed at most once and only with an empty queue. */
  predicate HandleSide(w: World) {
    var c, link := w.s.c, w.s.b.hist.link;
    && link.acquired <= 1 && |link.closes| <= link.acquired
    && (c.utp <==> link.acquired == |link.closes| + 1)
    && (forall i :: 0 <= i < |link.closes| ==> link.closes[i] == 0)
    && (c.status == Connected || c.status == ConnectPending ==> c.utp)
    && (link.closes != [] ==> Finished(c.status))
    && (c.role == Client ==> link.acquired == 1)
    && (c.senderWaiting ==> link.acquired > 0)
    && (w.env.sawEof ==> Finished(c.status))
  }

  /** Stopping and destroying. */
  predicate FreeSide(w: World) {
    var c, env, link := w.s.c, w.env, w.s.b.hist.link;
    && (env.destroyed ==> link.closes != [] && !w.s.b.selected)
    && (env.destroyed && link.freed == 0 ==> !c.eofSeen)
    && (c.status == Destroying ==> env.destroyed)
    && (env.destroyed && link.freed == 0 ==> c.status == Destroying)
    && (c.status == Stopped ==> env.stopped)
    && (env.stopped && link.freed == 0 && !env.destroyed && env.stopFoundEmpty ==> c.status == Stopped && !c.utp)
    && (env.stopped && link.freed == 0 && !env.destroyed && !env.stopFoundEmpty ==>
          if link.closes == [] then c.status == Stopped else c.status == Closing)
    && (env.stopped && env.destroyed ==> (link.freed == 1 <==> env.stopFoundEmpty))
    && link.freed <= 1
    && (link.freed == 1 ==> env.stopped && env.destroyed && !w.s.b.selected)
  }

  /** The bytes: accepted ones were handed over, are queued, or were dropped by an EOF, in this order. */
  predicate ByteSide(w: World) {
    var c, link := w.s.c, w.s.b.hist.link;
    && Frames(w.s.b.opts.packet, link.accepted) == link.handed + c.wq + link.dropped
    && (!w.env.sawEof ==> link.dropped == [])
    && (w.env.sawEof ==> c.wq == [])
  }

  /** Closes answered "wait" are accounted for. */
  predicate CloseSide(w: World) {
    var calls := w.s.b.hist.calls;
    && calls.closeWaits == calls.closeOks + calls.closeReports + (if w.s.b.closePending then 1 else 0)
    && (w.s.b.closePending ==> Finished(w.s.c.status))
  }

  predicate Inv(w: World) {
    && PlainOptions(w.s.b.opts)
    && WriteSide(w.s) && GoodOffers(w.s.b.hist.link)
    && HandleSide(w) && FreeSide(w) && ByteSide(w) && CloseSide(w)
  }

  // ---------------------------------------------------------------- what the read side leaves alone

  /** Two socket states that differ only in the read side and what was delivered. */
  predicate SameLink(a: Base, b: Base) {
    && a.hist.link == b.hist.link && a.selected == b.selected
    && a.opts.packet == b.opts.packet && a.opts.header == b.opts.header
    && a.hist.calls.closeWaits == b.hist.calls.closeWaits
    && a.hist.calls.closeOks == b.hist.calls.closeOks
    && a.hist.calls.outcomes == b.hist.calls.outcomes
  }

  lemma {:induction false} DeliverAllFrame(b: Base, r: Receiver, parts: seq<seq<byte>>)
    ensures var d := DeliverAll(b, r, parts);
            && SameLink(b, d) && d.opts == b.opts && d.closePending == b.closePending
            && d.portq == b.portq && d.readCount == b.readCount
            && d.hist.calls.closeReports == b.hist.calls.closeReports
            && d.hist.rd.chunks == b.hist.rd.chunks && d.hist.rd.lastSet == b.hist.rd.lastSet
    decreases |parts|
  {
    if parts != [] {
      DeliverAllFrame(Deliver(b, r, parts[0]), r, parts[1..]);
    }
  }

  lemma EmitFrame(b: Base, len: nat, r: Receiver)
    ensures var e := EmitReadBuffer(b, len, r);
            && SameLink(b, e.b)
            && e.b.closePending == (b.closePending && !CloseToReport(b))
            && e.b.hist.calls.closeReports == b.hist.calls.closeReports + (if CloseToReport(b) then 1 else 0)
            && e.b.hist.rd.chunks == b.hist.rd.chunks && e.b.hist.rd.lastSet == b.hist.rd.lastSet
  {
    if !CloseToReport(b) && Enough(b, len) {
      var t := Take(b, len);
      hide Take;
      DeliverAllFrame(b.(portq := t.portq, readCount := t.readCount), r, t.parts);
    }
  }

  /** The close accounting of a step that only reads. */
  predicate ReadStep(a: Base, b: Base) {
    && SameLink(a, b)
    && (b.closePending ==> a.closePending)
    && a.hist.calls.closeReports + (if a.closePending then 1 else 0)
       == b.hist.calls.closeReports + (if b.closePending then 1 else 0)
  }

  lemma SetOptsFrame(b: Base, bin: seq<byte>)
    requires KeepsFraming(b.opts, bin)
    ensures ReadStep(b, SetOptsBase(b, bin))
  {
    hide EmitReadBuffer, Merge;
    if Merge(b.opts, bin).Some? {
      var opts := Merge(b.opts, bin).value;
      EmitFrame(Emit(b.(opts := opts), OptionsSet(opts.active)), 0, ConnectedReceiver);
    }
  }

  /** A connection that differs only in who receives. */
  predicate SameButReceiver(a: Conn, b: Conn) {
    b == a.(callerRef := b.callerRef, caller := b.caller, recvLen := b.recvLen, receiverWaiting := b.receiverWaiting)
  }

  lemma EmitReadStep(b: Base, len: nat, r: Receiver)
    ensures ReadStep(b, EmitReadBuffer(b, len, r).b)
  {
    hide EmitReadBuffer;
    EmitFrame(b, len, r);
  }

  lemma RecvFrame(s: State, pid: Pid, ref: Ref, len: nat)
    ensures var t := Recv(s, pid, ref, len); ReadStep(s.b, t.b) && SameButReceiver(s.c, t.c)
  {
    hide EmitReadBuffer;
    EmitReadStep(s.b, len, CallReceiver(Proc(pid), Some(ref)));
  }

  lemma ReadFrame(s: State, bytes: seq<byte>)
    ensures var t := OnRead(s, bytes); ReadStep(s.b, t.b) && SameButReceiver(s.c, t.c)
  {
    hide EmitReadBuffer;
    var b1 := Emit(s.b.(portq := s.b.portq + bytes, readCount := s.b.readCount + [|bytes|]), Arrived(bytes));
    EmitReadStep(b1, s.c.recvLen, CallReceiver(s.c.caller, s.c.callerRef));
    EmitReadStep(b1, 0, ConnectedReceiver);
  }

  // ---------------------------------------------------------------- preservation, event by event

  lemma Regroup(handed: seq<byte>, queued: seq<byte>, n: nat, rest: seq<byte>)
    requires n <= |queued|
    ensures (handed + queued[..n]) + queued[n..] + rest == handed + queued + rest
  {
    assert queued == queued[..n] + queued[n..];
  }

  /** The write side of the state after a UTP_Write of everything queued. */
  lemma UtpWriteShape(s: State, up: Uptake)
    requires Fits(up, |s.c.wq|)
    ensures var t := UtpWrite(s, |s.c.wq|, up);
            && t.c == s.c.(wq := s.c.wq[Sum(up.pieces)..], writable := up.ok)
            && t.b == s.b.(hist := s.b.hist.(link := s.b.hist.link.(
                        offers := s.b.hist.link.offers + [Offer(s.c.utp, |s.c.wq|, |s.c.wq|)],
                        handed := s.b.hist.link.handed + s.c.wq[..Sum(up.pieces)])))
            && (up.ok ==> t.c.wq == [])
  {
  }

  lemma OutputvInv(w: World, pid: Pid, data: seq<byte>, up: Uptake)
    requires Inv(w)
    requires w.s.c.status == Connected && w.s.c.utp && w.s.c.writable ==> Fits(up, |Frame(w.s.b.opts.packet, data)|)
    ensures Inv(w.(s := Outputv(w.s, pid, data, up)))
  {
    hide Frame, Frames, UtpWrite;
    var s := w.s;
    if s.c.status == Connected && s.c.utp && s.c.writable {
      var frame := Frame(s.b.opts.packet, data);
      assert s.c.wq + frame == frame;
      FramesSnoc(s.b.opts.packet, s.b.hist.link.accepted, data);
      var s1 := Says(s.(c := s.c.(wq := frame)), Accepted(data));
      UtpWriteShape(s1, up);
      Regroup(s.b.hist.link.handed, frame, Sum(up.pieces), []);
      assert s.b.hist.link.handed + [] + [] == s.b.hist.link.handed;
    }
  }

  lemma RecvInv(w: World, pid: Pid, ref: Ref, len: nat)
    requires Inv(w)
    ensures Inv(w.(s := Recv(w.s, pid, ref, len)))
  {
    hide Recv, Frames;
    RecvFrame(w.s, pid, ref, len);
  }

  lemma ReadInv(w: World, bytes: seq<byte>)
    requires Inv(w)
    ensures Inv(w.(s := OnRead(w.s, bytes)))
  {
    hide OnRead, Frames;
    ReadFrame(w.s, bytes);
  }

  lemma SetOptsInv(w: World, bin: seq<byte>)
    requires Inv(w)
    requires KeepsFraming(w.s.b.opts, bin)
    ensures Inv(w.(s := SetOpts(w.s, bin)))
  {
    hide SetOptsBase, Frames, Merge;
    SetOptsFrame(w.s.b, bin);
  }

  lemma CancelInv(w: World)
    requires Inv(w)
    ensures Inv(w.(s := CancelSend(w.s))) && Inv(w.(s := ResetWaitingRecv(w.s)))
  {
    hide Frames;
  }

  lemma ValidateBytes(w: World, ref: Ref)
    requires Inv(w)
    ensures var t := w.(s := ConnectValidate(w.s, ref));
            PlainOptions(t.s.b.opts) && ByteSide(t) && CloseSide(t) && GoodOffers(t.s.b.hist.link)
  {
    hide Frames;
  }

  lemma ValidateHandle(w: World, ref: Ref)
    requires WriteSide(w.s) && HandleSide(w) && FreeSide(w)
    ensures var t := w.(s := ConnectValidate(w.s, ref)); WriteSide(t.s) && HandleSide(t) && FreeSide(t)
  {
  }

  lemma ValidateInv(w: World, ref: Ref)
    requires Inv(w)
    ensures Inv(w.(s := ConnectValidate(w.s, ref)))
  {
    hide ConnectValidate, PlainOptions, WriteSide, HandleSide, FreeSide, ByteSide, CloseSide, GoodOffers;
    ValidateBytes(w, ref);
    ValidateHandle(w, ref);
  }

  lemma CloseBytes(w: World, pid: Pid, ref: Ref)
    requires Inv(w)
    ensures var t := w.(s := Close(w.s, pid, ref));
            PlainOptions(t.s.b.opts) && ByteSide(t) && CloseSide(t) && GoodOffers(t.s.b.hist.link)
  {
    hide Frames;
  }

  lemma CloseWriting(w: World, pid: Pid, ref: Ref)
    requires WriteSide(w.s) && HandleSide(w)
    ensures var t := w.(s := Close(w.s, pid, ref)); WriteSide(t.s) && HandleSide(t)
  {
  }

  lemma CloseHandle(w: World, pid: Pid, ref: Ref)
    requires HandleSide(w) && FreeSide(w) && !w.env.stopped && w.s.b.hist.link.freed == 0
    ensures FreeSide(w.(s := Close(w.s, pid, ref)))
  {
  }

  lemma CloseInv(w: World, pid: Pid, ref: Ref)
    requires Inv(w) && !w.env.stopped && w.s.b.hist.link.freed == 0
    ensures Inv(w.(s := Close(w.s, pid, ref)))
  {
    hide Close, PlainOptions, WriteSide, HandleSide, FreeSide, ByteSide, CloseSide, GoodOffers;
    CloseBytes(w, pid, ref);
    CloseWriting(w, pid, ref);
    CloseHandle(w, pid, ref);
  }

  lemma StopInv(w: World)
    requires Inv(w) && !w.env.stopped && w.s.b.hist.link.freed == 0
    ensures Inv(World(Stop(w.s), w.env.(stopped := true, stopFoundEmpty := w.s.c.wq == [])))
  {
    hide Frames;
  }

  lemma CloseUtpInv(w: World)
    requires Inv(w)
    ensures Inv(w.(s := CloseUtp(w.s)))
  {
    hide Frames;
  }

  lemma ResumeInv(w: World, up: Uptake)
    requires Inv(w) && w.s.b.hist.link.freed == 0 && !w.env.destroyed && w.s.b.hist.link.acquired > 0
    requires w.s.c.wq != [] ==> Fits(up, |w.s.c.wq|)
    ensures Inv(w.(s := ResumeWriting(w.s, up)))
  {
    hide Frames, UtpWrite;
    var s := w.s;
    if s.c.wq != [] {
      UtpWriteShape(s.(c := s.c.(writable := true)), up);
      Regroup(s.b.hist.link.handed, s.c.wq, Sum(up.pieces), s.b.hist.link.dropped);
    }
  }

  lemma WritableInv(w: World, up: Uptake)
    requires Inv(w) && w.s.b.hist.link.freed == 0 && !w.env.destroyed && w.s.b.hist.link.acquired > 0
    requires w.s.c.wq != [] ==> Fits(up, |w.s.c.wq|)
    ensures Inv(w.(s := OnWritable(w.s, up)))
  {
    hide Inv, ResumeWriting, CloseUtp;
    ResumeInv(w, up);
    CloseUtpInv(w.(s := ResumeWriting(w.s, up)));
  }

  lemma EofBytes(w: World)
    requires Inv(w)
    ensures var t := World(OnEof(w.s), w.env.(sawEof := true));
            PlainOptions(t.s.b.opts) && ByteSide(t) && CloseSide(t) && GoodOffers(t.s.b.hist.link)
  {
    hide Frames;
    var handed, wq, dropped := w.s.b.hist.link.handed, w.s.c.wq, w.s.b.hist.link.dropped;
    assert wq == [] || dropped == [];
    assert handed + wq + dropped == handed + [] + (dropped + wq);
  }

  lemma EofHandle(w: World)
    requires WriteSide(w.s) && HandleSide(w) && FreeSide(w)
    requires w.s.b.hist.link.freed == 0 && !w.env.destroyed && w.s.b.hist.link.acquired > 0
    ensures var t := World(OnEof(w.s), w.env.(sawEof := true)); WriteSide(t.s) && HandleSide(t) && FreeSide(t)
  {
  }

  lemma EofInv(w: World)
    requires Inv(w) && w.s.b.hist.link.freed == 0 && !w.env.destroyed && w.s.b.hist.link.acquired > 0
    ensures Inv(World(OnEof(w.s), w.env.(sawEof := true)))
  {
    hide OnEof, PlainOptions, WriteSide, HandleSide, FreeSide, ByteSide, CloseSide, GoodOffers;
    EofBytes(w);
    EofHandle(w);
  }

  lemma ConnectInv(w: World)
    requires Inv(w) && w.s.c.status == ConnectPending
    ensures Inv(w.(s := OnConnect(w.s)))
  {
    hide Frames;
  }

  lemma DestroyingBytes(w: World)
    requires PlainOptions(w.s.b.opts) && ByteSide(w) && GoodOffers(w.s.b.hist.link)
    ensures var t := World(OnDestroying(w.s), w.env.(destroyed := true));
            PlainOptions(t.s.b.opts) && ByteSide(t) && GoodOffers(t.s.b.hist.link)
  {
    hide Frames, PlainOptions;
  }

  lemma DestroyingCloses(w: World)
    requires CloseSide(w)
    ensures CloseSide(World(OnDestroying(w.s), w.env.(destroyed := true)))
  {
  }

  lemma DestroyingHandle(w: World)
    requires WriteSide(w.s) && HandleSide(w) && FreeSide(w)
    requires w.s.b.hist.link.freed == 0 && !w.env.destroyed && w.s.b.hist.link.closes != []
    ensures var t := World(OnDestroying(w.s), w.env.(destroyed := true)); WriteSide(t.s) && HandleSide(t) && FreeSide(t)
  {
  }

  lemma DestroyingInv(w: World)
    requires Inv(w)
    requires w.s.b.hist.link.freed == 0 && !w.env.destroyed && w.s.b.hist.link.closes != []
    ensures Inv(World(OnDestroying(w.s), w.env.(destroyed := true)))
  {
    hide OnDestroying, PlainOptions, WriteSide, HandleSide, FreeSide, ByteSide, CloseSide, GoodOffers;
    DestroyingBytes(w);
    DestroyingCloses(w);
    DestroyingHandle(w);
  }

  lemma ErrorCodeInv(w: World, e: Errno)
    requires Inv(w)
    ensures Inv(w.(s := w.s.(c := w.s.c.(errorCode := e))))
  {
    hide Frames;
  }

  /** A failed connect attempt, and a message about an error. */
  lemma FailedInv(w: World, e: Errno)
    requires Inv(w)
    ensures Inv(w.(s := Says(w.s, ErrorMessage(e))))
    ensures w.s.c.status == ConnectPending ==>
              var s1 := w.s.(c := w.s.c.(status := ConnectFailed));
              Inv(w.(s := s1)) && Inv(w.(s := Says(s1, CallReply(ToConnected, w.s.c.callerRef, ConnectError(e)))))
  {
    hide Frames;
  }

  lemma ErrorInv(w: World, e: Errno)
    requires Inv(w)
    ensures Inv(w.(s := OnError(w.s, e)))
  {
    hide Inv, CloseUtp, Says;
    ErrorCodeInv(w, e);
    var w1 := w.(s := w.s.(c := w.s.c.(errorCode := e)));
    CloseUtpInv(w1);
    FailedInv(w1, e);
  }

  lemma IncomingInv(w: World)
    requires Inv(w) && w.s.b.hist.link.acquired == 0 && w.s.c.status == NotConnected
    ensures Inv(w.(s := OnIncoming(w.s)))
  {
    hide Frames;
  }

  /** A handler that has been freed was stopped, and its handle destroyed, so nothing can happen to it. */
  lemma FreedUntouched(w: World, e: Event)
    requires HandleSide(w) && FreeSide(w) && Allowed(w, e)
    ensures w.s.b.hist.link.freed == 0
  {
    hide NoEmptyFrame, UptakeAllowed, Merge, Parse;
  }

  lemma StepInv(w: World, e: Event)
    requires Inv(w) && Allowed(w, e)
    ensures Inv(Next(w, e))
  {
    FreedUntouched(w, e);
    hide Inv, Outputv, Recv, OnRead, SetOpts, CancelSend, ResetWaitingRecv, ConnectValidate, Close, Stop, OnWritable,
         OnEof, OnConnect, OnDestroying, OnError, OnIncoming, Merge, Fits, Frame, NoEmptyFrame;
    match e
    case EvOutputv(pid, data, up) => OutputvInv(w, pid, data, up);
    case EvRecv(pid, ref, len) => RecvInv(w, pid, ref, len);
    case EvCancelSend => CancelInv(w);
    case EvCancelRecv => CancelInv(w);
    case EvClose(pid, ref) => CloseInv(w, pid, ref);
    case EvSetOpts(bin) => SetOptsInv(w, bin);
    case EvValidate(ref) => ValidateInv(w, ref);
    case EvStop => StopInv(w);
    case EvRead(bytes) => ReadInv(w, bytes);
    case EvWritable(up) => WritableInv(w, up);
    case EvEof => EofInv(w);
    case EvConnect => ConnectInv(w);
    case EvDestroying => DestroyingInv(w);
    case EvError(err) => ErrorInv(w, err);
    case EvIncoming => IncomingInv(w);
  }

  lemma {:induction false} RunInv(w: World, es: seq<Event>)
    requires Inv(w) && AllowedRun(w, es)
    ensures Inv(Run(w, es))
    decreases |es|
  {
    if es != [] {
      StepInv(w, es[0]);
      RunInv(Next(w, es[0]), es[1..]);
    }
  }

  lemma StartInv(role: Role, opts: SockOpts)
    requires PlainOptions(opts)
    ensures Inv(Start(role, opts))
  {
  }

  lemma StartReachable(role: Role, opts: SockOpts)
    requires PlainOptions(opts)
    ensures Reachable(Start(role, opts))
  {
    var w := Start(role, opts);
    assert AllowedRun(w, []) && w == Run(w, []);
  }

  lemma ReachableInv(w: World)
    requires Reachable(w)
    ensures Inv(w)
  {
    var role, opts, es :| PlainOptions(opts) && AllowedRun(Start(role, opts), es) && w == Run(Start(role, opts), es);
    StartInv(role, opts);
    RunInv(Start(role, opts), es);
  }

  // ---------------------------------------------------------------- theorems

  /** In every reachable state a writable connection has nothing queued and no sender waiting, so a
      sender that waits will be woken by the next WRITABLE that drains the queue; and a connection
      without a handle has nothing queued. Every call of UTP_Write so far had a handle and offered
      everything that was queued. */
  lemma WriteSideOfReachable(w: World)
    requires Reachable(w)
    ensures w.s.c.writable ==> w.s.c.wq == [] && !w.s.c.senderWaiting
    ensures !w.s.c.utp ==> w.s.c.wq == []
    ensures forall o :: o in w.s.b.hist.link.offers ==> o.open && o.count == o.queued
  {
    ReachableInv(w);
  }

  /** Closing loses nothing. The frames of the accepted payloads are, in this order, what do_write
      handed over, what is queued, and what an EOF threw away; only an EOF throws anything away. UTP_Close
      has only ever been called with an empty queue, and once it has been, without an EOF every
      accepted byte has been handed over. */
  lemma GracefulClose(w: World)
    requires Reachable(w)
    ensures var link := w.s.b.hist.link;
            && Frames(w.s.b.opts.packet, link.accepted) == link.handed + w.s.c.wq + link.dropped
            && (link.dropped != [] ==> w.env.sawEof && w.s.c.wq == [])
            && (forall queued :: queued in link.closes ==> queued == 0)
            && (link.closes != [] && !w.env.sawEof ==> link.handed == Frames(w.s.b.opts.packet, link.accepted))
  {
    ReachableInv(w);
    var link := w.s.b.hist.link;
    if link.closes != [] && !w.env.sawEof {
      assert link.handed + [] + [] == link.handed;
    }
  }

  /** Sending nothing sends nothing: with any packet size an accepted empty payload leaves the queue and what
      was handed over as they were. */
  lemma EmptyPayloadSendsNothing(w: World, pid: Pid, up: Uptake)
    requires Reachable(w) && Allowed(w, EvOutputv(pid, [], up))
    ensures var t := Next(w, EvOutputv(pid, [], up)).s;
            && t.c.wq == w.s.c.wq && t.b.hist.link.handed == w.s.b.hist.link.handed
            && (w.s.c.status == Connected && w.s.c.utp && w.s.c.writable ==>
                  t.b.hist.link.accepted == w.s.b.hist.link.accepted + [[]])
  {
    ReachableInv(w);
    hide Reachable, Inv, NoEmptyFrame, Merge, Parse;
    assert w.s.b.hist.link.handed + [] == w.s.b.hist.link.handed;
  }

  /** The handle is there exactly while one more was acquired than closed, over close, stop, EOF,
      connection reset and the deferred close in WRITABLE alike; a client acquires its own. */
  lemma HandleDiscipline(w: World)
    requires Reachable(w)
    ensures var link := w.s.b.hist.link;
            && (w.s.c.utp <==> link.acquired == |link.closes| + 1)
            && |link.closes| <= link.acquired <= 1
            && (w.s.c.role == Client ==> link.acquired == 1)
  {
    ReachableInv(w);
  }

  /** No command or callback the environment may cause reaches a freed handler. */
  lemma NothingReachesFreed(w: World, e: Event)
    requires Reachable(w) && Allowed(w, e)
    ensures w.s.b.hist.link.freed == 0
  {
    ReachableInv(w);
    hide Reachable, Allowed;
    FreedUntouched(w, e);
  }

  /** A handler is freed at most once, after both stop and DESTROYING and deselected; and once both have
      happened it has been freed exactly when stop found the write queue empty. */
  lemma Reclamation(w: World)
    requires Reachable(w)
    ensures var link := w.s.b.hist.link;
            && link.freed <= 1
            && (link.freed == 1 ==> w.env.stopped && w.env.destroyed && !w.s.b.selected)
            && (w.env.stopped && w.env.destroyed ==> (link.freed == 1 <==> w.env.stopFoundEmpty))
  {
    ReachableInv(w);
  }

  /** Every close answered "wait" has had its {Ref, ok} reply, was taken back by a utp_closed message, or
      is still pending. */
  lemma CloseAccounting(w: World)
    requires Reachable(w)
    ensures var calls := w.s.b.hist.calls;
            calls.closeWaits == calls.closeOks + calls.closeReports + (if w.s.b.closePending then 1 else 0)
  {
    ReachableInv(w);
  }

  /** A close is pending and no obligation is outstanding that would complete it: no handle with bytes to
      drain, and no DESTROYING owed. An obligation alone does not promise an answer; that is Closers.dfy. */
  predicate Stuck(w: World) {
    var link := w.s.b.hist.link;
    && w.s.b.closePending && link.acquired > 0
    && !(w.s.c.utp && w.s.c.wq != [])
    && !(link.closes != [] && !w.env.destroyed)
  }

  /** The three steps that end the last obligation of a pending close without completing it: an EOF that
      clears the queue of a stopped port, whose handle it then leaves open; a DESTROYING that finds no caller
      to answer; and a DESTROYING on a stopped port, which frees the handler. */
  predicate Strands(w: World, e: Event) {
    && w.s.b.closePending
    && ((e.EvEof? && w.s.c.utp && w.s.c.status == Stopped)
        || (e.EvDestroying? && w.s.c.status == Closing && w.s.c.callerRef.None?)
        || (e.EvDestroying? && w.s.c.status == Stopped))
  }

  /** The steps that help a stranded close: a WRITABLE that finds the handle still open, and a recv or
      setopts that reports the close as a utp_closed message instead. */
  predicate Recovers(w: World, e: Event) {
    || (e.EvWritable? && w.s.c.utp)
    || (w.s.b.portq == []
        && ((e.EvRecv? && w.s.b.opts.active == ActiveFalse) || (e.EvSetOpts? && DeliversOnSet(w.s.b, e.bin))))
  }

  /** setopts accepts these options and delivers what is queued. */
  predicate DeliversOnSet(b: Base, bin: seq<byte>) {
    Merge(b.opts, bin).Some? && SendsOnSet(b.opts.active, Merge(b.opts, bin).value.active, b.readCount)
  }

  /** While the port is open, a pending close on an open handle has bytes to wait for. */
  predicate Draining(w: World) {
    w.s.b.closePending && w.s.c.utp && !w.env.stopped ==> w.s.c.wq != []
  }

  lemma DrainingReading(w: World, t: State)
    requires Draining(w) && ReadStep(w.s.b, t.b) && t.c.utp == w.s.c.utp && t.c.wq == w.s.c.wq
    ensures Draining(w.(s := t))
  {
  }

  lemma DrainingCloses(w: World, pid: Pid, ref: Ref, e: Errno)
    requires Draining(w) && CloseSide(w) && FreeSide(w)
    ensures Draining(w.(s := Close(w.s, pid, ref)))
    ensures !w.env.destroyed ==> Draining(World(OnEof(w.s), w.env.(sawEof := true)))
    ensures Draining(w.(s := OnError(w.s, e)))
  {
  }

  lemma DrainingOther(w: World, ref: Ref)
    requires Draining(w) && CloseSide(w)
    ensures Draining(w.(s := CancelSend(w.s))) && Draining(w.(s := ResetWaitingRecv(w.s)))
    ensures Draining(w.(s := ConnectValidate(w.s, ref)))
    ensures Draining(World(OnDestroying(w.s), w.env.(destroyed := true)))
    ensures w.s.c.status == ConnectPending ==> Draining(w.(s := OnConnect(w.s)))
    ensures w.s.c.status == NotConnected ==> Draining(w.(s := OnIncoming(w.s)))
  {
  }

  lemma DrainingWrites(w: World, pid: Pid, data: seq<byte>, up: Uptake)
    requires Draining(w) && CloseSide(w) && FreeSide(w)
    ensures Draining(w.(s := Outputv(w.s, pid, data, up)))
  {
    hide Frame;
  }

  lemma DrainingWritable(w: World, up: Uptake)
    requires FreeSide(w) && !w.env.destroyed
    ensures Draining(w.(s := OnWritable(w.s, up)))
  {
    var t := ResumeWriting(w.s, up);
    assert t.c.status == w.s.c.status;
    hide ResumeWriting;
  }

  lemma StepDraining(w: World, e: Event)
    requires Inv(w) && Allowed(w, e) && Draining(w)
    ensures Draining(Next(w, e))
  {
    hide Inv, Draining, Outputv, Recv, OnRead, SetOpts, CancelSend, ResetWaitingRecv, ConnectValidate, Close, Stop,
         OnWritable,
         OnEof, OnConnect, OnDestroying, OnError, OnIncoming, Merge, NoEmptyFrame, UptakeAllowed, Parse;
    InvParts(w);
    match e
    case EvOutputv(pid, data, up) => DrainingWrites(w, pid, data, up);
    case EvRecv(pid, ref, len) =>
      RecvFrame(w.s, pid, ref, len);
      DrainingReading(w, Recv(w.s, pid, ref, len));
    case EvRead(bytes) =>
      ReadFrame(w.s, bytes);
      DrainingReading(w, OnRead(w.s, bytes));
    case EvSetOpts(bin) =>
      SetOptsFrame(w.s.b, bin);
      SetOptsConn(w.s, bin);
      DrainingReading(w, SetOpts(w.s, bin));
    case EvStop => DrainingStopped(Next(w, e));
    case EvWritable(up) => DrainingWritable(w, up);
    case EvClose(pid, ref) => DrainingCloses(w, pid, ref, ConnReset);
    case EvEof => DrainingCloses(w, 0, 0, ConnReset);
    case EvError(err) => DrainingCloses(w, 0, 0, err);
    case EvCancelSend => DrainingOther(w, 0);
    case EvCancelRecv => DrainingOther(w, 0);
    case EvValidate(ref) => DrainingOther(w, ref);
    case EvConnect => DrainingOther(w, 0);
    case EvDestroying => DrainingOther(w, 0);
    case EvIncoming => DrainingOther(w, 0);
  }

  lemma InvParts(w: World)
    requires Inv(w)
    ensures CloseSide(w) && FreeSide(w) && HandleSide(w) && WriteSide(w.s)
  {
  }

  lemma SetOptsConn(s: State, bin: seq<byte>)
    ensures SetOpts(s, bin) == s.(b := SetOptsBase(s.b, bin))
  {
  }

  lemma DrainingStopped(w: World)
    requires w.env.stopped
    ensures Draining(w)
  {
  }

  lemma {:induction false} RunDraining(w: World, es: seq<Event>)
    requires Inv(w) && Draining(w) && AllowedRun(w, es)
    ensures Draining(Run(w, es))
    decreases |es|
  {
    hide Inv, Draining, Next, Allowed;
    if es != [] {
      StepInv(w, es[0]);
      StepDraining(w, es[0]);
      RunDraining(Next(w, es[0]), es[1..]);
    }
  }

  /** A close that waits on an open port with an open handle waits for bytes that are still queued. */
  lemma OpenCloseDrains(w: World)
    requires Reachable(w)
    ensures w.s.b.closePending && w.s.c.utp && !w.env.stopped ==> w.s.c.wq != []
  {
    var role, opts, es :| PlainOptions(opts) && AllowedRun(Start(role, opts), es) && w == Run(Start(role, opts), es);
    StartInv(role, opts);
    RunDraining(Start(role, opts), es);
  }

  lemma StrandedByReading(w: World, t: State)
    requires !Stuck(w) && ReadStep(w.s.b, t.b) && t.c.utp == w.s.c.utp && t.c.wq == w.s.c.wq
    ensures !Stuck(w.(s := t))
  {
  }

  lemma StrandedByCommand(w: World, e: Event)
    requires Inv(w) && Allowed(w, e) && !Stuck(w)
    requires e.EvCancelSend? || e.EvCancelRecv? || e.EvValidate? || e.EvClose?
    ensures !Stuck(Next(w, e))
  {
    hide Frames, Outputv, Recv, SetOptsBase, OnRead, OnWritable, Stop, OnEof, OnDestroying, OnError, NoEmptyFrame,
         Merge;
  }

  lemma StrandedByStop(w: World)
    requires Inv(w) && !w.env.stopped && w.s.b.hist.link.freed == 0 && !Stuck(w)
    ensures !Stuck(Next(w, EvStop))
  {
    hide Frames;
    assert Next(w, EvStop).s == Stop(w.s);
  }

  lemma StrandedByWriting(w: World, pid: Pid, data: seq<byte>, up: Uptake)
    requires Inv(w) && !Stuck(w)
    ensures !Stuck(w.(s := Outputv(w.s, pid, data, up)))
  {
    hide Frames, Frame;
  }

  lemma StrandedByWritable(w: World, up: Uptake)
    requires Inv(w) && !Stuck(w) && (w.s.c.wq != [] ==> Fits(up, |w.s.c.wq|))
    ensures !Stuck(w.(s := OnWritable(w.s, up)))
  {
    hide Frames, UtpWrite;
    if w.s.c.wq != [] {
      UtpWriteShape(w.s.(c := w.s.c.(writable := true)), up);
    }
  }

  lemma StrandedByCallback(w: World, e: Event)
    requires Inv(w) && Allowed(w, e) && !Stuck(w)
    requires e.EvEof? || e.EvConnect? || e.EvDestroying? || e.EvError? || e.EvIncoming?
    ensures Stuck(Next(w, e)) <==> Strands(w, e)
  {
    hide Frames, Outputv, Recv, SetOptsBase, OnRead, OnWritable, Stop, Close, NoEmptyFrame, Merge;
  }

  /** A pending close on a connection that acquired a handle keeps an obligation outstanding, but for exactly
      three steps. */
  lemma NoStuckClose(w: World, e: Event)
    requires Reachable(w) && Allowed(w, e) && !Stuck(w)
    ensures Stuck(Next(w, e)) ==> Strands(w, e)
    ensures Strands(w, e) ==> Stuck(Next(w, e))
  {
    ReachableInv(w);
    hide Inv, Stuck, Outputv, Recv, OnRead, SetOptsBase, Close, Stop, OnWritable, OnEof, OnDestroying, OnError,
         ConnectValidate, OnConnect, OnIncoming, NoEmptyFrame, Merge;
    match e
    case EvOutputv(pid, data, up) => StrandedByWriting(w, pid, data, up);
    case EvWritable(up) => StrandedByWritable(w, up);
    case EvRecv(pid, ref, len) =>
      RecvFrame(w.s, pid, ref, len);
      StrandedByReading(w, Recv(w.s, pid, ref, len));
    case EvRead(bytes) =>
      ReadFrame(w.s, bytes);
      StrandedByReading(w, OnRead(w.s, bytes));
    case EvSetOpts(bin) =>
      SetOptsFrame(w.s.b, bin);
      StrandedByReading(w, SetOpts(w.s, bin));
    case EvStop => StrandedByStop(w);
    case EvCancelSend => StrandedByCommand(w, e);
    case EvCancelRecv => StrandedByCommand(w, e);
    case EvValidate(_) => StrandedByCommand(w, e);
    case EvClose(_, _) => StrandedByCommand(w, e);
    case _ => StrandedByCallback(w, e);
  }

  /** What a recv does to a pending close: it reports it if the queue is empty and the socket passive. */
  lemma RecvReports(s: State, pid: Pid, ref: Ref, len: nat)
    requires s.b.closePending
    ensures Recv(s, pid, ref, len).b.closePending <==> !(s.b.portq == [] && s.b.opts.active == ActiveFalse)
  {
    hide EmitReadBuffer;
    EmitFrame(s.b, len, CallReceiver(Proc(pid), Some(ref)));
  }

  lemma SetOptsReports(b: Base, bin: seq<byte>)
    requires b.closePending
    ensures SetOptsBase(b, bin).closePending <==> !(b.portq == [] && DeliversOnSet(b, bin))
  {
    hide EmitReadBuffer, Merge;
    if Merge(b.opts, bin).Some? {
      var opts := Merge(b.opts, bin).value;
      EmitFrame(Emit(b.(opts := opts), OptionsSet(opts.active)), 0, ConnectedReceiver);
    }
  }

  lemma ReadReportsNothing(s: State, bytes: seq<byte>)
    requires s.b.closePending
    ensures OnRead(s, bytes).b.closePending
  {
    hide EmitReadBuffer;
    var b1 := Emit(s.b.(portq := s.b.portq + bytes, readCount := s.b.readCount + [|bytes|]), Arrived(bytes));
    EmitFrame(b1, s.c.recvLen, CallReceiver(s.c.caller, s.c.callerRef));
    EmitFrame(b1, 0, ConnectedReceiver);
  }

  lemma StaysStuckReading(w: World, t: State)
    requires Stuck(w) && ReadStep(w.s.b, t.b) && t.c.utp == w.s.c.utp && t.c.wq == w.s.c.wq
    ensures Stuck(w.(s := t)) <==> t.b.closePending
  {
  }

  lemma StuckState(w: World)
    requires Inv(w) && Draining(w) && Stuck(w)
    ensures !w.env.destroyed ==> w.env.stopped && w.s.c.status == Stopped && w.s.c.utp && w.s.b.hist.link.closes == []
    ensures w.env.destroyed ==> !w.s.c.utp
  {
    hide Frames;
  }

  lemma StuckCommand(w: World, e: Event)
    requires Inv(w) && Draining(w) && Stuck(w) && Allowed(w, e)
    requires e.EvOutputv? || e.EvCancelSend? || e.EvCancelRecv? || e.EvValidate? || e.EvClose? || e.EvStop?
    ensures Stuck(Next(w, e))
  {
    hide Frames, Recv, SetOptsBase, OnRead, OnWritable, OnEof, OnDestroying, OnError, NoEmptyFrame, Merge, Parse,
         UptakeAllowed;
    StuckState(w);
  }

  lemma StuckCallback(w: World, e: Event)
    requires Inv(w) && Draining(w) && Stuck(w) && Allowed(w, e)
    requires e.EvEof? || e.EvConnect? || e.EvDestroying? || e.EvError? || e.EvIncoming? || e.EvWritable?
    ensures Stuck(Next(w, e)) <==> !e.EvWritable?
    ensures e.EvWritable? ==> w.s.c.utp
  {
    hide Frames, Recv, SetOptsBase, OnRead, Outputv, Stop, Close, NoEmptyFrame, Merge, Parse;
    StuckState(w);
  }

  /** What helps a stranded close, exactly: only a WRITABLE on a handle an EOF left open, and a report of
      the close by recv or setopts. */
  lemma StuckEnds(w: World, e: Event)
    requires Reachable(w) && Allowed(w, e) && Stuck(w)
    ensures !Stuck(Next(w, e)) ==> Recovers(w, e)
    ensures Recovers(w, e) ==> !Stuck(Next(w, e))
  {
    ReachableInv(w);
    OpenCloseDrains(w);
    assert Draining(w);
    hide Reachable, Inv, Draining, Outputv, Recv, OnRead, SetOptsBase, Close, Stop, OnWritable, OnEof, OnDestroying,
         OnError,
         ConnectValidate, OnConnect, OnIncoming, NoEmptyFrame, Merge, Parse, UptakeAllowed, DeliversOnSet;
    match e
    case EvRecv(pid, ref, len) =>
      RecvFrame(w.s, pid, ref, len);
      RecvReports(w.s, pid, ref, len);
      StaysStuckReading(w, Recv(w.s, pid, ref, len));
    case EvRead(bytes) =>
      ReadFrame(w.s, bytes);
      ReadReportsNothing(w.s, bytes);
      StaysStuckReading(w, OnRead(w.s, bytes));
    case EvSetOpts(bin) =>
      SetOptsFrame(w.s.b, bin);
      SetOptsReports(w.s.b, bin);
      StaysStuckReading(w, SetOpts(w.s, bin));
    case EvOutputv(_, _, _) => StuckCommand(w, e);
    case EvCancelSend => StuckCommand(w, e);
    case EvCancelRecv => StuckCommand(w, e);
    case EvValidate(_) => StuckCommand(w, e);
    case EvClose(_, _) => StuckCommand(w, e);
    case EvStop => StuckCommand(w, e);
    case _ => StuckCallback(w, e);
  }

  // ---------------------------------------------------------------- what the theorems do not promise

  lemma {:induction false} RunSnoc(w: World, es: seq<Event>, e: Event)
    requires AllowedRun(w, es) && Allowed(Run(w, es), e)
    ensures AllowedRun(w, es + [e]) && Run(w, es + [e]) == Next(Run(w, es), e)
    decreases |es|
  {
    if es == [] {
      assert (es + [e])[1..] == [];
    } else {
      assert (es + [e])[1..] == es[1..] + [e];
      RunSnoc(Next(w, es[0]), es[1..], e);
    }
  }

  lemma ReachableNext(w: World, e: Event)
    requires Reachable(w) && Allowed(w, e)
    ensures Reachable(Next(w, e))
  {
    var role, opts, es :| PlainOptions(opts) && AllowedRun(Start(role, opts), es) && w == Run(Start(role, opts), es);
    RunSnoc(Start(role, opts), es, e);
  }

  /** A live handler that owns an open handle and has not seen an EOF. */
  ghost predicate Live(w: World) {
    var link := w.s.b.hist.link;
    && Reachable(w) && w.s.c.utp && link.acquired == 1 && link.closes == [] && link.freed == 0 && !w.env.destroyed
  }

  lemma ConnectedClient() returns (w: World)
    ensures Live(w) && !w.env.stopped && w.s.c.status == Connected && w.s.c.writable && w.s.c.wq == []
    ensures !w.s.b.closePending && w.s.b.opts == DEFAULTS
    ensures w.s.b.hist.calls.answers == [] && w.s.b.hist.calls.closeWaits == 0
  {
    var w0 := Start(Client, DEFAULTS);
    assert AllowedRun(w0, []) && w0 == Run(w0, []);
    assert Reachable(w0);
    ReachableNext(w0, EvConnect);
    w := Next(w0, EvConnect);
  }

  lemma ClientWithQueuedByte() returns (w: World)
    ensures Live(w) && !w.env.stopped && w.s.c.status == Connected && |w.s.c.wq| == 1
    ensures !w.s.b.closePending
  {
    hide Reachable, OnRead, Recv, SetOptsBase, NoEmptyFrame, Merge, OnWritable, OnEof, OnError, OnConnect, OnIncoming,
         ConnectValidate;
    var w0 := ConnectedClient();
    var write := EvOutputv(1, [7], Uptake([], false));
    assert Frame(0, [7]) == [7];
    ReachableNext(w0, write);
    w := Next(w0, write);
    assert w.s == Outputv(w0.s, 1, [7], Uptake([], false));
  }

  lemma ClosingWithByte() returns (w: World)
    ensures Live(w) && !w.env.stopped && w.s.b.closePending
    ensures w.s.c.status == Closing && |w.s.c.wq| == 1 && w.s.c.callerRef.Some?
  {
    hide Reachable, OnRead, Recv, SetOptsBase, NoEmptyFrame, Merge, Outputv, OnWritable, OnEof, OnError, OnConnect,
         OnIncoming, ConnectValidate;
    var w0 := ClientWithQueuedByte();
    ReachableNext(w0, EvClose(1, 5));
    w := Next(w0, EvClose(1, 5));
    assert w.s == Close(w0.s, 1, 5);
  }

  /** A client with a byte queued that libutp has not taken, a close pending and the port stopped. */
  lemma StoppedWhileClosing() returns (w: World)
    ensures Live(w) && w.env.stopped && w.s.b.closePending
    ensures w.s.c.status == Stopped && |w.s.c.wq| == 1 && w.s.c.callerRef.Some?
  {
    hide Reachable, OnRead, Recv, SetOptsBase, NoEmptyFrame, Merge, Outputv, OnWritable, OnEof, OnError, OnConnect,
         OnIncoming, ConnectValidate;
    var w0 := ClosingWithByte();
    ReachableNext(w0, EvStop);
    w := Next(w0, EvStop);
    assert w.s == Stop(w0.s);
  }

  lemma DrainedAfterStop() returns (w: World)
    ensures Reachable(w) && w.env.stopped && !w.env.destroyed && w.s.c.status == Closing
    ensures w.s.b.hist.link.freed == 0 && w.s.b.hist.link.closes != [] && w.s.b.hist.link.acquired == 1
  {
    hide Reachable, OnRead, Recv, SetOptsBase, NoEmptyFrame, Merge, Outputv, OnEof, OnError, OnConnect, OnIncoming,
         ConnectValidate;
    var w0 := StoppedWhileClosing();
    var up := Uptake([1], true);
    assert Sum(up.pieces) == 1 + Sum([]);
    ReachableNext(w0, EvWritable(up));
    w := Next(w0, EvWritable(up));
    assert w.s == OnWritable(w0.s, up);
  }

  /** A port stopped with bytes still queued leaks its handler: WRITABLE drains the queue and closes the
      handle, but then DESTROYING no longer finds the status stopped. */
  lemma StopWithQueuedBytesLeaks()
    ensures exists w :: Reachable(w) && w.env.stopped && w.env.destroyed && w.s.b.hist.link.freed == 0
  {
    hide Reachable, OnRead, Recv, SetOptsBase, NoEmptyFrame, Merge, Outputv, OnWritable, OnEof, OnError, OnConnect,
         OnIncoming, ConnectValidate;
    var w := DrainedAfterStop();
    ReachableNext(w, EvDestroying);
    assert Next(w, EvDestroying).s == OnDestroying(w.s);
  }

  /** An EOF after stop strands a pending close: without a further WRITABLE nothing completes it. */
  lemma EofAfterStopStrands()
    ensures exists w :: Reachable(w) && Stuck(w) && !w.env.destroyed
  {
    hide Reachable;
    var w := StoppedWhileClosing();
    ReachableNext(w, EvEof);
    assert Stuck(Next(w, EvEof));
  }

  lemma ClosingClient() returns (w: World)
    ensures Reachable(w) && !w.env.stopped && !w.env.destroyed && w.s.b.closePending
    ensures w.s.c.status == Closing && !w.s.c.utp && w.s.b.hist.calls.answers == [] && w.s.b.hist.calls.closeWaits == 1
    ensures w.s.b.hist.link.freed == 0 && w.s.b.hist.link.closes != [] && w.s.b.hist.link.acquired == 1
  {
    hide Reachable, OnRead, Recv, SetOptsBase, NoEmptyFrame, Merge, Outputv, OnWritable, OnEof, OnError, OnConnect,
         OnIncoming, ConnectValidate;
    var w0 := ConnectedClient();
    ReachableNext(w0, EvClose(1, 5));
    w := Next(w0, EvClose(1, 5));
    assert w.s == Close(w0.s, 1, 5);
  }

  lemma StoppedClosedClient() returns (w: World)
    ensures Reachable(w) && w.env.stopped && !w.env.destroyed && w.s.b.closePending
    ensures w.s.c.status == Stopped && !w.s.c.utp && w.s.b.hist.link.closes != [] && w.s.b.hist.link.acquired == 1
    ensures w.s.b.hist.link.freed == 0 && w.s.b.hist.calls.answers == [] && w.s.b.hist.calls.closeWaits == 1
  {
    hide Reachable, OnRead, Recv, SetOptsBase, NoEmptyFrame, Merge, Outputv, OnWritable, OnEof, OnError, OnConnect,
         OnIncoming, ConnectValidate;
    var w0 := ClosingClient();
    ReachableNext(w0, EvStop);
    w := Next(w0, EvStop);
    assert w.s == Stop(w0.s);
  }

  /** A port that is stopped while its close waits for DESTROYING is freed by it, and the closer is told
      nothing. */
  lemma StopDuringCloseUnanswered()
    ensures exists w :: Reachable(w) && Stuck(w) && w.s.b.hist.link.freed == 1
                        && w.s.b.hist.calls.closeWaits == 1 && w.s.b.hist.calls.answers == []
  {
    hide Reachable, OnRead, Recv, SetOptsBase, NoEmptyFrame, Merge, Outputv, OnWritable, OnEof, OnError, OnConnect,
         OnIncoming, ConnectValidate;
    var w := StoppedClosedClient();
    ReachableNext(w, EvDestroying);
    assert Next(w, EvDestroying).s == OnDestroying(w.s);
    assert Stuck(Next(w, EvDestroying));
  }

  lemma ClosingWithoutReference() returns (w: World)
    ensures Reachable(w) && !w.env.stopped && !w.env.destroyed && w.s.b.closePending && w.s.c.callerRef.None?
    ensures w.s.c.status == Closing && !w.s.c.utp
    ensures w.s.b.hist.link.freed == 0 && w.s.b.hist.link.closes != [] && w.s.b.hist.link.acquired == 1
  {
    hide Reachable, OnRead, Recv, SetOptsBase, NoEmptyFrame, Merge, Outputv, OnWritable, OnEof, OnError, OnConnect,
         OnIncoming, ConnectValidate;
    var w0 := ClosingClient();
    ReachableNext(w0, EvCancelRecv);
    w := Next(w0, EvCancelRecv);
    assert w.s == ResetWaitingRecv(w0.s);
  }

  /** Cancelling a recv while a close is pending takes the close's reference away, and DESTROYING then
      answers nobody. */
  lemma CancelledCloseUnanswered()
    ensures exists w :: Reachable(w) && Stuck(w) && w.env.destroyed
  {
    hide Reachable, OnRead, Recv, SetOptsBase, NoEmptyFrame, Merge, Outputv, OnWritable, OnEof, OnError, OnConnect,
         OnIncoming, ConnectValidate;
    var w := ClosingWithoutReference();
    ReachableNext(w, EvDestroying);
    assert Next(w, EvDestroying).s == OnDestroying(w.s);
    assert Stuck(Next(w, EvDestroying));
  }
}
