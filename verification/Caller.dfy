/** The one field that says whom a handler has to answer: `caller`, which send, recv and close all write. */
module SharedCaller {
  import opened Bytes
  import opened Options
  import opened Driver
  import opened Lifecycle
  import opened ReadSide

  // ---------------------------------------------------------------- who writes the field

  /** A send now would have to wait. */
  predicate RegistersSend(s: State) {
    s.c.status == Connected && s.c.utp && !s.c.writable && s.b.opts.sendTmout != 0
  }

  /** A recv now would have to wait. */
  predicate RegistersRecv(s: State, len: nat) {
    s.b.opts.active == ActiveFalse && !Enough(s.b, len)
  }

  /** These bytes complete what a waiting recv asked for. */
  predicate ServesRecv(s: State, bytes: seq<byte>) {
    && bytes != [] && s.b.opts.active == ActiveFalse && s.c.receiverWaiting
    && Enough(Queued(s.b, bytes), s.c.recvLen)
  }

  /** DESTROYING now would answer a close. */
  predicate AnswersCloser(s: State) {
    s.c.status == Closing && s.b.closePending && s.c.callerRef.Some?
  }

  /** The field after an event. */
  function NextCaller(s: State, e: Event): Caller {
    match e
    case EvOutputv(pid, _, _) => if RegistersSend(s) then Proc(pid) else s.c.caller
    case EvRecv(pid, _, len) => if RegistersRecv(s, len) then Proc(pid) else s.c.caller
    case EvClose(pid, _) => if CloseWaits(s) then Proc(pid) else s.c.caller
    case EvCancelSend => NilTerm
    case EvCancelRecv => NullTerm
    case EvRead(bytes) => if ServesRecv(s, bytes) then NullTerm else s.c.caller
    case EvDestroying => if AnswersCloser(s) then NilTerm else s.c.caller
    case _ => s.c.caller
  }

  /** The reference that goes with it. */
  function NextRef(s: State, e: Event): Option<Ref> {
    match e
    case EvRecv(_, ref, len) => if RegistersRecv(s, len) then Some(ref) else s.c.callerRef
    case EvClose(_, ref) => if CloseWaits(s) then Some(ref) else s.c.callerRef
    case EvValidate(ref) => if s.c.status == ConnectPending then Some(ref) else s.c.callerRef
    case EvCancelRecv => None
    case EvRead(bytes) => if ServesRecv(s, bytes) then None else s.c.callerRef
    case _ => s.c.callerRef
  }

  /** Whether a recv waits after an event. */
  predicate NextReceiver(s: State, e: Event) {
    match e
    case EvRecv(_, _, len) => s.c.receiverWaiting || RegistersRecv(s, len)
    case EvCancelRecv => false
    case EvRead(bytes) => s.c.receiverWaiting && !ServesRecv(s, bytes)
    case _ => s.c.receiverWaiting
  }

  predicate Writes(s: State, e: Event, t: State) {
    t.c.caller == NextCaller(s, e) && t.c.callerRef == NextRef(s, e) && t.c.receiverWaiting == NextReceiver(s, e)
  }

  /** An emission sends exactly if the queue holds enough. */
  lemma EmitSends(b: Base, len: nat, r: Receiver)
    ensures EmitReadBuffer(b, len, r).sent <==> Enough(b, len)
  {
    hide Take;
  }

  lemma OutputvWrites(s: State, pid: Pid, data: seq<byte>, up: Uptake)
    ensures Writes(s, EvOutputv(pid, data, up), Outputv(s, pid, data, up))
  {
    hide Frame, Enough;
  }

  lemma RecvWrites(s: State, pid: Pid, ref: Ref, len: nat)
    ensures Writes(s, EvRecv(pid, ref, len), Recv(s, pid, ref, len))
  {
    hide EmitReadBuffer, Enough;
    EmitSends(s.b, len, CallReceiver(Proc(pid), Some(ref)));
  }

  lemma ReadWrites(s: State, bytes: seq<byte>)
    ensures Writes(s, EvRead(bytes), OnRead(s, bytes))
  {
    hide EmitReadBuffer, Enough;
    EmitSends(Queued(s.b, bytes), s.c.recvLen, CallReceiver(s.c.caller, s.c.callerRef));
  }

  lemma CloseWrites(s: State, pid: Pid, ref: Ref)
    ensures Writes(s, EvClose(pid, ref), Close(s, pid, ref))
  {
    hide Enough;
  }

  lemma WritableWrites(s: State, up: Uptake)
    ensures Writes(s, EvWritable(up), OnWritable(s, up))
  {
    var t := ResumeWriting(s, up);
    assert t.c.caller == s.c.caller && t.c.callerRef == s.c.callerRef && t.c.receiverWaiting == s.c.receiverWaiting;
    hide ResumeWriting, Enough;
  }

  lemma EofWrites(s: State)
    ensures Writes(s, EvEof, OnEof(s))
    ensures Writes(s, EvDestroying, OnDestroying(s))
  {
    hide Enough;
  }

  lemma StopWrites(s: State)
    ensures Writes(s, EvStop, Stop(s))
  {
    hide Enough;
  }

  lemma ConnectWrites(s: State, ref: Ref)
    ensures Writes(s, EvValidate(ref), ConnectValidate(s, ref))
    ensures Writes(s, EvConnect, OnConnect(s))
  {
    hide Enough;
  }

  lemma ErrorWrites(s: State, e: Errno)
    ensures Writes(s, EvError(e), OnError(s, e))
    ensures Writes(s, EvIncoming, OnIncoming(s))
  {
    hide Enough;
  }

  /** Who is on record after any event, command or callback. */
  lemma CallerAfter(s: State, e: Event)
    ensures Writes(s, e, Step(s, e))
  {
    hide Outputv, Recv, OnRead, SetOptsBase, Close, Stop, OnWritable, OnEof, OnDestroying, OnError, ConnectValidate,
         OnConnect,
         OnIncoming, RegistersSend, RegistersRecv, ServesRecv, AnswersCloser, CloseWaits;
    match e
    case EvOutputv(pid, data, up) => OutputvWrites(s, pid, data, up);
    case EvRecv(pid, ref, len) => RecvWrites(s, pid, ref, len);
    case EvRead(bytes) => ReadWrites(s, bytes);
    case EvClose(pid, ref) => CloseWrites(s, pid, ref);
    case EvWritable(up) => WritableWrites(s, up);
    case EvEof => EofWrites(s);
    case EvDestroying => EofWrites(s);
    case EvStop => StopWrites(s);
    case EvValidate(ref) => ConnectWrites(s, ref);
    case EvConnect => ConnectWrites(s, 0);
    case EvError(err) => ErrorWrites(s, err);
    case EvIncoming => ErrorWrites(s, ConnReset);
    case EvSetOpts(_) =>
    case EvCancelSend =>
    case EvCancelRecv =>
  }

  // ---------------------------------------------------------------- what is sent to senders

  /** A step that sends nothing to a sender, and does not touch its registration. */
  predicate Unsent(s: State, t: State) {
    t.b.hist.link.sends == s.b.hist.link.sends && t.c.senderWaiting == s.c.senderWaiting
  }

  lemma EofUnsent(s: State)
    ensures Unsent(s, OnEof(s)) && Unsent(s, OnDestroying(s))
  {
  }

  lemma CloseUnsent(s: State, pid: Pid, ref: Ref)
    ensures Unsent(s, Close(s, pid, ref)) && Unsent(s, Stop(s))
  {
  }

  lemma ConnectUnsent(s: State, ref: Ref)
    ensures Unsent(s, ConnectValidate(s, ref)) && Unsent(s, OnConnect(s)) && Unsent(s, ResetWaitingRecv(s))
  {
  }

  lemma ErrorUnsent(s: State, e: Errno)
    ensures Unsent(s, OnError(s, e)) && Unsent(s, OnIncoming(s))
  {
  }

  lemma ReadingUnsent(s: State, pid: Pid, ref: Ref, len: nat, bytes: seq<byte>)
    ensures Unsent(s, OnRead(s, bytes)) && Unsent(s, Recv(s, pid, ref, len))
  {
    hide OnRead, Recv;
    ReadFrame(s, bytes);
    RecvFrame(s, pid, ref, len);
  }

  lemma SetOptsUnsent(s: State, bin: seq<byte>)
    ensures Unsent(s, SetOpts(s, bin))
  {
    hide EmitReadBuffer, Merge;
    if Merge(s.b.opts, bin).Some? {
      var opts := Merge(s.b.opts, bin).value;
      EmitFrame(Emit(s.b.(opts := opts), OptionsSet(opts.active)), 0, ConnectedReceiver);
    }
  }

  lemma ElsewhereUnsent(w: World, e: Event)
    requires !e.EvOutputv? && !e.EvCancelSend? && !e.EvWritable?
    ensures Unsent(w.s, Next(w, e).s)
  {
    hide Unsent, Recv, OnRead, SetOptsBase, Stop, OnWritable, OnEof, OnDestroying, OnError, Outputv, Close,
         ConnectValidate, OnConnect, OnIncoming;
    match e
    case EvRecv(pid, ref, len) => ReadingUnsent(w.s, pid, ref, len, []);
    case EvRead(bytes) => ReadingUnsent(w.s, 0, 0, 0, bytes);
    case EvSetOpts(bin) => SetOptsUnsent(w.s, bin);
    case EvClose(pid, ref) => CloseUnsent(w.s, pid, ref);
    case EvStop => CloseUnsent(w.s, 0, 0);
    case EvEof => EofUnsent(w.s);
    case EvDestroying => EofUnsent(w.s);
    case EvCancelRecv => ConnectUnsent(w.s, 0);
    case EvValidate(ref) => ConnectUnsent(w.s, ref);
    case EvConnect => ConnectUnsent(w.s, 0);
    case EvError(err) => ErrorUnsent(w.s, err);
    case EvIncoming => ErrorUnsent(w.s, ConnReset);
  }

  /** What a WRITABLE does for a sender: it wakes a registered one if it leaves the connection writable. */
  predicate Wakes(s: State, t: State) {
    && t.c.caller == s.c.caller
    && (if s.c.senderWaiting && t.c.writable
        then !t.c.senderWaiting && t.b.hist.link.sends == s.b.hist.link.sends + [SendMsg(s.c.caller, SendRetry)]
        else t.c.senderWaiting == s.c.senderWaiting && t.b.hist.link.sends == s.b.hist.link.sends)
  }

  lemma ResumeWakes(s: State, up: Uptake)
    ensures Wakes(s, ResumeWriting(s, up))
  {
  }

  lemma WritableWakes(s: State, up: Uptake)
    ensures Wakes(s, OnWritable(s, up))
  {
    hide CloseUtp, ResumeWriting;
    ResumeWakes(s, up);
    CloseUtpUnsent(ResumeWriting(s, up));
  }

  lemma CloseUtpUnsent(s: State)
    ensures var t := CloseUtp(s); Unsent(s, t) && t.c.caller == s.c.caller && t.c.writable == s.c.writable
  {
  }

  // ---------------------------------------------------------------- a recv beside other callers

  /** A recv of pid waits, and its reply would go to pid with its own reference. */
  predicate Addressed(s: State, pid: Pid, ref: Ref) {
    s.c.receiverWaiting && s.c.caller == Proc(pid) && s.c.callerRef == Some(ref)
  }

  /** The steps that make the reply of a waiting recv go astray: a send or a close of another process that
      has to wait, another recv, a connect_validate on a pending connection, a cancelled send, and a
      DESTROYING that answers a close. */
  predicate Misaddresses(s: State, e: Event, pid: Pid, ref: Ref) {
    match e
    case EvOutputv(p, _, _) => RegistersSend(s) && p != pid
    case EvRecv(p, r, len) => RegistersRecv(s, len) && (p != pid || r != ref)
    case EvClose(p, r) => CloseWaits(s) && (p != pid || r != ref)
    case EvValidate(r) => s.c.status == ConnectPending && r != ref
    case EvCancelSend => true
    case EvDestroying => AnswersCloser(s)
    case _ => false
  }

  /** A waiting recv is over when it is served or cancelled; until then its reply goes astray through
      exactly those steps. */
  lemma AddressKept(s: State, e: Event, pid: Pid, ref: Ref)
    requires Addressed(s, pid, ref)
    ensures var t := Step(s, e);
            && (t.c.receiverWaiting <==> !(e.EvCancelRecv? || (e.EvRead? && ServesRecv(s, e.bytes))))
            && (t.c.receiverWaiting ==> (Addressed(t, pid, ref) <==> !Misaddresses(s, e, pid, ref)))
  {
    hide Step, RegistersSend, RegistersRecv, ServesRecv, AnswersCloser, CloseWaits;
    CallerAfter(s, e);
  }

  /** The bytes that complete a waiting recv make exactly one reply, to whoever is on record. */
  lemma ServedReply(s: State, bytes: seq<byte>)
    requires ServesRecv(s, bytes)
    ensures exists x :: OnRead(s, bytes).b.hist.calls.answers
                        == s.b.hist.calls.answers + [CallMsg(ToCaller(s.c.caller), s.c.callerRef, RecvOk(x))]
  {
    var b1 := Queued(s.b, bytes);
    var t := Take(b1, s.c.recvLen);
    assert t.parts == [t.parts[0]];
    hide Take, Enough;
    var r := CallReceiver(s.c.caller, s.c.callerRef);
    DeliverSingle(b1.(portq := t.portq, readCount := t.readCount), r, t.parts[0]);
    assert OnRead(s, bytes).b.hist.calls.answers
        == s.b.hist.calls.answers + [CallMsg(ToCaller(s.c.caller), s.c.callerRef, RecvOk(t.parts[0]))];
  }

  /** A run during which a recv waits, neither served nor cancelled. */
  predicate KeepsWaiting(w: World, es: seq<Event>)
    decreases |es|
  {
    w.s.c.receiverWaiting && (es == [] || KeepsWaiting(Next(w, es[0]), es[1..]))
  }

  predicate AlwaysAddressed(w: World, es: seq<Event>, pid: Pid, ref: Ref)
    decreases |es|
  {
    Addressed(w.s, pid, ref) && (es == [] || AlwaysAddressed(Next(w, es[0]), es[1..], pid, ref))
  }

  predicate NeverMisaddresses(w: World, es: seq<Event>, pid: Pid, ref: Ref)
    decreases |es|
  {
    es == [] || (!Misaddresses(w.s, es[0], pid, ref) && NeverMisaddresses(Next(w, es[0]), es[1..], pid, ref))
  }

  /** Whatever else goes on at the socket while a recv waits, its reply would reach its own caller at every
      point exactly if none of those steps happens. */
  lemma {:induction false} RecvBesideOthers(w: World, es: seq<Event>, pid: Pid, ref: Ref)
    requires Addressed(w.s, pid, ref) && KeepsWaiting(w, es)
    ensures AlwaysAddressed(w, es, pid, ref) <==> NeverMisaddresses(w, es, pid, ref)
    decreases |es|
  {
    hide Step, Misaddresses;
    if es != [] {
      AddressKept(w.s, es[0], pid, ref);
      if Addressed(Next(w, es[0]).s, pid, ref) {
        RecvBesideOthers(Next(w, es[0]), es[1..], pid, ref);
      }
    }
  }

  /** A send that has to wait takes over the reply of another process's waiting recv: what arrives next for
      the recv goes to the sender, with the recv's reference. */
  lemma SenderTakesReply(s: State, pid: Pid, ref: Ref, sender: Pid, data: seq<byte>, up: Uptake, bytes: seq<byte>)
    requires Addressed(s, pid, ref) && RegistersSend(s) && sender != pid
    requires ServesRecv(Outputv(s, sender, data, up), bytes)
    ensures var t := Outputv(s, sender, data, up);
            exists x :: OnRead(t, bytes).b.hist.calls.answers
                        == s.b.hist.calls.answers + [CallMsg(ToCaller(Proc(sender)), Some(ref), RecvOk(x))]
  {
    hide OnRead, ServesRecv, Frame;
    OutputvWrites(s, sender, data, up);
    ServedReply(Outputv(s, sender, data, up), bytes);
  }

  /** A client with a byte queued, on which process 1 waits in recv. */
  lemma WaitingReceiver() returns (w: World)
    ensures Reachable(w) && w.env == Env(false, false, false, false) && w.s.b.hist.link.acquired == 1
    ensures Addressed(w.s, 1, 5) && RegistersSend(w.s) && w.s.c.recvLen == 0
    ensures w.s.b.portq == [] && w.s.b.opts == DEFAULTS.(active := ActiveFalse) && w.s.b.hist.calls.answers == []
    ensures !w.s.b.closePending
  {
    hide Reachable, OnRead, SetOptsBase, Close, Stop, OnWritable, OnEof, OnDestroying, OnError, ConnectValidate,
         OnIncoming,
         NoEmptyFrame, Merge, Parse;
    var opts := DEFAULTS.(active := ActiveFalse);
    StartReachable(Client, opts);
    var w0 := Start(Client, opts);
    ReachableNext(w0, EvConnect);
    var w1 := Next(w0, EvConnect);
    var up := Uptake([], false);
    assert Frame(0, [7]) == [7];
    ReachableNext(w1, EvOutputv(1, [7], up));
    var w2 := Next(w1, EvOutputv(1, [7], up));
    BusyClient(w1, up, w2);
    hide Outputv, OnConnect;
    ReachableNext(w2, EvRecv(1, 5, 0));
    w := Next(w2, EvRecv(1, 5, 0));
    PendingRecv(w2.s);
  }

  lemma BusyClient(w1: World, up: Uptake, w2: World)
    requires w1 == Next(Start(Client, DEFAULTS.(active := ActiveFalse)), EvConnect) && up == Uptake([], false)
    requires w2 == Next(w1, EvOutputv(1, [7], up))
    ensures RegistersSend(w2.s) && w2.env == Env(false, false, false, false) && w2.s.b.hist.link.acquired == 1
    ensures w2.s.b.portq == [] && w2.s.b.opts == DEFAULTS.(active := ActiveFalse) && w2.s.b.hist.calls.answers == []
    ensures !w2.s.b.closePending
  {
    assert Frame(0, [7]) == [7];
  }

  lemma PendingRecv(s: State)
    requires s.b.portq == [] && s.b.opts.active == ActiveFalse && !s.b.closePending
    ensures var t := Recv(s, 1, 5, 0);
            && t.c == s.c.(callerRef := Some(5), caller := Proc(1), recvLen := 0, receiverWaiting := true)
            && t.b.portq == [] && t.b.opts == s.b.opts && t.b.hist.link == s.b.hist.link && !t.b.closePending
            && t.b.hist.calls.answers == s.b.hist.calls.answers
  {
  }

  /** Process 1 waits in recv; process 2 sends and has to wait; then a byte arrives, and what the recv of
      process 1 was waiting for goes to process 2. */
  lemma RecvReplyGoesToSender()
    ensures exists w, data, up, bytes, x ::
              && Reachable(w) && Addressed(w.s, 1, 5)
              && var w2 := Next(Next(w, EvOutputv(2, data, up)), EvRead(bytes));
                 Reachable(w2) && w2.s.b.hist.calls.answers == [CallMsg(ToCaller(Proc(2)), Some(5), RecvOk(x))]
  {
    hide Reachable, OnRead, Recv, SetOptsBase, Close, Stop, OnWritable, OnEof, OnDestroying, OnError, ConnectValidate,
         OnConnect, OnIncoming, Merge, Parse;
    var w := WaitingReceiver();
    var up, bytes := Uptake([], false), [8];
    var send, read := EvOutputv(2, [9], up), EvRead(bytes);
    ReachableNext(w, send);
    var w1 := Next(w, send);
    ServedByByte(w1.s);
    ReachableNext(w1, read);
    SenderTakesReply(w.s, 1, 5, 2, [9], up, bytes);
    var x :| OnRead(w1.s, bytes).b.hist.calls.answers
             == w.s.b.hist.calls.answers + [CallMsg(ToCaller(Proc(2)), Some(5), RecvOk(x))];
    assert Next(w1, read).s == OnRead(w1.s, bytes);
  }

  lemma ServedByByte(s: State)
    requires s.b.opts == DEFAULTS.(active := ActiveFalse) && s.b.portq == [] && s.c.receiverWaiting && s.c.recvLen == 0
    ensures ServesRecv(s, [8]) && NoEmptyFrame(s.b.opts.packet, s.b.portq + [8])
  {
    assert (s.b.portq + [8])[..0] == [];
  }

  // ---------------------------------------------------------------- a sender beside other callers

  /** A sender waits, and its retry would go to it. */
  predicate Registered(s: State, pid: Pid) {
    s.c.senderWaiting && s.c.caller == Proc(pid)
  }

  /** The steps that take a waiting sender's retry away: a send, recv or close of another process that has to
      wait, a cancelled recv, bytes that serve a waiting recv, and a DESTROYING that answers a close. */
  predicate Unregisters(s: State, e: Event, pid: Pid) {
    match e
    case EvOutputv(p, _, _) => RegistersSend(s) && p != pid
    case EvRecv(p, _, len) => RegistersRecv(s, len) && p != pid
    case EvClose(p, _) => CloseWaits(s) && p != pid
    case EvCancelRecv => true
    case EvRead(bytes) => ServesRecv(s, bytes)
    case EvDestroying => AnswersCloser(s)
    case _ => false
  }

  /** Whether a sender is noted as waiting after any event. */
  lemma SenderAfter(s: State, e: Event)
    ensures var t := Step(s, e);
            t.c.senderWaiting <==>
              match e
              case EvOutputv(_, _, _) => s.c.senderWaiting || RegistersSend(s)
              case EvCancelSend => false
              case EvWritable(_) => s.c.senderWaiting && !t.c.writable
              case _ => s.c.senderWaiting
  {
    hide Outputv, Recv, OnRead, SetOptsBase, Close, Stop, OnWritable, OnEof, OnDestroying, OnError, ConnectValidate,
         OnConnect,
         OnIncoming, RegistersSend;
    match e
    case EvOutputv(pid, data, up) => OutputvRegisters(s, pid, data, up);
    case EvWritable(up) => WritableWakes(s, up);
    case EvCancelSend =>
    case _ =>
      ElsewhereUnsent(World(s, Env(false, false, false, false)), e);
  }

  lemma OutputvRegisters(s: State, pid: Pid, data: seq<byte>, up: Uptake)
    ensures Outputv(s, pid, data, up).c.senderWaiting <==> s.c.senderWaiting || RegistersSend(s)
  {
    hide Frame;
  }

  /** A waiting sender is no longer noted when it is woken or a send is cancelled, by whomever; until then its
      retry is lost through exactly those steps. A WRITABLE that leaves the connection writable wakes it. */
  lemma RegistrationKept(s: State, e: Event, pid: Pid)
    requires Registered(s, pid)
    ensures var t := Step(s, e);
            && (t.c.senderWaiting <==> !(e.EvCancelSend? || (e.EvWritable? && t.c.writable)))
            && (t.c.senderWaiting ==> (Registered(t, pid) <==> !Unregisters(s, e, pid)))
            && (e.EvWritable? && t.c.writable ==>
                  t.b.hist.link.sends == s.b.hist.link.sends + [SendMsg(Proc(pid), SendRetry)])
  {
    SenderAfter(s, e);
    CallerAfter(s, e);
    if e.EvWritable? {
      hide ResumeWriting, CloseUtp;
      WritableWakes(s, e.up);
    }
    hide Step, RegistersSend, RegistersRecv, ServesRecv, AnswersCloser, CloseWaits;
  }

  /** A run during which a sender stays noted: nobody woken, no send cancelled. */
  predicate KeepsSender(w: World, es: seq<Event>)
    decreases |es|
  {
    w.s.c.senderWaiting && (es == [] || KeepsSender(Next(w, es[0]), es[1..]))
  }

  predicate AlwaysRegistered(w: World, es: seq<Event>, pid: Pid)
    decreases |es|
  {
    Registered(w.s, pid) && (es == [] || AlwaysRegistered(Next(w, es[0]), es[1..], pid))
  }

  predicate NeverUnregisters(w: World, es: seq<Event>, pid: Pid)
    decreases |es|
  {
    es == [] || (!Unregisters(w.s, es[0], pid) && NeverUnregisters(Next(w, es[0]), es[1..], pid))
  }

  /** However many processes send, receive and close at the socket while a sender waits, its retry would reach
      it at every point exactly if none of those steps happens. */
  lemma {:induction false} SenderBesideOthers(w: World, es: seq<Event>, pid: Pid)
    requires Registered(w.s, pid) && KeepsSender(w, es)
    ensures AlwaysRegistered(w, es, pid) <==> NeverUnregisters(w, es, pid)
    decreases |es|
  {
    hide Step, Unregisters;
    if es != [] {
      RegistrationKept(w.s, es[0], pid);
      if Registered(Next(w, es[0]).s, pid) {
        SenderBesideOthers(Next(w, es[0]), es[1..], pid);
      }
    }
  }
}
