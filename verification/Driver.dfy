/** What one uTP port handler does, as functions on a value: the state of a connection
    (c_src/utp_handler.cc, c_src/socket_handler.cc, c_src/client.cc, c_src/server.cc) and what can be
    observed of it from outside. The handler itself, with its fields updated in place, is in Handler.dfy. */
module Driver {
  import opened Bytes
  import opened Options

  type Pid = nat
  type Ref = nat

  datatype Role = Client | Server

  datatype Status = NotConnected | ConnectPending | Connected | ConnectFailed | Closing | Destroying | Stopped

  /** A process a reply can go to. NilTerm is driver_term_nil and NullTerm the 0 that
      reset_waiting_recv stores; neither names a process. */
  datatype Caller = NilTerm | NullTerm | Proc(pid: Pid)

  datatype Errno = ConnReset | OtherError(code: nat)

  /** The third element of a {utp_reply, Port, _} message. */
  datatype SendResult = SendOk | SendNotConn | SendTimedOut | SendWait | SendWaitFor(ms: int) | SendRetry

  /** The second element of a {Ref, _} message, tagged with the call it answers: ConnectOk and CloseOk
      are both the atom ok. */
  datatype Answer = ConnectOk | ConnectError(e: Errno) | RecvOk(data: seq<byte>) | CloseOk

  datatype ValidateAnswer = ValidateWait | ValidateOk | ValidateError(e: Errno) | ValidateIllegal

  datatype Dest = ToConnected | ToCaller(caller: Caller)

  /** How a connect attempt ended, as a caller learns it. */
  datatype Outcome = Success | Failure(e: Errno)

  // ---------------------------------------------------------------- what can be observed

  datatype Effect =
    | Accepted(data: seq<byte>)                     // outputv took a payload
    | Offered(open: bool, count: nat, queued: nat)  // UTP_Write called: handle open?, count, queue size
    | HandedOver(bytes: seq<byte>)                  // do_write copied bytes out
    | Dropped(bytes: seq<byte>)                     // the write queue was cleared
    | SendReply(to: Caller, result: SendResult)     // {utp_reply, Port, Result}
    | Acquired                                      // a handle was stored in utp
    | UtpClosed(queued: nat)                        // UTP_Close called, with the queue size
    | Freed                                         // delete this
    | Arrived(bytes: seq<byte>)                     // driver_enq
    | Data(bytes: seq<byte>)                        // {utp, Port, Data}
    | CallReply(dest: Dest, ref: Option<Ref>, answer: Answer)  // {Ref, Answer}
    | ClosedMessage                                 // {utp_closed, Port}
    | ClosedReported                                // close_pending cleared by a utp_closed message
    | ErrorMessage(e: Errno)                        // {utp_error, Port, E}
    | RBDrained                                     // UTP_RBDrained called
    | OptionsSet(active: Active)                    // setopts stored new options
    | CloseAnswered(waits: bool)                    // close returned: wait or ok
    | RecvAnswered(ok: bool)                        // recv returned: wait or badarg
    | ValidateAnswered(verdict: ValidateAnswer)     // connect_validate returned
    | BadArg                                        // setopts returned badarg

  datatype Offer = Offer(open: bool, count: nat, queued: nat)
  datatype SendMsg = SendMsg(to: Caller, result: SendResult)
  datatype CallMsg = CallMsg(dest: Dest, ref: Option<Ref>, answer: Answer)
  datatype Delivery = Delivery(connected: bool, bytes: seq<byte>)

  datatype Link = Link(
    accepted: seq<seq<byte>>, handed: seq<byte>, dropped: seq<byte>, offers: seq<Offer>,
    sends: seq<SendMsg>, acquired: nat, closes: seq<nat>, freed: nat)

  datatype Reads = Reads(chunks: seq<seq<byte>>, deliveries: seq<Delivery>, lastSet: Option<Active>, sinceSet: nat)

  datatype Calls = Calls(
    answers: seq<CallMsg>, outcomes: seq<Outcome>, closeWaits: nat, closeOks: nat, closeReports: nat)

  /** A message to the connected process other than data, a signal to libutp, and what a command returned. */
  datatype Notice =
    | Closed                              // {utp_closed, Port}
    | Error(e: Errno)                     // {utp_error, Port, E}
    | Drained                             // UTP_RBDrained
    | RecvReturned(ok: bool)              // wait or badarg
    | SetOptsReturned(ok: bool)           // ok or badarg
    | CloseReturned(waits: bool)          // wait or ok
    | ValidateReturned(verdict: ValidateAnswer)

  /** The observations of a run, summed up. */
  datatype Hist = Hist(link: Link, rd: Reads, calls: Calls, notices: seq<Notice>)

  const NO_HISTORY := Hist(
    Link([], [], [], [], [], 0, [], 0),
    Reads([], [], None, 0),
    Calls([], [], 0, 0, 0),
    [])

  function RecordLink(l: Link, fx: Effect): Link {
    match fx
    case Accepted(data) => l.(accepted := l.accepted + [data])
    case Offered(open, count, queued) => l.(offers := l.offers + [Offer(open, count, queued)])
    case HandedOver(bytes) => l.(handed := l.handed + bytes)
    case Dropped(bytes) => l.(dropped := l.dropped + bytes)
    case SendReply(to, result) => l.(sends := l.sends + [SendMsg(to, result)])
    case Acquired => l.(acquired := l.acquired + 1)
    case UtpClosed(queued) => l.(closes := l.closes + [queued])
    case Freed => l.(freed := l.freed + 1)
    case _ => l
  }

  function RecordReads(r: Reads, fx: Effect): Reads {
    match fx
    case Arrived(bytes) => r.(chunks := r.chunks + [bytes])
    case Data(bytes) => r.(deliveries := r.deliveries + [Delivery(true, bytes)], sinceSet := r.sinceSet + 1)
    case CallReply(_, _, RecvOk(bytes)) => r.(deliveries := r.deliveries + [Delivery(false, bytes)])
    case OptionsSet(active) => r.(lastSet := Some(active), sinceSet := 0)
    case _ => r
  }

  function RecordCalls(c: Calls, fx: Effect): Calls {
    match fx
    case CallReply(dest, ref, answer) =>
      var c1 := c.(answers := c.answers + [CallMsg(dest, ref, answer)]);
      (match answer
       case ConnectOk => c1.(outcomes := c.outcomes + [Success])
       case ConnectError(e) => c1.(outcomes := c.outcomes + [Failure(e)])
       case CloseOk => c1.(closeOks := c.closeOks + 1)
       case RecvOk(_) => c1)
    case ValidateAnswered(ValidateOk) => c.(outcomes := c.outcomes + [Success])
    case ValidateAnswered(ValidateError(e)) => c.(outcomes := c.outcomes + [Failure(e)])
    case CloseAnswered(waits) => if waits then c.(closeWaits := c.closeWaits + 1) else c
    case ClosedReported => c.(closeReports := c.closeReports + 1)
    case _ => c
  }

  function RecordNotices(notices: seq<Notice>, fx: Effect): seq<Notice> {
    match fx
    case ClosedMessage => notices + [Closed]
    case ErrorMessage(e) => notices + [Error(e)]
    case RBDrained => notices + [Drained]
    case RecvAnswered(ok) => notices + [RecvReturned(ok)]
    case OptionsSet(_) => notices + [SetOptsReturned(true)]
    case BadArg => notices + [SetOptsReturned(false)]
    case CloseAnswered(waits) => notices + [CloseReturned(waits)]
    case ValidateAnswered(verdict) => notices + [ValidateReturned(verdict)]
    case _ => notices
  }

  function Record(h: Hist, fx: Effect): Hist {
    Hist(RecordLink(h.link, fx), RecordReads(h.rd, fx), RecordCalls(h.calls, fx), RecordNotices(h.notices, fx))
  }

  /** The summary of a whole log of effects. */
  function Summary(log: seq<Effect>): Hist {
    if log == [] then NO_HISTORY else Record(Summary(log[..|log| - 1]), log[|log| - 1])
  }

  lemma SummarySnoc(log: seq<Effect>, fx: Effect)
    ensures Summary(log + [fx]) == Record(Summary(log), fx)
  {
    assert (log + [fx])[..|log|] == log;
  }

  // ---------------------------------------------------------------- the socket: what SocketHandler owns

  datatype Base = Base(
    portq: seq<byte>, readCount: seq<nat>, opts: SockOpts, closePending: bool, selected: bool, hist: Hist)

  function Emit(b: Base, fx: Effect): Base {
    b.(hist := Record(b.hist, fx))
  }

  /** Where emit_read_buffer sends what it takes off the queue. */
  datatype Receiver = ConnectedReceiver | CallReceiver(caller: Caller, ref: Option<Ref>)

  function Deliver(b: Base, r: Receiver, bytes: seq<byte>): Base {
    match r
    case ConnectedReceiver => Emit(b, Data(bytes))
    case CallReceiver(caller, ref) => Emit(b, CallReply(ToCaller(caller), ref, RecvOk(bytes)))
  }

  function DeliverAll(b: Base, r: Receiver, parts: seq<seq<byte>>): Base
    decreases |parts|
  {
    if parts == [] then b else DeliverAll(Deliver(b, r, parts[0]), r, parts[1..])
  }

  /** Delivering only adds to the history. */
  lemma {:induction false} DeliverAllKeeps(b: Base, r: Receiver, parts: seq<seq<byte>>)
    ensures DeliverAll(b, r, parts) == b.(hist := DeliverAll(b, r, parts).hist)
    decreases |parts|
  {
    if parts != [] {
      DeliverAllKeeps(Deliver(b, r, parts[0]), r, parts[1..]);
    }
  }

  lemma DeliverSingle(b: Base, r: Receiver, x: seq<byte>)
    ensures DeliverAll(b, r, [x]) == Deliver(b, r, x)
  {
    assert DeliverAll(Deliver(b, r, x), r, [x][1..]) == Deliver(b, r, x);
  }

  /** A queue cut into parts of the given sizes. */
  function Cut(q: seq<byte>, counts: seq<nat>): seq<seq<byte>>
    decreases |counts|
  {
    if counts == [] then []
    else
      var n := Min(counts[0], |q|);
      [q[..n]] + Cut(q[n..], counts[1..])
  }

  /** reduce_read_count: the first n bytes are gone, cutting a count in two if need be. */
  function Reduce(counts: seq<nat>, n: nat): seq<nat>
    decreases |counts|
  {
    if n == 0 || counts == [] then counts
    else if counts[0] <= n then Reduce(counts[1..], n - counts[0])
    else [counts[0] - n] + counts[1..]
  }

  /** The length prefix of the frame at the front of the queue; 0 without framing. */
  function FrameLength(packet: nat, q: seq<byte>): nat
    requires packet <= |q|
  {
    FromBigEndian(q[..packet])
  }

  datatype Taken = Taken(parts: seq<seq<byte>>, portq: seq<byte>, readCount: seq<nat>)

  /** What emit_read_buffer takes off a queue that holds enough: one frame, the length asked for or
      everything, one read, or every read. */
  function Take(b: Base, len: nat): Taken
    requires b.opts.packet <= |b.portq| && len <= |b.portq|
  {
    var packet := b.opts.packet;
    var size := FrameLength(packet, b.portq);
    if size != 0 then
      var end := Min(packet + size, |b.portq|);
      Taken([b.portq[packet..end]], b.portq[end..], Reduce(b.readCount, size))
    else
      match b.opts.active
      case ActiveFalse =>
        if len == 0 then Taken([b.portq], [], [])
        else Taken([b.portq[..len]], b.portq[len..], Reduce(b.readCount, len))
      case ActiveOnce =>
        if b.readCount == [] then Taken([], b.portq, [])
        else
          var n := Min(b.readCount[0], |b.portq|);
          Taken([b.portq[..n]], b.portq[n..], b.readCount[1..])
      case ActiveTrue =>
        Taken(Cut(b.portq, b.readCount), b.portq[Min(Sum(b.readCount), |b.portq|)..], [])
  }

  datatype Emission = Emission(b: Base, sent: bool, qsize: nat)

  predicate CloseToReport(b: Base) {
    b.closePending && b.portq == []
  }

  /** The queue holds what a request for len bytes, or the next frame, needs. */
  predicate Enough(b: Base, len: nat) {
    && b.portq != []
    && len <= |b.portq|
    && b.opts.packet <= |b.portq|
    && b.opts.packet + FrameLength(b.opts.packet, b.portq) <= |b.portq|
  }

  function EmitReadBuffer(b: Base, len: nat, r: Receiver): Emission {
    if CloseToReport(b) then
      Emission(Emit(Emit(b, ClosedMessage), ClosedReported).(closePending := false), false, 1)
    else if !Enough(b, len) then Emission(b, false, |b.portq|)
    else
      var t := Take(b, len);
      var b1 := DeliverAll(b.(portq := t.portq, readCount := t.readCount), r, t.parts);
      var b2 := if b1.opts.active == ActiveOnce then b1.(opts := b1.opts.(active := ActiveFalse)) else b1;
      Emission(b2, true, |b2.portq|)
  }

  function EmitClosedMessage(b: Base): Base {
    if b.portq == [] then Emit(b, ClosedMessage) else b
  }

  /** setopts: whether storing the new options delivers what is queued. */
  predicate SendsOnSet(before: Active, after: Active, readCount: seq<nat>) {
    match (before, after)
    case (ActiveFalse, ActiveOnce) => |readCount| > 0
    case (_, ActiveTrue) => true
    case _ => false
  }

  function SetOptsBase(b: Base, bin: seq<byte>): Base {
    match Merge(b.opts, bin)
    case None => Emit(b, BadArg)
    case Some(opts) =>
      var b1 := Emit(b.(opts := opts), OptionsSet(opts.active));
      if SendsOnSet(b.opts.active, opts.active, b.readCount) then EmitReadBuffer(b1, 0, ConnectedReceiver).b else b1
  }

  /** The options in force have a packet size the framing knows and no header. */
  predicate PlainOptions(opts: SockOpts) {
    (opts.packet == 0 || opts.packet == 1 || opts.packet == 2 || opts.packet == 4) && opts.header == 0
  }

  /** The two structures of the read side agree: every count is positive, and the counts cover the
      queue, exactly so without framing. */
  predicate ReadOk(b: Base) {
    && PlainOptions(b.opts) && AllPositive(b.readCount)
    && Sum(b.readCount) >= |b.portq|
    && (b.opts.packet == 0 ==> Sum(b.readCount) == |b.portq|)
  }

  /** The frame at the front of the queue, if its prefix has arrived, is not empty. */
  predicate FrontFrameOk(b: Base) {
    b.opts.packet != 0 && b.opts.packet <= |b.portq| ==> FrameLength(b.opts.packet, b.portq) != 0
  }

  // ---------------------------------------------------------------- the connection: what UtpHandler adds

  datatype Conn = Conn(
    role: Role, status: Status, utp: bool, wq: seq<byte>, writable: bool,
    senderWaiting: bool, receiverWaiting: bool, eofSeen: bool,
    callerRef: Option<Ref>, caller: Caller, recvLen: nat, errorCode: Errno)

  datatype State = State(c: Conn, b: Base)

  function Says(s: State, fx: Effect): State {
    s.(b := Emit(s.b, fx))
  }

  /** A handler whose port has been set: a client that has started to connect, or a server waiting for
      utp_incoming. */
  function Initial(role: Role, opts: SockOpts): State {
    var s := State(
               Conn(role, NotConnected, false, [], false, false, false, false, None, NilTerm, 0, OtherError(0)),
               Base([], [], opts, false, true, NO_HISTORY));
    if role.Client? then Says(s.(c := s.c.(status := ConnectPending, utp := true)), Acquired) else s
  }

  /** What do_get_rb_size tells libutp. */
  function RbSize(s: State): nat {
    if s.c.status == Connected then |s.b.portq| else 0
  }

  /** The bytes outputv queues for a payload. */
  function Frame(packet: nat, data: seq<byte>): seq<byte> {
    if data == [] then [] else BigEndian(|data|, packet) + data
  }

  /** How libutp takes bytes during one UTP_Write: the sizes of its do_write calls and its result. */
  datatype Uptake = Uptake(pieces: seq<nat>, ok: bool)

  /** UTP_Write takes no more than it is offered and returns true only if it took all of it. */
  predicate Fits(up: Uptake, offered: nat) {
    Sum(up.pieces) <= offered && (up.ok ==> Sum(up.pieces) == offered)
  }

  function UtpWrite(s: State, offered: nat, up: Uptake): State {
    var n := Min(Sum(up.pieces), |s.c.wq|);
    var b := Emit(Emit(s.b, Offered(s.c.utp, offered, |s.c.wq|)), HandedOver(s.c.wq[..n]));
    State(s.c.(wq := s.c.wq[n..], writable := up.ok), b)
  }

  function CloseUtp(s: State): State {
    if s.c.utp && s.c.status != Destroying && s.c.wq == [] then
      Says(s.(c := s.c.(status := Closing, utp := false)), UtpClosed(|s.c.wq|))
    else s
  }

  function Outputv(s: State, pid: Pid, data: seq<byte>, up: Uptake): State {
    if s.c.status != Connected || !s.c.utp then Says(s, SendReply(Proc(pid), SendNotConn))
    else if s.c.writable then
      var frame := Frame(s.b.opts.packet, data);
      var s1 := Says(s.(c := s.c.(wq := s.c.wq + frame)), Accepted(data));
      Says(UtpWrite(s1, |frame|, up), SendReply(Proc(pid), SendOk))
    else if s.b.opts.sendTmout == 0 then Says(s, SendReply(Proc(pid), SendTimedOut))
    else
      var wait := if s.b.opts.sendTmout == -1 then SendWait else SendWaitFor(s.b.opts.sendTmout);
      Says(s.(c := s.c.(caller := Proc(pid), senderWaiting := true)), SendReply(Proc(pid), wait))
  }

  function StartClose(s: State, pid: Pid, ref: Ref): State {
    State(s.c.(status := Closing, eofSeen := false, callerRef := Some(ref), caller := Proc(pid)),
          s.b.(closePending := true))
  }

  /** Whether a close now makes its caller wait. */
  predicate CloseWaits(s: State) {
    !s.b.closePending && (s.c.eofSeen || (s.c.status != Closing && s.c.status != Destroying))
  }

  function Close(s: State, pid: Pid, ref: Ref): State {
    if CloseWaits(s) then
      Says(CloseUtp(StartClose(s, pid, ref)), CloseAnswered(true))
    else Says(s, CloseAnswered(false))
  }

  function Recv(s: State, pid: Pid, ref: Ref, len: nat): State {
    if s.b.opts.active != ActiveFalse then Says(s, RecvAnswered(false))
    else
      var e := EmitReadBuffer(s.b, len, CallReceiver(Proc(pid), Some(ref)));
      var s1 := State(
                  if e.sent then s.c
                  else s.c.(callerRef := Some(ref), caller := Proc(pid), recvLen := len, receiverWaiting := true),
                  if e.sent && e.qsize == 0 then Emit(e.b, RBDrained) else e.b);
      Says(s1, RecvAnswered(true))
  }

  function CancelSend(s: State): State {
    s.(c := s.c.(senderWaiting := false, caller := NilTerm))
  }

  function ResetWaitingRecv(s: State): State {
    s.(c := s.c.(receiverWaiting := false, recvLen := 0, callerRef := None, caller := NullTerm))
  }

  function SetOpts(s: State, bin: seq<byte>): State {
    s.(b := SetOptsBase(s.b, bin))
  }

  /** What connect_validate returns. */
  function Verdict(c: Conn): ValidateAnswer {
    match c.status
    case ConnectPending => ValidateWait
    case ConnectFailed => ValidateError(c.errorCode)
    case Connected => ValidateOk
    case _ => ValidateIllegal
  }

  function ConnectValidate(s: State, ref: Ref): State {
    var c := match s.c.status
      case ConnectPending => s.c.(callerRef := Some(ref))
      case ConnectFailed => s.c.(status := NotConnected)
      case _ => s.c;
    Says(s.(c := c), ValidateAnswered(Verdict(s.c)))
  }

  function Stop(s: State): State {
    var s1 := if s.c.utp then CloseUtp(s) else s;
    var s2 := s1.(b := s1.b.(portq := []));
    if s2.c.status == Destroying then Says(s2, Freed) else s2.(c := s2.c.(status := Stopped))
  }

  function OnRead(s: State, bytes: seq<byte>): State {
    if bytes == [] then s
    else
      var b1 := Emit(s.b.(portq := s.b.portq + bytes, readCount := s.b.readCount + [|bytes|]), Arrived(bytes));
      if b1.opts.active == ActiveFalse then
        if s.c.receiverWaiting then
          var e := EmitReadBuffer(b1, s.c.recvLen, CallReceiver(s.c.caller, s.c.callerRef));
          var s1 := s.(b := if e.qsize == 0 then Emit(e.b, RBDrained) else e.b);
          if e.sent then ResetWaitingRecv(s1) else s1
        else s.(b := b1)
      else
        var e := EmitReadBuffer(b1, 0, ConnectedReceiver);
        s.(b := if e.qsize == 0 then Emit(e.b, RBDrained) else e.b)
  }

  /** WRITABLE, up to the deferred close: offers the queue and wakes a waiting sender. */
  function ResumeWriting(s: State, up: Uptake): State {
    var s0 := s.(c := s.c.(writable := true));
    var s1 := if s.c.wq != [] then UtpWrite(s0, |s.c.wq|, up) else s0;
    if s1.c.writable && s1.c.senderWaiting
    then Says(s1.(c := s1.c.(senderWaiting := false)), SendReply(s1.c.caller, SendRetry)) else s1
  }

  function OnWritable(s: State, up: Uptake): State {
    var s1 := ResumeWriting(s, up);
    if s1.b.closePending then CloseUtp(s1) else s1
  }

  function OnEof(s: State): State {
    var s1 := Says(s.(c := s.c.(wq := [])), Dropped(s.c.wq));
    var s2 := if s1.c.status != Stopped then CloseUtp(s1) else s1;
    s2.(c := s2.c.(writable := false, eofSeen := true))
  }

  function OnConnect(s: State): State {
    var s1 := if s.c.status == ConnectPending && s.c.callerRef.Some?
              then Says(s, CallReply(ToConnected, s.c.callerRef, ConnectOk)) else s;
    s1.(c := s1.c.(status := Connected, writable := true))
  }

  /** DESTROYING on a connection being closed: answers the closer, or tells the connected process. */
  function ReportClosed(s: State): State {
    if s.b.closePending && s.c.callerRef.Some? then
      var dest := if s.c.caller != NilTerm then ToCaller(s.c.caller) else ToConnected;
      var t := Says(s, CallReply(dest, s.c.callerRef, CloseOk));
      State(t.c.(caller := NilTerm), t.b.(closePending := false))
    else if s.b.opts.active != ActiveFalse then s.(b := EmitClosedMessage(s.b))
    else s
  }

  function OnDestroying(s: State): State {
    var s1 := s.(b := s.b.(selected := false));
    if s.c.status == Closing then
      var s2 := ReportClosed(s1);
      s2.(c := s2.c.(writable := false, status := Destroying, eofSeen := false))
    else if s.c.status == Stopped then Says(s1, Freed)
    else s1
  }

  function OnError(s: State, e: Errno): State {
    var s1 := s.(c := s.c.(errorCode := e));
    if s.c.status == ConnectPending then
      var s2 := s1.(c := s1.c.(status := ConnectFailed));
      if s.c.callerRef.Some? then Says(s2, CallReply(ToConnected, s.c.callerRef, ConnectError(e))) else s2
    else if s.c.status == Connected && e == ConnReset then CloseUtp(s1)
    else if s.c.status == Connected && s.b.opts.active != ActiveFalse then Says(s1, ErrorMessage(e))
    else s1
  }

  function OnIncoming(s: State): State {
    if s.c.role == Server && !s.c.utp
    then Says(s.(c := s.c.(utp := true, writable := true, status := Connected)), Acquired)
    else s
  }

  // ---------------------------------------------------------------- events

  datatype Event =
    // port commands
    | EvOutputv(pid: Pid, data: seq<byte>, up: Uptake)
    | EvRecv(pid: Pid, ref: Ref, len: nat)
    | EvCancelSend
    | EvCancelRecv
    | EvClose(pid: Pid, ref: Ref)
    | EvSetOpts(bin: seq<byte>)
    | EvValidate(ref: Ref)
    | EvStop
    // libutp callbacks
    | EvRead(bytes: seq<byte>)
    | EvWritable(up: Uptake)
    | EvEof
    | EvConnect
    | EvDestroying
    | EvError(e: Errno)
    | EvIncoming

  function Step(s: State, e: Event): State {
    match e
    case EvOutputv(pid, data, up) => Outputv(s, pid, data, up)
    case EvRecv(pid, ref, len) => Recv(s, pid, ref, len)
    case EvCancelSend => CancelSend(s)
    case EvCancelRecv => ResetWaitingRecv(s)
    case EvClose(pid, ref) => Close(s, pid, ref)
    case EvSetOpts(bin) => SetOpts(s, bin)
    case EvValidate(ref) => ConnectValidate(s, ref)
    case EvStop => Stop(s)
    case EvRead(bytes) => OnRead(s, bytes)
    case EvWritable(up) => OnWritable(s, up)
    case EvEof => OnEof(s)
    case EvConnect => OnConnect(s)
    case EvDestroying => OnDestroying(s)
    case EvError(err) => OnError(s, err)
    case EvIncoming => OnIncoming(s)
  }
}
