/** What can be seen of every step from outside, channel by channel: notices and command results, messages to
    senders, the handle, and the status behind them. */
module Observed {
  import opened Bytes
  import opened Options
  import opened Driver
  import opened Lifecycle
  import opened ReadSide
  import opened SharedCaller

  // ---------------------------------------------------------------- notices and command results

  /** A pending close that has nothing left to deliver. */
  predicate ReportDue(s: State) { s.b.closePending && s.b.portq == [] }

  /** The changes of active on which setopts looks at the queue: to true, and from false to once if anything has
      been read. */
  predicate LooksAtQueue(s: State, active: Active) {
    active == ActiveTrue || (s.b.opts.active == ActiveFalse && active == ActiveOnce && s.b.readCount != [])
  }

  /** What the step e from s to t tells the connected process, signals to libutp, and returns. */
  function Notices(s: State, e: Event, t: State): seq<Notice> {
    match e
    case EvRecv(_, _, _) =>
      if s.b.opts.active != ActiveFalse then [RecvReturned(false)]
      else if ReportDue(s) then [Closed, RecvReturned(true)]
      else (if s.b.portq != [] && t.b.portq == [] then [Drained] else []) + [RecvReturned(true)]
    case EvRead(bytes) => if bytes != [] && t.b.portq == [] then [Drained] else []
    case EvSetOpts(bin) =>
      (match Merge(s.b.opts, bin)
       case None => [SetOptsReturned(false)]
       case Some(o) => [SetOptsReturned(true)] + (if ReportDue(s) && LooksAtQueue(s, o.active) then [Closed] else []))
    case EvClose(_, _) =>
      [CloseReturned(!s.b.closePending && (s.c.eofSeen || (s.c.status != Closing && s.c.status != Destroying)))]
    case EvValidate(_) =>
      [ValidateReturned(
         if s.c.status == ConnectPending then ValidateWait
         else if s.c.status == ConnectFailed then ValidateError(s.c.errorCode)
         else if s.c.status == Connected then ValidateOk else ValidateIllegal)]
    case EvDestroying =>
      var unanswered := s.c.status == Closing && !(s.b.closePending && s.c.callerRef.Some?);
      if unanswered && s.b.opts.active != ActiveFalse && s.b.portq == [] then [Closed] else []
    case EvError(err) =>
      if s.c.status == Connected && err != ConnReset && s.b.opts.active != ActiveFalse then [Error(err)] else []
    case EvOutputv(_, _, _) => []
    case EvCancelSend => []
    case EvCancelRecv => []
    case EvStop => []
    case EvWritable(_) => []
    case EvEof => []
    case EvConnect => []
    case EvIncoming => []
  }

  predicate Notified(s: State, e: Event, t: State) {
    t.b.hist.notices == s.b.hist.notices + Notices(s, e, t)
  }

  lemma {:induction false} DeliveryIsNoNotice(b: Base, r: Receiver, parts: seq<seq<byte>>)
    ensures DeliverAll(b, r, parts).hist.notices == b.hist.notices
    ensures DeliverAll(b, r, parts).hist.calls.closeReports == b.hist.calls.closeReports
    decreases |parts|
  {
    if parts != [] {
      DeliveryIsNoNotice(Deliver(b, r, parts[0]), r, parts[1..]);
    }
  }

  /** An emission tells the connected process of a close that is due, and of nothing else. */
  lemma EmitNotices(b: Base, len: nat, r: Receiver)
    ensures var e := EmitReadBuffer(b, len, r);
            && e.b.hist.notices == b.hist.notices + (if CloseToReport(b) then [Closed] else [])
            && e.b.hist.calls.closeReports == b.hist.calls.closeReports + (if CloseToReport(b) then 1 else 0)
            && e.b.closePending == (b.closePending && !CloseToReport(b))
            && (CloseToReport(b) ==> !e.sent && e.qsize == 1 && e.b.portq == [])
            && (!CloseToReport(b) ==> e.qsize == |e.b.portq| && (e.sent <==> Enough(b, len)))
            && (!e.sent ==> e.b.portq == b.portq)
  {
    if !CloseToReport(b) && Enough(b, len) {
      var t := Take(b, len);
      hide Take;
      DeliveryIsNoNotice(b.(portq := t.portq, readCount := t.readCount), r, t.parts);
      DeliverAllKeeps(b.(portq := t.portq, readCount := t.readCount), r, t.parts);
    } else {
      assert b.hist.notices + [] == b.hist.notices;
    }
  }

  lemma RecvNotified(s: State, pid: Pid, ref: Ref, len: nat)
    ensures Notified(s, EvRecv(pid, ref, len), Recv(s, pid, ref, len))
  {
    hide EmitReadBuffer, Enough;
    EmitNotices(s.b, len, CallReceiver(Proc(pid), Some(ref)));
    EnoughIsSome(s.b, len);
  }

  lemma EnoughIsSome(b: Base, len: nat)
    ensures Enough(b, len) ==> b.portq != []
  {
  }

  lemma ReadNotified(s: State, bytes: seq<byte>)
    ensures Notified(s, EvRead(bytes), OnRead(s, bytes))
  {
    hide EmitReadBuffer, Enough;
    var b1 := Queued(s.b, bytes);
    EmitNotices(b1, s.c.recvLen, CallReceiver(s.c.caller, s.c.callerRef));
    EmitNotices(b1, 0, ConnectedReceiver);
    assert s.b.hist.notices + [] == s.b.hist.notices;
  }

  lemma SetOptsNotified(s: State, bin: seq<byte>)
    ensures Notified(s, EvSetOpts(bin), SetOpts(s, bin))
  {
    hide EmitReadBuffer, Enough, Merge;
    if Merge(s.b.opts, bin).Some? {
      var opts := Merge(s.b.opts, bin).value;
      EmitNotices(Emit(s.b.(opts := opts), OptionsSet(opts.active)), 0, ConnectedReceiver);
    }
  }

  lemma WritingNotified(s: State, pid: Pid, data: seq<byte>, up: Uptake)
    ensures Notified(s, EvOutputv(pid, data, up), Outputv(s, pid, data, up))
  {
    hide Frame;
    assert s.b.hist.notices + [] == s.b.hist.notices;
  }

  lemma WritableNotified(s: State, up: Uptake)
    ensures Notified(s, EvWritable(up), OnWritable(s, up))
  {
    var t := ResumeWriting(s, up);
    assert t.b.hist.notices == s.b.hist.notices;
    hide ResumeWriting;
    assert s.b.hist.notices + [] == s.b.hist.notices;
  }

  lemma CloseNotified(s: State, pid: Pid, ref: Ref)
    ensures Notified(s, EvClose(pid, ref), Close(s, pid, ref))
  {
  }

  lemma EndNotified(s: State)
    ensures Notified(s, EvStop, Stop(s))
    ensures Notified(s, EvEof, OnEof(s))
  {
    assert s.b.hist.notices + [] == s.b.hist.notices;
  }

  lemma DestroyingNotified(s: State)
    ensures Notified(s, EvDestroying, OnDestroying(s))
  {
    assert s.b.hist.notices + [] == s.b.hist.notices;
  }

  lemma ConnectNotified(s: State, ref: Ref)
    ensures Notified(s, EvValidate(ref), ConnectValidate(s, ref)) && Notified(s, EvConnect, OnConnect(s))
  {
    assert s.b.hist.notices + [] == s.b.hist.notices;
  }

  lemma ErrorNotified(s: State, e: Errno)
    ensures Notified(s, EvError(e), OnError(s, e)) && Notified(s, EvIncoming, OnIncoming(s))
  {
    assert s.b.hist.notices + [] == s.b.hist.notices;
  }

  /** Every step tells, signals and returns exactly this. Among others: utp_closed goes out exactly when a recv or
      setopts takes back a pending close on an empty queue, and when DESTROYING on a closing connection finds
      nobody to answer and an active socket with nothing queued; utp_error carries its own code and goes out
      exactly for an error other than a reset on a connected, active socket; UTP_RBDrained is signalled exactly
      when a read or recv empties the queue; recv is refused exactly on an active socket and setopts exactly if
      the options are. */
  lemma NoticesExactly(s: State, e: Event)
    ensures Step(s, e).b.hist.notices == s.b.hist.notices + Notices(s, e, Step(s, e))
  {
    hide Outputv, Recv, OnRead, SetOpts, Close, Stop, OnWritable, OnEof, OnDestroying, OnError, ConnectValidate,
         OnConnect, OnIncoming, Notices;
    match e
    case EvOutputv(pid, data, up) => WritingNotified(s, pid, data, up);
    case EvRecv(pid, ref, len) => RecvNotified(s, pid, ref, len);
    case EvRead(bytes) => ReadNotified(s, bytes);
    case EvSetOpts(bin) => SetOptsNotified(s, bin);
    case EvClose(pid, ref) => CloseNotified(s, pid, ref);
    case EvWritable(up) => WritableNotified(s, up);
    case EvStop => EndNotified(s);
    case EvEof => EndNotified(s);
    case EvDestroying => DestroyingNotified(s);
    case EvValidate(ref) => ConnectNotified(s, ref);
    case EvConnect => ConnectNotified(s, 0);
    case EvError(err) => ErrorNotified(s, err);
    case EvIncoming => ErrorNotified(s, ConnReset);
    case EvCancelSend => CancelNotified(s);
    case EvCancelRecv => CancelNotified(s);
  }

  lemma CancelNotified(s: State)
    ensures Notified(s, EvCancelSend, CancelSend(s)) && Notified(s, EvCancelRecv, ResetWaitingRecv(s))
  {
    assert s.b.hist.notices + [] == s.b.hist.notices;
  }

  // ---------------------------------------------------------------- the handle and the handler

  /** A close that waits now. */
  predicate StartsClosing(s: State) {
    !s.b.closePending && (s.c.eofSeen || (s.c.status != Closing && s.c.status != Destroying))
  }

  /** The steps that close the handle: a close, a stop or a reset that finds nothing queued, an EOF, and the
      WRITABLE that drains the queue of a pending close. */
  predicate ClosesHandle(s: State, e: Event, t: State) {
    s.c.utp
    && match e
       case EvClose(_, _) => StartsClosing(s) && s.c.wq == []
       case EvStop => s.c.status != Destroying && s.c.wq == []
       case EvEof => s.c.status != Stopped && s.c.status != Destroying
       case EvWritable(_) => s.b.closePending && s.c.status != Destroying && t.c.wq == []
       case EvError(err) => err == ConnReset && s.c.status == Connected && s.c.wq == []
       case _ => false
  }

  predicate TakesHandle(s: State, e: Event) {
    e.EvIncoming? && s.c.role == Server && !s.c.utp
  }

  predicate FreesHandler(s: State, e: Event) {
    (e.EvStop? && s.c.status == Destroying) || (e.EvDestroying? && s.c.status == Stopped)
  }

  /** The handle is closed, taken, and the handler freed and deselected, in exactly these steps. */
  predicate HandleMoves(s: State, e: Event, t: State) {
    var a, b := s.b.hist.link, t.b.hist.link;
    && b.closes == a.closes + (if ClosesHandle(s, e, t) then [0] else [])
    && t.c.utp == ((s.c.utp && !ClosesHandle(s, e, t)) || TakesHandle(s, e))
    && b.acquired == a.acquired + (if TakesHandle(s, e) then 1 else 0)
    && b.freed == a.freed + (if FreesHandler(s, e) then 1 else 0)
    && t.b.selected == (s.b.selected && !e.EvDestroying?)
  }

  /** The status after a step. */
  function NextStatus(s: State, e: Event, t: State): Status {
    match e
    case EvClose(_, _) => if StartsClosing(s) then Closing else s.c.status
    case EvValidate(_) => if s.c.status == ConnectFailed then NotConnected else s.c.status
    case EvStop => if s.c.status == Destroying then Destroying else Stopped
    case EvConnect => Connected
    case EvIncoming => if TakesHandle(s, e) then Connected else s.c.status
    case EvError(_) =>
      if s.c.status == ConnectPending then ConnectFailed else if ClosesHandle(s, e, t) then Closing else s.c.status
    case EvDestroying => if s.c.status == Closing then Destroying else s.c.status
    case _ => if ClosesHandle(s, e, t) then Closing else s.c.status
  }

  /** Whether an EOF is remembered after a step. */
  predicate RemembersEof(s: State, e: Event) {
    match e
    case EvEof => true
    case EvClose(_, _) => s.c.eofSeen && !StartsClosing(s)
    case EvDestroying => s.c.eofSeen && s.c.status != Closing
    case _ => s.c.eofSeen
  }

  predicate StatusMoves(s: State, e: Event, t: State) {
    && t.c.status == NextStatus(s, e, t)
    && t.c.eofSeen == RemembersEof(s, e)
    && t.b.hist.calls.closeWaits == s.b.hist.calls.closeWaits + (if e.EvClose? && StartsClosing(s) then 1 else 0)
  }

  predicate Moves(s: State, e: Event, t: State) {
    HandleMoves(s, e, t) && StatusMoves(s, e, t)
  }

  lemma CloseMoves(s: State, pid: Pid, ref: Ref)
    ensures Moves(s, EvClose(pid, ref), Close(s, pid, ref))
  {
    hide HandleMoves, StatusMoves, Close;
    CloseHandle(s, pid, ref);
    CloseStatus(s, pid, ref);
  }

  lemma CloseHandle(s: State, pid: Pid, ref: Ref)
    ensures HandleMoves(s, EvClose(pid, ref), Close(s, pid, ref))
  {
    assert s.b.hist.link.closes + [] == s.b.hist.link.closes;
  }

  lemma CloseStatus(s: State, pid: Pid, ref: Ref)
    ensures StatusMoves(s, EvClose(pid, ref), Close(s, pid, ref))
  {
  }

  lemma StopMoves(s: State)
    ensures Moves(s, EvStop, Stop(s))
  {
    assert s.b.hist.link.closes + [] == s.b.hist.link.closes;
  }

  lemma EofMoves(s: State)
    ensures Moves(s, EvEof, OnEof(s))
  {
    assert s.b.hist.link.closes + [] == s.b.hist.link.closes;
  }

  lemma DestroyingMoves(s: State)
    ensures Moves(s, EvDestroying, OnDestroying(s))
  {
    hide HandleMoves, StatusMoves, OnDestroying;
    DestroyingHandle(s);
    DestroyingStatus(s);
  }

  lemma DestroyingHandle(s: State)
    ensures HandleMoves(s, EvDestroying, OnDestroying(s))
  {
    hide ClosesHandle;
    DestroyingClosesNothing(s);
    assert s.b.hist.link.closes + [] == s.b.hist.link.closes;
  }

  lemma DestroyingStatus(s: State)
    ensures StatusMoves(s, EvDestroying, OnDestroying(s))
  {
    hide ClosesHandle;
    DestroyingClosesNothing(s);
  }

  lemma DestroyingClosesNothing(s: State)
    ensures !ClosesHandle(s, EvDestroying, OnDestroying(s))
  {
  }

  /** What resuming to write leaves alone. */
  lemma ResumeKeepsConn(s: State, up: Uptake)
    ensures var t := ResumeWriting(s, up);
            t.c == s.c.(wq := t.c.wq, writable := t.c.writable, senderWaiting := t.c.senderWaiting)
  {
    hide Emit;
  }

  lemma ResumeKeepsLink(s: State, up: Uptake)
    ensures var t := ResumeWriting(s, up);
            && t.b.closePending == s.b.closePending && t.b.selected == s.b.selected
            && t.b.hist.link.closes == s.b.hist.link.closes && t.b.hist.link.acquired == s.b.hist.link.acquired
            && t.b.hist.link.freed == s.b.hist.link.freed && t.b.hist.calls == s.b.hist.calls
  {
  }

  lemma WritableMoves(s: State, up: Uptake)
    ensures Moves(s, EvWritable(up), OnWritable(s, up))
  {
    hide ResumeWriting;
    ResumeKeepsConn(s, up);
    ResumeKeepsLink(s, up);
    assert s.b.hist.link.closes + [] == s.b.hist.link.closes;
  }

  lemma ErrorMoves(s: State, e: Errno)
    ensures Moves(s, EvError(e), OnError(s, e))
  {
    hide HandleMoves, StatusMoves, OnError;
    ErrorHandle(s, e);
    ErrorStatus(s, e);
  }

  lemma ErrorHandle(s: State, e: Errno)
    ensures HandleMoves(s, EvError(e), OnError(s, e))
  {
    assert s.b.hist.link.closes + [] == s.b.hist.link.closes;
  }

  lemma ErrorStatus(s: State, e: Errno)
    ensures StatusMoves(s, EvError(e), OnError(s, e))
  {
  }

  lemma ValidateMoves(s: State, ref: Ref)
    ensures Moves(s, EvValidate(ref), ConnectValidate(s, ref))
  {
    assert s.b.hist.link.closes + [] == s.b.hist.link.closes;
  }

  lemma ConnectMoves(s: State)
    ensures Moves(s, EvConnect, OnConnect(s))
  {
    assert s.b.hist.link.closes + [] == s.b.hist.link.closes;
  }

  lemma IncomingMoves(s: State)
    ensures Moves(s, EvIncoming, OnIncoming(s))
  {
    assert s.b.hist.link.closes + [] == s.b.hist.link.closes;
  }

  lemma OutputvMoves(s: State, pid: Pid, data: seq<byte>, up: Uptake)
    ensures Moves(s, EvOutputv(pid, data, up), Outputv(s, pid, data, up))
  {
    hide HandleMoves, StatusMoves, Outputv;
    OutputvHandle(s, pid, data, up);
    OutputvStatus(s, pid, data, up);
  }

  lemma OutputvHandle(s: State, pid: Pid, data: seq<byte>, up: Uptake)
    ensures HandleMoves(s, EvOutputv(pid, data, up), Outputv(s, pid, data, up))
  {
    hide Frame;
    assert s.b.hist.link.closes + [] == s.b.hist.link.closes;
  }

  lemma OutputvStatus(s: State, pid: Pid, data: seq<byte>, up: Uptake)
    ensures StatusMoves(s, EvOutputv(pid, data, up), Outputv(s, pid, data, up))
  {
    hide Frame;
  }

  lemma CancelMoves(s: State)
    ensures Moves(s, EvCancelSend, CancelSend(s)) && Moves(s, EvCancelRecv, ResetWaitingRecv(s))
  {
    assert s.b.hist.link.closes + [] == s.b.hist.link.closes;
  }

  lemma ReadingMoves(s: State, pid: Pid, ref: Ref, len: nat, bytes: seq<byte>)
    ensures Moves(s, EvRecv(pid, ref, len), Recv(s, pid, ref, len))
    ensures Moves(s, EvRead(bytes), OnRead(s, bytes))
  {
    hide Recv, OnRead;
    RecvFrame(s, pid, ref, len);
    ReadFrame(s, bytes);
    assert s.b.hist.link.closes + [] == s.b.hist.link.closes;
  }

  lemma SetOptsMoves(s: State, bin: seq<byte>)
    ensures Moves(s, EvSetOpts(bin), SetOpts(s, bin))
  {
    hide EmitReadBuffer, Merge;
    if Merge(s.b.opts, bin).Some? {
      var opts := Merge(s.b.opts, bin).value;
      EmitFrame(Emit(s.b.(opts := opts), OptionsSet(opts.active)), 0, ConnectedReceiver);
    }
    assert s.b.hist.link.closes + [] == s.b.hist.link.closes;
  }

  /** In every step the handle is closed, each time with nothing queued, taken, and the handler freed, and its
      status and its memory of an EOF move, in exactly these cases. */
  lemma MovesExactly(s: State, e: Event)
    ensures Moves(s, e, Step(s, e))
  {
    hide Moves, Outputv, Recv, OnRead, SetOpts, Close, Stop, OnWritable, OnEof, OnDestroying, OnError,
         ConnectValidate, OnConnect,
         OnIncoming;
    match e
    case EvOutputv(pid, data, up) => OutputvMoves(s, pid, data, up);
    case EvRecv(pid, ref, len) => ReadingMoves(s, pid, ref, len, []);
    case EvRead(bytes) => ReadingMoves(s, 0, 0, 0, bytes);
    case EvSetOpts(bin) => SetOptsMoves(s, bin);
    case EvClose(pid, ref) => CloseMoves(s, pid, ref);
    case EvWritable(up) => WritableMoves(s, up);
    case EvStop => StopMoves(s);
    case EvEof => EofMoves(s);
    case EvDestroying => DestroyingMoves(s);
    case EvValidate(ref) => ValidateMoves(s, ref);
    case EvConnect => ConnectMoves(s);
    case EvIncoming => IncomingMoves(s);
    case EvError(err) => ErrorMoves(s, err);
    case EvCancelSend => CancelMoves(s);
    case EvCancelRecv => CancelMoves(s);
  }

  // ---------------------------------------------------------------- messages to senders

  /** What a send is told: not connected, ok, timed out, or wait. */
  function SendAnswer(s: State): SendResult {
    if s.c.status != Connected || !s.c.utp then SendNotConn
    else if s.c.writable then SendOk
    else if s.b.opts.sendTmout == 0 then SendTimedOut
    else if s.b.opts.sendTmout == -1 then SendWait
    else SendWaitFor(s.b.opts.sendTmout)
  }

  function Sends(s: State, e: Event, t: State): seq<SendMsg> {
    match e
    case EvOutputv(pid, _, _) => [SendMsg(Proc(pid), SendAnswer(s))]
    case EvWritable(_) => if s.c.senderWaiting && t.c.writable then [SendMsg(s.c.caller, SendRetry)] else []
    case _ => []
  }

  /** Whether the connection takes data after a step. */
  predicate NextWritable(s: State, e: Event) {
    match e
    case EvOutputv(_, _, up) => if SendAnswer(s) == SendOk then up.ok else s.c.writable
    case EvWritable(up) => s.c.wq == [] || up.ok
    case EvEof => false
    case EvConnect => true
    case EvIncoming => s.c.writable || TakesHandle(s, e)
    case EvDestroying => s.c.writable && s.c.status != Closing
    case _ => s.c.writable
  }

  predicate WritingMoves(s: State, e: Event, t: State) {
    && t.b.hist.link.sends == s.b.hist.link.sends + Sends(s, e, t)
    && t.c.writable == NextWritable(s, e)
    && t.b.hist.link.accepted
       == s.b.hist.link.accepted + (if e.EvOutputv? && SendAnswer(s) == SendOk then [e.data] else [])
  }

  lemma OutputvWritingMoves(s: State, pid: Pid, data: seq<byte>, up: Uptake)
    ensures WritingMoves(s, EvOutputv(pid, data, up), Outputv(s, pid, data, up))
  {
    hide Frame;
    assert s.b.hist.link.accepted + [] == s.b.hist.link.accepted;
  }

  lemma WritableWritingMoves(s: State, up: Uptake)
    ensures WritingMoves(s, EvWritable(up), OnWritable(s, up))
  {
    var t := ResumeWriting(s, up);
    assert WritingMoves(s, EvWritable(up), t) by {
      assert s.b.hist.link.accepted + [] == s.b.hist.link.accepted && s.b.hist.link.sends + [] == s.b.hist.link.sends;
    }
    hide ResumeWriting;
    assert CloseUtp(t).b.hist.link.sends == t.b.hist.link.sends && CloseUtp(t).c.writable == t.c.writable;
  }

  /** A step that accepts nothing and sends nothing to senders. */
  predicate QuietWriting(s: State, e: Event, t: State) {
    && t.b.hist.link.sends == s.b.hist.link.sends && t.b.hist.link.accepted == s.b.hist.link.accepted
    && t.c.writable == NextWritable(s, e)
  }

  lemma CloseWritesNothing(s: State, pid: Pid, ref: Ref)
    ensures QuietWriting(s, EvClose(pid, ref), Close(s, pid, ref))
    ensures QuietWriting(s, EvStop, Stop(s))
  {
  }

  lemma EofWritesNothing(s: State)
    ensures QuietWriting(s, EvEof, OnEof(s))
  {
  }

  lemma DestroyingWritesNothing(s: State)
    ensures QuietWriting(s, EvDestroying, OnDestroying(s))
  {
  }

  lemma ConnectWritesNothing(s: State, ref: Ref)
    ensures QuietWriting(s, EvValidate(ref), ConnectValidate(s, ref))
    ensures QuietWriting(s, EvConnect, OnConnect(s))
  {
  }

  lemma ErrorWritesNothing(s: State, e: Errno)
    ensures QuietWriting(s, EvError(e), OnError(s, e))
    ensures QuietWriting(s, EvIncoming, OnIncoming(s))
  {
  }

  lemma ReadingWritesNothing(s: State, pid: Pid, ref: Ref, len: nat, bytes: seq<byte>)
    ensures QuietWriting(s, EvRecv(pid, ref, len), Recv(s, pid, ref, len))
    ensures QuietWriting(s, EvRead(bytes), OnRead(s, bytes))
  {
    hide Recv, OnRead;
    RecvFrame(s, pid, ref, len);
    ReadFrame(s, bytes);
  }

  lemma SetOptsWritesNothing(s: State, bin: seq<byte>)
    ensures QuietWriting(s, EvSetOpts(bin), SetOpts(s, bin))
  {
    hide EmitReadBuffer, Merge;
    if Merge(s.b.opts, bin).Some? {
      var opts := Merge(s.b.opts, bin).value;
      EmitFrame(Emit(s.b.(opts := opts), OptionsSet(opts.active)), 0, ConnectedReceiver);
    }
  }

  /** In every step a send gets exactly one answer, the one its situation calls for, and its data is accepted
      exactly with ok; a retry goes out exactly when a WRITABLE leaves the connection writable for somebody who
      waits; nothing else is sent to senders. */
  lemma SendsExactly(s: State, e: Event)
    ensures WritingMoves(s, e, Step(s, e))
  {
    hide QuietWriting, Outputv, Recv, OnRead, SetOpts, Close, Stop, OnWritable, OnEof, OnDestroying, OnError,
         ConnectValidate, OnConnect, OnIncoming, WritingMoves;
    match e
    case EvOutputv(pid, data, up) => OutputvWritingMoves(s, pid, data, up);
    case EvWritable(up) => WritableWritingMoves(s, up);
    case _ =>
      RestWritesNothing(s, e);
      QuietMoves(s, e, Step(s, e));
  }

  lemma QuietMoves(s: State, e: Event, t: State)
    requires QuietWriting(s, e, t) && !e.EvOutputv? && !e.EvWritable?
    ensures WritingMoves(s, e, t)
  {
    assert s.b.hist.link.sends + [] == s.b.hist.link.sends && s.b.hist.link.accepted + [] == s.b.hist.link.accepted;
  }

  lemma RestWritesNothing(s: State, e: Event)
    requires !e.EvOutputv? && !e.EvWritable?
    ensures QuietWriting(s, e, Step(s, e))
  {
    hide Outputv, Recv, OnRead, SetOpts, Close, Stop, OnWritable, OnEof, OnDestroying, OnError, ConnectValidate,
         OnConnect, OnIncoming;
    match e
    case EvRecv(pid, ref, len) => ReadingWritesNothing(s, pid, ref, len, []);
    case EvRead(bytes) => ReadingWritesNothing(s, 0, 0, 0, bytes);
    case EvSetOpts(bin) => SetOptsWritesNothing(s, bin);
    case EvClose(pid, ref) => CloseWritesNothing(s, pid, ref);
    case EvStop => CloseWritesNothing(s, 0, 0);
    case EvEof => EofWritesNothing(s);
    case EvDestroying => DestroyingWritesNothing(s);
    case EvValidate(ref) => ConnectWritesNothing(s, ref);
    case EvConnect => ConnectWritesNothing(s, 0);
    case EvError(err) => ErrorWritesNothing(s, err);
    case EvIncoming => ErrorWritesNothing(s, ConnReset);
    case EvCancelSend =>
    case EvCancelRecv =>
  }

  // ---------------------------------------------------------------- over runs

  /** Utp_closed messages among the notices. */
  function ClosedCount(notices: seq<Notice>): nat {
    if notices == [] then 0
    else ClosedCount(notices[..|notices| - 1]) + (if notices[|notices| - 1].Closed? then 1 else 0)
  }

  lemma {:induction false} ClosedCountAppend(a: seq<Notice>, b: seq<Notice>)
    ensures ClosedCount(a + b) == ClosedCount(a) + ClosedCount(b)
    decreases |b|
  {
    if b == [] {
      assert a + b == a;
    } else {
      assert (a + b)[..|a + b| - 1] == a + b[..|b| - 1];
      ClosedCountAppend(a, b[..|b| - 1]);
    }
  }

  /** A recv or setopts takes back a pending close. */
  predicate TakesBack(s: State, e: Event) {
    && ReportDue(s)
    && ((e.EvRecv? && s.b.opts.active == ActiveFalse)
        || (e.EvSetOpts? && Merge(s.b.opts, e.bin).Some? && LooksAtQueue(s, Merge(s.b.opts, e.bin).value.active)))
  }

  lemma RecvReports(s: State, pid: Pid, ref: Ref, len: nat)
    ensures Recv(s, pid, ref, len).b.hist.calls.closeReports
            == s.b.hist.calls.closeReports + (if TakesBack(s, EvRecv(pid, ref, len)) then 1 else 0)
  {
    hide EmitReadBuffer;
    EmitNotices(s.b, len, CallReceiver(Proc(pid), Some(ref)));
  }

  lemma ReadReports(s: State, bytes: seq<byte>)
    ensures OnRead(s, bytes).b.hist.calls.closeReports == s.b.hist.calls.closeReports
  {
    hide EmitReadBuffer;
    var b1 := Queued(s.b, bytes);
    EmitNotices(b1, s.c.recvLen, CallReceiver(s.c.caller, s.c.callerRef));
    EmitNotices(b1, 0, ConnectedReceiver);
  }

  lemma SetOptsReported(s: State, bin: seq<byte>)
    ensures SetOpts(s, bin).b.hist.calls.closeReports
            == s.b.hist.calls.closeReports + (if TakesBack(s, EvSetOpts(bin)) then 1 else 0)
  {
    hide EmitReadBuffer, Merge;
    if Merge(s.b.opts, bin).Some? {
      var opts := Merge(s.b.opts, bin).value;
      EmitNotices(Emit(s.b.(opts := opts), OptionsSet(opts.active)), 0, ConnectedReceiver);
    }
  }

  lemma ResumeReports(s: State, up: Uptake)
    ensures OnWritable(s, up).b.hist.calls.closeReports == s.b.hist.calls.closeReports
  {
    hide ResumeWriting;
    ResumeKeepsLink(s, up);
  }

  lemma EndReports(s: State)
    ensures OnEof(s).b.hist.calls.closeReports == s.b.hist.calls.closeReports
    ensures OnDestroying(s).b.hist.calls.closeReports == s.b.hist.calls.closeReports
  {
  }

  lemma CloseReportsNothing(s: State, pid: Pid, ref: Ref)
    ensures Stop(s).b.hist.calls.closeReports == s.b.hist.calls.closeReports
    ensures Close(s, pid, ref).b.hist.calls.closeReports == s.b.hist.calls.closeReports
  {
  }

  lemma RestReports(s: State, ref: Ref, e: Errno, pid: Pid, data: seq<byte>, up: Uptake)
    ensures ConnectValidate(s, ref).b.hist.calls.closeReports == s.b.hist.calls.closeReports
    ensures OnConnect(s).b.hist.calls.closeReports == s.b.hist.calls.closeReports
    ensures OnError(s, e).b.hist.calls.closeReports == s.b.hist.calls.closeReports
    ensures OnIncoming(s).b.hist.calls.closeReports == s.b.hist.calls.closeReports
    ensures Outputv(s, pid, data, up).b.hist.calls.closeReports == s.b.hist.calls.closeReports
  {
    hide Frame;
  }

  /** A pending close is taken back exactly in these steps. */
  lemma ReportsExactly(s: State, e: Event)
    ensures Step(s, e).b.hist.calls.closeReports == s.b.hist.calls.closeReports + (if TakesBack(s, e) then 1 else 0)
  {
    hide Outputv, Recv, OnRead, SetOpts, Close, Stop, OnWritable, OnEof, OnDestroying, OnError, ConnectValidate,
         OnConnect, OnIncoming;
    var none := Uptake([], false);
    match e
    case EvRecv(pid, ref, len) => RecvReports(s, pid, ref, len);
    case EvRead(bytes) => ReadReports(s, bytes);
    case EvSetOpts(bin) => SetOptsReported(s, bin);
    case EvWritable(up) => ResumeReports(s, up);
    case EvClose(pid, ref) => CloseReportsNothing(s, pid, ref);
    case EvStop => CloseReportsNothing(s, 0, 0);
    case EvEof => EndReports(s);
    case EvDestroying => EndReports(s);
    case EvOutputv(pid, data, up) => RestReports(s, 0, ConnReset, pid, data, up);
    case EvValidate(ref) => RestReports(s, ref, ConnReset, 0, [], none);
    case EvConnect => RestReports(s, 0, ConnReset, 0, [], none);
    case EvError(err) => RestReports(s, 0, err, 0, [], none);
    case EvIncoming => RestReports(s, 0, ConnReset, 0, [], none);
    case EvCancelSend =>
    case EvCancelRecv =>
  }

  /** The utp_closed messages of one step. */
  lemma ClosedInStep(s: State, e: Event, t: State)
    ensures ClosedCount(Notices(s, e, t)) ==
              if TakesBack(s, e) then 1 else if Notices(s, e, t) == [Closed] then 1 else 0
    ensures Notices(s, e, t) == [Closed] ==> e.EvDestroying?
  {
    assert ClosedCount([]) == 0;
    CountOne(Closed);
    CountOne(Drained);
    CountOne(RecvReturned(true));
    CountOne(RecvReturned(false));
    CountOne(SetOptsReturned(true));
    CountOne(SetOptsReturned(false));
    ClosedCountAppend([Closed], [RecvReturned(true)]);
    ClosedCountAppend([Drained], [RecvReturned(true)]);
    ClosedCountAppend([SetOptsReturned(true)], [Closed]);
    assert [Closed, RecvReturned(true)] == [Closed] + [RecvReturned(true)];
    assert [] + [RecvReturned(true)] == [RecvReturned(true)] && [SetOptsReturned(true)] + [] == [SetOptsReturned(true)];
    if e.EvClose? || e.EvValidate? || e.EvError? {
      var ns := Notices(s, e, t);
      if ns != [] {
        CountOne(ns[0]);
        assert ns == [ns[0]];
      }
    }
  }

  lemma CountOne(n: Notice)
    ensures ClosedCount([n]) == if n.Closed? then 1 else 0
  {
    assert [n][..0] == [];
    assert ClosedCount([]) == 0;
  }

  predicate ClosedAccounted(w: World) {
    var closed, reports := ClosedCount(w.s.b.hist.notices), w.s.b.hist.calls.closeReports;
    reports <= closed <= reports + (if w.env.destroyed then 1 else 0)
  }

  lemma ClosedStep(w: World, e: Event)
    requires ClosedAccounted(w) && Allowed(w, e)
    ensures ClosedAccounted(Next(w, e))
  {
    hide Step, NoEmptyFrame, UptakeAllowed, Merge, Parse, Notices, TakesBack, ClosedCount;
    NoticesExactly(w.s, e);
    ReportsExactly(w.s, e);
    ClosedInStep(w.s, e, Step(w.s, e));
    ClosedCountAppend(w.s.b.hist.notices, Notices(w.s, e, Step(w.s, e)));
    TakesBackWhat(w.s, e);
  }

  lemma TakesBackWhat(s: State, e: Event)
    ensures TakesBack(s, e) ==> e.EvRecv? || e.EvSetOpts?
  {
  }

  lemma {:induction false} ClosedRun(w: World, es: seq<Event>)
    requires ClosedAccounted(w) && AllowedRun(w, es)
    ensures ClosedAccounted(Run(w, es))
    decreases |es|
  {
    hide ClosedAccounted, Next, Allowed;
    if es != [] {
      ClosedStep(w, es[0]);
      ClosedRun(Next(w, es[0]), es[1..]);
    }
  }

  /** Over every run the closes taken back and the utp_closed messages match one to one, but for one message that
      DESTROYING may send on a connection nobody asked to close. */
  lemma ClosedMessages(w: World)
    requires Reachable(w)
    ensures var closed := ClosedCount(w.s.b.hist.notices);
            var reports := w.s.b.hist.calls.closeReports;
            reports <= closed <= reports + (if w.env.destroyed then 1 else 0)
  {
    var role, opts, es :|
      PlainOptions(opts) && AllowedRun(Start(role, opts), es) && w == Run(Start(role, opts), es);
    StartClosed(role, opts);
    hide Start, ClosedAccounted;
    ClosedRun(Start(role, opts), es);
    AccountedMeans(w);
  }

  lemma AccountedMeans(w: World)
    requires ClosedAccounted(w)
    ensures var closed := ClosedCount(w.s.b.hist.notices);
            var reports := w.s.b.hist.calls.closeReports;
            reports <= closed <= reports + (if w.env.destroyed then 1 else 0)
  {
  }

  lemma StartClosed(role: Role, opts: SockOpts)
    ensures ClosedAccounted(Start(role, opts))
  {
  }

  // ---------------------------------------------------------------- when a close waits

  /** An EOF has come, and since then neither a close that waited nor a DESTROYING that ended a closing. */
  predicate EofSince(w: World, es: seq<Event>)
    decreases |es|
  {
    if es == [] then false
    else
      var front, last := es[..|es| - 1], es[|es| - 1];
      var before := Run(w, front);
      || last.EvEof?
      || (EofSince(w, front)
          && !(last.EvClose? && Next(before, last).s.b.hist.calls.closeWaits > before.s.b.hist.calls.closeWaits)
          && !(last.EvDestroying? && before.s.c.status == Closing))
  }

  lemma {:induction false} EofRemembered(w: World, es: seq<Event>)
    requires AllowedRun(w, es) && !w.s.c.eofSeen
    ensures Run(w, es).s.c.eofSeen <==> EofSince(w, es)
    decreases |es|
  {
    if es != [] {
      var front, last := es[..|es| - 1], es[|es| - 1];
      RunSplit(w, es);
      EofRemembered(w, front);
      var before := Run(w, front);
      assert Next(before, last).s == Step(before.s, last);
      hide Step, Run, AllowedRun, Allowed;
      MovesExactly(before.s, last);
    }
  }

  /** A close has been asked for or the handle closed exactly if the status says so. */
  predicate ClosingNoted(w: World) {
    var asked := w.s.b.hist.calls.closeWaits > 0 || w.s.b.hist.link.closes != [];
    && (asked ==> Finished(w.s.c.status))
    && (w.s.c.status == Closing || w.s.c.status == Destroying ==> asked)
  }

  lemma ClosingNotedStep(w: World, e: Event)
    requires Inv(w) && ClosingNoted(w) && Allowed(w, e)
    ensures ClosingNoted(Next(w, e))
  {
    InvParts(w);
    assert Next(w, e).s == Step(w.s, e);
    hide Step, Inv, NoEmptyFrame, UptakeAllowed, Merge, Parse;
    MovesExactly(w.s, e);
  }

  lemma {:induction false} ClosingNotedRun(w: World, es: seq<Event>)
    requires Inv(w) && ClosingNoted(w) && AllowedRun(w, es)
    ensures ClosingNoted(Run(w, es)) && Inv(Run(w, es))
    decreases |es|
  {
    hide Inv, ClosingNoted, Next, Allowed;
    if es != [] {
      StepInv(w, es[0]);
      ClosingNotedStep(w, es[0]);
      ClosingNotedRun(Next(w, es[0]), es[1..]);
    }
  }

  /** Over every run of an open port, a close waits exactly if no earlier one is pending and either nobody has asked
      for a close and the handle was not closed, or an EOF has come since the last close that waited. */
  lemma CloseWaitsExactly(role: Role, opts: SockOpts, es: seq<Event>, pid: Pid, ref: Ref)
    requires PlainOptions(opts) && AllowedRun(Start(role, opts), es) && !Run(Start(role, opts), es).env.stopped
    ensures var w := Run(Start(role, opts), es);
            var calls, link := w.s.b.hist.calls, w.s.b.hist.link;
            var waits := && calls.closeWaits == calls.closeOks + calls.closeReports
                         && ((calls.closeWaits == 0 && link.closes == []) || EofSince(Start(role, opts), es));
            && Close(w.s, pid, ref).b.hist.calls.closeWaits == calls.closeWaits + (if waits then 1 else 0)
            && Close(w.s, pid, ref).b.hist.notices == w.s.b.hist.notices + [CloseReturned(waits)]
  {
    var w0 := Start(role, opts);
    StartInv(role, opts);
    assert ClosingNoted(w0) && !w0.s.c.eofSeen;
    ClosingNotedRun(w0, es);
    EofRemembered(w0, es);
    var w := Run(w0, es);
    InvParts(w);
    hide Start, Run, AllowedRun, Inv, EofSince, Close;
    CloseNotified(w.s, pid, ref);
    CloseMoves(w.s, pid, ref);
  }
}
