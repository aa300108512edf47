/** Blocking calls against a port handler, one at a time: every {Ref, Reply} answers the call that waits
    for it, and a connect attempt's outcome is learned once. */
module BlockingCalls {
  import opened Bytes
  import opened Options
  import opened Driver
  import opened Lifecycle
  import opened ReadSide

  datatype Kind = Connecting | Receiving | Ending | Sending

  /** A call a process has made on the socket, where its reply has to go, the length it asked for if it is a
      recv, and what was sent in reply. */
  datatype Call = Call(kind: Kind, dest: Dest, ref: Option<Ref>, len: nat, replies: seq<CallMsg>)

  /** The port, the calls so far, whether the last of them has yet to return, and how the connect attempt
      went: what connect_validate returned, the first event that decided the attempt, and the last error
      before connect_validate. */
  datatype Session = Session(
    w: World, calls: seq<Call>, waiting: bool,
    verdict: Option<ValidateAnswer>, decided: Option<Outcome>, lastError: Errno)

  /** A port event, or the return of a call to its caller. */
  datatype SessionEvent = Port(e: Event) | Return

  function Begin(role: Role, opts: SockOpts): Session {
    Session(Start(role, opts), [], false, None, None, OtherError(0))
  }

  // ---------------------------------------------------------------- the discipline

  /** The last call. */
  function Last(x: Session): Call
    requires x.calls != []
  {
    x.calls[|x.calls| - 1]
  }

  predicate Outstanding(x: Session, kind: Kind) {
    x.waiting && x.calls != [] && Last(x).kind == kind
  }

  predicate Fresh(calls: seq<Call>, ref: Ref) {
    forall i :: 0 <= i < |calls| ==> calls[i].ref != Some(ref)
  }

  /** A call may start: none is outstanding, and a client has validated its connection first. */
  predicate Ready(x: Session) {
    !x.waiting && (x.w.s.c.role == Server || x.verdict.Some?)
  }

  /** One blocking call at a time, each with a reference of its own; connect validates once, before
      anything else; a cancel comes from the call it cancels; send may command the port repeatedly. */
  predicate Disciplined(x: Session, e: Event) {
    match e
    case EvOutputv(pid, _, _) => Ready(x) || (Outstanding(x, Sending) && Last(x).dest == ToCaller(Proc(pid)))
    case EvRecv(_, ref, _) => Ready(x) && Fresh(x.calls, ref)
    case EvClose(_, ref) => Ready(x) && Fresh(x.calls, ref)
    case EvValidate(ref) => !x.waiting && x.verdict.None? && Fresh(x.calls, ref)
    case EvCancelRecv => Outstanding(x, Receiving)
    case EvCancelSend => Outstanding(x, Sending)
    case _ => true
  }

  predicate SessionAllowed(x: Session, ev: SessionEvent) {
    match ev
    case Port(e) => Allowed(x.w, e) && Disciplined(x, e)
    case Return => x.waiting && x.calls != [] && (Last(x).kind == Sending || Last(x).replies != [])
  }

  /** The calls, with the one that e makes. */
  function Issued(x: Session, e: Event): seq<Call> {
    match e
    case EvOutputv(pid, _, _) =>
      if x.waiting then x.calls else x.calls + [Call(Sending, ToCaller(Proc(pid)), None, 0, [])]
    case EvRecv(pid, ref, len) => x.calls + [Call(Receiving, ToCaller(Proc(pid)), Some(ref), len, [])]
    case EvClose(pid, ref) => x.calls + [Call(Ending, ToCaller(Proc(pid)), Some(ref), 0, [])]
    case EvValidate(ref) => x.calls + [Call(Connecting, ToConnected, Some(ref), 0, [])]
    case _ => x.calls
  }

  /** Whether a call is outstanding after e. */
  predicate StillWaits(x: Session, e: Event) {
    match e
    case EvOutputv(_, _, _) => true
    case EvRecv(_, _, _) => x.w.s.b.opts.active == ActiveFalse
    case EvClose(_, _) => CloseWaits(x.w.s)
    case EvValidate(_) => x.w.s.c.status == ConnectPending
    case EvCancelRecv => false
    case _ => x.waiting
  }

  /** Whatever is sent is put down to the last call. */
  function Attribute(calls: seq<Call>, msgs: seq<CallMsg>): seq<Call> {
    if calls == [] then []
    else
      var last := calls[|calls| - 1];
      calls[..|calls| - 1] + [last.(replies := last.replies + msgs)]
  }

  function Answers(w: World): seq<CallMsg> { w.s.b.hist.calls.answers }

  function Outcomes(w: World): seq<Outcome> { w.s.b.hist.calls.outcomes }

  function Tail<T>(before: seq<T>, after: seq<T>): seq<T> {
    if |before| <= |after| then after[|before|..] else []
  }

  function Decides(x: Session, e: Event): Option<Outcome> {
    if x.decided.Some? then x.decided
    else if e.EvConnect? then Some(Success)
    else if e.EvError? && x.w.s.c.status == ConnectPending then Some(Failure(e.e))
    else None
  }

  function NextSession(x: Session, ev: SessionEvent): Session {
    match ev
    case Return => x.(waiting := false)
    case Port(e) =>
      var w := Next(x.w, e);
      Session(w, Attribute(Issued(x, e), Tail(Answers(x.w), Answers(w))), StillWaits(x, e),
              if e.EvValidate? then Some(Verdict(x.w.s.c)) else x.verdict,
              Decides(x, e),
              if e.EvError? && x.verdict.None? then e.e else x.lastError)
  }

  function RunSession(x: Session, evs: seq<SessionEvent>): Session
    decreases |evs|
  {
    if evs == [] then x else RunSession(NextSession(x, evs[0]), evs[1..])
  }

  predicate AllowedSession(x: Session, evs: seq<SessionEvent>)
    decreases |evs|
  {
    evs == [] || (SessionAllowed(x, evs[0]) && AllowedSession(NextSession(x, evs[0]), evs[1..]))
  }

  ghost predicate SessionReachable(x: Session) {
    exists role, opts, evs ::
      PlainOptions(opts) && AllowedSession(Begin(role, opts), evs) && x == RunSession(Begin(role, opts), evs)
  }

  // ---------------------------------------------------------------- what a reply must be

  /** A reply fits a call: it carries the call's reference, goes where the caller expects it and answers
      that kind of call. */
  predicate Answering(c: Call, m: CallMsg) {
    && m.dest == c.dest && c.ref.Some? && m.ref == c.ref
    && match c.kind
       case Connecting => m.answer.ConnectOk? || m.answer.ConnectError?
       case Receiving => m.answer.RecvOk?
       case Ending => m.answer.CloseOk?
       case Sending => false
  }

  /** A call has had no reply, or the one that fits it. */
  predicate WellAnswered(c: Call) {
    c.replies == [] || (|c.replies| == 1 && Answering(c, c.replies[0]))
  }

  function AllReplies(calls: seq<Call>): seq<CallMsg> {
    if calls == [] then [] else AllReplies(calls[..|calls| - 1]) + calls[|calls| - 1].replies
  }

  predicate OwnReferences(calls: seq<Call>) {
    forall i, j :: 0 <= i < j < |calls| && calls[i].ref.Some? ==> calls[i].ref != calls[j].ref
  }

  // ---------------------------------------------------------------- the invariant

  predicate Unanswered(x: Session, kind: Kind) {
    Outstanding(x, kind) && Last(x).replies == []
  }

  /** The handler's note of whom to answer is about the outstanding call. */
  predicate NotesCaller(x: Session) {
    && x.calls != [] && Last(x).ref.Some? && x.w.s.c.callerRef == Last(x).ref
    && Last(x).dest == ToCaller(x.w.s.c.caller) && x.w.s.c.caller.Proc?
  }

  predicate CloseNoted(x: Session) {
    x.w.s.b.closePending ==> Unanswered(x, Ending) && NotesCaller(x)
  }

  predicate RecvNoted(x: Session) {
    x.w.s.c.receiverWaiting ==> Unanswered(x, Receiving) && NotesCaller(x)
  }

  predicate ConnectNoted(x: Session) {
    var c := x.w.s.c;
    c.status == ConnectPending ==>
      && c.role == Client
      && (c.callerRef.Some? <==> x.verdict.Some?)
      && (c.callerRef.Some? ==> Unanswered(x, Connecting) && c.callerRef == Last(x).ref && Last(x).dest == ToConnected)
  }

  /** The messages sent are, in order, the replies of the calls; each call has at most one, and it fits; no
      two calls share a reference. */
  predicate Ledger(x: Session) {
    && AllReplies(x.calls) == Answers(x.w)
    && (forall i :: 0 <= i < |x.calls| ==> WellAnswered(x.calls[i]))
    && OwnReferences(x.calls)
  }

  predicate Noted(x: Session) {
    && (x.w.s.c.role == Client && x.verdict.None? ==> x.calls == [])
    && CloseNoted(x) && RecvNoted(x) && ConnectNoted(x)
  }

  ghost predicate SessionInv(x: Session) {
    Reachable(x.w) && Noted(x) && Ledger(x)
  }

  // ---------------------------------------------------------------- the effect of each step on replies

  /** A step that sends no reply and forgets no caller. */
  predicate Quiet(s: State, t: State) {
    && t.b.hist.calls.answers == s.b.hist.calls.answers && t.b.hist.calls.outcomes == s.b.hist.calls.outcomes
    && t.c.callerRef == s.c.callerRef && t.c.caller == s.c.caller && t.c.receiverWaiting == s.c.receiverWaiting
    && t.c.role == s.c.role
    && (t.b.closePending ==> s.b.closePending)
    && (t.c.status == ConnectPending ==> s.c.status == ConnectPending)
  }

  lemma {:induction false} DataAnswersNobody(b: Base, parts: seq<seq<byte>>)
    ensures DeliverAll(b, ConnectedReceiver, parts).hist.calls == b.hist.calls
    decreases |parts|
  {
    if parts != [] {
      DataAnswersNobody(Deliver(b, ConnectedReceiver, parts[0]), parts[1..]);
    }
  }

  lemma EmitDataQuiet(b: Base, len: nat)
    ensures var t := EmitReadBuffer(b, len, ConnectedReceiver).b;
            && t.hist.calls.answers == b.hist.calls.answers && t.hist.calls.outcomes == b.hist.calls.outcomes
            && (t.closePending ==> b.closePending)
  {
    if !CloseToReport(b) && Enough(b, len) {
      var t := Take(b, len);
      hide Take;
      DataAnswersNobody(b.(portq := t.portq, readCount := t.readCount), t.parts);
      DeliverAllKeeps(b.(portq := t.portq, readCount := t.readCount), ConnectedReceiver, t.parts);
    }
  }

  /** An emission to a caller on a passive socket sends one reply or none. */
  lemma EmitOneReply(b: Base, len: nat, caller: Caller, ref: Option<Ref>)
    requires b.opts.active == ActiveFalse
    ensures var e := EmitReadBuffer(b, len, CallReceiver(caller, ref));
            && e.b.hist.calls.outcomes == b.hist.calls.outcomes
            && e.b.closePending == (b.closePending && !CloseToReport(b))
            && (!e.sent ==> e.b.hist.calls.answers == b.hist.calls.answers)
            && (e.sent ==> exists x ::
                  e.b.hist.calls.answers == b.hist.calls.answers + [CallMsg(ToCaller(caller), ref, RecvOk(x))])
  {
    EmitFrame(b, len, CallReceiver(caller, ref));
    if !CloseToReport(b) && Enough(b, len) {
      var t := Take(b, len);
      assert |t.parts| == 1 && t.parts == [t.parts[0]];
      hide Take;
      DeliverSingle(b.(portq := t.portq, readCount := t.readCount), CallReceiver(caller, ref), t.parts[0]);
      assert EmitReadBuffer(b, len, CallReceiver(caller, ref)).b.hist.calls.answers
          == b.hist.calls.answers + [CallMsg(ToCaller(caller), ref, RecvOk(t.parts[0]))];
    }
  }

  lemma QuietEnds(s: State)
    ensures Quiet(s, OnEof(s))
  {
  }

  lemma QuietStop(s: State)
    ensures Quiet(s, Stop(s))
  {
  }

  lemma QuietIncoming(s: State)
    ensures Quiet(s, OnIncoming(s))
  {
  }

  lemma QuietWritable(s: State, up: Uptake)
    ensures Quiet(s, OnWritable(s, up))
  {
    var t := ResumeWriting(s, up);
    assert Quiet(s, t);
    hide ResumeWriting;
    assert Quiet(t, CloseUtp(t));
  }

  lemma QuietSetOpts(s: State, bin: seq<byte>)
    ensures Quiet(s, SetOpts(s, bin)) && SetOpts(s, bin).c == s.c
  {
    hide EmitReadBuffer, Merge;
    if Merge(s.b.opts, bin).Some? {
      var opts := Merge(s.b.opts, bin).value;
      EmitDataQuiet(Emit(s.b.(opts := opts), OptionsSet(opts.active)), 0);
    }
  }

  lemma QuietRead(s: State, bytes: seq<byte>)
    requires bytes == [] || s.b.opts.active != ActiveFalse || !s.c.receiverWaiting
    ensures Quiet(s, OnRead(s, bytes)) && OnRead(s, bytes).c == s.c
  {
    hide EmitReadBuffer;
    if bytes != [] && s.b.opts.active != ActiveFalse {
      EmitDataQuiet(Emit(s.b.(portq := s.b.portq + bytes, readCount := s.b.readCount + [|bytes|]), Arrived(bytes)), 0);
    }
  }

  lemma QuietError(s: State, e: Errno)
    requires s.c.status != ConnectPending
    ensures Quiet(s, OnError(s, e))
  {
  }

  lemma QuietStep(w: World, e: Event)
    requires Allowed(w, e)
    requires e.EvWritable? || e.EvEof? || e.EvStop? || e.EvIncoming? || e.EvSetOpts?
          || (e.EvError? && w.s.c.status != ConnectPending)
          || (e.EvRead? && (e.bytes == [] || w.s.b.opts.active != ActiveFalse || !w.s.c.receiverWaiting))
          || (e.EvDestroying? && !(w.s.c.status == Closing && w.s.b.closePending && w.s.c.callerRef.Some?))
    ensures Quiet(w.s, Next(w, e).s)
  {
    hide Quiet, Recv, OnRead, SetOptsBase, NoEmptyFrame, Merge, Stop, OnWritable, OnEof, OnDestroying, OnError,
         Outputv, Close,
         ConnectValidate, OnConnect, OnIncoming;
    match e
    case EvWritable(up) => QuietWritable(w.s, up);
    case EvEof => QuietEnds(w.s);
    case EvStop => QuietStop(w.s);
    case EvIncoming => QuietIncoming(w.s);
    case EvSetOpts(bin) => QuietSetOpts(w.s, bin);
    case EvError(err) => QuietError(w.s, err);
    case EvRead(bytes) => QuietRead(w.s, bytes);
    case EvDestroying => QuietDestroying(w.s);
  }

  lemma QuietDestroying(s: State)
    requires !(s.c.status == Closing && s.b.closePending && s.c.callerRef.Some?)
    ensures Quiet(s, OnDestroying(s))
  {
  }

  // ---------------------------------------------------------------- the ledger

  lemma LedgerKept(calls: seq<Call>)
    ensures Attribute(calls, []) == calls
  {
    if calls != [] {
      assert calls[|calls| - 1].replies + [] == calls[|calls| - 1].replies;
    }
  }

  lemma AllRepliesSnoc(calls: seq<Call>, c: Call)
    ensures AllReplies(calls + [c]) == AllReplies(calls) + c.replies
  {
    assert (calls + [c])[..|calls|] == calls;
  }

  /** A call starts without replies; */
  lemma LedgerNewCall(x: Session, c: Call, y: Session)
    requires Ledger(x) && c.replies == []
    requires c.ref.Some? ==> Fresh(x.calls, c.ref.value)
    requires y.calls == x.calls + [c] && Answers(y.w) == Answers(x.w)
    ensures Ledger(y)
  {
    AllRepliesSnoc(x.calls, c);
    assert AllReplies(x.calls) + [] == AllReplies(x.calls);
    forall i, j | 0 <= i < j < |y.calls| && y.calls[i].ref.Some?
      ensures y.calls[i].ref != y.calls[j].ref
    {
      if j == |x.calls| {
        assert x.calls[i] == y.calls[i];
      }
    }
  }

  /** The last call with one reply more. */
  lemma AttributeOne(calls: seq<Call>, m: CallMsg)
    requires calls != [] && calls[|calls| - 1].replies == []
    ensures var after := Attribute(calls, [m]);
            && |after| == |calls| && after[|after| - 1] == calls[|calls| - 1].(replies := [m])
            && (forall i :: 0 <= i < |calls| - 1 ==> after[i] == calls[i])
            && AllReplies(after) == AllReplies(calls) + [m]
  {
    var front := calls[..|calls| - 1];
    AllRepliesSnoc(front, calls[|calls| - 1].(replies := [m]));
    AllRepliesSnoc(front, calls[|calls| - 1]);
    assert calls == front + [calls[|calls| - 1]];
    assert AllReplies(front) + [] == AllReplies(front);
    assert [] + [m] == [m];
  }

  /** the last call may be answered once. */
  lemma LedgerReply(x: Session, m: CallMsg, y: Session)
    requires Ledger(x) && x.calls != [] && Last(x).replies == [] && Answering(Last(x), m)
    requires y.calls == Attribute(x.calls, [m]) && Answers(y.w) == Answers(x.w) + [m]
    ensures Ledger(y)
  {
    hide AllReplies, Attribute;
    AttributeOne(x.calls, m);
    forall i, j | 0 <= i < j < |y.calls| && y.calls[i].ref.Some?
      ensures y.calls[i].ref != y.calls[j].ref
    {
      assert x.calls[i].ref == y.calls[i].ref && x.calls[j].ref == y.calls[j].ref;
    }
  }

  // ---------------------------------------------------------------- preservation

  /** What is proved of each step. */
  ghost predicate Keeps(x: Session, e: Event) {
    var y := NextSession(x, Port(e));
    Noted(y) && Ledger(y)
  }

  lemma TailNone<T>(a: seq<T>, x: T)
    ensures Tail(a, a) == [] && Tail(a, a + [x]) == [x]
  {
  }

  lemma QuietKeeps(x: Session, e: Event)
    requires Noted(x) && Ledger(x) && Quiet(x.w.s, Next(x.w, e).s)
    requires !e.EvOutputv? && !e.EvRecv? && !e.EvClose? && !e.EvValidate? && !e.EvCancelRecv?
    ensures Keeps(x, e)
  {
    hide Next, Answering, WellAnswered, Ledger;
    TailNone(Answers(x.w), CallMsg(ToConnected, None, ConnectOk));
    LedgerKept(x.calls);
    var y := NextSession(x, Port(e));
    assert y.calls == x.calls && Answers(y.w) == Answers(x.w);
    LedgerSame(x, y);
  }

  lemma LedgerSame(x: Session, y: Session)
    requires Ledger(x) && y.calls == x.calls && Answers(y.w) == Answers(x.w)
    ensures Ledger(y)
  {
  }

  /** A step that sends the one reply the outstanding call waits for. */
  lemma ReplyKeeps(x: Session, e: Event, m: CallMsg)
    requires Noted(x) && Ledger(x) && x.waiting && x.calls != [] && Last(x).replies == [] && Answering(Last(x), m)
    requires Answers(Next(x.w, e)) == Answers(x.w) + [m]
    requires !e.EvOutputv? && !e.EvRecv? && !e.EvClose? && !e.EvValidate?
    ensures Ledger(NextSession(x, Port(e)))
  {
    hide Next, Answering, Ledger;
    TailNone(Answers(x.w), m);
    LedgerReply(x, m, NextSession(x, Port(e)));
  }

  /** The ledger after a call that was not answered at once. */
  lemma CallKeeps(x: Session, e: Event)
    requires Ledger(x) && Answers(Next(x.w, e)) == Answers(x.w)
    requires (e.EvOutputv? && !x.waiting) || e.EvRecv? || e.EvClose? || e.EvValidate?
    requires e.EvRecv? ==> Fresh(x.calls, e.ref)
    requires e.EvClose? ==> Fresh(x.calls, e.ref)
    requires e.EvValidate? ==> Fresh(x.calls, e.ref)
    ensures var y := NextSession(x, Port(e)); Ledger(y) && y.calls == Issued(x, e)
  {
    hide Next, Answering, Ledger;
    TailNone(Answers(x.w), CallMsg(ToConnected, None, ConnectOk));
    var calls := Issued(x, e);
    LedgerKept(calls);
    LedgerNewCall(x, calls[|x.calls|], NextSession(x, Port(e)));
  }

  lemma OutputvAnswersNobody(s: State, pid: Pid, data: seq<byte>, up: Uptake)
    ensures var t := Outputv(s, pid, data, up);
            && t.b.hist.calls == s.b.hist.calls && t.b.closePending == s.b.closePending
            && t.c.callerRef == s.c.callerRef && t.c.receiverWaiting == s.c.receiverWaiting
            && t.c.role == s.c.role && t.c.status == s.c.status
  {
    hide Frame;
  }

  lemma NextOutputv(w: World, pid: Pid, data: seq<byte>, up: Uptake)
    ensures Next(w, EvOutputv(pid, data, up)) == w.(s := Outputv(w.s, pid, data, up))
  {
  }

  lemma OutputvKeeps(x: Session, pid: Pid, data: seq<byte>, up: Uptake)
    requires Noted(x) && Ledger(x) && Disciplined(x, EvOutputv(pid, data, up))
    ensures Keeps(x, EvOutputv(pid, data, up))
  {
    hide Next, Ledger, Answering, Attribute, Tail, Fresh;
    var e := EvOutputv(pid, data, up);
    OutputvAnswersNobody(x.w.s, pid, data, up);
    NextOutputv(x.w, pid, data, up);
    hide Outputv;
    var y := NextSession(x, Port(e));
    if x.waiting {
      TailNone(Answers(x.w), CallMsg(ToConnected, None, ConnectOk));
      LedgerKept(x.calls);
      LedgerSame(x, y);
    } else {
      CallKeeps(x, e);
    }
  }

  /** What recv does when no close is pending. */
  lemma RecvReplies(s: State, pid: Pid, ref: Ref, len: nat)
    requires !s.b.closePending
    ensures var t := Recv(s, pid, ref, len);
            && t.b.hist.calls.outcomes == s.b.hist.calls.outcomes
            && !t.b.closePending && t.c.status == s.c.status && t.c.role == s.c.role
            && ((t.c == s.c && t.b.hist.calls.answers == s.b.hist.calls.answers && s.b.opts.active != ActiveFalse)
                || (s.b.opts.active == ActiveFalse && t.b.hist.calls.answers == s.b.hist.calls.answers
                    && t.c.receiverWaiting && t.c.callerRef == Some(ref) && t.c.caller == Proc(pid))
                || (s.b.opts.active == ActiveFalse && t.c == s.c && exists x ::
                      t.b.hist.calls.answers
                      == s.b.hist.calls.answers + [CallMsg(ToCaller(Proc(pid)), Some(ref), RecvOk(x))]))
  {
    hide EmitReadBuffer;
    if s.b.opts.active == ActiveFalse {
      EmitOneReply(s.b, len, Proc(pid), Some(ref));
    }
  }

  lemma RecvKeeps(x: Session, pid: Pid, ref: Ref, len: nat)
    requires Noted(x) && Ledger(x) && Disciplined(x, EvRecv(pid, ref, len))
    ensures Keeps(x, EvRecv(pid, ref, len))
  {
    hide Recv, Ledger;
    var e := EvRecv(pid, ref, len);
    var y := NextSession(x, Port(e));
    RecvReplies(x.w.s, pid, ref, len);
    assert y.w.s == Recv(x.w.s, pid, ref, len);
    if Answers(y.w) == Answers(x.w) {
      CallKeeps(x, e);
    } else {
      var bytes :| Answers(y.w) == Answers(x.w) + [CallMsg(ToCaller(Proc(pid)), Some(ref), RecvOk(bytes))];
      RecvAtOnce(x, pid, ref, len, CallMsg(ToCaller(Proc(pid)), Some(ref), RecvOk(bytes)));
    }
  }

  /** recv may be answered in the very step that makes the call. */
  lemma RecvAtOnce(x: Session, pid: Pid, ref: Ref, len: nat, m: CallMsg)
    requires Ledger(x) && Fresh(x.calls, ref) && x.w.s.b.opts.active == ActiveFalse
    requires m.dest == ToCaller(Proc(pid)) && m.ref == Some(ref) && m.answer.RecvOk?
    requires Answers(Next(x.w, EvRecv(pid, ref, len))) == Answers(x.w) + [m]
    ensures Ledger(NextSession(x, Port(EvRecv(pid, ref, len))))
  {
    hide Next, Ledger;
    var e := EvRecv(pid, ref, len);
    var calls := Issued(x, e);
    var mid := x.(calls := calls, waiting := true);
    LedgerNewCall(x, calls[|x.calls|], mid);
    TailNone(Answers(x.w), m);
    LedgerReply(mid, m, NextSession(x, Port(e)));
  }

  lemma CloseAnswersNobody(s: State, pid: Pid, ref: Ref)
    ensures var t := Close(s, pid, ref);
            && t.b.hist.calls.answers == s.b.hist.calls.answers && t.b.hist.calls.outcomes == s.b.hist.calls.outcomes
            && t.c.receiverWaiting == s.c.receiverWaiting && t.c.role == s.c.role
            && t.b.closePending == (s.b.closePending || CloseWaits(s))
            && t.c.callerRef == (if CloseWaits(s) then Some(ref) else s.c.callerRef)
            && t.c.caller == (if CloseWaits(s) then Proc(pid) else s.c.caller)
            && (t.c.status == ConnectPending ==> s.c.status == ConnectPending && !CloseWaits(s))
  {
  }

  lemma CloseKeeps(x: Session, pid: Pid, ref: Ref)
    requires Noted(x) && Ledger(x) && Disciplined(x, EvClose(pid, ref))
    ensures Keeps(x, EvClose(pid, ref))
  {
    hide Close, Ledger;
    CloseAnswersNobody(x.w.s, pid, ref);
    hide CloseWaits;
    CallKeeps(x, EvClose(pid, ref));
  }

  lemma ValidateKeeps(x: Session, ref: Ref)
    requires Noted(x) && Ledger(x) && Disciplined(x, EvValidate(ref)) && x.w.s.c.role == Client
    ensures Keeps(x, EvValidate(ref))
  {
    hide Ledger;
    CallKeeps(x, EvValidate(ref));
  }

  lemma CancelKeeps(x: Session)
    requires Noted(x) && Ledger(x)
    ensures Outstanding(x, Sending) ==> Keeps(x, EvCancelSend)
    ensures Outstanding(x, Receiving) ==> Keeps(x, EvCancelRecv)
  {
    hide Ledger;
    TailNone(Answers(x.w), CallMsg(ToConnected, None, ConnectOk));
    LedgerKept(x.calls);
    LedgerSame(x, NextSession(x, Port(EvCancelSend)));
    LedgerSame(x, NextSession(x, Port(EvCancelRecv)));
  }

  lemma ConnectKeeps(x: Session, e: Event)
    requires Noted(x) && Ledger(x) && x.w.s.c.status == ConnectPending && (e.EvConnect? || e.EvError?)
    ensures Keeps(x, e)
  {
    hide Ledger;
    var y := NextSession(x, Port(e));
    if x.w.s.c.callerRef.Some? {
      var m := CallMsg(ToConnected, x.w.s.c.callerRef, if e.EvConnect? then ConnectOk else ConnectError(e.e));
      ReplyKeeps(x, e, m);
    } else {
      TailNone(Answers(x.w), CallMsg(ToConnected, None, ConnectOk));
      LedgerKept(x.calls);
      LedgerSame(x, y);
    }
  }

  /** A read for a recv that waits. */
  lemma ReadReplies(s: State, bytes: seq<byte>)
    requires bytes != [] && s.b.opts.active == ActiveFalse && s.c.receiverWaiting
    ensures var t := OnRead(s, bytes);
            && t.b.hist.calls.outcomes == s.b.hist.calls.outcomes
            && t.b.closePending == s.b.closePending && t.c.status == s.c.status && t.c.role == s.c.role
            && ((t.c == s.c && t.b.hist.calls.answers == s.b.hist.calls.answers)
                || (!t.c.receiverWaiting && t.c.callerRef == None
                    && exists x ::
                      t.b.hist.calls.answers
                      == s.b.hist.calls.answers + [CallMsg(ToCaller(s.c.caller), s.c.callerRef, RecvOk(x))]))
  {
    hide EmitReadBuffer;
    EmitOneReply(Emit(s.b.(portq := s.b.portq + bytes, readCount := s.b.readCount + [|bytes|]), Arrived(bytes)),
                 s.c.recvLen, s.c.caller, s.c.callerRef);
  }

  lemma ReadKeeps(x: Session, bytes: seq<byte>)
    requires Noted(x) && Ledger(x) && bytes != [] && x.w.s.b.opts.active == ActiveFalse && x.w.s.c.receiverWaiting
    ensures Keeps(x, EvRead(bytes))
  {
    hide OnRead, Ledger;
    var s := x.w.s;
    var e := EvRead(bytes);
    var y := NextSession(x, Port(e));
    ReadReplies(s, bytes);
    assert y.w.s == OnRead(s, bytes);
    if Answers(y.w) == Answers(x.w) {
      TailNone(Answers(x.w), CallMsg(ToConnected, None, ConnectOk));
      LedgerKept(x.calls);
      LedgerSame(x, y);
    } else {
      var b :| Answers(y.w) == Answers(x.w) + [CallMsg(ToCaller(s.c.caller), s.c.callerRef, RecvOk(b))];
      ReplyKeeps(x, e, CallMsg(ToCaller(s.c.caller), s.c.callerRef, RecvOk(b)));
    }
  }

  lemma DestroyingReplies(s: State)
    requires s.c.status == Closing && s.b.closePending && s.c.callerRef.Some? && s.c.caller.Proc?
    ensures var t := OnDestroying(s);
            && t.b.hist.calls.answers
               == s.b.hist.calls.answers + [CallMsg(ToCaller(s.c.caller), s.c.callerRef, CloseOk)]
            && t.b.hist.calls.outcomes == s.b.hist.calls.outcomes
            && !t.b.closePending && t.c.receiverWaiting == s.c.receiverWaiting
            && t.c.status == Destroying && t.c.role == s.c.role
  {
  }

  lemma DestroyingKeeps(x: Session)
    requires Noted(x) && Ledger(x) && x.w.s.c.status == Closing && x.w.s.b.closePending && x.w.s.c.callerRef.Some?
    ensures Keeps(x, EvDestroying)
  {
    hide OnDestroying, Ledger;
    DestroyingReplies(x.w.s);
    ReplyKeeps(x, EvDestroying, CallMsg(ToCaller(x.w.s.c.caller), x.w.s.c.callerRef, CloseOk));
  }

  lemma SessionStep(x: Session, ev: SessionEvent)
    requires SessionInv(x) && SessionAllowed(x, ev)
    ensures SessionInv(NextSession(x, ev))
  {
    match ev
    case Return => ReturnKeeps(x);
    case Port(e) =>
      hide Reachable, Noted, Ledger, Quiet, Next, NoEmptyFrame, UptakeAllowed;
      ReachableNext(x.w, e);
      PortStep(x, e);
  }

  lemma ReturnKeeps(x: Session)
    requires Noted(x) && Ledger(x) && SessionAllowed(x, Return)
    ensures Noted(x.(waiting := false)) && Ledger(x.(waiting := false))
  {
    hide Ledger;
    LedgerSame(x, x.(waiting := false));
  }

  lemma PortStep(x: Session, e: Event)
    requires Noted(x) && Ledger(x) && Allowed(x.w, e) && Disciplined(x, e)
    ensures Keeps(x, e)
  {
    hide Keeps, Noted, Ledger, Quiet, Next, NoEmptyFrame, UptakeAllowed, Merge, Fresh, Ready;
    var c, b := x.w.s.c, x.w.s.b;
    match e
    case EvOutputv(pid, data, up) => OutputvKeeps(x, pid, data, up);
    case EvRecv(pid, ref, len) => RecvKeeps(x, pid, ref, len);
    case EvCancelSend => CancelKeeps(x);
    case EvCancelRecv => CancelKeeps(x);
    case EvClose(pid, ref) => CloseKeeps(x, pid, ref);
    case EvValidate(ref) => ValidateKeeps(x, ref);
    case EvConnect => ConnectKeeps(x, e);
    case EvError(_) =>
      if c.status == ConnectPending {
        ConnectKeeps(x, e);
      } else {
        QuietStep(x.w, e);
        QuietKeeps(x, e);
      }
    case EvRead(bytes) =>
      if bytes != [] && b.opts.active == ActiveFalse && c.receiverWaiting {
        ReadKeeps(x, bytes);
      } else {
        QuietStep(x.w, e);
        QuietKeeps(x, e);
      }
    case EvDestroying =>
      if c.status == Closing && b.closePending && c.callerRef.Some? {
        DestroyingKeeps(x);
      } else {
        QuietStep(x.w, e);
        QuietKeeps(x, e);
      }
    case EvWritable(_) => QuietStep(x.w, e); QuietKeeps(x, e);
    case EvEof => QuietStep(x.w, e); QuietKeeps(x, e);
    case EvStop => QuietStep(x.w, e); QuietKeeps(x, e);
    case EvIncoming => QuietStep(x.w, e); QuietKeeps(x, e);
    case EvSetOpts(_) => QuietStep(x.w, e); QuietKeeps(x, e);
  }

  lemma {:induction false} SessionRun(x: Session, evs: seq<SessionEvent>)
    requires SessionInv(x) && AllowedSession(x, evs)
    ensures SessionInv(RunSession(x, evs))
    decreases |evs|
  {
    hide SessionInv;
    if evs != [] {
      SessionStep(x, evs[0]);
      SessionRun(NextSession(x, evs[0]), evs[1..]);
    }
  }

  lemma BeginInv(role: Role, opts: SockOpts)
    requires PlainOptions(opts)
    ensures SessionInv(Begin(role, opts))
  {
    var w := Start(role, opts);
    assert AllowedRun(w, []) && w == Run(w, []);
  }

  // ---------------------------------------------------------------- replies reach the right call

  /** In every run of one blocking call at a time the {Ref, Reply} messages sent are, in order, the
      replies of the calls made; every call has had at most one, with its own reference, to the process it
      belongs to and of its own kind; and no two calls share a reference. */
  lemma ReplyCorrelation(role: Role, opts: SockOpts, evs: seq<SessionEvent>, x: Session)
    requires PlainOptions(opts) && AllowedSession(Begin(role, opts), evs) && x == RunSession(Begin(role, opts), evs)
    ensures Ledger(x)
  {
    hide SessionInv;
    BeginInv(role, opts);
    SessionRun(Begin(role, opts), evs);
    LedgerOf(x);
  }

  lemma LedgerOf(x: Session)
    requires SessionInv(x)
    ensures Ledger(x)
  {
  }

  /** Once a call has returned, by its reply or by cancel_recv, no message is sent to it: nothing but a
      new call makes the handler reply. */
  lemma QuietAfterReturn(role: Role, opts: SockOpts, evs: seq<SessionEvent>, x: Session, e: Event)
    requires PlainOptions(opts) && AllowedSession(Begin(role, opts), evs) && x == RunSession(Begin(role, opts), evs)
    requires SessionAllowed(x, Port(e)) && !x.waiting && !e.EvRecv?
    ensures Answers(Next(x.w, e)) == Answers(x.w)
  {
    hide Reachable, Ledger, Quiet, Next, NoEmptyFrame, UptakeAllowed, Merge, RunSession, AllowedSession, Begin,
         SessionAllowed;
    BeginInv(role, opts);
    SessionRun(Begin(role, opts), evs);
    QuietWhenIdle(x, e);
  }

  lemma QuietWhenIdle(x: Session, e: Event)
    requires Noted(x) && SessionAllowed(x, Port(e)) && !x.waiting && !e.EvRecv?
    ensures Answers(Next(x.w, e)) == Answers(x.w)
  {
    hide Outputv, Close, OnRead, Merge, NoEmptyFrame, SetOptsBase, Stop, OnWritable, OnEof, OnConnect, OnDestroying,
         OnError, OnIncoming,
         ConnectValidate;
    match e
    case EvOutputv(pid, data, up) => OutputvAnswersNobody(x.w.s, pid, data, up);
    case EvClose(pid, ref) => CloseAnswersNobody(x.w.s, pid, ref);
    case EvValidate(ref) => ValidateAnswersNobody(x.w.s, ref);
    case EvConnect => DecidingAnswersNobody(x.w.s, ConnReset);
    case EvError(err) =>
      if x.w.s.c.status == ConnectPending {
        DecidingAnswersNobody(x.w.s, err);
      } else {
        QuietStep(x.w, e);
      }
    case EvRead(_) => QuietStep(x.w, e);
    case EvDestroying => QuietStep(x.w, e);
    case EvWritable(_) => QuietStep(x.w, e);
    case EvEof => QuietStep(x.w, e);
    case EvStop => QuietStep(x.w, e);
    case EvIncoming => QuietStep(x.w, e);
    case EvSetOpts(_) => QuietStep(x.w, e);
  }

  lemma DecidingAnswersNobody(s: State, e: Errno)
    requires s.c.status == ConnectPending && s.c.callerRef.None?
    ensures OnConnect(s).b.hist.calls.answers == s.b.hist.calls.answers
    ensures OnError(s, e).b.hist.calls.answers == s.b.hist.calls.answers
  {
  }

  lemma ValidateAnswersNobody(s: State, ref: Ref)
    ensures ConnectValidate(s, ref).b.hist.calls.answers == s.b.hist.calls.answers
  {
  }

  // ---------------------------------------------------------------- the outcome of a connect attempt

  /** A client before connect_validate: its status tells how the attempt went, unless the connection is
      already over. */
  predicate BeforeVerdict(x: Session) {
    var c := x.w.s.c;
    && Outcomes(x.w) == []
    && c.status != NotConnected
    && c.errorCode == x.lastError
    && (c.status == ConnectPending ==> x.decided == None)
    && (c.status == Connected ==> x.decided == Some(Success))
    && (c.status == ConnectFailed ==> x.decided.Some? && x.decided.value.Failure?)
    && (Finished(c.status) && !x.w.env.stopped ==> x.w.s.b.hist.link.closes != [])
  }

  /** What the caller of connect has learned, given what connect_validate returned. */
  predicate Learned(x: Session) {
    match x.verdict
    case None => Outcomes(x.w) == []
    case Some(ValidateWait) => Outcomes(x.w) == if x.decided.Some? then [x.decided.value] else []
    case Some(ValidateOk) => x.decided == Some(Success) && Outcomes(x.w) == [Success]
    case Some(ValidateError(e)) =>
      x.decided.Some? && x.decided.value.Failure? && Outcomes(x.w) == [Failure(e)] && e == x.lastError
    case Some(ValidateIllegal) => Outcomes(x.w) == []
  }

  predicate ConnectSide(x: Session) {
    x.w.s.c.role == Client ==>
      && Learned(x)
      && (x.verdict.None? ==> BeforeVerdict(x))
      && (x.verdict == Some(ValidateWait) ==>
            if x.w.s.c.status == ConnectPending then x.decided.None?
            else x.decided.Some? || x.w.env.sawEof || x.w.env.stopped)
      && (x.verdict.Some? && x.verdict != Some(ValidateWait) ==> x.w.s.c.status != ConnectPending)
  }

  lemma RestKeepsOutcomes(s: State)
    ensures Outcomes(World(CancelSend(s), Env(false, false, false, false))) == s.b.hist.calls.outcomes
    ensures Outcomes(World(ResetWaitingRecv(s), Env(false, false, false, false))) == s.b.hist.calls.outcomes
  {
  }

  lemma DestroyingKeepsOutcomes(s: State)
    ensures var t := OnDestroying(s);
            && t.b.hist.calls.outcomes == s.b.hist.calls.outcomes
            && (t.c.status == ConnectPending ==> s.c.status == ConnectPending) && t.c.role == s.c.role
  {
  }

  predicate Undeciding(w: World, e: Event) {
    !e.EvValidate? && !e.EvConnect? && !(e.EvError? && w.s.c.status == ConnectPending)
  }

  /** Only the deciding event and connect_validate tell anyone an outcome. */
  lemma OutcomeKept(w: World, e: Event)
    requires Allowed(w, e) && Undeciding(w, e)
    ensures var t := Next(w, e).s;
            && t.b.hist.calls.outcomes == w.s.b.hist.calls.outcomes && t.c.role == w.s.c.role
            && (t.c.status == ConnectPending ==> w.s.c.status == ConnectPending)
  {
    hide Recv, OnRead, SetOptsBase, NoEmptyFrame, Merge, Stop, OnWritable, OnEof, OnDestroying, OnError, Outputv, Close,
         ConnectValidate, OnConnect, OnIncoming, UptakeAllowed;
    match e
    case EvOutputv(pid, data, up) => OutputvAnswersNobody(w.s, pid, data, up);
    case EvRecv(pid, ref, len) => RecvFrame(w.s, pid, ref, len);
    case EvRead(bytes) => ReadFrame(w.s, bytes);
    case EvClose(pid, ref) => CloseAnswersNobody(w.s, pid, ref);
    case EvDestroying => DestroyingKeepsOutcomes(w.s);
    case EvCancelSend => RestKeepsOutcomes(w.s);
    case EvCancelRecv => RestKeepsOutcomes(w.s);
    case EvError(_) => QuietStep(w, e);
    case EvWritable(_) => QuietStep(w, e);
    case EvEof => QuietStep(w, e);
    case EvStop => QuietStep(w, e);
    case EvIncoming => QuietStep(w, e);
    case EvSetOpts(_) => QuietStep(w, e);
  }

  /** Before any call is made, the status changes only as the connection ends. */
  predicate EarlyMove(w: World, t: World) {
    && (t.s.c.status == w.s.c.status || (Finished(t.s.c.status) && (t.env.stopped || t.s.b.hist.link.closes != [])))
    && (t.env.stopped || !w.env.stopped)
    && (w.s.b.hist.link.closes != [] ==> t.s.b.hist.link.closes != [])
  }

  lemma EarlyEof(w: World)
    ensures EarlyMove(w, Next(w, EvEof)) && Next(w, EvEof).s.c.errorCode == w.s.c.errorCode
  {
  }

  lemma EarlyStop(w: World)
    ensures EarlyMove(w, Next(w, EvStop)) && Next(w, EvStop).s.c.errorCode == w.s.c.errorCode
  {
  }

  lemma EarlyDestroying(w: World)
    requires w.s.b.hist.link.closes != []
    ensures EarlyMove(w, Next(w, EvDestroying)) && Next(w, EvDestroying).s.c.errorCode == w.s.c.errorCode
  {
  }

  lemma EarlyError(w: World, e: Errno)
    requires w.s.c.status != ConnectPending
    ensures EarlyMove(w, Next(w, EvError(e))) && Next(w, EvError(e)).s.c.errorCode == e
  {
  }

  lemma EarlyWritable(w: World, up: Uptake)
    requires !w.s.b.closePending
    ensures EarlyMove(w, Next(w, EvWritable(up))) && Next(w, EvWritable(up)).s.c.errorCode == w.s.c.errorCode
  {
  }

  lemma EarlyStep(x: Session, e: Event)
    requires Inv(x.w) && Noted(x) && SessionAllowed(x, Port(e)) && Undeciding(x.w, e)
    requires x.w.s.c.role == Client
    requires (x.verdict.None? || (x.verdict == Some(ValidateWait) && x.w.s.c.status == ConnectPending))
    ensures EarlyMove(x.w, Next(x.w, e))
    ensures Next(x.w, e).s.c.errorCode == if e.EvError? then e.e else x.w.s.c.errorCode
  {
    hide EarlyMove, Recv, OnRead, SetOptsBase, NoEmptyFrame, Merge, Stop, OnWritable, OnEof, OnDestroying, OnError,
         Outputv, Close,
         ConnectValidate, OnConnect, OnIncoming, UptakeAllowed;
    match e
    case EvRead(bytes) => ReadFrame(x.w.s, bytes); EarlySame(x.w, Next(x.w, e));
    case EvSetOpts(bin) => SetOptsFrame(x.w.s.b, bin); EarlySame(x.w, Next(x.w, e));
    case EvEof => EarlyEof(x.w);
    case EvStop => EarlyStop(x.w);
    case EvDestroying => EarlyDestroying(x.w);
    case EvError(err) => EarlyError(x.w, err);
    case EvWritable(up) => EarlyWritable(x.w, up);
    case EvOutputv(_, _, _) => assert false;
    case EvRecv(_, _, _) => assert false;
    case EvClose(_, _) => assert false;
    case EvCancelSend => assert false;
    case EvCancelRecv => assert false;
    case EvIncoming => assert false;
  }

  lemma EarlySame(w: World, t: World)
    requires t.s.c.status == w.s.c.status && t.env == w.env && t.s.b.hist.link == w.s.b.hist.link
    ensures EarlyMove(w, t)
  {
  }

  lemma NextValidate(w: World, ref: Ref)
    ensures Next(w, EvValidate(ref)) == w.(s := ConnectValidate(w.s, ref))
  {
  }

  lemma ValidateConnectSide(x: Session, ref: Ref)
    requires ConnectSide(x) && x.verdict.None? && x.w.s.c.role == Client
    ensures ConnectSide(NextSession(x, Port(EvValidate(ref))))
  {
    hide Issued, Attribute, Tail, StillWaits, Next;
    NextValidate(x.w, ref);
  }

  lemma NextDeciding(w: World, e: Errno)
    ensures Next(w, EvConnect) == w.(s := OnConnect(w.s)) && Next(w, EvError(e)) == w.(s := OnError(w.s, e))
  {
  }

  lemma DecidingConnectSide(x: Session, e: Event)
    requires ConnectSide(x) && ConnectNoted(x) && x.w.s.c.status == ConnectPending && (e.EvConnect? || e.EvError?)
    ensures ConnectSide(NextSession(x, Port(e)))
  {
    hide Issued, Attribute, Tail, StillWaits, Next, CloseUtp;
    NextDeciding(x.w, if e.EvError? then e.e else ConnReset);
  }

  lemma OtherConnectSide(x: Session, e: Event)
    requires Inv(x.w) && Noted(x) && ConnectSide(x) && SessionAllowed(x, Port(e)) && Undeciding(x.w, e)
    ensures ConnectSide(NextSession(x, Port(e)))
  {
    hide Step, Noted, Attribute, Allowed, Disciplined, Issued, Inv;
    OutcomeKept(x.w, e);
    var early := x.verdict.None? || (x.verdict == Some(ValidateWait) && x.w.s.c.status == ConnectPending);
    if x.w.s.c.role == Client && early {
      EarlyStep(x, e);
      if x.verdict == Some(ValidateWait) {
        EarlyPending(x, e);
      }
    }
  }

  /** A pending attempt is given up only by an EOF or stop. */
  lemma EarlyPending(x: Session, e: Event)
    requires Inv(x.w) && Noted(x) && SessionAllowed(x, Port(e)) && Undeciding(x.w, e)
    requires x.w.s.c.role == Client && x.verdict == Some(ValidateWait) && x.w.s.c.status == ConnectPending
    ensures var t := Next(x.w, e); t.s.c.status == ConnectPending || t.env.sawEof || t.env.stopped
  {
    hide Recv, OnRead, SetOptsBase, NoEmptyFrame, Merge, Stop, OnEof, OnDestroying, OnError, Outputv, Close,
         ConnectValidate, OnConnect, OnIncoming, UptakeAllowed;
    if e.EvRead? {
      ReadFrame(x.w.s, e.bytes);
    }
  }

  lemma ConnectStep(x: Session, ev: SessionEvent)
    requires SessionInv(x) && ConnectSide(x) && SessionAllowed(x, ev)
    ensures ConnectSide(NextSession(x, ev))
  {
    hide Inv, Reachable, Ledger, Next, Learned, BeforeVerdict, UptakeAllowed, NoEmptyFrame, Merge, CloseNoted,
         RecvNoted, ConnectNoted;
    match ev
    case Return => ReturnConnectSide(x);
    case Port(e) =>
      ReachableInv(x.w);
      if e.EvValidate? {
        ValidateConnectSide(x, e.ref);
      } else if Undeciding(x.w, e) {
        OtherConnectSide(x, e);
      } else {
        DecidingConnectSide(x, e);
      }
  }

  lemma ReturnConnectSide(x: Session)
    requires ConnectSide(x) && Noted(x) && x.waiting && x.calls != []
    ensures ConnectSide(x.(waiting := false))
  {
  }

  lemma {:induction false} ConnectRun(x: Session, evs: seq<SessionEvent>)
    requires SessionInv(x) && ConnectSide(x) && AllowedSession(x, evs)
    ensures ConnectSide(RunSession(x, evs))
    decreases |evs|
  {
    hide SessionInv, ConnectSide;
    if evs != [] {
      SessionStep(x, evs[0]);
      ConnectStep(x, evs[0]);
      ConnectRun(NextSession(x, evs[0]), evs[1..]);
    }
  }

  lemma BeginConnectSide(role: Role, opts: SockOpts)
    ensures ConnectSide(Begin(role, opts))
  {
  }

  /** A client learns the outcome of its connect attempt once, in whichever order CONNECT or an error and
      connect_validate come. If connect_validate returned "wait", exactly one message follows the deciding
      event, and it is that event's outcome. If it found the attempt decided, its own answer is the one
      outcome, which is the right one but for the error: that is the last error before connect_validate.
      The outcome is never learned if connect_validate found the connection already over. */
  lemma ConnectOutcome(role: Role, opts: SockOpts, evs: seq<SessionEvent>, x: Session)
    requires PlainOptions(opts) && AllowedSession(Begin(role, opts), evs) && x == RunSession(Begin(role, opts), evs)
    requires x.w.s.c.role == Client
    ensures x.verdict.None? || x.verdict == Some(ValidateIllegal) ==> Outcomes(x.w) == []
    ensures x.verdict == Some(ValidateWait) ==> Outcomes(x.w) == if x.decided.Some? then [x.decided.value] else []
    ensures x.verdict.Some? && !x.verdict.value.ValidateWait? && !x.verdict.value.ValidateIllegal? ==>
              && x.decided.Some? && |Outcomes(x.w)| == 1
              && (Outcomes(x.w)[0].Success? <==> x.decided.value.Success?)
              && (Outcomes(x.w) == [x.decided.value] <==>
                    x.decided == Some(Success) || x.decided == Some(Failure(x.lastError)))
    ensures x.verdict == Some(ValidateWait) && x.decided.None? ==>
              x.w.s.c.status == ConnectPending || x.w.env.sawEof || x.w.env.stopped
  {
    hide ConnectSide, Begin, RunSession, AllowedSession;
    BeginInv(role, opts);
    BeginConnectSide(role, opts);
    ConnectRun(Begin(role, opts), evs);
    WhatIsLearned(x);
  }

  lemma WhatIsLearned(x: Session)
    requires ConnectSide(x) && x.w.s.c.role == Client
    ensures Learned(x)
    ensures x.verdict == Some(ValidateWait) && x.decided.None? ==>
              x.w.s.c.status == ConnectPending || x.w.env.sawEof || x.w.env.stopped
  {
  }

  /** connect_validate refuses exactly if the handle has been closed again before it was called. */
  lemma ValidateRefuses(role: Role, opts: SockOpts, evs: seq<SessionEvent>, x: Session, ref: Ref)
    requires PlainOptions(opts) && AllowedSession(Begin(role, opts), evs) && x == RunSession(Begin(role, opts), evs)
    requires SessionAllowed(x, Port(EvValidate(ref)))
    ensures Verdict(x.w.s.c).ValidateIllegal? <==> x.w.s.b.hist.link.closes != []
  {
    hide Reachable, Noted, Ledger, Begin, RunSession, AllowedSession, NoEmptyFrame, UptakeAllowed, Merge;
    BeginInv(role, opts);
    BeginConnectSide(role, opts);
    SessionRun(Begin(role, opts), evs);
    ConnectRun(Begin(role, opts), evs);
    ReachableInv(x.w);
  }

  lemma {:induction false} SessionSnoc(x: Session, evs: seq<SessionEvent>, ev: SessionEvent)
    requires AllowedSession(x, evs) && SessionAllowed(RunSession(x, evs), ev)
    ensures AllowedSession(x, evs + [ev]) && RunSession(x, evs + [ev]) == NextSession(RunSession(x, evs), ev)
    decreases |evs|
  {
    hide SessionAllowed, NextSession;
    if evs == [] {
      assert (evs + [ev])[1..] == [];
    } else {
      assert (evs + [ev])[1..] == evs[1..] + [ev];
      SessionSnoc(NextSession(x, evs[0]), evs[1..], ev);
    }
  }

  lemma SessionReachableNext(x: Session, ev: SessionEvent)
    requires SessionReachable(x) && SessionAllowed(x, ev)
    ensures SessionReachable(NextSession(x, ev))
  {
    hide SessionAllowed, NextSession;
    var role, opts, evs :|
      PlainOptions(opts) && AllowedSession(Begin(role, opts), evs) && x == RunSession(Begin(role, opts), evs);
    SessionSnoc(Begin(role, opts), evs, ev);
  }

  /** A client whose attempt failed and whose connect_validate is yet to come. */
  ghost predicate Failed(x: Session, decided: Errno, last: Errno) {
    && SessionReachable(x) && x.verdict.None? && x.calls == [] && !x.waiting && x.decided == Some(Failure(decided))
    && x.w.s.c.status == ConnectFailed && x.w.s.c.role == Client && x.w.s.c.errorCode == last && Outcomes(x.w) == []
    && x.w.env == Env(false, false, false, false) && x.w.s.b.hist.link.freed == 0 && x.w.s.b.hist.link.acquired == 1
  }

  lemma FailedClient(e: Errno) returns (x: Session)
    ensures Failed(x, e, e)
  {
    hide SessionReachable, Outputv, Recv, OnRead, SetOptsBase, Close, Stop, OnWritable, OnEof, OnDestroying,
         ConnectValidate, OnConnect,
         OnIncoming, NoEmptyFrame, Merge;
    var x0 := Begin(Client, DEFAULTS);
    BeginReachable(Client, DEFAULTS);
    SessionReachableNext(x0, Port(EvError(e)));
    x := NextSession(x0, Port(EvError(e)));
    assert x.w.s == OnError(x0.w.s, e);
  }

  lemma ReachableSession(x: Session)
    requires SessionReachable(x)
    ensures SessionInv(x)
  {
    hide SessionInv, Begin;
    var role, opts, evs :|
      PlainOptions(opts) && AllowedSession(Begin(role, opts), evs) && x == RunSession(Begin(role, opts), evs);
    BeginInv(role, opts);
    SessionRun(Begin(role, opts), evs);
  }

  lemma BeginReachable(role: Role, opts: SockOpts)
    requires PlainOptions(opts)
    ensures SessionReachable(Begin(role, opts))
  {
    hide Begin;
    assert AllowedSession(Begin(role, opts), []) && Begin(role, opts) == RunSession(Begin(role, opts), []);
  }

  lemma FailedAgain(x: Session, decided: Errno, e: Errno) returns (y: Session)
    requires Failed(x, decided, decided)
    ensures Failed(y, decided, e)
  {
    hide SessionReachable, Outputv, Recv, OnRead, SetOptsBase, Close, Stop, OnWritable, OnEof, OnDestroying,
         ConnectValidate, OnConnect,
         OnIncoming, NoEmptyFrame, Merge;
    SessionReachableNext(x, Port(EvError(e)));
    y := NextSession(x, Port(EvError(e)));
    assert y.w.s == OnError(x.w.s, e);
  }

  /** A second error before connect_validate replaces the one that made the attempt fail: connect then
      reports the wrong reason. */
  lemma ErrorOverwritten(e1: Errno, e2: Errno)
    ensures exists x :: SessionReachable(x) && x.decided == Some(Failure(e1)) && Outcomes(x.w) == [Failure(e2)]
  {
    hide SessionReachable, Outputv, Recv, OnRead, SetOptsBase, Close, Stop, OnWritable, OnEof, OnDestroying, OnError,
         OnConnect,
         OnIncoming, NoEmptyFrame, Merge;
    var x := FailedClient(e1);
    x := FailedAgain(x, e1, e2);
    SessionReachableNext(x, Port(EvValidate(0)));
    var y := NextSession(x, Port(EvValidate(0)));
    assert y.w.s == ConnectValidate(x.w.s, 0);
    assert Outcomes(y.w) == [] + [Failure(e2)];
  }
}
