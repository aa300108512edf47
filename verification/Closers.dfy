/** When a process that waits in close is answered, and when it never will be. */
module Closers {
  import opened Bytes
  import opened Options
  import opened Driver
  import opened Lifecycle
  import opened ReadSide
  import opened BlockingCalls

  /** A close is outstanding and has not been answered. */
  predicate AwaitsClose(x: Session) {
    Unanswered(x, Ending)
  }

  /** The handler can still answer: the close is pending with somebody on record, DESTROYING has not come, and
      the connection is closing, or is stopped with a handle that a WRITABLE can still close. */
  predicate Answerable(w: World) {
    && w.s.b.closePending && w.s.c.callerRef.Some? && w.s.b.hist.link.acquired > 0 && !w.env.destroyed
    && (w.s.c.status == Closing || (w.s.c.status == Stopped && w.s.c.utp))
  }

  /** The steps that take the answer away: a stop once UTP_Close has been called, and a setopts that reports the
      close to the connected process instead. */
  predicate LosesAnswer(w: World, e: Event) {
    || (e.EvStop? && !w.s.c.utp)
    || (e.EvSetOpts? && w.s.b.portq == [] && DeliversOnSet(w.s.b, e.bin))
  }

  /** The step that answers: DESTROYING on a connection that is closing. */
  predicate AnswersClose(w: World, e: Event) {
    e.EvDestroying? && w.s.c.status == Closing
  }

  /** Some way for the run to go on answers the close. */
  ghost predicate CanBeAnswered(x: Session) {
    exists evs :: AllowedSession(x, evs) && !AwaitsClose(RunSession(x, evs))
  }

  // ---------------------------------------------------------------- the steps while a close waits

  /** What can happen while a process waits for its close. */
  predicate DuringClose(e: Event) {
    || e.EvSetOpts? || e.EvStop? || e.EvRead? || e.EvWritable? || e.EvEof? || e.EvDestroying? || e.EvError?
    || e.EvIncoming?
  }

  lemma OnlyDuringClose(x: Session, e: Event)
    requires Noted(x) && Allowed(x.w, e) && Disciplined(x, e) && AwaitsClose(x)
    ensures DuringClose(e) && x.w.s.c.status != ConnectPending && !x.w.s.c.receiverWaiting
  {
    hide NoEmptyFrame, UptakeAllowed, Merge, Parse, Fresh;
  }

  /** Reading and setting options while a close waits. */
  lemma AnswerableReading(w: World, e: Event)
    requires Allowed(w, e) && Answerable(w) && !w.s.c.receiverWaiting && (e.EvSetOpts? || e.EvRead?)
    ensures Answerable(Next(w, e)) <==> !LosesAnswer(w, e)
  {
    hide OnRead, SetOptsBase, NoEmptyFrame, Merge, Parse, UptakeAllowed, DeliversOnSet;
    if e.EvSetOpts? {
      SetOptsFrame(w.s.b, e.bin);
      SetOptsReports(w.s.b, e.bin);
    } else {
      ReadFrame(w.s, e.bytes);
      ReadReportsNothing(w.s, e.bytes);
      QuietRead(w.s, e.bytes);
    }
  }

  lemma AnswerableStop(w: World)
    requires HandleSide(w) && Draining(w) && Allowed(w, EvStop) && Answerable(w)
    ensures Answerable(Next(w, EvStop)) <==> !LosesAnswer(w, EvStop)
  {
  }

  lemma AnswerableEnds(w: World, e: Event)
    requires HandleSide(w) && Allowed(w, e) && Answerable(w) && (e.EvEof? || e.EvError? || e.EvIncoming?)
    ensures Answerable(Next(w, e))
  {
    hide NoEmptyFrame, UptakeAllowed, Merge, Parse;
  }

  lemma ResumeKeepsStatus(s: State, up: Uptake)
    ensures var t := ResumeWriting(s, up);
            && t.c.status == s.c.status && t.c.utp == s.c.utp && t.c.callerRef == s.c.callerRef
            && t.b.hist.link.acquired == s.b.hist.link.acquired && t.b.closePending == s.b.closePending
  {
  }

  lemma AnswerableWritable(w: World, up: Uptake)
    requires Answerable(w)
    ensures Answerable(Next(w, EvWritable(up)))
  {
    hide ResumeWriting;
    ResumeKeepsStatus(w.s, up);
  }

  lemma AnswerableDestroying(w: World)
    requires HandleSide(w) && Allowed(w, EvDestroying) && Answerable(w)
    ensures AnswersClose(w, EvDestroying)
  {
    hide NoEmptyFrame, UptakeAllowed, Merge, Parse;
  }

  lemma AnswerableAfter(w: World, e: Event)
    requires Inv(w) && Draining(w) && Allowed(w, e) && Answerable(w) && !w.s.c.receiverWaiting && DuringClose(e)
    ensures AnswersClose(w, e) || (Answerable(Next(w, e)) <==> !LosesAnswer(w, e))
  {
    InvParts(w);
    hide Inv, Answerable, Allowed, Next, Draining;
    match e
    case EvSetOpts(_) => AnswerableReading(w, e);
    case EvRead(_) => AnswerableReading(w, e);
    case EvStop => AnswerableStop(w);
    case EvEof => AnswerableEnds(w, e);
    case EvError(_) => AnswerableEnds(w, e);
    case EvIncoming => AnswerableEnds(w, e);
    case EvWritable(up) => AnswerableWritable(w, up);
    case EvDestroying => AnswerableDestroying(w);
  }

  /** A pending close that cannot be answered stays so. */
  lemma LostStays(w: World, e: Event)
    requires Inv(w) && Allowed(w, e) && DuringClose(e) && w.s.b.closePending && w.s.c.callerRef.Some? && !Answerable(w)
    requires Quiet(w.s, Next(w, e).s)
    ensures !Answerable(Next(w, e))
  {
    InvParts(w);
    if w.s.c.status == Stopped && !w.s.c.utp {
      hide Inv;
      StoppedStays(w, e);
    } else if w.s.b.hist.link.acquired == 0 {
      hide Inv;
      HandlelessStays(w, e);
    } else {
      hide Outputv, Recv, OnRead, SetOptsBase, Close, Stop, OnWritable, OnEof, OnDestroying, OnError, ConnectValidate,
           OnConnect, OnIncoming, NoEmptyFrame, Merge, Parse, UptakeAllowed, Frames;
    }
  }

  lemma StoppedStays(w: World, e: Event)
    requires Allowed(w, e) && DuringClose(e) && w.s.c.status == Stopped && !w.s.c.utp && FreeSide(w)
    ensures Next(w, e).s.c.status == Stopped && !Next(w, e).s.c.utp
  {
    hide NoEmptyFrame, UptakeAllowed, Merge, Parse, OnRead, SetOptsBase, Frames;
  }

  lemma HandlelessStays(w: World, e: Event)
    requires Allowed(w, e) && DuringClose(e) && w.s.b.hist.link.acquired == 0 && CloseSide(w) && w.s.b.closePending
    ensures Next(w, e).s.b.hist.link.acquired == 0
  {
    hide NoEmptyFrame, UptakeAllowed, Merge, Parse, OnRead, SetOptsBase;
    if e.EvSetOpts? {
      SetOptsFrame(w.s.b, e.bin);
    }
  }

  // ---------------------------------------------------------------- what the waiting call sees

  lemma NextDestroying(w: World)
    ensures Next(w, EvDestroying).s == OnDestroying(w.s)
  {
  }

  lemma QuietAnswers(s: State, t: State)
    requires Quiet(s, t)
    ensures t.b.hist.calls.answers == s.b.hist.calls.answers
  {
  }

  /** The step sends the answer if DESTROYING finds the close, and nothing to the waiting call otherwise. */
  lemma CloseReplied(x: Session, e: Event)
    requires SessionInv(x) && AwaitsClose(x) && SessionAllowed(x, Port(e))
    ensures var y := NextSession(x, Port(e));
            && y.w == Next(x.w, e)
            && (if Answerable(x.w) && AnswersClose(x.w, e)
                then !AwaitsClose(y) && Answers(y.w) == Answers(x.w) + [CallMsg(Last(x).dest, Last(x).ref, CloseOk)]
                else AwaitsClose(y) && Answers(y.w) == Answers(x.w) && Quiet(x.w.s, y.w.s))
  {
    hide Reachable, Ledger, Next, Quiet, Noted, Allowed, Fresh;
    OnlyDuringClose(x, e);
    ReachableInv(x.w);
    var m := CallMsg(Last(x).dest, Last(x).ref, CloseOk);
    TailNone(Answers(x.w), m);
    if Answerable(x.w) && AnswersClose(x.w, e) {
      NotesCloser(x);
      DestroyingReplies(x.w.s);
      NextDestroying(x.w);
    } else {
      QuietDuringClose(x, e);
      QuietAnswers(x.w.s, Next(x.w, e).s);
      LedgerKept(x.calls);
    }
  }

  lemma QuietDuringClose(x: Session, e: Event)
    requires Inv(x.w) && Noted(x) && AwaitsClose(x) && SessionAllowed(x, Port(e)) && DuringClose(e)
    requires x.w.s.c.status != ConnectPending && !x.w.s.c.receiverWaiting
    requires !(Answerable(x.w) && AnswersClose(x.w, e))
    ensures Quiet(x.w.s, Next(x.w, e).s)
  {
    InvParts(x.w);
    hide Inv, Quiet, Next, NoEmptyFrame, UptakeAllowed, Merge, Parse, Fresh, RecvNoted, ConnectNoted;
    QuietStep(x.w, e);
  }

  lemma NotesCloser(x: Session)
    requires Noted(x) && x.w.s.b.closePending
    ensures x.w.s.c.callerRef.Some? && AwaitsClose(x)
    ensures x.w.s.c.caller.Proc? && Last(x).dest == ToCaller(x.w.s.c.caller) && Last(x).ref == x.w.s.c.callerRef
  {
  }

  /** While a close waits that can be answered. */
  lemma AnswerableStep(x: Session, e: Event)
    requires SessionInv(x) && AwaitsClose(x) && SessionAllowed(x, Port(e)) && Answerable(x.w)
    ensures var y := NextSession(x, Port(e));
            && (AwaitsClose(y) <==> !AnswersClose(x.w, e))
            && (AwaitsClose(y) ==> (Answerable(y.w) <==> !LosesAnswer(x.w, e)))
  {
    hide AwaitsClose, Answerable, LosesAnswer, AnswersClose, Quiet, Reachable, Ledger, Noted, NextSession, Allowed,
         Next;
    CloseReplied(x, e);
    OnlyDuringClose(x, e);
    ReachableInv(x.w);
    OpenCloseDrains(x.w);
    AnswerableAfter(x.w, e);
  }

  /** While a close waits that cannot be answered. */
  lemma UnanswerableStep(x: Session, e: Event)
    requires SessionInv(x) && AwaitsClose(x) && SessionAllowed(x, Port(e)) && !Answerable(x.w)
    ensures var y := NextSession(x, Port(e));
            AwaitsClose(y) && !Answerable(y.w) && Answers(y.w) == Answers(x.w)
  {
    hide AwaitsClose, LosesAnswer, AnswersClose, Reachable, Ledger, Noted, NextSession, Allowed, Next;
    CloseReplied(x, e);
    OnlyDuringClose(x, e);
    ReachableInv(x.w);
    if x.w.s.b.closePending {
      NotesCloser(x);
      LostStays(x.w, e);
    }
  }

  lemma {:induction false} NeverAnswered(x: Session, evs: seq<SessionEvent>)
    requires SessionInv(x) && AwaitsClose(x) && !Answerable(x.w) && AllowedSession(x, evs)
    ensures AwaitsClose(RunSession(x, evs)) && Answers(RunSession(x, evs).w) == Answers(x.w)
    decreases |evs|
  {
    hide SessionInv, AwaitsClose, Answerable, SessionAllowed, NextSession;
    if evs != [] {
      NoReturnYet(x, evs[0]);
      UnanswerableStep(x, evs[0].e);
      SessionStep(x, evs[0]);
      NeverAnswered(NextSession(x, evs[0]), evs[1..]);
    }
  }

  lemma NoReturnYet(x: Session, ev: SessionEvent)
    requires AwaitsClose(x) && SessionAllowed(x, ev)
    ensures ev.Port?
  {
  }

  // ---------------------------------------------------------------- from answerable to answered

  lemma WritableCloses(w: World, up: Uptake)
    requires w.s.c.utp && w.s.c.status != Destroying && w.s.b.closePending && up.ok && Sum(up.pieces) == |w.s.c.wq|
    ensures var t := Next(w, EvWritable(up));
            t.s.c.status == Closing && !t.s.c.utp && t.s.b.hist.link.closes != []
  {
    hide ResumeWriting, UtpWrite;
    ResumeKeepsStatus(w.s, up);
    ResumeDrains(w.s, up);
  }

  lemma ResumeDrains(s: State, up: Uptake)
    requires up.ok && Sum(up.pieces) == |s.c.wq|
    ensures ResumeWriting(s, up).c.wq == []
  {
    hide Emit;
  }

  /** DESTROYING may come and answer. */
  lemma DestroyingAnswers(x: Session)
    requires SessionInv(x) && AwaitsClose(x) && Answerable(x.w)
    requires x.w.s.c.status == Closing && x.w.s.b.hist.link.closes != []
    ensures SessionAllowed(x, Port(EvDestroying)) && !AwaitsClose(NextSession(x, Port(EvDestroying)))
  {
    hide AwaitsClose, Reachable, Ledger, Noted, NextSession, Next;
    AnswerableStep(x, EvDestroying);
  }

  /** WRITABLE may come, take every byte and close the handle. */
  lemma WritableLeads(x: Session) returns (up: Uptake)
    requires SessionInv(x) && AwaitsClose(x) && Answerable(x.w) && x.w.s.b.hist.link.closes == []
    ensures SessionAllowed(x, Port(EvWritable(up)))
    ensures var y := NextSession(x, Port(EvWritable(up)));
            && AwaitsClose(y) && Answerable(y.w) && y.w.s.c.status == Closing && y.w.s.b.hist.link.closes != []
  {
    up := Uptake([|x.w.s.c.wq|], true);
    assert Sum(up.pieces) == |x.w.s.c.wq| + Sum([]);
    hide AwaitsClose, Reachable, Ledger, Noted, NextSession, Next, Inv, Sum;
    ReachableInv(x.w);
    InvParts(x.w);
    WritableCloses(x.w, up);
    WritableComes(x, up);
    hide Answerable, SessionAllowed;
    CloseReplied(x, EvWritable(up));
    AnswerableStep(x, EvWritable(up));
  }

  lemma WritableComes(x: Session, up: Uptake)
    requires Answerable(x.w) && Sum(up.pieces) == |x.w.s.c.wq|
    ensures SessionAllowed(x, Port(EvWritable(up)))
  {
    hide NoEmptyFrame, Merge, Parse;
  }

  lemma AnswerReached(x: Session)
    requires SessionInv(x) && AwaitsClose(x) && Answerable(x.w)
    ensures CanBeAnswered(x)
  {
    hide SessionInv, AwaitsClose, SessionAllowed, NextSession;
    if x.w.s.b.hist.link.closes == [] {
      var up := WritableLeads(x);
      var y := NextSession(x, Port(EvWritable(up)));
      SessionStep(x, Port(EvWritable(up)));
      DestroyingAnswers(y);
      TwoSteps(x, Port(EvWritable(up)), Port(EvDestroying));
    } else {
      ClosedIsClosing(x);
      DestroyingAnswers(x);
      OneStep(x, Port(EvDestroying));
    }
  }

  lemma ClosedIsClosing(x: Session)
    requires SessionInv(x) && Answerable(x.w) && x.w.s.b.hist.link.closes != []
    ensures x.w.s.c.status == Closing
  {
    ReachableInv(x.w);
    InvParts(x.w);
  }

  lemma OneStep(x: Session, ev: SessionEvent)
    requires SessionAllowed(x, ev)
    ensures AllowedSession(x, [ev]) && RunSession(x, [ev]) == NextSession(x, ev)
  {
    hide SessionAllowed, NextSession;
    assert [ev][1..] == [];
    assert AllowedSession(NextSession(x, ev), []) && RunSession(NextSession(x, ev), []) == NextSession(x, ev);
  }

  lemma TwoSteps(x: Session, a: SessionEvent, b: SessionEvent)
    requires SessionAllowed(x, a) && SessionAllowed(NextSession(x, a), b)
    ensures AllowedSession(x, [a, b]) && RunSession(x, [a, b]) == NextSession(NextSession(x, a), b)
  {
    hide SessionAllowed, NextSession;
    OneStep(NextSession(x, a), b);
    assert [a, b][1..] == [b];
  }

  /** Being answerable is what it says: a waiting close can still be answered, by some way for the run to go
      on, exactly in these states; in any other no way of going on ever sends it a reply. */
  lemma AnswerableExactly(x: Session)
    requires SessionInv(x) && AwaitsClose(x)
    ensures CanBeAnswered(x) <==> Answerable(x.w)
  {
    hide SessionInv, AwaitsClose, Answerable, AllowedSession, RunSession;
    if Answerable(x.w) {
      AnswerReached(x);
    } else {
      forall evs | AllowedSession(x, evs)
        ensures AwaitsClose(RunSession(x, evs))
      {
        NeverAnswered(x, evs);
      }
    }
  }

  // ---------------------------------------------------------------- over whole runs

  /** A close that makes its caller wait can be answered exactly if the connection ever had a handle. */
  lemma AnswerableWhenIssued(w: World, pid: Pid, ref: Ref)
    requires Inv(w) && Allowed(w, EvClose(pid, ref)) && CloseWaits(w.s)
    ensures Answerable(Next(w, EvClose(pid, ref))) <==> w.s.b.hist.link.acquired > 0
  {
    hide Frames;
    FreedUntouched(w, EvClose(pid, ref));
  }

  lemma CloseIssued(x: Session, pid: Pid, ref: Ref)
    requires SessionAllowed(x, Port(EvClose(pid, ref))) && Noted(x)
    ensures AwaitsClose(NextSession(x, Port(EvClose(pid, ref)))) <==> CloseWaits(x.w.s)
  {
    hide Close, CloseWaits, NoEmptyFrame, Merge, Parse;
    CloseAnswersNobody(x.w.s, pid, ref);
    TailNone(Answers(x.w), CallMsg(ToConnected, None, ConnectOk));
    LedgerKept(Issued(x, EvClose(pid, ref)));
  }

  /** A call other than a close leaves no close outstanding. */
  lemma OtherCallIssued(x: Session, e: Event)
    requires Disciplined(x, e) && (e.EvOutputv? || e.EvRecv? || e.EvValidate? || e.EvCancelRecv? || e.EvCancelSend?)
    ensures !AwaitsClose(NextSession(x, Port(e)))
  {
    hide Next, Tail, Fresh, Attribute;
    AttributeLast(Issued(x, e), Tail(Answers(x.w), Answers(Next(x.w, e))));
    assert Issued(x, e) == [] || !StillWaits(x, e) || Issued(x, e)[|Issued(x, e)| - 1].kind != Ending;
  }

  lemma AttributeLast(calls: seq<Call>, msgs: seq<CallMsg>)
    ensures |Attribute(calls, msgs)| == |calls|
    ensures calls != [] ==>
              var last := calls[|calls| - 1];
              Attribute(calls, msgs)[|calls| - 1] == last.(replies := last.replies + msgs)
  {
  }

  /** A callback cannot make a close outstanding. */
  lemma StillNoCloser(x: Session, e: Event)
    requires !AwaitsClose(x)
    requires !e.EvClose? && !e.EvOutputv? && !e.EvRecv? && !e.EvValidate? && !e.EvCancelRecv?
    ensures !AwaitsClose(NextSession(x, Port(e)))
  {
    hide Next, Tail;
  }

  lemma SessionWorld(x: Session, e: Event)
    ensures NextSession(x, Port(e)).w == Next(x.w, e)
  {
  }

  lemma NoSecondClose(x: Session, e: Event)
    requires Disciplined(x, e) && AwaitsClose(x)
    ensures !e.EvClose?
  {
  }

  /** A step that leaves a waiting close without an answer to come. */
  predicate LosesStep(x: Session, ev: SessionEvent) {
    match ev
    case Return => false
    case Port(e) =>
      || (AwaitsClose(x) && LosesAnswer(x.w, e))
      || (e.EvClose? && CloseWaits(x.w.s) && x.w.s.b.hist.link.acquired == 0)
  }

  /** Whoever waits for a close is noted as answerable. */
  predicate CloserSafe(x: Session) {
    AwaitsClose(x) ==> Answerable(x.w)
  }

  lemma SafeStep(x: Session, ev: SessionEvent)
    requires SessionInv(x) && SessionAllowed(x, ev) && CloserSafe(x)
    ensures CloserSafe(NextSession(x, ev)) <==> !LosesStep(x, ev)
  {
    match ev
    case Return =>
    case Port(e) =>
      hide Reachable, Ledger, Next, Allowed, AwaitsClose, Answerable, Noted, CloseWaits, NextSession, LosesAnswer,
           AnswersClose;
      SessionWorld(x, e);
      if AwaitsClose(x) {
        AnswerableStep(x, e);
        AnsweringLosesNothing(x.w, e);
        NoSecondClose(x, e);
      } else if e.EvClose? {
        ReachableInv(x.w);
        CloseIssued(x, e.pid, e.ref);
        if CloseWaits(x.w.s) {
          AnswerableWhenIssued(x.w, e.pid, e.ref);
        }
      } else if e.EvOutputv? || e.EvRecv? || e.EvValidate? || e.EvCancelRecv? || e.EvCancelSend? {
        OtherCallIssued(x, e);
      } else {
        StillNoCloser(x, e);
      }
  }

  lemma AnsweringLosesNothing(w: World, e: Event)
    ensures AnswersClose(w, e) ==> !LosesAnswer(w, e)
  {
  }

  /** At every point of a run whoever waits for a close can still be answered. */
  ghost predicate AlwaysAnswerable(x: Session, evs: seq<SessionEvent>)
    decreases |evs|
  {
    (AwaitsClose(x) ==> CanBeAnswered(x)) && (evs == [] || AlwaysAnswerable(NextSession(x, evs[0]), evs[1..]))
  }

  /** No step of a run takes an answer away. */
  predicate NeverLoses(x: Session, evs: seq<SessionEvent>)
    decreases |evs|
  {
    evs == [] || (!LosesStep(x, evs[0]) && NeverLoses(NextSession(x, evs[0]), evs[1..]))
  }

  lemma SafeExactly(x: Session)
    requires SessionInv(x)
    ensures (AwaitsClose(x) ==> CanBeAnswered(x)) <==> CloserSafe(x)
  {
    hide SessionInv, AwaitsClose, Answerable, CanBeAnswered;
    if AwaitsClose(x) {
      AnswerableExactly(x);
    }
  }

  lemma {:induction false} SafeRun(x: Session, evs: seq<SessionEvent>)
    requires SessionInv(x) && CloserSafe(x) && AllowedSession(x, evs)
    ensures AlwaysAnswerable(x, evs) <==> NeverLoses(x, evs)
    decreases |evs|
  {
    hide SessionInv, CloserSafe, LosesStep, SessionAllowed, NextSession, AwaitsClose, CanBeAnswered;
    SafeExactly(x);
    if evs != [] {
      SafeStep(x, evs[0]);
      SessionStep(x, evs[0]);
      SafeExactly(NextSession(x, evs[0]));
      if !LosesStep(x, evs[0]) {
        SafeRun(NextSession(x, evs[0]), evs[1..]);
      } else {
        assert !AlwaysAnswerable(NextSession(x, evs[0]), evs[1..]);
      }
    }
  }

  // ---------------------------------------------------------------- theorems

  /** In every reachable state a waiting close can be answered if and only if it is answerable: whoever reads
      the handler's fields can tell whether any way of going on ever answers it. */
  lemma AnswerableReachable(role: Role, opts: SockOpts, evs: seq<SessionEvent>, x: Session)
    requires PlainOptions(opts) && AllowedSession(Begin(role, opts), evs) && x == RunSession(Begin(role, opts), evs)
    requires AwaitsClose(x)
    ensures CanBeAnswered(x) ==> Answerable(x.w)
    ensures Answerable(x.w) ==> CanBeAnswered(x)
  {
    hide RunSession, AllowedSession, Begin, SessionInv, CanBeAnswered, Answerable, AwaitsClose;
    BeginInv(role, opts);
    SessionRun(Begin(role, opts), evs);
    AnswerableExactly(x);
  }

  /** While an answerable close waits, a step answers it exactly if it is a DESTROYING on a closing connection,
      with one ok of its own; and of the other steps exactly two take the answer away for good: a stop once
      UTP_Close has been called, and a setopts that reports the close instead. */
  lemma LosesCloseAnswer(role: Role, opts: SockOpts, evs: seq<SessionEvent>, x: Session, e: Event)
    requires PlainOptions(opts) && AllowedSession(Begin(role, opts), evs) && x == RunSession(Begin(role, opts), evs)
    requires SessionAllowed(x, Port(e)) && AwaitsClose(x) && Answerable(x.w)
    ensures AwaitsClose(NextSession(x, Port(e))) <==> !AnswersClose(x.w, e)
    ensures AnswersClose(x.w, e) ==>
              Answers(Next(x.w, e)) == Answers(x.w) + [CallMsg(Last(x).dest, Last(x).ref, CloseOk)]
    ensures !AnswersClose(x.w, e) ==> (Answerable(Next(x.w, e)) <==> !LosesAnswer(x.w, e))
  {
    hide RunSession, AllowedSession, Begin, Reachable, Ledger, Noted, NextSession, Next, Allowed, AwaitsClose,
         Answerable,
         AnswersClose, LosesAnswer, Quiet;
    BeginInv(role, opts);
    SessionRun(Begin(role, opts), evs);
    AnswerableStep(x, e);
    CloseReplied(x, e);
  }

  /** With one blocking call at a time, whoever waits for a close can be answered at every point of a run
      exactly if, while a close waits, the run has no stop after UTP_Close and no setopts that reports the
      close; nor a close on a connection that never had a handle. */
  lemma ClosersAnswered(role: Role, opts: SockOpts, evs: seq<SessionEvent>)
    requires PlainOptions(opts) && AllowedSession(Begin(role, opts), evs)
    ensures AlwaysAnswerable(Begin(role, opts), evs) <==> NeverLoses(Begin(role, opts), evs)
  {
    BeginInv(role, opts);
    SafeRun(Begin(role, opts), evs);
  }

  // ---------------------------------------------------------------- closers left waiting

  /** A server's connection that a process is closing. */
  ghost predicate ClosingServer(x: Session) {
    var s, link := x.w.s, x.w.s.b.hist.link;
    && SessionReachable(x) && AwaitsClose(x) && s.b.closePending && s.b.portq == [] && s.b.opts == DEFAULTS
    && link.closes != [] && link.acquired == 1 && link.freed == 0 && !x.w.env.destroyed
    && s.b.hist.calls.answers == [] && s.b.hist.calls.closeReports == 0
  }

  lemma ClosedAtOnce(s: State, pid: Pid, ref: Ref)
    requires s == OnIncoming(Initial(Server, DEFAULTS))
    ensures CloseWaits(s) && s.b.hist.link.freed == 0 && s.c.role == Server
    ensures var t := Close(s, pid, ref);
            && t.b.closePending && t.b.portq == [] && t.b.opts == DEFAULTS && t.c.status == Closing && !t.c.utp
            && t.b.hist.link.closes != [] && t.b.hist.link.acquired == 1 && t.b.hist.link.freed == 0
            && t.b.hist.calls.answers == [] && t.b.hist.calls.closeReports == 0
  {
  }

  lemma AcceptedConnection() returns (x: Session)
    ensures SessionReachable(x) && x.calls == [] && !x.waiting && Answers(x.w) == []
    ensures x.w.env == Env(false, false, false, false)
    ensures x.w.s == OnIncoming(Initial(Server, DEFAULTS))
  {
    hide SessionReachable, Outputv, Recv, OnRead, SetOptsBase, Close, Stop, OnWritable, OnEof, OnDestroying,
         ConnectValidate, OnConnect,
         OnError, NoEmptyFrame, Merge;
    var x0 := Begin(Server, DEFAULTS);
    BeginReachable(Server, DEFAULTS);
    SessionReachableNext(x0, Port(EvIncoming));
    x := NextSession(x0, Port(EvIncoming));
  }

  lemma ClosingConnection() returns (x: Session)
    ensures ClosingServer(x) && !x.w.env.stopped && x.w.s.c.status == Closing && !x.w.s.c.utp
  {
    hide SessionReachable, Outputv, Recv, OnRead, SetOptsBase, Close, CloseWaits, Stop, OnWritable, OnEof,
         OnDestroying, ConnectValidate,
         OnConnect, OnError, OnIncoming, Initial, NoEmptyFrame, Merge;
    var x0 := AcceptedConnection();
    ClosedAtOnce(x0.w.s, 1, 5);
    SessionReachableNext(x0, Port(EvClose(1, 5)));
    x := NextSession(x0, Port(EvClose(1, 5)));
    assert x.w.s == Close(x0.w.s, 1, 5);
  }

  lemma StoppedConnection() returns (x: Session)
    ensures ClosingServer(x) && x.w.env.stopped && x.w.s.c.status == Stopped && !x.w.s.c.utp
  {
    hide SessionReachable, Outputv, Recv, OnRead, SetOptsBase, Close, OnWritable, OnEof, OnDestroying,
         ConnectValidate, OnConnect,
         OnError, OnIncoming, NoEmptyFrame, Merge;
    var x0 := ClosingConnection();
    SessionReachableNext(x0, Port(EvStop));
    x := NextSession(x0, Port(EvStop));
    assert x.w.s == Stop(x0.w.s);
  }

  /** Stopping a port after UTP_Close: DESTROYING is still to come, but no way of going on answers the closer. */
  lemma StopLeavesCloser()
    ensures exists x :: SessionReachable(x) && AwaitsClose(x) && !x.w.env.destroyed && !CanBeAnswered(x)
  {
    var x := StoppedConnection();
    hide SessionReachable, CanBeAnswered, AwaitsClose, SessionInv;
    ReachableSession(x);
    AnswerableExactly(x);
  }

  /** A setopts on a closing, active socket reports the close to the connected process, and the closer
      waits on: even the empty list of options does. */
  lemma SetOptsLeavesCloser()
    ensures exists x ::
              && SessionReachable(x) && AwaitsClose(x) && !CanBeAnswered(x)
              && x.w.s.b.hist.calls.closeReports == 1
  {
    hide SessionReachable, Outputv, Recv, OnRead, Close, Stop, OnWritable, OnEof, OnDestroying, ConnectValidate,
         OnConnect,
         OnError, OnIncoming, NoEmptyFrame, EmitReadBuffer;
    var x0 := ClosingConnection();
    assert Merge(DEFAULTS, []) == Some(DEFAULTS);
    SessionReachableNext(x0, Port(EvSetOpts([])));
    var x := NextSession(x0, Port(EvSetOpts([])));
    assert x.w.s.b == SetOptsBase(x0.w.s.b, []);
    ReportedBySetOpts(x0.w.s.b);
    hide SetOptsBase;
    TailNone(Answers(x0.w), CallMsg(ToConnected, None, ConnectOk));
    LedgerKept(x0.calls);
    hide CanBeAnswered, SessionInv;
    ReachableSession(x);
    AnswerableExactly(x);
  }

  lemma ReportedBySetOpts(b: Base)
    requires b.closePending && b.portq == [] && b.opts == DEFAULTS && b.hist.calls.closeReports == 0
    ensures var t := SetOptsBase(b, []);
            && !t.closePending && t.hist.calls.closeReports == 1 && t.hist.calls.answers == b.hist.calls.answers
  {
    assert Merge(DEFAULTS, []) == Some(DEFAULTS);
    hide EmitReadBuffer, Merge;
    var b1 := Emit(b, OptionsSet(ActiveTrue));
    EmitFrame(b1, 0, ConnectedReceiver);
    EmitDataQuiet(b1, 0);
  }
}
