/** What a connection does with received bytes, over whole runs: the driver queue and the list of read
    sizes stay in step, nothing is lost or reordered, and active mode delivers read by read. */
module ReadSide {
  import opened Bytes
  import opened Options
  import opened Driver
  import opened Lifecycle

  // ---------------------------------------------------------------- what was delivered

  function DeliveredBytes(ds: seq<Delivery>): seq<byte> {
    if ds == [] then [] else DeliveredBytes(ds[..|ds| - 1]) + ds[|ds| - 1].bytes
  }

  lemma DeliveredSnoc(ds: seq<Delivery>, x: Delivery)
    ensures DeliveredBytes(ds + [x]) == DeliveredBytes(ds) + x.bytes
  {
    assert (ds + [x])[..|ds|] == ds;
  }

  predicate NoEmptyChunk(chunks: seq<seq<byte>>) {
    forall i :: 0 <= i < |chunks| ==> chunks[i] != []
  }

  /** The reads that are left when the first n bytes of them are gone. */
  function DropBytes(chunks: seq<seq<byte>>, n: nat): seq<seq<byte>>
    decreases |chunks|
  {
    if n == 0 || chunks == [] then chunks
    else if |chunks[0]| <= n then DropBytes(chunks[1..], n - |chunks[0]|)
    else [chunks[0][n..]] + chunks[1..]
  }

  lemma {:induction false} DropBytesFlat(chunks: seq<seq<byte>>, n: nat)
    requires NoEmptyChunk(chunks) && n <= |Flatten(chunks)|
    ensures NoEmptyChunk(DropBytes(chunks, n))
    ensures Flatten(DropBytes(chunks, n)) == Flatten(chunks)[n..]
    decreases |chunks|
  {
    if n != 0 && chunks != [] {
      assert Flatten(chunks) == chunks[0] + Flatten(chunks[1..]);
      if |chunks[0]| <= n {
        DropBytesFlat(chunks[1..], n - |chunks[0]|);
      } else {
        var cut := [chunks[0][n..]] + chunks[1..];
        assert cut[1..] == chunks[1..];
        assert Flatten(cut) == chunks[0][n..] + Flatten(chunks[1..]);
      }
    }
  }

  lemma {:induction false} DropBytesSnoc(chunks: seq<seq<byte>>, x: seq<byte>, n: nat)
    requires NoEmptyChunk(chunks) && n <= |Flatten(chunks)|
    ensures DropBytes(chunks + [x], n) == DropBytes(chunks, n) + [x]
    decreases |chunks|
  {
    if n != 0 && chunks != [] {
      assert (chunks + [x])[1..] == chunks[1..] + [x];
      if |chunks[0]| <= n {
        DropBytesSnoc(chunks[1..], x, n - |chunks[0]|);
      }
    } else if chunks == [] {
      assert n == 0;
    }
  }

  lemma {:induction false} DropBytesTwice(chunks: seq<seq<byte>>, a: nat, b: nat)
    requires NoEmptyChunk(chunks)
    ensures DropBytes(DropBytes(chunks, a), b) == DropBytes(chunks, a + b)
    decreases |chunks|
  {
    if a != 0 && b != 0 && chunks != [] {
      if |chunks[0]| <= a {
        DropBytesTwice(chunks[1..], a - |chunks[0]|, b);
      } else {
        var cut := [chunks[0][a..]] + chunks[1..];
        assert cut[1..] == chunks[1..];
        if a + b < |chunks[0]| {
          assert chunks[0][a..][b..] == chunks[0][a + b..];
        }
      }
    }
  }

  lemma DropFirst(chunks: seq<seq<byte>>)
    requires NoEmptyChunk(chunks) && chunks != []
    ensures DropBytes(chunks, |chunks[0]|) == chunks[1..]
  {
    assert DropBytes(chunks[1..], 0) == chunks[1..];
  }

  /** reduce_read_count does to the sizes what taking bytes does to the reads. */
  lemma {:induction false} ReduceLengths(chunks: seq<seq<byte>>, n: nat)
    requires NoEmptyChunk(chunks)
    ensures Lengths(DropBytes(chunks, n)) == Reduce(Lengths(chunks), n)
    decreases |chunks|
  {
    if n != 0 && chunks != [] {
      assert Lengths(chunks)[1..] == Lengths(chunks[1..]);
      if |chunks[0]| <= n {
        ReduceLengths(chunks[1..], n - |chunks[0]|);
      } else {
        var cut := [chunks[0][n..]] + chunks[1..];
        assert Lengths(cut) == [|chunks[0]| - n] + Lengths(chunks)[1..];
      }
    }
  }

  /** Cutting the queue by the sizes gives the reads back. */
  lemma {:induction false} CutLengths(chunks: seq<seq<byte>>)
    ensures Cut(Flatten(chunks), Lengths(chunks)) == chunks
    decreases |chunks|
  {
    if chunks != [] {
      assert Flatten(chunks) == chunks[0] + Flatten(chunks[1..]);
      assert Flatten(chunks)[|chunks[0]|..] == Flatten(chunks[1..]);
      assert Lengths(chunks)[1..] == Lengths(chunks[1..]);
      CutLengths(chunks[1..]);
    }
  }

  lemma {:induction false} ReduceSum(counts: seq<nat>, n: nat)
    requires AllPositive(counts) && n <= Sum(counts)
    ensures AllPositive(Reduce(counts, n)) && Sum(Reduce(counts, n)) == Sum(counts) - n
    decreases |counts|
  {
    if n != 0 && counts != [] {
      if counts[0] <= n {
        ReduceSum(counts[1..], n - counts[0]);
      } else {
        var cut := [counts[0] - n] + counts[1..];
        assert cut[1..] == counts[1..];
        assert Sum(cut) == counts[0] - n + Sum(counts[1..]);
      }
    }
  }

  // ---------------------------------------------------------------- raw mode

  /** The i-th delivery, if it went to the connected process, is the next undelivered part of a read:
      the whole read, unless a recv took bytes off its front. */
  predicate ReadByRead(chunks: seq<seq<byte>>, ds: seq<Delivery>, i: nat)
    requires i < |ds|
  {
    ds[i].connected ==>
      var left := DropBytes(chunks, |DeliveredBytes(ds[..i])|);
      left != [] && ds[i].bytes == left[0]
  }

  /** The deliveries so far are the first bytes that arrived; `pending` are the reads left. */
  predicate Delivered(rd: Reads, pending: seq<seq<byte>>) {
    var done := DeliveredBytes(rd.deliveries);
    && NoEmptyChunk(rd.chunks)
    && done <= Flatten(rd.chunks)
    && pending == DropBytes(rd.chunks, |done|)
    && (forall i :: 0 <= i < |rd.deliveries| ==> ReadByRead(rd.chunks, rd.deliveries, i))
  }

  /** The driver queue and read_count agree with the reads that are left. */
  predicate Segmented(b: Base, pending: seq<seq<byte>>) {
    b.portq == Flatten(pending) && b.readCount == Lengths(pending)
  }

  /** Raw mode between two steps: besides, an active socket has nothing queued. */
  predicate Raw(b: Base, pending: seq<seq<byte>>) {
    && PlainOptions(b.opts) && b.opts.packet == 0
    && Delivered(b.hist.rd, pending) && Segmented(b, pending)
    && (b.opts.active != ActiveFalse ==> b.portq == [])
  }

  lemma SegmentedOk(b: Base, pending: seq<seq<byte>>)
    requires PlainOptions(b.opts) && NoEmptyChunk(pending) && Segmented(b, pending)
    ensures ReadOk(b)
  {
    LengthsSum(pending);
  }

  lemma DeliverOneRead(rd: Reads, pending: seq<seq<byte>>, x: Delivery, rd1: Reads)
    requires Delivered(rd, pending)
    requires x.bytes <= Flatten(pending) && (x.connected ==> pending != [] && x.bytes == pending[0])
    requires rd1.chunks == rd.chunks && rd1.deliveries == rd.deliveries + [x]
    ensures Delivered(rd1, DropBytes(pending, |x.bytes|))
  {
    var done := DeliveredBytes(rd.deliveries);
    DropBytesFlat(rd.chunks, |done|);
    DropBytesTwice(rd.chunks, |done|, |x.bytes|);
    DeliveredSnoc(rd.deliveries, x);
    forall i | 0 <= i < |rd1.deliveries|
      ensures ReadByRead(rd1.chunks, rd1.deliveries, i)
    {
      if i < |rd.deliveries| {
        assert rd1.deliveries[..i] == rd.deliveries[..i];
        assert ReadByRead(rd.chunks, rd.deliveries, i);
      } else {
        assert rd1.deliveries[..i] == rd.deliveries;
      }
    }
    assert done + x.bytes <= Flatten(rd.chunks) by {
      assert Flatten(rd.chunks) == done + Flatten(rd.chunks)[|done|..];
    }
  }

  /** Sending the next reads one by one. */
  lemma {:induction false} DeliverReads(b: Base, parts: seq<seq<byte>>, rest: seq<seq<byte>>)
    requires Delivered(b.hist.rd, parts + rest)
    ensures Delivered(DeliverAll(b, ConnectedReceiver, parts).hist.rd, rest)
    decreases |parts|
  {
    if parts == [] {
      assert parts + rest == rest;
    } else {
      var all := parts + rest;
      DropBytesFlat(b.hist.rd.chunks, |DeliveredBytes(b.hist.rd.deliveries)|);
      assert Flatten(all) == all[0] + Flatten(all[1..]);
      var b1 := Deliver(b, ConnectedReceiver, parts[0]);
      DeliverOneRead(b.hist.rd, all, Delivery(true, parts[0]), b1.hist.rd);
      DropFirst(all);
      assert all[1..] == parts[1..] + rest;
      DeliverReads(b1, parts[1..], rest);
    }
  }

  /** A new read joins the end. */
  lemma Arrive(rd: Reads, pending: seq<seq<byte>>, bytes: seq<byte>, rd1: Reads)
    requires Delivered(rd, pending) && bytes != []
    requires rd1.chunks == rd.chunks + [bytes] && rd1.deliveries == rd.deliveries
    ensures Delivered(rd1, pending + [bytes])
  {
    var done := DeliveredBytes(rd.deliveries);
    FlattenSnoc(rd.chunks, bytes);
    DropBytesSnoc(rd.chunks, bytes, |done|);
    forall i | 0 <= i < |rd.deliveries|
      ensures ReadByRead(rd1.chunks, rd1.deliveries, i)
    {
      assert ReadByRead(rd.chunks, rd.deliveries, i);
      if rd.deliveries[i].connected {
        DeliveredPrefix(rd.deliveries, i);
        DropBytesSnoc(rd.chunks, bytes, |DeliveredBytes(rd.deliveries[..i])|);
      }
    }
  }

  lemma {:induction false} DeliveredPrefix(ds: seq<Delivery>, i: nat)
    requires i <= |ds|
    ensures |DeliveredBytes(ds[..i])| <= |DeliveredBytes(ds)|
    decreases |ds|
  {
    if i == |ds| {
      assert ds[..i] == ds;
    } else {
      DeliveredPrefix(ds[..|ds| - 1], i);
      assert ds[..|ds| - 1][..i] == ds[..i];
    }
  }

  /** What emit_read_buffer takes off the queue in raw mode, in terms of the reads left: everything or a
      prefix of the bytes for a recv, one read or every read for an active socket. */
  lemma TakeRaw(b: Base, len: nat, pending: seq<seq<byte>>)
    requires b.opts.packet == 0 && Segmented(b, pending) && NoEmptyChunk(pending)
    requires b.portq != [] && len <= |b.portq|
    ensures pending != []
    ensures var t := Take(b, len);
            match b.opts.active
            case ActiveFalse =>
              var x := if len == 0 then b.portq else b.portq[..len];
              t == Taken([x], b.portq[|x|..], Lengths(DropBytes(pending, |x|)))
            case ActiveOnce => t == Taken([pending[0]], Flatten(pending[1..]), Lengths(pending[1..]))
            case ActiveTrue => t == Taken(pending, [], [])
  {
    assert b.portq[..0] == [];
    assert pending != [];
    assert Flatten(pending) == pending[0] + Flatten(pending[1..]);
    match b.opts.active
    case ActiveFalse =>
      if len == 0 {
        DropBytesFlat(pending, |b.portq|);
        NothingLeft(DropBytes(pending, |b.portq|));
        assert Lengths(DropBytes(pending, |b.portq|)) == [];
      } else {
        ReduceLengths(pending, len);
      }
    case ActiveOnce =>
      assert Lengths(pending)[1..] == Lengths(pending[1..]);
      assert b.portq[..|pending[0]|] == pending[0] && b.portq[|pending[0]|..] == Flatten(pending[1..]);
    case ActiveTrue =>
      CutLengths(pending);
      LengthsSum(pending);
  }

  lemma NothingLeft(chunks: seq<seq<byte>>)
    ensures NoEmptyChunk(chunks) && Flatten(chunks) == [] ==> chunks == []
  {
    if chunks != [] {
      assert Flatten(chunks) == chunks[0] + Flatten(chunks[1..]);
    }
  }

  /** An emission for a recv, on a passive socket. */
  lemma EmitToCaller(b: Base, len: nat, caller: Caller, ref: Option<Ref>, pending: seq<seq<byte>>)
    returns (rest: seq<seq<byte>>)
    requires Raw(b, pending) && b.opts.active == ActiveFalse
    ensures Raw(EmitReadBuffer(b, len, CallReceiver(caller, ref)).b, rest)
  {
    rest := pending;
    if !CloseToReport(b) && Enough(b, len) {
      var x := if len == 0 then b.portq else b.portq[..len];
      rest := DropBytes(pending, |x|);
      TakeForCaller(b, len, pending, x);
      TakenDelivered(b, CallReceiver(caller, ref), x, pending);
      hide Take, Delivered, Segmented;
      DeliverSingle(b.(portq := b.portq[|x|..], readCount := Lengths(rest)), CallReceiver(caller, ref), x);
    }
  }

  /** What a recv takes off the queue. */
  lemma TakeForCaller(b: Base, len: nat, pending: seq<seq<byte>>, x: seq<byte>)
    requires Raw(b, pending) && b.opts.active == ActiveFalse && Enough(b, len)
    requires x == if len == 0 then b.portq else b.portq[..len]
    ensures Take(b, len) == Taken([x], b.portq[|x|..], Lengths(DropBytes(pending, |x|)))
  {
    hide Take, DropBytes, FrameLength;
    DropBytesFlat(b.hist.rd.chunks, |DeliveredBytes(b.hist.rd.deliveries)|);
    TakeRaw(b, len, pending);
  }

  /** Handing the first bytes of the queue to a caller. */
  lemma TakenDelivered(b: Base, r: Receiver, x: seq<byte>, pending: seq<seq<byte>>)
    requires Delivered(b.hist.rd, pending) && Segmented(b, pending) && r.CallReceiver? && x <= b.portq
    ensures var rest := DropBytes(pending, |x|);
            var b1 := Deliver(b.(portq := b.portq[|x|..], readCount := Lengths(rest)), r, x);
            Delivered(b1.hist.rd, rest) && Segmented(b1, rest)
  {
    hide DropBytes;
    DropBytesFlat(b.hist.rd.chunks, |DeliveredBytes(b.hist.rd.deliveries)|);
    DropBytesFlat(pending, |x|);
    var b1 := Deliver(b.(portq := b.portq[|x|..], readCount := Lengths(DropBytes(pending, |x|))), r, x);
    DeliverOneRead(b.hist.rd, pending, Delivery(false, x), b1.hist.rd);
  }

  /** An emission to the connected process. An active socket is left with nothing queued; one that was
      active once with less and passive. */
  lemma EmitToConnected(b: Base, pending: seq<seq<byte>>) returns (rest: seq<seq<byte>>)
    requires PlainOptions(b.opts) && b.opts.packet == 0 && Delivered(b.hist.rd, pending) && Segmented(b, pending)
    requires b.opts.active != ActiveFalse
    ensures Raw(EmitReadBuffer(b, 0, ConnectedReceiver).b, rest)
  {
    rest := pending;
    if b.portq != [] {
      DropBytesFlat(b.hist.rd.chunks, |DeliveredBytes(b.hist.rd.deliveries)|);
      assert b.portq[..0] == [] && Enough(b, 0);
      TakeRaw(b, 0, pending);
      var t := Take(b, 0);
      var b1 := b.(portq := t.portq, readCount := t.readCount);
      rest := if b.opts.active == ActiveTrue then [] else pending[1..];
      assert t.parts + rest == pending;
      hide Take;
      DeliverReads(b1, t.parts, rest);
      DeliverAllKeeps(b1, ConnectedReceiver, t.parts);
    }
  }

  lemma RawRecv(s: State, pid: Pid, ref: Ref, len: nat, pending: seq<seq<byte>>) returns (rest: seq<seq<byte>>)
    requires Raw(s.b, pending)
    ensures Raw(Recv(s, pid, ref, len).b, rest)
  {
    hide EmitReadBuffer;
    rest := pending;
    if s.b.opts.active == ActiveFalse {
      rest := EmitToCaller(s.b, len, Proc(pid), Some(ref), pending);
    }
  }

  lemma RawRead(s: State, bytes: seq<byte>, pending: seq<seq<byte>>) returns (rest: seq<seq<byte>>)
    requires Raw(s.b, pending)
    ensures Raw(OnRead(s, bytes).b, rest)
  {
    hide EmitReadBuffer;
    rest := pending;
    if bytes != [] {
      var b1 := Emit(s.b.(portq := s.b.portq + bytes, readCount := s.b.readCount + [|bytes|]), Arrived(bytes));
      rest := pending + [bytes];
      Arrive(s.b.hist.rd, pending, bytes, b1.hist.rd);
      FlattenSnoc(pending, bytes);
      assert Lengths(rest) == Lengths(pending) + [|bytes|];
      if b1.opts.active == ActiveFalse {
        if s.c.receiverWaiting {
          rest := EmitToCaller(b1, s.c.recvLen, s.c.caller, s.c.callerRef, rest);
        }
      } else {
        rest := EmitToConnected(b1, rest);
      }
    }
  }

  lemma RawSetOpts(s: State, bin: seq<byte>, pending: seq<seq<byte>>) returns (rest: seq<seq<byte>>)
    requires Raw(s.b, pending)
    requires KeepsFraming(s.b.opts, bin)
    ensures Raw(SetOpts(s, bin).b, rest)
  {
    hide EmitReadBuffer, Merge;
    rest := pending;
    if Merge(s.b.opts, bin).Some? {
      var opts := Merge(s.b.opts, bin).value;
      var b1 := Emit(s.b.(opts := opts), OptionsSet(opts.active));
      if SendsOnSet(s.b.opts.active, opts.active, s.b.readCount) {
        rest := EmitToConnected(b1, pending);
      } else if opts.active == ActiveOnce && s.b.opts.active == ActiveFalse {
        assert pending == [] by { assert |Lengths(pending)| == |pending|; }
      }
    }
  }

  /** A step that leaves the read side alone. */
  predicate ReadsKept(a: Base, b: Base) {
    b.hist.rd == a.hist.rd && b.portq == a.portq && b.readCount == a.readCount && b.opts == a.opts
  }

  lemma WritingKeepsReads(s: State, pid: Pid, data: seq<byte>, up: Uptake)
    ensures ReadsKept(s.b, Outputv(s, pid, data, up).b)
  {
    hide Frame;
  }

  lemma ResumingKeepsReads(s: State, up: Uptake)
    ensures ReadsKept(s.b, OnWritable(s, up).b)
  {
    var t := ResumeWriting(s, up);
    assert ReadsKept(s.b, t.b);
    hide ResumeWriting;
    assert ReadsKept(t.b, CloseUtp(t).b);
  }

  lemma ClosingKeepsReads(s: State, pid: Pid, ref: Ref)
    ensures ReadsKept(s.b, Close(s, pid, ref).b)
    ensures Stop(s).b.hist.rd == s.b.hist.rd && Stop(s).b.opts == s.b.opts
  {
  }

  lemma EndingKeepsReads(s: State)
    ensures ReadsKept(s.b, OnEof(s).b)
    ensures ReadsKept(s.b, OnDestroying(s).b)
  {
  }

  lemma ConnectingKeepsReads(s: State, ref: Ref, e: Errno)
    ensures ReadsKept(s.b, ConnectValidate(s, ref).b) && ReadsKept(s.b, OnConnect(s).b)
    ensures ReadsKept(s.b, OnError(s, e).b)
    ensures ReadsKept(s.b, OnIncoming(s).b) && ReadsKept(s.b, CancelSend(s).b) && ReadsKept(s.b, ResetWaitingRecv(s).b)
  {
  }

  lemma OtherStepsKeepReads(s: State, e: Event)
    requires !e.EvRecv? && !e.EvRead? && !e.EvSetOpts? && !e.EvStop?
    ensures ReadsKept(s.b, Step(s, e).b)
  {
    hide ReadsKept, Recv, OnRead, SetOptsBase, Stop, Outputv, OnWritable, Close, OnEof, OnDestroying, ConnectValidate,
         OnConnect,
         OnError, OnIncoming, CancelSend, ResetWaitingRecv;
    match e
    case EvOutputv(pid, data, up) => WritingKeepsReads(s, pid, data, up);
    case EvWritable(up) => ResumingKeepsReads(s, up);
    case EvClose(pid, ref) => ClosingKeepsReads(s, pid, ref);
    case EvEof => EndingKeepsReads(s);
    case EvDestroying => EndingKeepsReads(s);
    case EvValidate(ref) => ConnectingKeepsReads(s, ref, ConnReset);
    case EvError(err) => ConnectingKeepsReads(s, 0, err);
    case EvCancelSend => ConnectingKeepsReads(s, 0, ConnReset);
    case EvCancelRecv => ConnectingKeepsReads(s, 0, ConnReset);
    case EvConnect => ConnectingKeepsReads(s, 0, ConnReset);
    case EvIncoming => ConnectingKeepsReads(s, 0, ConnReset);
  }

  /** Raw mode over a run: while the port is open, whatever the interleaving of reads, recvs of any
      length, cancels and changes of the active option. */
  lemma RawStep(w: World, e: Event, pending: seq<seq<byte>>) returns (rest: seq<seq<byte>>)
    requires Allowed(w, e) && Raw(w.s.b, pending) && !e.EvStop?
    ensures Raw(Next(w, e).s.b, rest)
  {
    hide Raw, Recv, OnRead, SetOptsBase, NoEmptyFrame, Merge, Stop, OnWritable, OnEof, OnDestroying, OnError, Outputv,
         Close;
    rest := pending;
    match e
    case EvRecv(pid, ref, len) => rest := RawRecv(w.s, pid, ref, len, pending);
    case EvRead(bytes) => rest := RawRead(w.s, bytes, pending);
    case EvSetOpts(bin) => rest := RawSetOpts(w.s, bin, pending);
    case _ =>
      OtherStepsKeepReads(w.s, e);
      RawKept(w.s.b, Step(w.s, e).b, pending);
  }

  lemma RawKept(a: Base, b: Base, pending: seq<seq<byte>>)
    requires Raw(a, pending) && ReadsKept(a, b)
    ensures Raw(b, pending)
  {
  }

  /** Raw mode in any reachable state: after stop the queue is gone, and what was delivered stays. */
  predicate RawWorld(w: World, pending: seq<seq<byte>>) {
    && w.s.b.opts.packet == 0 && Delivered(w.s.b.hist.rd, pending)
    && (!w.env.stopped ==> Raw(w.s.b, pending))
  }

  lemma RawWorldStep(w: World, e: Event, pending: seq<seq<byte>>) returns (rest: seq<seq<byte>>)
    requires Allowed(w, e) && RawWorld(w, pending)
    ensures RawWorld(Next(w, e), rest)
  {
    hide Recv, OnRead, SetOptsBase, NoEmptyFrame, Merge, Stop, OnWritable, OnEof, OnDestroying, OnError, Outputv, Close,
         ConnectValidate, OnConnect, OnIncoming, Delivered, Segmented;
    if e.EvStop? {
      rest := pending;
      ClosingKeepsReads(w.s, 0, 0);
    } else if !w.env.stopped {
      rest := RawStep(w, e, pending);
    } else {
      rest := pending;
      OtherStepsKeepReads(w.s, e);
    }
  }

  lemma {:induction false} RawRun(w: World, es: seq<Event>, pending: seq<seq<byte>>) returns (rest: seq<seq<byte>>)
    requires AllowedRun(w, es) && RawWorld(w, pending)
    ensures RawWorld(Run(w, es), rest)
    decreases |es|
  {
    if es == [] {
      rest := pending;
    } else {
      rest := RawWorldStep(w, es[0], pending);
      rest := RawRun(Next(w, es[0]), es[1..], rest);
    }
  }

  /** Raw mode conserves what is received. Over every run without framing the delivered bytes are a
      prefix of those that arrived, and as long as the port is open they are followed by exactly the
      driver queue, which read_count cuts into the reads that are left, the first one without what a
      recv took off it. Every message to the connected process was exactly one such part. An active
      socket never has anything queued between two steps. */
  lemma RawConservation(role: Role, opts: SockOpts, es: seq<Event>)
    requires PlainOptions(opts) && opts.packet == 0 && AllowedRun(Start(role, opts), es)
    ensures var w := Run(Start(role, opts), es);
            var b, rd := w.s.b, w.s.b.hist.rd;
            var done := DeliveredBytes(rd.deliveries);
            && done <= Flatten(rd.chunks)
            && (forall i :: 0 <= i < |rd.deliveries| ==> ReadByRead(rd.chunks, rd.deliveries, i))
            && (!w.env.stopped ==>
                  && done + b.portq == Flatten(rd.chunks)
                  && AllPositive(b.readCount) && Sum(b.readCount) == |b.portq|
                  && b.readCount == Lengths(DropBytes(rd.chunks, |done|))
                  && (b.opts.active != ActiveFalse ==> b.portq == []))
  {
    var w0 := Start(role, opts);
    RawStart(role, opts);
    var pending := RawRun(w0, es, []);
    hide Run, Start;
    RawWorldMeans(Run(w0, es), pending);
  }

  lemma RawStart(role: Role, opts: SockOpts)
    requires PlainOptions(opts) && opts.packet == 0
    ensures RawWorld(Start(role, opts), [])
  {
  }

  lemma RawWorldMeans(w: World, pending: seq<seq<byte>>)
    requires RawWorld(w, pending)
    ensures var b, rd := w.s.b, w.s.b.hist.rd;
            var done := DeliveredBytes(rd.deliveries);
            !w.env.stopped ==>
              && done + b.portq == Flatten(rd.chunks)
              && AllPositive(b.readCount) && Sum(b.readCount) == |b.portq|
              && b.readCount == Lengths(DropBytes(rd.chunks, |done|))
  {
    DropBytesFlat(w.s.b.hist.rd.chunks, |DeliveredBytes(w.s.b.hist.rd.deliveries)|);
    LengthsSum(pending);
  }

  // ---------------------------------------------------------------- active once

  /** Since the options were last set to active once, at most one message has gone to the connected
      process, and the socket is still armed exactly if none has. */
  predicate Armed(b: Base) {
    match b.hist.rd.lastSet
    case None => true
    case Some(ActiveOnce) =>
      if b.opts.active == ActiveOnce then b.hist.rd.sinceSet == 0
      else b.opts.active == ActiveFalse && b.hist.rd.sinceSet == 1
    case Some(a) => b.opts.active == a
  }

  /** What an emission does to the count of messages. */
  lemma {:induction false} DeliverAllCounts(b: Base, r: Receiver, parts: seq<seq<byte>>)
    ensures DeliverAll(b, r, parts).hist.rd.sinceSet
         == b.hist.rd.sinceSet + (if r.ConnectedReceiver? then |parts| else 0)
    ensures DeliverAll(b, r, parts).hist.rd.lastSet == b.hist.rd.lastSet
    decreases |parts|
  {
    if parts != [] {
      DeliverAllCounts(Deliver(b, r, parts[0]), r, parts[1..]);
    }
  }

  lemma EmitArmed(b: Base, len: nat, r: Receiver)
    requires Armed(b) && ReadOk(b) && (r.ConnectedReceiver? <==> b.opts.active != ActiveFalse)
    ensures Armed(EmitReadBuffer(b, len, r).b)
  {
    if !CloseToReport(b) && Enough(b, len) {
      var t := Take(b, len);
      assert b.opts.active == ActiveOnce ==> |t.parts| == 1 by {
        assert b.readCount != [];
      }
      hide Take, Deliver;
      var b0 := b.(portq := t.portq, readCount := t.readCount);
      DeliverAllCounts(b0, r, t.parts);
      DeliverAllKeeps(b0, r, t.parts);
    }
  }

  lemma RecvArmed(s: State, pid: Pid, ref: Ref, len: nat)
    requires Armed(s.b) && ReadOk(s.b)
    ensures Armed(Recv(s, pid, ref, len).b)
  {
    hide EmitReadBuffer;
    if s.b.opts.active == ActiveFalse {
      EmitArmed(s.b, len, CallReceiver(Proc(pid), Some(ref)));
    }
  }

  lemma ReadArmed(s: State, bytes: seq<byte>)
    requires Armed(s.b) && ReadOk(s.b)
    ensures Armed(OnRead(s, bytes).b)
  {
    hide EmitReadBuffer;
    var b1 := Emit(s.b.(portq := s.b.portq + bytes, readCount := s.b.readCount + [|bytes|]), Arrived(bytes));
    if bytes != [] {
      SumAppend(s.b.readCount, [|bytes|]);
      assert Sum([|bytes|]) == |bytes|;
      if b1.opts.active == ActiveFalse {
        EmitArmed(b1, s.c.recvLen, CallReceiver(s.c.caller, s.c.callerRef));
      } else {
        EmitArmed(b1, 0, ConnectedReceiver);
      }
    }
  }

  lemma SetOptsArmed(s: State, bin: seq<byte>)
    requires Armed(s.b) && ReadOk(s.b)
    requires KeepsFraming(s.b.opts, bin)
    ensures Armed(SetOpts(s, bin).b)
  {
    hide EmitReadBuffer, Merge;
    if Merge(s.b.opts, bin).Some? {
      var opts := Merge(s.b.opts, bin).value;
      var b1 := Emit(s.b.(opts := opts), OptionsSet(opts.active));
      if SendsOnSet(s.b.opts.active, opts.active, s.b.readCount) {
        EmitArmed(b1, 0, ConnectedReceiver);
      }
    }
  }

  // ---------------------------------------------------------------- framed mode

  /** The payloads delivered so far. */
  function Payloads(ds: seq<Delivery>): (r: seq<seq<byte>>)
    ensures |r| == |ds|
  {
    if ds == [] then [] else Payloads(ds[..|ds| - 1]) + [ds[|ds| - 1].bytes]
  }

  lemma PayloadsSnoc(ds: seq<Delivery>, x: Delivery)
    ensures Payloads(ds + [x]) == Payloads(ds) + [x.bytes]
  {
    assert (ds + [x])[..|ds|] == ds;
  }

  /** A payload a frame can carry. */
  predicate Frameable(packet: nat, m: seq<byte>) {
    0 < |m| < Pow256(packet)
  }

  predicate AllFrameable(packet: nat, ms: seq<seq<byte>>) {
    forall i :: 0 <= i < |ms| ==> Frameable(packet, ms[i])
  }

  /** The bytes of n length prefixes. */
  function Prefixes(packet: nat, n: nat): nat { packet * n }

  lemma PrefixesStep(packet: nat, n: nat)
    ensures Prefixes(packet, n + 1) == Prefixes(packet, n) + packet
    ensures Prefixes(packet, 0) == 0
  {
  }

  /** Framed mode: what arrived is the frames of what was delivered, followed by the queue. */
  predicate FramedBytes(b: Base) {
    var packet := b.opts.packet;
    var payloads := Payloads(b.hist.rd.deliveries);
    && NoEmptyFrame(packet, b.portq)
    && AllFrameable(packet, payloads)
    && Flatten(b.hist.rd.chunks) == Frames(packet, payloads) + b.portq
  }

  /** The sum of read_count exceeds the queue by one length prefix for every frame delivered. */
  predicate FramedCounts(b: Base) {
    && AllPositive(b.readCount)
    && Sum(b.readCount) == |b.portq| + Prefixes(b.opts.packet, |b.hist.rd.deliveries|)
  }

  predicate Framed(b: Base) {
    PlainOptions(b.opts) && b.opts.packet != 0 && FramedBytes(b) && FramedCounts(b)
  }

  lemma FramedOk(b: Base)
    requires Framed(b)
    ensures ReadOk(b) && FrontFrameOk(b)
  {
  }

  /** The next frame, if it is all there. */
  lemma FrontFrame(packet: nat, q: seq<byte>)
    requires packet <= |q|
    ensures var n := FrameLength(packet, q);
            && n < Pow256(packet)
            && (n != 0 && packet + n <= |q| ==> Frame(packet, q[packet..packet + n]) == q[..packet + n])
  {
    BigEndianOnto(q[..packet]);
    var n := FrameLength(packet, q);
    if n != 0 && packet + n <= |q| {
      assert q[..packet + n] == q[..packet] + q[packet..packet + n];
    }
  }

  lemma TakeFramed(b: Base, len: nat)
    requires Framed(b) && Enough(b, len)
    ensures var n := FrameLength(b.opts.packet, b.portq);
            && n != 0
            && Take(b, len)
               == Taken([b.portq[b.opts.packet..b.opts.packet + n]], b.portq[b.opts.packet + n..],
                        Reduce(b.readCount, n))
  {
  }

  /** Moving the front frame of a queue over to the payloads keeps the byte stream. */
  lemma FrameMoves(p: nat, payloads: seq<seq<byte>>, q: seq<byte>)
    requires p <= |q|
    requires var n := FrameLength(p, q); n != 0 && p + n <= |q|
    ensures var n := FrameLength(p, q); Frames(p, payloads + [q[p..p + n]]) + q[p + n..] == Frames(p, payloads) + q
  {
    var n := FrameLength(p, q);
    FrontFrame(p, q);
    FramesSnoc(p, payloads, q[p..p + n]);
    hide Frames, Frame;
    assert q == q[..p + n] + q[p + n..];
  }

  /** The socket after the front frame went to a receiver. */
  function WithoutFrame(b: Base, r: Receiver): Base
    requires Enough(b, 0)
  {
    var p := b.opts.packet;
    var n := FrameLength(p, b.portq);
    Deliver(b.(portq := b.portq[p + n..], readCount := Reduce(b.readCount, n)), r, b.portq[p..p + n])
  }

  lemma FrontFrameFacts(p: nat, q: seq<byte>)
    requires p != 0 && p <= |q| && p + FrameLength(p, q) <= |q| && NoEmptyFrame(p, q)
    ensures var n := FrameLength(p, q); n != 0 && NoEmptyFrame(p, q[p + n..]) && Frameable(p, q[p..p + n])
  {
    FrontFrame(p, q);
  }

  lemma FramedSnoc(p: nat, ds: seq<Delivery>, x: Delivery)
    requires AllFrameable(p, Payloads(ds)) && Frameable(p, x.bytes)
    ensures AllFrameable(p, Payloads(ds + [x]))
  {
    hide Frameable, Payloads;
    PayloadsSnoc(ds, x);
  }

  lemma WithoutFrameBytes(b: Base, r: Receiver)
    requires Enough(b, 0) && FramedBytes(b) && b.opts.packet != 0
    ensures FramedBytes(WithoutFrame(b, r))
  {
    hide NoEmptyFrame, Frame, Frames, Pow256, Payloads, Reduce, Frameable, FrameLength, AllFrameable, BigEndian,
         FromBigEndian, Flatten;
    var p := b.opts.packet;
    FrontFrameFacts(p, b.portq);
    var n := FrameLength(p, b.portq);
    var x := Delivery(r.ConnectedReceiver?, b.portq[p..p + n]);
    var ds := b.hist.rd.deliveries;
    FramedSnoc(p, ds, x);
    PayloadsSnoc(ds, x);
    FrameMoves(p, Payloads(ds), b.portq);
    var b1 := WithoutFrame(b, r);
    assert b1.hist.rd == b.hist.rd.(deliveries := ds + [x], sinceSet := b1.hist.rd.sinceSet);
  }

  lemma WithoutFrameCounts(b: Base, r: Receiver)
    requires Enough(b, 0) && FramedCounts(b)
    ensures FramedCounts(WithoutFrame(b, r))
  {
    hide Prefixes, Reduce, Sum, FrameLength;
    PrefixesStep(b.opts.packet, |b.hist.rd.deliveries|);
    ReduceSum(b.readCount, FrameLength(b.opts.packet, b.portq));
  }

  lemma EmitFramed(b: Base, len: nat, r: Receiver)
    requires Framed(b)
    ensures Framed(EmitReadBuffer(b, len, r).b)
  {
    if !CloseToReport(b) && Enough(b, len) {
      TakeFramed(b, len);
      WithoutFrameBytes(b, r);
      WithoutFrameCounts(b, r);
      var t := Take(b, len);
      hide Take, FramedBytes, FramedCounts, Deliver;
      var b1 := DeliverAll(b.(portq := t.portq, readCount := t.readCount), r, t.parts);
      DeliverSingle(b.(portq := t.portq, readCount := t.readCount), r, t.parts[0]);
      DeliverAllKeeps(b.(portq := t.portq, readCount := t.readCount), r, t.parts);
      assert b1 == WithoutFrame(b, r);
      FramedActive(b1, ActiveFalse);
    }
  }

  lemma FramedActive(b: Base, active: Active)
    requires Framed(b)
    ensures Framed(b.(opts := b.opts.(active := active)))
  {
  }

  lemma FramedRecv(s: State, pid: Pid, ref: Ref, len: nat)
    requires Framed(s.b)
    ensures Framed(Recv(s, pid, ref, len).b)
  {
    hide EmitReadBuffer, Framed, Frames, NoEmptyFrame, FrameLength, Payloads;
    EmitFramed(s.b, len, CallReceiver(Proc(pid), Some(ref)));
    var b := EmitReadBuffer(s.b, len, CallReceiver(Proc(pid), Some(ref))).b;
    SignalFramed(b);
    AnswerFramed(b, true);
    AnswerFramed(Emit(b, RBDrained), true);
    AnswerFramed(s.b, false);
  }

  lemma FramedRead(s: State, bytes: seq<byte>)
    requires Framed(s.b) && NoEmptyFrame(s.b.opts.packet, s.b.portq + bytes)
    ensures Framed(OnRead(s, bytes).b)
  {
    hide EmitReadBuffer, Framed;
    if bytes != [] {
      ReadQueued(s.b, bytes);
      var b1 := Queued(s.b, bytes);
      EmitFramed(b1, s.c.recvLen, CallReceiver(s.c.caller, s.c.callerRef));
      EmitFramed(b1, 0, ConnectedReceiver);
      SignalFramed(EmitReadBuffer(b1, s.c.recvLen, CallReceiver(s.c.caller, s.c.callerRef)).b);
      SignalFramed(EmitReadBuffer(b1, 0, ConnectedReceiver).b);
    }
  }

  lemma SignalFramed(b: Base)
    requires Framed(b)
    ensures Framed(Emit(b, RBDrained))
  {
    hide Frames, NoEmptyFrame;
  }

  lemma AnswerFramed(b: Base, ok: bool)
    requires Framed(b)
    ensures Framed(Emit(b, RecvAnswered(ok)))
  {
    hide Frames, NoEmptyFrame;
  }

  /** Queuing what was read. */
  function Queued(b: Base, bytes: seq<byte>): Base {
    Emit(b.(portq := b.portq + bytes, readCount := b.readCount + [|bytes|]), Arrived(bytes))
  }

  lemma QueuedBytes(b: Base, bytes: seq<byte>)
    requires FramedBytes(b) && NoEmptyFrame(b.opts.packet, b.portq + bytes)
    ensures FramedBytes(Queued(b, bytes))
  {
    hide Frames, NoEmptyFrame, Payloads, Flatten, AllFrameable;
    FlattenSnoc(b.hist.rd.chunks, bytes);
    assert Frames(b.opts.packet, Payloads(b.hist.rd.deliveries)) + b.portq + bytes
        == Frames(b.opts.packet, Payloads(b.hist.rd.deliveries)) + (b.portq + bytes);
  }

  lemma QueuedCounts(b: Base, bytes: seq<byte>)
    requires FramedCounts(b) && bytes != []
    ensures FramedCounts(Queued(b, bytes))
  {
    hide Prefixes, Sum;
    SumAppend(b.readCount, [|bytes|]);
    SumOne(|bytes|);
  }

  lemma ReadQueued(b: Base, bytes: seq<byte>)
    requires Framed(b) && NoEmptyFrame(b.opts.packet, b.portq + bytes) && bytes != []
    ensures Framed(Queued(b, bytes))
  {
    hide FramedBytes, FramedCounts, NoEmptyFrame;
    QueuedBytes(b, bytes);
    QueuedCounts(b, bytes);
  }

  lemma SumOne(n: nat)
    ensures Sum([n]) == n
  {
    assert Sum([n]) == n + Sum([]);
  }

  lemma FramedSetOpts(s: State, bin: seq<byte>)
    requires Framed(s.b)
    requires KeepsFraming(s.b.opts, bin)
    ensures Framed(SetOpts(s, bin).b)
  {
    hide EmitReadBuffer, Frames, NoEmptyFrame, Merge;
    if Merge(s.b.opts, bin).Some? {
      var opts := Merge(s.b.opts, bin).value;
      EmitFramed(Emit(s.b.(opts := opts), OptionsSet(opts.active)), 0, ConnectedReceiver);
    }
  }

  lemma FramedKept(a: Base, b: Base)
    requires Framed(a) && ReadsKept(a, b)
    ensures Framed(b)
  {
  }

  lemma FramedStep(w: World, e: Event)
    requires Allowed(w, e) && Framed(w.s.b) && !e.EvStop?
    ensures Framed(Next(w, e).s.b)
  {
    hide Framed, Recv, OnRead, SetOptsBase, NoEmptyFrame, Merge, Stop, OnWritable, OnEof, OnDestroying, OnError,
         Outputv, Close,
         ConnectValidate, OnConnect, OnIncoming;
    match e
    case EvRecv(pid, ref, len) => FramedRecv(w.s, pid, ref, len);
    case EvRead(bytes) => assert w.s.b.opts.packet != 0 by { FramedPacket(w.s.b); } FramedRead(w.s, bytes);
    case EvSetOpts(bin) => FramedSetOpts(w.s, bin);
    case _ =>
      OtherStepsKeepReads(w.s, e);
      FramedKept(w.s.b, Step(w.s, e).b);
  }

  lemma FramedPacket(b: Base)
    requires Framed(b)
    ensures b.opts.packet != 0
  {
  }

  /** Framed mode in any reachable state. */
  predicate FramedWorld(w: World) {
    var b := w.s.b;
    && PlainOptions(b.opts) && b.opts.packet != 0
    && AllFrameable(b.opts.packet, Payloads(b.hist.rd.deliveries))
    && Frames(b.opts.packet, Payloads(b.hist.rd.deliveries)) <= Flatten(b.hist.rd.chunks)
    && (!w.env.stopped ==> Framed(b))
  }

  lemma FramedWorldStep(w: World, e: Event)
    requires Allowed(w, e) && FramedWorld(w)
    ensures FramedWorld(Next(w, e))
  {
    hide Recv, OnRead, SetOptsBase, NoEmptyFrame, Merge, Stop, OnWritable, OnEof, OnDestroying, OnError, Outputv, Close,
         ConnectValidate, OnConnect, OnIncoming, Frames, AllFrameable, Payloads;
    if e.EvStop? {
      ClosingKeepsReads(w.s, 0, 0);
    } else if !w.env.stopped {
      FramedStep(w, e);
    } else {
      OtherStepsKeepReads(w.s, e);
    }
  }

  /** The reads not yet delivered, as the history tells. */
  function Pending(rd: Reads): seq<seq<byte>> {
    DropBytes(rd.chunks, |DeliveredBytes(rd.deliveries)|)
  }

  /** The invariant of the read side in either mode. */
  predicate ReadsInv(w: World) {
    if w.s.b.opts.packet == 0 then RawWorld(w, Pending(w.s.b.hist.rd)) else FramedWorld(w)
  }

  lemma ReadsStep(w: World, e: Event)
    requires Allowed(w, e) && ReadsInv(w)
    ensures ReadsInv(Next(w, e))
  {
    hide Next, Allowed, FramedWorld;
    if w.s.b.opts.packet == 0 {
      var rest := RawWorldStep(w, e, Pending(w.s.b.hist.rd));
    } else {
      FramedWorldStep(w, e);
      assert FramedWorld(w) ==> w.s.b.opts.packet != 0;
      FramedWorldPacket(Next(w, e));
    }
  }

  lemma FramedWorldPacket(w: World)
    requires FramedWorld(w)
    ensures w.s.b.opts.packet != 0
  {
  }

  lemma {:induction false} ReadsRun(w: World, es: seq<Event>)
    requires AllowedRun(w, es) && ReadsInv(w)
    ensures ReadsInv(Run(w, es))
    decreases |es|
  {
    if es != [] {
      ReadsStep(w, es[0]);
      ReadsRun(Next(w, es[0]), es[1..]);
    }
  }

  lemma ReadsStart(role: Role, opts: SockOpts)
    requires PlainOptions(opts)
    ensures ReadsInv(Start(role, opts))
  {
    if opts.packet == 0 {
      RawStart(role, opts);
    }
  }

  lemma ReadsOfReachable(w: World)
    requires Reachable(w)
    ensures ReadsInv(w)
  {
    var role, opts, es :| PlainOptions(opts) && AllowedRun(Start(role, opts), es) && w == Run(Start(role, opts), es);
    ReadsStart(role, opts);
    ReadsRun(Start(role, opts), es);
  }

  /** In every reachable state of an open port the two structures of the read side agree as
      emit_read_buffer needs: reduce_read_count never runs out of counts, and the frame it finds at the
      front of the queue is not empty. */
  lemma ReadOkOfReachable(w: World)
    requires Reachable(w) && !w.env.stopped
    ensures ReadOk(w.s.b) && FrontFrameOk(w.s.b)
  {
    ReadsOfReachable(w);
    if w.s.b.opts.packet == 0 {
      var rd := w.s.b.hist.rd;
      DropBytesFlat(rd.chunks, |DeliveredBytes(rd.deliveries)|);
      SegmentedOk(w.s.b, Pending(rd));
    } else {
      FramedOk(w.s.b);
    }
  }

  /** Framed mode, over every run: what arrived is the frames of the payloads delivered, in order,
      followed by the driver queue while the port is open; and read_count adds up to the queue plus one
      length prefix per frame delivered, because only payloads are taken off it. */
  lemma FramedAccounting(w: World)
    requires Reachable(w) && w.s.b.opts.packet != 0
    ensures var b := w.s.b;
            var payloads := Payloads(b.hist.rd.deliveries);
            && Frames(b.opts.packet, payloads) <= Flatten(b.hist.rd.chunks)
            && AllFrameable(b.opts.packet, payloads)
            && (!w.env.stopped ==>
                  && Frames(b.opts.packet, payloads) + b.portq == Flatten(b.hist.rd.chunks)
                  && Sum(b.readCount) == |b.portq| + b.opts.packet * |payloads|
                  && AllPositive(b.readCount))
  {
    ReadsOfReachable(w);
  }

  lemma ArmedStep(w: World, e: Event)
    requires Allowed(w, e) && Armed(w.s.b) && (!w.env.stopped ==> ReadOk(w.s.b))
    ensures Armed(Next(w, e).s.b)
  {
    hide Armed, ReadOk, Recv, OnRead, SetOptsBase, NoEmptyFrame, Merge, Stop, OnWritable, OnEof, OnDestroying, OnError,
         Outputv, Close, ConnectValidate, OnConnect, OnIncoming;
    match e
    case EvRecv(pid, ref, len) => RecvArmed(w.s, pid, ref, len);
    case EvRead(bytes) => ReadArmed(w.s, bytes);
    case EvSetOpts(bin) => SetOptsArmed(w.s, bin);
    case EvStop =>
      ClosingKeepsReads(w.s, 0, 0);
      ArmedKept(w.s.b, Stop(w.s).b);
    case _ =>
      OtherStepsKeepReads(w.s, e);
      ArmedKept(w.s.b, Step(w.s, e).b);
  }

  lemma ArmedKept(a: Base, b: Base)
    requires Armed(a) && a.hist.rd == b.hist.rd && a.opts == b.opts
    ensures Armed(b)
  {
  }

  lemma {:induction false} ArmedRun(w: World, es: seq<Event>)
    requires AllowedRun(w, es) && ReadsInv(w) && Armed(w.s.b)
    ensures Armed(Run(w, es).s.b)
    decreases |es|
  {
    if es != [] {
      hide ReadsInv, Armed, Next, Allowed;
      ReadsOk(w);
      ReadsStep(w, es[0]);
      ArmedStep(w, es[0]);
      ArmedRun(Next(w, es[0]), es[1..]);
    }
  }

  lemma ReadsOk(w: World)
    requires ReadsInv(w)
    ensures !w.env.stopped ==> ReadOk(w.s.b)
  {
    if !w.env.stopped {
      if w.s.b.opts.packet == 0 {
        var rd := w.s.b.hist.rd;
        DropBytesFlat(rd.chunks, |DeliveredBytes(rd.deliveries)|);
        SegmentedOk(w.s.b, Pending(rd));
      } else {
        FramedOk(w.s.b);
      }
    }
  }

  /** Active once, over every run and in either mode: since setopts last made the socket active once, at
      most one message has gone to the connected process, and the socket is still armed exactly if none
      has. */
  lemma ActiveOnceGuarantee(w: World)
    requires Reachable(w) && w.s.b.hist.rd.lastSet == Some(ActiveOnce)
    ensures w.s.b.hist.rd.sinceSet <= 1
    ensures w.s.b.opts.active == ActiveOnce <==> w.s.b.hist.rd.sinceSet == 0
    ensures w.s.b.opts.active != ActiveTrue
  {
    var role, opts, es :| PlainOptions(opts) && AllowedRun(Start(role, opts), es) && w == Run(Start(role, opts), es);
    hide ReadsInv, Start;
    ReadsStart(role, opts);
    ArmedStart(role, opts);
    ArmedRun(Start(role, opts), es);
  }

  lemma ArmedStart(role: Role, opts: SockOpts)
    ensures Armed(Start(role, opts).s.b)
  {
  }

  /** What do_get_rb_size tells libutp is exactly what has arrived and not been delivered: without framing the
      bytes that arrived less those delivered, with framing less the frames delivered. */
  lemma WindowIsUndelivered(w: World)
    requires Reachable(w) && !w.env.stopped && w.s.c.status == Connected
    ensures var rd := w.s.b.hist.rd;
            var done := if w.s.b.opts.packet == 0 then DeliveredBytes(rd.deliveries)
                        else Frames(w.s.b.opts.packet, Payloads(rd.deliveries));
            done <= Flatten(rd.chunks) && RbSize(w.s) == |Flatten(rd.chunks)| - |done|
  {
    ReadsOfReachable(w);
    hide Reachable, Frames;
    if w.s.b.opts.packet == 0 {
      RawWorldMeans(w, Pending(w.s.b.hist.rd));
    }
  }

  // ---------------------------------------------------------------- framed active mode

  /** The queue starts with a whole frame. */
  predicate WholeFrame(p: nat, q: seq<byte>) {
    p <= |q| && p + FrameLength(p, q) <= |q|
  }

  predicate TwoWholeFrames(p: nat, q: seq<byte>) {
    WholeFrame(p, q) && WholeFrame(p, q[p + FrameLength(p, q)..])
  }

  /** An active socket with a whole frame in its queue. */
  predicate FrameWaits(b: Base) {
    b.opts.active != ActiveFalse && b.portq != [] && WholeFrame(b.opts.packet, b.portq)
  }

  /** An emission takes the front frame, and makes a socket that was active once passive. */
  lemma EmitTakesFrame(b: Base, len: nat, r: Receiver)
    requires Framed(b)
    ensures var t := EmitReadBuffer(b, len, r).b;
            var p := b.opts.packet;
            && t.opts.packet == p && p != 0
            && (if Enough(b, len)
                then t.portq == b.portq[p + FrameLength(p, b.portq)..]
                     && t.opts.active == (if b.opts.active == ActiveOnce then ActiveFalse else b.opts.active)
                else t.portq == b.portq && t.opts == b.opts)
  {
    if !CloseToReport(b) && Enough(b, len) {
      TakeFramed(b, len);
      var t := Take(b, len);
      hide Take, FrameLength, FramedBytes, FramedCounts;
      DeliverAllKeeps(b.(portq := t.portq, readCount := t.readCount), r, t.parts);
    }
  }

  /** A read on an active socket leaves a whole frame behind exactly if it makes two of them. */
  lemma ReadStrands(s: State, bytes: seq<byte>)
    requires Framed(s.b) && bytes != [] && NoEmptyFrame(s.b.opts.packet, s.b.portq + bytes)
    ensures FrameWaits(OnRead(s, bytes).b) <==>
            s.b.opts.active == ActiveTrue && TwoWholeFrames(s.b.opts.packet, s.b.portq + bytes)
  {
    hide EmitReadBuffer, Framed, FrameLength;
    ReadQueued(s.b, bytes);
    var b1 := Queued(s.b, bytes);
    EmitTakesFrame(b1, s.c.recvLen, CallReceiver(s.c.caller, s.c.callerRef));
    EmitTakesFrame(b1, 0, ConnectedReceiver);
  }

  lemma SetOptsStrands(s: State, bin: seq<byte>)
    requires Framed(s.b)
    requires KeepsFraming(s.b.opts, bin)
    ensures FrameWaits(SetOpts(s, bin).b) <==>
            if DeliversOnSet(s.b, bin)
            then Merge(s.b.opts, bin).value.active == ActiveTrue && TwoWholeFrames(s.b.opts.packet, s.b.portq)
            else FrameWaits(s.b) && (Merge(s.b.opts, bin).Some? ==> Merge(s.b.opts, bin).value.active != ActiveFalse)
  {
    hide EmitReadBuffer, Merge, FrameLength;
    if Merge(s.b.opts, bin).Some? {
      var opts := Merge(s.b.opts, bin).value;
      var b1 := Emit(s.b.(opts := opts), OptionsSet(opts.active));
      FramedReopts(s.b, opts);
      assert s.b.readCount == [] ==> s.b.portq == [] by { FramedEmpty(s.b); }
      hide Framed;
      EmitTakesFrame(b1, 0, ConnectedReceiver);
    }
  }

  lemma FramedReopts(b: Base, opts: SockOpts)
    requires Framed(b) && opts.packet == b.opts.packet && opts.header == b.opts.header
    ensures Framed(Emit(b.(opts := opts), OptionsSet(opts.active)))
  {
    hide Frames, NoEmptyFrame;
  }

  lemma FramedEmpty(b: Base)
    requires FramedCounts(b)
    ensures b.readCount == [] ==> b.portq == []
  {
  }

  lemma RecvStrandsNothing(s: State, pid: Pid, ref: Ref, len: nat)
    requires Framed(s.b)
    ensures FrameWaits(Recv(s, pid, ref, len).b) <==> FrameWaits(s.b)
  {
    hide EmitReadBuffer, Framed, FrameLength;
    EmitTakesFrame(s.b, len, CallReceiver(Proc(pid), Some(ref)));
  }

  /** The steps that leave a whole frame behind on an active socket. */
  predicate StrandsFrame(w: World, e: Event) {
    var b := w.s.b;
    || (e.EvRead? && e.bytes != [] && b.opts.active == ActiveTrue && TwoWholeFrames(b.opts.packet, b.portq + e.bytes))
    || (e.EvSetOpts? && DeliversOnSet(b, e.bin) && Merge(b.opts, e.bin).value.active == ActiveTrue
        && TwoWholeFrames(b.opts.packet, b.portq))
  }

  /** The steps that look at the queue again, make the socket passive, or end the port. */
  predicate LooksAgain(w: World, e: Event) {
    || (e.EvRead? && e.bytes != [])
    || (e.EvSetOpts? && Merge(w.s.b.opts, e.bin).Some?
        && (DeliversOnSet(w.s.b, e.bin) || Merge(w.s.b.opts, e.bin).value.active == ActiveFalse))
    || e.EvStop?
  }

  lemma FrameStep(w: World, e: Event)
    requires Allowed(w, e) && FramedWorld(w)
    ensures FrameWaits(Next(w, e).s.b) <==> StrandsFrame(w, e) || (FrameWaits(w.s.b) && !LooksAgain(w, e))
  {
    hide Recv, OnRead, SetOptsBase, NoEmptyFrame, Merge, Parse, Stop, OnWritable, OnEof, OnDestroying, OnError,
         Outputv, Close,
         ConnectValidate, OnConnect, OnIncoming, Frames, AllFrameable, Payloads, TwoWholeFrames, WholeFrame,
         DeliversOnSet, Framed,
         UptakeAllowed, Flatten;
    match e
    case EvRecv(pid, ref, len) => RecvStrandsNothing(w.s, pid, ref, len);
    case EvRead(bytes) =>
      if bytes != [] {
        ReadStrands(w.s, bytes);
      } else {
        ReadNothing(w.s);
      }
    case EvSetOpts(bin) =>
      SetOptsStrands(w.s, bin);
      DeliversOnlyAccepted(w.s.b, bin);
    case EvStop => StopEmpties(w.s);
    case _ => OtherStepsKeepReads(w.s, e);
  }

  lemma DeliversOnlyAccepted(b: Base, bin: seq<byte>)
    ensures DeliversOnSet(b, bin) ==> Merge(b.opts, bin).Some?
  {
  }

  lemma ReadNothing(s: State)
    ensures OnRead(s, []) == s
  {
  }

  lemma StopEmpties(s: State)
    ensures Stop(s).b.portq == []
  {
  }

  lemma {:induction false} RunSplit(w: World, es: seq<Event>)
    requires AllowedRun(w, es) && es != []
    ensures var front, last := es[..|es| - 1], es[|es| - 1];
            AllowedRun(w, front) && Allowed(Run(w, front), last) && Run(w, es) == Next(Run(w, front), last)
    decreases |es|
  {
    hide Allowed, Next;
    if |es| > 1 {
      RunSplit(Next(w, es[0]), es[1..]);
      assert es[1..][..|es| - 2] == es[..|es| - 1][1..];
    } else {
      assert es[1..] == [];
    }
  }

  /** The i-th step left a frame behind, and no later one looked at the queue again. */
  predicate StrandedSince(w: World, es: seq<Event>, i: nat)
    requires i < |es|
  {
    StrandsFrame(Run(w, es[..i]), es[i]) && forall j :: i < j < |es| ==> !LooksAgain(Run(w, es[..j]), es[j])
  }

  lemma StrandedExtends(w: World, es: seq<Event>, i: nat)
    requires es != [] && i < |es| - 1
    ensures StrandedSince(w, es, i) <==>
            StrandedSince(w, es[..|es| - 1], i) && !LooksAgain(Run(w, es[..|es| - 1]), es[|es| - 1])
  {
    hide StrandsFrame, LooksAgain, Run;
    var front := es[..|es| - 1];
    assert front[..i] == es[..i];
    assert forall j :: i < j < |front| ==> front[..j] == es[..j] && front[j] == es[j];
    if StrandedSince(w, es, i) {
      forall j | i < j < |front|
        ensures !LooksAgain(Run(w, front[..j]), front[j])
      {
        assert !LooksAgain(Run(w, es[..j]), es[j]);
      }
    }
    if StrandedSince(w, front, i) && !LooksAgain(Run(w, front), es[|es| - 1]) {
      forall j | i < j < |es|
        ensures !LooksAgain(Run(w, es[..j]), es[j])
      {
        if j < |front| {
          assert !LooksAgain(Run(w, front[..j]), front[j]);
        }
      }
    }
  }

  lemma {:induction false} FrameRun(w: World, es: seq<Event>)
    requires AllowedRun(w, es) && FramedWorld(w) && w.s.b.portq == []
    ensures FramedWorld(Run(w, es))
    ensures FrameWaits(Run(w, es).s.b) <==> exists i :: 0 <= i < |es| && StrandedSince(w, es, i)
    decreases |es|
  {
    hide FramedWorld, StrandsFrame, LooksAgain, Allowed, Next, StrandedSince;
    if es != [] {
      hide FrameWaits;
      var front, last := es[..|es| - 1], es[|es| - 1];
      RunSplit(w, es);
      FrameRun(w, front);
      FrameStep(Run(w, front), last);
      FramedWorldStep(Run(w, front), last);
      LastStrands(w, es);
      if i :| 0 <= i < |front| && StrandedSince(w, front, i) {
        StrandedExtends(w, es, i);
      }
      if i :| 0 <= i < |es| && StrandedSince(w, es, i) {
        if i < |front| {
          StrandedExtends(w, es, i);
        }
      }
    }
  }

  lemma LastStrands(w: World, es: seq<Event>)
    requires es != []
    ensures StrandedSince(w, es, |es| - 1) <==> StrandsFrame(Run(w, es[..|es| - 1]), es[|es| - 1])
  {
    hide StrandsFrame, LooksAgain, Run;
  }

  /** With framing, over every run: a whole frame waits on an active socket exactly if some read or setopts
      found two whole frames in the queue of a socket that stays active, and since then nothing has looked at the
      queue again: no read, no setopts that delivers or makes the socket passive, no stop. */
  lemma FramedActiveMode(role: Role, opts: SockOpts, es: seq<Event>)
    requires PlainOptions(opts) && opts.packet != 0 && AllowedRun(Start(role, opts), es)
    ensures FrameWaits(Run(Start(role, opts), es).s.b) <==>
            exists i :: 0 <= i < |es| && StrandedSince(Start(role, opts), es, i)
  {
    ReadsStart(role, opts);
    StartQueue(role, opts);
    assert FramedWorld(Start(role, opts));
    hide Start, ReadsInv, FramedWorld, StrandedSince, FrameWaits;
    FrameRun(Start(role, opts), es);
  }

  lemma StartQueue(role: Role, opts: SockOpts)
    ensures Start(role, opts).s.b.portq == [] && Start(role, opts).s.b.opts == opts
  {
  }

  /** With framing, active mode can leave a whole frame undelivered: a read that carries two frames
      delivers only the first, and nothing but another read or setopts looks at the queue again. */
  lemma FramedActiveStrands()
    ensures exists w :: Reachable(w) && !w.env.stopped && w.s.b.opts.active == ActiveTrue && Enough(w.s.b, 0)
  {
    var w0 := ConnectedFramed();
    var bytes: seq<byte> := [1, 7, 1, 8];
    TwoFrames(bytes);
    ReachableNext(w0, EvRead(bytes));
    var w := Next(w0, EvRead(bytes));
    hide OnRead, Recv, SetOptsBase, NoEmptyFrame, Merge, Outputv, OnWritable, OnEof, OnError, OnConnect, OnIncoming,
         ConnectValidate;
    assert w.s == OnRead(w0.s, bytes);
    ReadTwoFrames(w0.s, bytes);
  }

  lemma ConnectedFramed() returns (w: World)
    ensures Reachable(w) && !w.env.stopped && !w.env.destroyed && w.s.b.hist.link.acquired == 1
    ensures w.s.b.hist.link.freed == 0
    ensures w.s.b.opts == DEFAULTS.(packet := 1) && w.s.b.portq == [] && w.s.b.readCount == [] && !w.s.b.closePending
  {
    var opts := DEFAULTS.(packet := 1);
    var w0 := Start(Client, opts);
    assert AllowedRun(w0, []) && w0 == Run(w0, []);
    assert Reachable(w0);
    ReachableNext(w0, EvConnect);
    w := Next(w0, EvConnect);
  }

  lemma TwoFrames(q: seq<byte>)
    requires q == [1, 7, 1, 8]
    ensures FrameLength(1, q) == 1 && q[2..] == [1, 8] && FrameLength(1, [1, 8]) == 1
    ensures NoEmptyFrame(1, [] + q)
  {
    assert q[..1] == [1] && [1][..0] == [] && FromBigEndian([1]) == 256 * FromBigEndian([]) + 1;
    assert [1, 8][..1] == [1];
    assert q[2..] == [1, 8] && [1, 8][2..] == [];
    assert NoEmptyFrame(1, []);
    assert NoEmptyFrame(1, [1, 8]);
    assert [] + q == q;
  }

  lemma ReadTwoFrames(s: State, q: seq<byte>)
    requires q == [1, 7, 1, 8]
    requires s.b.opts == DEFAULTS.(packet := 1) && s.b.portq == [] && s.b.readCount == []
    ensures var b := OnRead(s, q).b; Enough(b, 0) && b.opts == s.b.opts
  {
    TwoFrames(q);
    var b1 := Emit(s.b.(portq := s.b.portq + q, readCount := s.b.readCount + [|q|]), Arrived(q));
    assert b1.portq == q;
    var t := Take(b1, 0);
    assert t.portq == [1, 8];
    hide Take;
    DeliverAllKeeps(b1.(portq := t.portq, readCount := t.readCount), ConnectedReceiver, t.parts);
  }
}

