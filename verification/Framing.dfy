/** Two connections and the byte stream between them: with the same packet size at both ends, what one
    end delivers is what the other end accepted, message by message. */
module Framing {
  import opened Bytes
  import opened Options
  import opened Driver
  import opened Lifecycle
  import opened ReadSide

  // ---------------------------------------------------------------- frames form a prefix code

  /** A stream that starts with the frame of a message tells its length and its payload. */
  lemma FrameReads(p: nat, m: seq<byte>, rest: seq<byte>)
    requires p != 0 && Frameable(p, m)
    ensures var q := Frame(p, m) + rest;
            FrameLength(p, q) == |m| && |Frame(p, m)| == p + |m| && q[p..p + |m|] == m && q[p + |m|..] == rest
  {
    var q := Frame(p, m) + rest;
    BigEndianRoundTrip(|m|, p);
    ModUnique(|m|, Pow256(p), 0, |m|);
    assert q[..p] == BigEndian(|m|, p);
  }

  lemma FrameReadsPrefix(p: nat, m: seq<byte>, rest: seq<byte>, q: seq<byte>)
    requires p != 0 && Frameable(p, m) && q <= Frame(p, m) + rest && p <= |q|
    ensures FrameLength(p, q) == |m|
    ensures p + |m| <= |q| ==> Frame(p, m) <= q && q[p..p + |m|] == m && q[p + |m|..] <= rest
  {
    FrameReads(p, m, rest);
    var whole := Frame(p, m) + rest;
    assert q[..p] == whole[..p];
    if p + |m| <= |q| {
      assert q == whole[..|q|];
      assert q[p..p + |m|] == whole[p..p + |m|];
    }
  }

  lemma PrefixCodeStep(p: nat, x: seq<byte>, more: seq<byte>, y: seq<byte>, rest: seq<byte>)
    requires p != 0 && Frameable(p, x) && Frameable(p, y)
    requires Frame(p, x) + more <= Frame(p, y) + rest
    ensures x == y && more <= rest
  {
    hide Frame, FrameLength, Frameable;
    FrameReads(p, x, more);
    FrameReadsPrefix(p, y, rest, Frame(p, x) + more);
  }

  /** Messages whose frames start a stream of frames are the first messages of that stream. */
  lemma {:induction false} PrefixCode(p: nat, xs: seq<seq<byte>>, ys: seq<seq<byte>>, q: seq<byte>)
    requires p != 0 && AllFrameable(p, xs) && AllFrameable(p, ys)
    requires Frames(p, xs) + q <= Frames(p, ys)
    ensures xs <= ys && q <= Frames(p, ys[|xs|..])
    decreases |xs|
  {
    hide Frame, Pow256;
    if xs == [] {
      assert [] + q == q;
    } else {
      FrameReads(p, xs[0], Frames(p, xs[1..]));
      assert Frames(p, xs) + q == Frame(p, xs[0]) + (Frames(p, xs[1..]) + q);
      assert ys != [];
      PrefixCodeStep(p, xs[0], Frames(p, xs[1..]) + q, ys[0], Frames(p, ys[1..]));
      assert AllFrameable(p, xs[1..]) && AllFrameable(p, ys[1..]);
      PrefixCode(p, xs[1..], ys[1..], q);
      assert ys[|xs|..] == ys[1..][|xs[1..]|..];
    }
  }

  /** Messages short enough for a frame, empty ones included. */
  predicate AllShort(p: nat, ms: seq<seq<byte>>) {
    forall i :: 0 <= i < |ms| ==> |ms[i]| < Pow256(p)
  }

  /** The messages that carry anything. */
  function NonEmpty(ms: seq<seq<byte>>): seq<seq<byte>> {
    if ms == [] then [] else (if ms[0] == [] then [] else [ms[0]]) + NonEmpty(ms[1..])
  }

  /** An empty message puts nothing on the stream. */
  lemma {:induction false} EmptyMessagesVanish(p: nat, ms: seq<seq<byte>>)
    requires AllShort(p, ms)
    ensures Frames(p, ms) == Frames(p, NonEmpty(ms)) && AllFrameable(p, NonEmpty(ms))
    decreases |ms|
  {
    if ms != [] {
      assert forall i :: 0 <= i < |ms[1..]| ==> ms[1..][i] == ms[i + 1];
      EmptyMessagesVanish(p, ms[1..]);
      var rest := NonEmpty(ms[1..]);
      if ms[0] == [] {
        assert [] + rest == rest;
        assert Frame(p, ms[0]) + Frames(p, rest) == Frames(p, rest);
      } else {
        assert ([ms[0]] + rest)[1..] == rest;
      }
    }
  }

  /** The start of a stream of frames has no empty frame, whatever messages it carries. */
  lemma StreamHasNoEmptyFrame(p: nat, ms: seq<seq<byte>>, q: seq<byte>)
    requires p != 0 && AllShort(p, ms) && q <= Frames(p, ms)
    ensures NoEmptyFrame(p, q)
  {
    EmptyMessagesVanish(p, ms);
    FramesHaveNoEmptyFrame(p, NonEmpty(ms), q);
  }

  lemma {:induction false} FramesHaveNoEmptyFrame(p: nat, ms: seq<seq<byte>>, q: seq<byte>)
    requires p != 0 && AllFrameable(p, ms) && q <= Frames(p, ms)
    ensures NoEmptyFrame(p, q)
    decreases |ms|
  {
    if p <= |q| {
      assert ms != [];
      FrameReadsPrefix(p, ms[0], Frames(p, ms[1..]), q);
      if p + |ms[0]| <= |q| {
        assert AllFrameable(p, ms[1..]);
        FramesHaveNoEmptyFrame(p, ms[1..], q[p + |ms[0]|..]);
      }
    }
  }

  /** and holds enough for a read of the next message exactly if it contains its whole frame. */
  lemma StreamEnough(p: nat, ms: seq<seq<byte>>, q: seq<byte>)
    requires p != 0 && AllFrameable(p, ms) && q <= Frames(p, ms)
    ensures p <= |q| && p + FrameLength(p, q) <= |q| <==> ms != [] && Frame(p, ms[0]) <= q
    ensures ms != [] && Frame(p, ms[0]) <= q ==>
              FrameLength(p, q) == |ms[0]| && p + |ms[0]| <= |q| && q[p..p + |ms[0]|] == ms[0]
  {
    if ms != [] {
      FrameReads(p, ms[0], Frames(p, ms[1..]));
      if p <= |q| {
        FrameReadsPrefix(p, ms[0], Frames(p, ms[1..]), q);
      }
    }
  }

  // ---------------------------------------------------------------- two ends

  /** The sending and the receiving end of a connection. */
  datatype Net = Net(a: World, b: World)

  /** An event at the sending end, an event other than a read at the receiving end, or the arrival there
      of the next n bytes of the stream. */
  datatype NetEvent = AtSender(e: Event) | AtReceiver(e: Event) | Transmit(n: nat)

  function InFlight(net: Net): seq<byte> {
    var received := |Flatten(net.b.s.b.hist.rd.chunks)|;
    var handed := net.a.s.b.hist.link.handed;
    if received <= |handed| then handed[received..] else []
  }

  function NextNet(net: Net, ev: NetEvent): Net {
    match ev
    case AtSender(e) => net.(a := Next(net.a, e))
    case AtReceiver(e) => net.(b := Next(net.b, e))
    case Transmit(n) => net.(b := Next(net.b, EvRead(InFlight(net)[..Min(n, |InFlight(net)|)])))
  }

  /** The sender's messages are short enough for a frame, and may be empty; bytes arrive at an open, connected
      receiver. Nothing is asked of the bytes that arrive: that they contain no empty frame is proved. */
  predicate NetAllowed(net: Net, ev: NetEvent) {
    match ev
    case AtSender(e) => Allowed(net.a, e) && (e.EvOutputv? ==> |e.data| < Pow256(net.a.s.b.opts.packet))
    case AtReceiver(e) => Allowed(net.b, e) && !e.EvRead?
    case Transmit(_) =>
      var link := net.b.s.b.hist.link;
      link.acquired > 0 && !net.b.env.destroyed && !net.b.env.stopped
  }

  function RunNet(net: Net, evs: seq<NetEvent>): Net
    decreases |evs|
  {
    if evs == [] then net else RunNet(NextNet(net, evs[0]), evs[1..])
  }

  predicate NetAllowedRun(net: Net, evs: seq<NetEvent>)
    decreases |evs|
  {
    evs == [] || (NetAllowed(net, evs[0]) && NetAllowedRun(NextNet(net, evs[0]), evs[1..]))
  }

  /** Any two ends with the same packet size 1, 2 or 4. */
  ghost predicate NetReachable(net: Net) {
    exists ra, oa, rb, ob, evs ::
      && PlainOptions(oa) && PlainOptions(ob) && oa.packet == ob.packet != 0
      && NetAllowedRun(Net(Start(ra, oa), Start(rb, ob)), evs) && net == RunNet(Net(Start(ra, oa), Start(rb, ob)), evs)
  }

  /** The messages accepted at the sending end that carry anything. */
  function Sent(net: Net): seq<seq<byte>> {
    NonEmpty(net.a.s.b.hist.link.accepted)
  }

  ghost predicate NetInv(net: Net) {
    var p := net.a.s.b.opts.packet;
    && Reachable(net.a) && Reachable(net.b)
    && p == net.b.s.b.opts.packet != 0
    && AllShort(p, net.a.s.b.hist.link.accepted)
    && Flatten(net.b.s.b.hist.rd.chunks) <= net.a.s.b.hist.link.handed
  }

  // ---------------------------------------------------------------- what one step does to the stream

  lemma PacketKept(w: World, e: Event)
    requires Allowed(w, e)
    ensures Next(w, e).s.b.opts.packet == w.s.b.opts.packet
  {
    hide Recv, OnRead, SetOptsBase, NoEmptyFrame, Merge, Stop, OnWritable, OnEof, OnDestroying, OnError, Outputv, Close,
         ConnectValidate, OnConnect, OnIncoming;
    match e
    case EvRecv(pid, ref, len) => RecvFrame(w.s, pid, ref, len);
    case EvRead(bytes) => ReadFrame(w.s, bytes);
    case EvSetOpts(bin) => SetOptsFrame(w.s.b, bin);
    case EvStop => ClosingKeepsReads(w.s, 0, 0);
    case _ => OtherStepsKeepReads(w.s, e);
  }

  /** The sender's stream only grows, and only outputv accepts a message. */
  predicate Grows(a: Link, b: Link) {
    a.handed <= b.handed && a.accepted == b.accepted
  }

  lemma WritesGrow(s: State, pid: Pid, data: seq<byte>, up: Uptake)
    ensures var l := Outputv(s, pid, data, up).b.hist.link;
            && s.b.hist.link.handed <= l.handed
            && (l.accepted == s.b.hist.link.accepted || l.accepted == s.b.hist.link.accepted + [data])
  {
    hide Frame;
  }

  lemma ResumesGrow(s: State, up: Uptake)
    ensures Grows(s.b.hist.link, OnWritable(s, up).b.hist.link)
  {
    var t := ResumeWriting(s, up);
    assert Grows(s.b.hist.link, t.b.hist.link);
    hide ResumeWriting;
    assert Grows(t.b.hist.link, CloseUtp(t).b.hist.link);
  }

  lemma ClosesGrow(s: State, pid: Pid, ref: Ref)
    ensures Grows(s.b.hist.link, Close(s, pid, ref).b.hist.link)
  {
  }

  lemma StopsGrow(s: State)
    ensures Grows(s.b.hist.link, Stop(s).b.hist.link)
  {
  }

  lemma EndsGrow(s: State)
    ensures Grows(s.b.hist.link, OnEof(s).b.hist.link)
    ensures Grows(s.b.hist.link, OnDestroying(s).b.hist.link)
  {
  }

  lemma ValidatesGrow(s: State, ref: Ref)
    ensures Grows(s.b.hist.link, ConnectValidate(s, ref).b.hist.link)
  {
  }

  lemma ErrorsGrow(s: State, e: Errno)
    ensures Grows(s.b.hist.link, OnError(s, e).b.hist.link)
  {
  }

  lemma HandlesGrow(s: State)
    ensures Grows(s.b.hist.link, OnConnect(s).b.hist.link)
    ensures Grows(s.b.hist.link, OnIncoming(s).b.hist.link)
  {
  }

  lemma StreamGrows(w: World, e: Event)
    requires Allowed(w, e)
    ensures var l := Next(w, e).s.b.hist.link;
            && w.s.b.hist.link.handed <= l.handed
            && (l.accepted == w.s.b.hist.link.accepted
                || (e.EvOutputv? && l.accepted == w.s.b.hist.link.accepted + [e.data]))
  {
    hide Recv, OnRead, SetOptsBase, NoEmptyFrame, Merge, Stop, OnWritable, OnEof, OnDestroying, OnError, Outputv, Close,
         ConnectValidate, OnConnect, OnIncoming;
    match e
    case EvOutputv(pid, data, up) => WritesGrow(w.s, pid, data, up);
    case EvWritable(up) => ResumesGrow(w.s, up);
    case EvRecv(pid, ref, len) => RecvFrame(w.s, pid, ref, len);
    case EvRead(bytes) => ReadFrame(w.s, bytes);
    case EvSetOpts(bin) => SetOptsFrame(w.s.b, bin);
    case EvClose(pid, ref) => ClosesGrow(w.s, pid, ref);
    case EvStop => StopsGrow(w.s);
    case EvEof => EndsGrow(w.s);
    case EvDestroying => EndsGrow(w.s);
    case EvValidate(ref) => ValidatesGrow(w.s, ref);
    case EvError(err) => ErrorsGrow(w.s, err);
    case EvConnect => HandlesGrow(w.s);
    case EvIncoming => HandlesGrow(w.s);
    case EvCancelSend =>
    case EvCancelRecv =>
  }

  /** Only a read adds to what arrived. */
  lemma ChunksKept(w: World, e: Event)
    requires Allowed(w, e) && !e.EvRead?
    ensures Next(w, e).s.b.hist.rd.chunks == w.s.b.hist.rd.chunks
  {
    hide Recv, OnRead, SetOptsBase, NoEmptyFrame, Merge, Stop, OnWritable, OnEof, OnDestroying, OnError, Outputv, Close,
         ConnectValidate, OnConnect, OnIncoming;
    match e
    case EvRecv(pid, ref, len) => RecvKeepsChunks(w.s, pid, ref, len);
    case EvSetOpts(bin) => SetOptsKeepsChunks(w.s.b, bin);
    case EvStop => ClosingKeepsReads(w.s, 0, 0);
    case _ => OtherStepsKeepReads(w.s, e);
  }

  lemma RecvKeepsChunks(s: State, pid: Pid, ref: Ref, len: nat)
    ensures Recv(s, pid, ref, len).b.hist.rd.chunks == s.b.hist.rd.chunks
  {
    hide EmitReadBuffer;
    EmitFrame(s.b, len, CallReceiver(Proc(pid), Some(ref)));
  }

  lemma SetOptsKeepsChunks(b: Base, bin: seq<byte>)
    ensures SetOptsBase(b, bin).hist.rd.chunks == b.hist.rd.chunks
  {
    hide EmitReadBuffer, Merge;
    if Merge(b.opts, bin).Some? {
      var opts := Merge(b.opts, bin).value;
      EmitFrame(Emit(b.(opts := opts), OptionsSet(opts.active)), 0, ConnectedReceiver);
    }
  }

  lemma ReadAddsChunk(s: State, bytes: seq<byte>)
    ensures Flatten(OnRead(s, bytes).b.hist.rd.chunks) == Flatten(s.b.hist.rd.chunks) + bytes
  {
    hide EmitReadBuffer;
    if bytes != [] {
      var b1 := Emit(s.b.(portq := s.b.portq + bytes, readCount := s.b.readCount + [|bytes|]), Arrived(bytes));
      FlattenSnoc(s.b.hist.rd.chunks, bytes);
      EmitFrame(b1, s.c.recvLen, CallReceiver(s.c.caller, s.c.callerRef));
      EmitFrame(b1, 0, ConnectedReceiver);
    }
  }

  // ---------------------------------------------------------------- the invariant of the pair

  /** What the receiver has is a part of the sender's stream: the frames of the messages it delivered,
      then its queue, which starts the frames of the messages still to come. */
  lemma Aligned(net: Net)
    requires NetInv(net)
    ensures var p := net.a.s.b.opts.packet;
            var accepted := Sent(net);
            var done := Payloads(net.b.s.b.hist.rd.deliveries);
            && AllFrameable(p, accepted)
            && done <= accepted
            && (!net.b.env.stopped ==>
                  && Flatten(net.b.s.b.hist.rd.chunks) == Frames(p, done) + net.b.s.b.portq
                  && net.b.s.b.portq <= Frames(p, accepted[|done|..]))
  {
    hide Reachable, Frames, Frame, NoEmptyFrame, FrameLength, Frameable, Pow256, Flatten, Payloads;
    var p := net.a.s.b.opts.packet;
    var b := net.b.s.b;
    var done := Payloads(b.hist.rd.deliveries);
    GracefulClose(net.a);
    EmptyMessagesVanish(p, net.a.s.b.hist.link.accepted);
    FramedAccounting(net.b);
    var received := Flatten(b.hist.rd.chunks);
    assert received <= Frames(p, Sent(net));
    var q := received[|Frames(p, done)|..];
    assert Frames(p, done) + q == received;
    PrefixCode(p, done, Sent(net), q);
    if !net.b.env.stopped {
      assert q == b.portq;
    }
  }

  /** The bytes in flight are such that they can be read: no empty frame comes up. */
  lemma InFlightReadable(net: Net, n: nat)
    requires NetInv(net) && NetAllowed(net, Transmit(n)) && n <= |InFlight(net)|
    ensures Allowed(net.b, EvRead(InFlight(net)[..n]))
  {
    hide Reachable, Frames, Frame, NoEmptyFrame, FrameLength, Frameable, Pow256, Flatten, Payloads;
    var p := net.a.s.b.opts.packet;
    var done := Payloads(net.b.s.b.hist.rd.deliveries);
    GracefulClose(net.a);
    EmptyMessagesVanish(p, net.a.s.b.hist.link.accepted);
    Aligned(net);
    FramedAccounting(net.b);
    var q := net.b.s.b.portq + InFlight(net)[..n];
    var received := Flatten(net.b.s.b.hist.rd.chunks);
    assert Frames(p, done) + q == received + InFlight(net)[..n];
    assert Frames(p, done) + q <= Frames(p, Sent(net));
    PrefixCode(p, done, Sent(net), q);
    FramesHaveNoEmptyFrame(p, Sent(net)[|done|..], q);
  }

  lemma NetStep(net: Net, ev: NetEvent)
    requires NetInv(net) && NetAllowed(net, ev)
    ensures NetInv(NextNet(net, ev))
  {
    hide Reachable, Next, Allowed, Frameable, Flatten;
    match ev
    case AtSender(e) =>
      ReachableNext(net.a, e);
      PacketKept(net.a, e);
      StreamGrows(net.a, e);
    case AtReceiver(e) =>
      ReachableNext(net.b, e);
      PacketKept(net.b, e);
      ChunksKept(net.b, e);
    case Transmit(n) =>
      var bytes := InFlight(net)[..Min(n, |InFlight(net)|)];
      InFlightReadable(net, |bytes|);
      ReachableNext(net.b, EvRead(bytes));
      PacketKept(net.b, EvRead(bytes));
      NextRead(net.b, bytes);
  }

  lemma NextRead(w: World, bytes: seq<byte>)
    ensures Flatten(Next(w, EvRead(bytes)).s.b.hist.rd.chunks) == Flatten(w.s.b.hist.rd.chunks) + bytes
  {
    ReadAddsChunk(w.s, bytes);
  }

  lemma {:induction false} NetRunInv(net: Net, evs: seq<NetEvent>)
    requires NetInv(net) && NetAllowedRun(net, evs)
    ensures NetInv(RunNet(net, evs))
    decreases |evs|
  {
    if evs != [] {
      NetStep(net, evs[0]);
      NetRunInv(NextNet(net, evs[0]), evs[1..]);
    }
  }

  lemma NetReachableInv(net: Net)
    requires NetReachable(net)
    ensures NetInv(net)
  {
    var ra, oa, rb, ob, evs :|
      && PlainOptions(oa) && PlainOptions(ob) && oa.packet == ob.packet != 0
      && NetAllowedRun(Net(Start(ra, oa), Start(rb, ob)), evs) && net == RunNet(Net(Start(ra, oa), Start(rb, ob)), evs);
    var start := Net(Start(ra, oa), Start(rb, ob));
    StartReachable(ra, oa);
    StartReachable(rb, ob);
    hide Reachable;
    NetRunInv(start, evs);
  }

  // ---------------------------------------------------------------- theorems

  /** Framing end to end. However libutp splits what it takes at one end and what it delivers at the
      other, and whatever else happens at either, the payloads delivered are a prefix of the messages
      accepted, but for empty ones, which send nothing; and they are all of them once every byte has arrived and
      none is left in the queue. */
  lemma FramingEndToEnd(net: Net)
    requires NetReachable(net)
    ensures var p := net.a.s.b.opts.packet;
            var accepted := Sent(net);
            var rd := net.b.s.b.hist.rd;
            && Payloads(rd.deliveries) <= accepted
            && (!net.b.env.stopped && net.b.s.b.portq == [] && Flatten(rd.chunks) == Frames(p, accepted) ==>
                  Payloads(rd.deliveries) == accepted)
  {
    hide Reachable, Flatten, Payloads, Frame;
    NetReachableInv(net);
    Aligned(net);
    var p := net.a.s.b.opts.packet;
    var accepted := Sent(net);
    var rd := net.b.s.b.hist.rd;
    var done := Payloads(rd.deliveries);
    if !net.b.env.stopped && net.b.s.b.portq == [] && Flatten(rd.chunks) == Frames(p, accepted) {
      assert Frames(p, done) == Frames(p, accepted);
      assert Frames(p, accepted) + [] <= Frames(p, done);
      PrefixCode(p, accepted, done, []);
    }
  }

  /** The arrival of any number of the bytes in flight is an event the receiver copes with. */
  lemma TransmitIsAllowed(net: Net, n: nat)
    requires NetReachable(net) && NetAllowed(net, Transmit(n)) && n <= |InFlight(net)|
    ensures Allowed(net.b, EvRead(InFlight(net)[..n]))
  {
    hide Reachable, Allowed;
    NetReachableInv(net);
    InFlightReadable(net, n);
  }

  /** The next message, if all of its frame is in the receiver's queue. */
  function NextMessage(net: Net): Option<seq<byte>> {
    var p := net.a.s.b.opts.packet;
    var accepted := Sent(net);
    var done := |net.b.s.b.hist.rd.deliveries|;
    if done < |accepted| && Frames(p, accepted[..done + 1]) <= Flatten(net.b.s.b.hist.rd.chunks)
    then Some(accepted[done]) else None
  }

  lemma PrefixCancel(x: seq<byte>, a: seq<byte>, b: seq<byte>)
    ensures x + a <= x + b <==> a <= b
  {
    assert (x + a)[|x|..] == a && (x + b)[|x|..] == b;
    if x + a <= x + b {
      assert (x + b)[|x|..|x| + |a|] == a;
      assert b[..|a|] == a;
    }
  }

  lemma NextMessageQueued(net: Net)
    requires NetInv(net) && !net.b.env.stopped
    ensures var p := net.a.s.b.opts.packet;
            var q := net.b.s.b.portq;
            && (NextMessage(net).Some? <==> p <= |q| && p + FrameLength(p, q) <= |q|)
            && (NextMessage(net).Some? ==>
                  var m := NextMessage(net).value; FrameLength(p, q) == |m| && q[p..p + |m|] == m && m != [])
  {
    hide Reachable, Frames, Frame, NoEmptyFrame, FrameLength, Pow256, Flatten, Payloads;
    Aligned(net);
    var p := net.a.s.b.opts.packet;
    var q := net.b.s.b.portq;
    var accepted := Sent(net);
    var ds := net.b.s.b.hist.rd.deliveries;
    var done := Payloads(ds);
    var rest := accepted[|ds|..];
    StreamEnough(p, rest, q);
    if rest != [] {
      assert accepted[..|ds| + 1] == done + [rest[0]];
      FramesSnoc(p, done, rest[0]);
      PrefixCancel(Frames(p, done), Frame(p, rest[0]), q);
    }
  }

  /** recv of any length on a passive socket answers at once exactly if the next message's whole frame is
      queued (and as many bytes as asked for), and then with that message; recv(0) asks for no more than
      the frame. A close that is being reported finds the queue empty. */
  lemma RecvNextMessage(net: Net, pid: Pid, ref: Ref, len: nat)
    requires NetReachable(net) && !net.b.env.stopped && net.b.s.b.opts.active == ActiveFalse
    ensures var b := net.b.s.b;
            var t := Recv(net.b.s, pid, ref, len);
            var answered := NextMessage(net).Some? && len <= |b.portq|;
            var messages := if answered then [NextMessage(net).value] else [];
            var replies := if answered then [CallMsg(ToCaller(Proc(pid)), Some(ref), RecvOk(messages[0]))] else [];
            && t.b.hist.calls.answers == b.hist.calls.answers + replies
            && Payloads(t.b.hist.rd.deliveries) == Payloads(b.hist.rd.deliveries) + messages
    ensures CloseToReport(net.b.s.b) ==> NextMessage(net).None?
  {
    hide Reachable, NetReachable, EmitReadBuffer, Payloads, NetInv, FrameLength, NextMessage;
    NetReachableInv(net);
    NextMessageQueued(net);
    var b := net.b.s.b;
    hide NextMessage;
    NetPlain(net);
    if NextMessage(net).Some? && len <= |b.portq| {
      EmitNextMessage(b, len, NextMessage(net).value, pid, ref);
      PayloadsSnoc(b.hist.rd.deliveries, Delivery(false, NextMessage(net).value));
    } else {
      EmitNothing(b, len, CallReceiver(Proc(pid), Some(ref)));
      assert Payloads(b.hist.rd.deliveries) + [] == Payloads(b.hist.rd.deliveries);
    }
  }

  lemma NetPlain(net: Net)
    requires NetInv(net)
    ensures net.b.s.b.opts.packet == net.a.s.b.opts.packet != 0
  {
  }

  /** Handing out the frame at the front of the queue to a recv, */
  lemma EmitNextMessage(b: Base, len: nat, m: seq<byte>, pid: Pid, ref: Ref)
    requires var p := b.opts.packet;
             && p != 0 && p <= |b.portq| && p + FrameLength(p, b.portq) <= |b.portq|
             && FrameLength(p, b.portq) == |m| != 0 && b.portq[p..p + |m|] == m
    requires len <= |b.portq|
    ensures var e := EmitReadBuffer(b, len, CallReceiver(Proc(pid), Some(ref)));
            && e.sent && e.b.hist.rd.deliveries == b.hist.rd.deliveries + [Delivery(false, m)]
            && e.b.hist.calls.answers == b.hist.calls.answers + [CallMsg(ToCaller(Proc(pid)), Some(ref), RecvOk(m))]
  {
    hide FrameLength;
    var t := Take(b, len);
    assert t.parts == [m];
    hide Take;
    DeliverSingle(b.(portq := t.portq, readCount := t.readCount), CallReceiver(Proc(pid), Some(ref)), m);
  }

  /** and handing out nothing. */
  lemma EmitNothing(b: Base, len: nat, r: Receiver)
    requires !Enough(b, len)
    ensures var e := EmitReadBuffer(b, len, r);
            !e.sent && e.b.hist.rd == b.hist.rd && e.b.hist.calls.answers == b.hist.calls.answers
  {
  }
}
