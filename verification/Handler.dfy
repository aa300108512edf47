/** The port handler as it runs: its fields, updated in place by commands and libutp callbacks. Each
    method is proved to do what the function of the same name in Driver.dfy says. */
module Handlers {
  import opened Bytes
  import opened Options
  import opened WriteQueues
  import D = Driver
  import L = Lifecycle
  import R = ReadSide

  /** One element of an ErlIOVec: the bytes of iov[i], and the whole binary binv[i] if there is one. */
  datatype IoSegment = IoSegment(bytes: seq<byte>, bin: Option<seq<byte>>)

  /** A zero-length segment contributes no bytes. */
  predicate PlainSegment(seg: IoSegment) {
    seg.bytes == [] && seg.bin.Some? ==> seg.bin.value == []
  }

  function Payload(ev: seq<IoSegment>): seq<byte> {
    if ev == [] then [] else ev[0].bytes + Payload(ev[1..])
  }

  lemma PayloadNone(ev: seq<IoSegment>)
    requires ev == []
    ensures Payload(ev) == []
  {
  }

  lemma {:induction false} PayloadSnoc(ev: seq<IoSegment>, seg: IoSegment)
    ensures Payload(ev + [seg]) == Payload(ev) + seg.bytes
  {
    if ev == [] {
      assert ev + [seg] == [seg];
      assert Payload([seg]) == seg.bytes + Payload([]);
    } else {
      assert (ev + [seg])[1..] == ev[1..] + [seg];
      PayloadSnoc(ev[1..], seg);
    }
  }

  lemma SumSnoc(ns: seq<nat>, n: nat)
    ensures Sum(ns + [n]) == Sum(ns) + n
  {
    SumAppend(ns, [n]);
    assert Sum([n]) == n + Sum([]);
  }

  lemma SumFront(counts: seq<nat>, k: nat)
    requires k <= |counts|
    ensures k > 0 ==> Sum(counts[..k]) == counts[0] + Sum(counts[1..][..k - 1])
    ensures Sum(counts[..k]) <= Sum(counts)
  {
    if k > 0 {
      assert counts[..k][1..] == counts[1..][..k - 1];
    }
    SumAppend(counts[..k], counts[k..]);
    assert counts[..k] + counts[k..] == counts;
  }

  /** What is left to do when the next k reads are to be sent one by one. */
  function SendNext(b: D.Base, k: nat, r: D.Receiver): D.Base
    requires k <= |b.readCount| && Sum(b.readCount) <= |b.portq|
  {
    SumFront(b.readCount, k);
    var rest := b.(portq := b.portq[Sum(b.readCount[..k])..], readCount := b.readCount[k..]);
    D.DeliverAll(rest, r, D.Cut(b.portq, b.readCount[..k]))
  }

  lemma SendNextStep(b: D.Base, k: nat, r: D.Receiver)
    requires 0 < k <= |b.readCount| && Sum(b.readCount) <= |b.portq|
    ensures b.readCount[0] <= |b.portq| && Sum(b.readCount[1..]) <= |b.portq| - b.readCount[0]
    ensures var n := b.readCount[0];
            var b1 := D.Deliver(b.(portq := b.portq[n..], readCount := b.readCount[1..]), r, b.portq[..n]);
            SendNext(b, k, r) == SendNext(b1, k - 1, r)
  {
    SumFront(b.readCount, k);
    var n := b.readCount[0];
    assert b.readCount[..k][1..] == b.readCount[1..][..k - 1];
    assert b.portq[n..][Sum(b.readCount[1..][..k - 1])..] == b.portq[Sum(b.readCount[..k])..];
    assert b.readCount[1..][k - 1..] == b.readCount[k..];
  }

  lemma SendNextDone(b: D.Base, r: D.Receiver)
    requires Sum(b.readCount) <= |b.portq|
    ensures SendNext(b, 0, r) == b
  {
    assert b.readCount[..0] == [] && b.readCount[0..] == b.readCount && b.portq[0..] == b.portq;
  }

  /** Reads the sending loop has to make for an active socket without framing. */
  function ReadsToSend(b: D.Base): nat {
    if b.opts.active == ActiveTrue then |b.readCount| else 1
  }

  lemma SendNextIsTake(b: D.Base, len: nat, r: D.Receiver)
    requires D.ReadOk(b) && b.opts.packet == 0 && b.portq != [] && len <= |b.portq| && b.opts.active != ActiveFalse
    ensures b.readCount != [] && ReadsToSend(b) <= |b.readCount|
    ensures b.portq[..0] == []
    ensures var t := D.Take(b, len);
            SendNext(b, ReadsToSend(b), r) == D.DeliverAll(b.(portq := t.portq, readCount := t.readCount), r, t.parts)
  {
    assert b.portq[..0] == [];
    if b.opts.active == ActiveTrue {
      assert b.readCount[..|b.readCount|] == b.readCount && b.readCount[|b.readCount|..] == [];
    } else {
      SumFront(b.readCount, 1);
      var one := b.readCount[..1];
      assert one == [b.readCount[0]] && one[1..] == [];
      assert Sum(one) == b.readCount[0];
      assert D.Cut(b.portq, one) == [b.portq[..one[0]]] + D.Cut(b.portq[one[0]..], []);
    }
  }

  /** Options with the same packet and header sizes leave the read side in order. */
  lemma MergedStaysOk(b: D.Base, opts: SockOpts)
    requires D.ReadOk(b) && D.FrontFrameOk(b) && opts.packet == b.opts.packet && opts.header == b.opts.header
    ensures var b1 := D.Emit(b.(opts := opts), D.OptionsSet(opts.active)); D.ReadOk(b1) && D.FrontFrameOk(b1)
  {
  }

  class SocketHandler {
    var portq: seq<byte>        // the driver queue of the port
    var readCount: seq<nat>
    var sockopts: SockOpts
    var closePending: bool
    var selected: bool
    var log: seq<D.Effect>      // everything done that can be seen from outside

    ghost function Value(): D.Base
      reads this
    {
      D.Base(portq, readCount, sockopts, closePending, selected, D.Summary(log))
    }

    constructor (opts: SockOpts)
      ensures Value() == D.Base([], [], opts, false, false, D.NO_HISTORY) && log == []
    {
      portq, readCount, sockopts, closePending, selected, log := [], [], opts, false, false, [];
    }

    method Emit(fx: D.Effect)
      modifies this`log
      ensures log == old(log) + [fx]
      ensures Value() == D.Emit(old(Value()), fx)
    {
      D.SummarySnoc(log, fx);
      log := log + [fx];
    }

    /** set_port selects the socket for input. */
    method SetPort()
      modifies this`selected
      ensures selected
    {
      if !selected {
        selected := true;
      }
    }

    // The driver queue: driver_peekq, driver_deq. How the queue is laid out in segments is up to the
    // virtual machine, except that a length prefix lies wholly in the first one.

    method PeekQ() returns (vec: seq<seq<byte>>)
      ensures Flatten(vec) == portq
      ensures portq != [] && sockopts.packet <= |portq| ==> vec != [] && sockopts.packet <= |vec[0]|
    {
      vec := if portq == [] then [] else [portq];
      assert portq != [] ==> Flatten(vec) == portq + Flatten<byte>([]);
    }

    method Deq(count: nat)
      requires count <= |portq|
      modifies this`portq
      ensures portq == old(portq)[count..]
    {
      portq := portq[count..];
    }

    /** Copies the first pktSize bytes of the queue out, across as many segments as it takes, and
        removes them. */
    method MoveReadData(vec: seq<seq<byte>>, pktSize: nat) returns (buf: seq<byte>, qsize: nat)
      requires Flatten(vec) == portq && pktSize <= |portq|
      modifies this`portq
      ensures buf == old(portq)[..pktSize] && portq == old(portq)[pktSize..] && qsize == |portq|
    {
      buf := [];
      var i := 0;
      while i < |vec|
        invariant 0 <= i <= |vec| && |buf| <= pktSize
        invariant portq == buf + Flatten(vec[i..])
      {
        assert Flatten(vec[i..]) == vec[i] + Flatten(vec[i..][1..]);
        assert vec[i..][1..] == vec[i + 1..];
        var needed := pktSize - |buf|;
        if needed > |vec[i]| {
          buf := buf + vec[i];
        } else {
          assert vec[i] == vec[i][..needed] + vec[i][needed..];
          buf := buf + vec[i][..needed];
          assert buf <= portq;
          break;
        }
        i := i + 1;
      }
      assert buf == portq[..pktSize];
      Deq(pktSize);
      qsize := |portq|;
    }

    method ReduceReadCount(reduction: nat)
      requires AllPositive(readCount) && reduction <= Sum(readCount)
      modifies this`readCount
      ensures readCount == D.Reduce(old(readCount), reduction)
    {
      var i: nat := 0;
      while i < reduction
        invariant AllPositive(readCount)
        invariant i <= reduction ==> reduction - i <= Sum(readCount)
        invariant i <= reduction ==> D.Reduce(readCount, reduction - i) == D.Reduce(old(readCount), reduction)
        invariant i > reduction ==> readCount == D.Reduce(old(readCount), reduction)
        decreases reduction - i, |readCount|
      {
        var front := readCount[0];
        i := i + front;
        readCount := readCount[1..];
        if i > reduction {
          readCount := [i - reduction] + readCount;
        }
      }
    }

    /** {utp_closed, Port}, but only once everything received has been delivered. */
    method EmitClosedMessage() returns (emitted: bool)
      modifies this`log
      ensures emitted == (portq == [])
      ensures Value() == D.EmitClosedMessage(old(Value()))
    {
      if |portq| == 0 {
        Emit(D.ClosedMessage);
      }
      emitted := |portq| == 0;
    }

    method Send(r: D.Receiver, bytes: seq<byte>)
      modifies this`log
      ensures Value() == D.Deliver(old(Value()), r, bytes)
    {
      match r {
        case ConnectedReceiver => Emit(D.Data(bytes));
        case CallReceiver(caller, ref) => Emit(D.CallReply(D.ToCaller(caller), ref, D.RecvOk(bytes)));
      }
    }

    /** The sending loop of emit_read_buffer: sends a packet already taken off the queue, or takes and
        sends the next `packets` reads one after the other. */
    method SendPackets(packets: nat, packet: seq<byte>, layout: seq<seq<byte>>, receiver: D.Receiver)
      returns (qsize: nat)
      requires packet != [] ==> packets == 1
      requires packet == [] ==> packets <= |readCount| && Sum(readCount) == |portq|
      requires packet == [] ==> AllPositive(readCount) && Flatten(layout) == portq
      modifies this
      ensures qsize == |portq|
      ensures packet != [] ==> Value() == D.Deliver(old(Value()), receiver, packet)
      ensures packet == [] ==> Value() == SendNext(old(Value()), packets, receiver)
    {
      hide D.Deliver, SendNext;
      var pktsToSend: nat := packets;
      var buf, vec := packet, layout;
      qsize := |portq|;
      while pktsToSend > 0
        invariant qsize == |portq|
        invariant packet != [] && pktsToSend > 0 ==> pktsToSend == 1 && buf == packet && Value() == old(Value())
        invariant packet != [] && pktsToSend == 0 ==> Value() == D.Deliver(old(Value()), receiver, packet)
        invariant packet == [] ==>
                    && pktsToSend <= |readCount| && Sum(readCount) == |portq| && AllPositive(readCount)
                    && SendNext(Value(), pktsToSend, receiver) == SendNext(old(Value()), packets, receiver)
        invariant packet == [] && pktsToSend > 0 ==> buf == [] && Flatten(vec) == portq
        decreases pktsToSend
      {
        ghost var before := Value();
        if |buf| == 0 {
          SendNextStep(before, pktsToSend, receiver);
          var pktSize := readCount[0];
          readCount := readCount[1..];
          buf, qsize := MoveReadData(vec, pktSize);
        }
        pktsToSend := pktsToSend - 1;
        Send(receiver, buf);
        if pktsToSend != 0 {
          buf := [];
          vec := PeekQ();
        }
      }
      if packet == [] {
        SendNextDone(Value(), receiver);
      }
    }

    /** Sends what is queued to the receiver, if there is enough of it. */
    method EmitReadBuffer(len: nat, receiver: D.Receiver) returns (sent: bool, newQsize: nat)
      requires D.ReadOk(Value()) && D.FrontFrameOk(Value())
      modifies this
      ensures D.Emission(Value(), sent, newQsize) == D.EmitReadBuffer(old(Value()), len, receiver)
    {
      hide D.Take, D.Deliver, SendNext, D.FrontFrameOk;
      if closePending {
        var emitted := EmitClosedMessage();
        if emitted {
          Emit(D.ClosedReported);
          closePending := false;
          return false, 1;
        }
      }
      newQsize := |portq|;
      if newQsize == 0 || newQsize < len || newQsize < sockopts.packet {
        return false, newQsize;
      }
      var pktSize := PeekPacketSize();
      if pktSize != 0 && newQsize < sockopts.packet + pktSize {
        return false, newQsize;
      }
      ghost var b0 := Value();
      ghost var t := D.Take(b0, len);
      ghost var b1 := b0.(portq := t.portq, readCount := t.readCount);
      var pktsToSend, buf, vec := TakePacket(len, pktSize);
      newQsize := SendPackets(pktsToSend, buf, vec, receiver);
      if buf == [] {
        SendNextIsTake(b0, len, receiver);
      } else {
        D.DeliverSingle(b1, receiver, buf);
      }
      assert Value() == D.DeliverAll(b1, receiver, t.parts);
      D.DeliverAllKeeps(b1, receiver, t.parts);
      if sockopts.active == ActiveOnce {
        sockopts := sockopts.(active := ActiveFalse);
      }
      return true, newQsize;
    }

    /** The length prefix of the next frame, read off the first segment of the queue. */
    method PeekPacketSize() returns (pktSize: nat)
      requires D.PlainOptions(sockopts) && portq != [] && sockopts.packet <= |portq|
      ensures pktSize == D.FrameLength(sockopts.packet, portq)
    {
      pktSize := 0;
      var vec := PeekQ();
      if sockopts.packet == 1 || sockopts.packet == 2 || sockopts.packet == 4 {
        assert Flatten(vec) == vec[0] + Flatten(vec[1..]);
        assert vec[0][..sockopts.packet] == portq[..sockopts.packet];
        pktSize := FromBigEndian(vec[0][..sockopts.packet]);
      }
    }

    /** Takes one packet off the queue, or leaves it to the sending loop to take the reads. */
    method TakePacket(len: nat, pktSize: nat) returns (pktsToSend: nat, buf: seq<byte>, vec: seq<seq<byte>>)
      requires D.ReadOk(Value()) && D.FrontFrameOk(Value()) && D.Enough(Value(), len)
      requires pktSize == D.FrameLength(sockopts.packet, portq)
      modifies this
      ensures buf != [] ==> pktsToSend == 1 && D.Take(old(Value()), len) == D.Taken([buf], portq, readCount)
      ensures Value() == old(Value()).(portq := portq, readCount := readCount)
      ensures buf == [] ==> portq == old(portq) && readCount == old(readCount) && pktsToSend == ReadsToSend(Value())
      ensures buf == [] ==> sockopts.packet == 0 && sockopts.active != ActiveFalse && pktsToSend <= |readCount|
      ensures buf == [] ==> Flatten(vec) == portq && Sum(readCount) == |portq| && AllPositive(readCount)
    {
      ghost var q0 := portq;
      assert q0[..|q0|] == q0 && q0[|q0|..] == [];
      assert portq[..0] == [];
      pktsToSend, buf := 1, [];
      vec := PeekQ();
      var newQsize;
      if pktSize != 0 {
        buf, newQsize := TakeFrame(pktSize);
      } else if sockopts.active == ActiveFalse {
        if len == 0 {
          readCount := [];
          buf, newQsize := MoveReadData(vec, |portq|);
        } else {
          ReduceReadCount(len);
          buf, newQsize := MoveReadData(vec, len);
        }
      } else if sockopts.active == ActiveTrue {
        pktsToSend := |readCount|;
      } else {
        assert readCount != [];
      }
    }

    /** Takes a whole frame off the queue: its prefix, then its payload. */
    method TakeFrame(pktSize: nat) returns (buf: seq<byte>, newQsize: nat)
      requires AllPositive(readCount) && |portq| <= Sum(readCount) && sockopts.packet + pktSize <= |portq|
      modifies this`portq, this`readCount
      ensures buf == old(portq)[sockopts.packet..sockopts.packet + pktSize] && newQsize == |portq|
      ensures var rest := old(portq)[sockopts.packet + pktSize..];
              Value() == old(Value()).(portq := rest, readCount := D.Reduce(old(readCount), pktSize))
    {
      hide D.Reduce, Sum, Flatten, AllPositive;
      Deq(sockopts.packet);
      var vec := PeekQ();
      buf, newQsize := MoveReadData(vec, pktSize);
      ReduceReadCount(pktSize);
    }

    /** setopts: false is badarg. The options already in force stay if the new ones are refused. */
    method SetOpts(bin: seq<byte>)
      requires Parse(bin).Some? && D.ReadOk(Value()) && D.FrontFrameOk(Value())
      requires KeepsFraming(sockopts, bin)
      modifies this
      ensures Value() == D.SetOptsBase(old(Value()), bin)
    {
      hide D.EmitReadBuffer, Merge, Parse, D.ReadOk, D.FrontFrameOk, Sum;
      ghost var before := Value();
      var savedActive := sockopts.active;
      var opts := new Decoder(sockopts);
      var ok := opts.DecodeAndMerge(bin);
      if !ok {
        Emit(D.BadArg);
        return;
      }
      MergedStaysOk(before, opts.opts);
      sockopts := opts.opts;
      Emit(D.OptionsSet(sockopts.active));
      var send := false;
      match savedActive {
        case ActiveFalse =>
          match sockopts.active {
            case ActiveFalse =>
            case ActiveOnce =>
              if |readCount| > 0 {
                send := true;
              }
            case ActiveTrue => send := true;
          }
        case _ =>
          match sockopts.active {
            case ActiveTrue => send := true;
            case _ =>
          }
      }
      if send {
        var sent, qsize := EmitReadBuffer(0, D.ConnectedReceiver);
      }
    }
  }

  /** The state after n more bytes were handed over. */
  function Handed(s: D.State, n: nat): D.State
    requires n <= |s.c.wq|
  {
    s.(c := s.c.(wq := s.c.wq[n..]), b := D.Emit(s.b, D.HandedOver(s.c.wq[..n])))
  }

  lemma HandedNone(s: D.State)
    ensures Handed(s, 0) == s
  {
    assert s.b.hist.link.handed + [] == s.b.hist.link.handed;
  }

  lemma HandedMore(s: D.State, n: nat, k: nat)
    requires n + k <= |s.c.wq|
    ensures Handed(s, n).c.wq == s.c.wq[n..] && Handed(Handed(s, n), k) == Handed(s, n + k)
  {
    assert s.c.wq[n..][k..] == s.c.wq[n + k..];
    assert s.c.wq[..n] + s.c.wq[n..][..k] == s.c.wq[..n + k];
    var handed := s.b.hist.link.handed;
    assert (handed + s.c.wq[..n]) + s.c.wq[n..][..k] == handed + s.c.wq[..n + k];
  }

  lemma SumPrefix(ns: seq<nat>, i: nat)
    requires i < |ns|
    ensures Sum(ns[..i + 1]) == Sum(ns[..i]) + ns[i]
    ensures Sum(ns[..i + 1]) <= Sum(ns)
  {
    assert ns[..i + 1] == ns[..i] + [ns[i]];
    SumSnoc(ns[..i], ns[i]);
    SumFront(ns, i + 1);
  }

  /** What libutp reports through the state-change callback. */
  datatype UtpState = UtpConnect | UtpWritable | UtpEof | UtpDestroying

  /** A uTP connection: a Client or a Server. */
  class UtpHandler {
    const base: SocketHandler
    const writeQueue: WriteQueue
    const role: D.Role
    var status: D.Status
    var utp: bool               // whether there is a handle
    var writable: bool
    var senderWaiting: bool
    var receiverWaiting: bool
    var eofSeen: bool
    var callerRef: Option<D.Ref>
    var caller: D.Caller
    var recvLen: nat
    var errorCode: D.Errno

    ghost predicate Valid()
      reads this, writeQueue
    {
      writeQueue.Valid()
    }

    ghost function Value(): D.State
      requires Valid()
      reads this, base, writeQueue
    {
      D.State(D.Conn(role, status, utp, writeQueue.Contents(), writable, senderWaiting, receiverWaiting, eofSeen,
                     callerRef, caller, recvLen, errorCode),
              base.Value())
    }

    constructor (role: D.Role, opts: SockOpts)
      ensures Valid() && fresh(base) && fresh(writeQueue)
      ensures this.role == role && status == D.NotConnected && !utp && !base.selected
      ensures Value().b == D.Base([], [], opts, false, false, D.NO_HISTORY)
      ensures Value().c == D.Conn(
                role, D.NotConnected, false, [], false, false, false, false, None, D.NilTerm, 0, D.OtherError(0))
    {
      this.role := role;
      base := new SocketHandler(opts);
      writeQueue := new WriteQueue();
      status, utp, writable := D.NotConnected, false, false;
      senderWaiting, receiverWaiting, eofSeen := false, false, false;
      callerRef, caller, recvLen, errorCode := None, D.NilTerm, 0, D.OtherError(0);
    }

    /** A client or server on its port, as connect_start and the listener create them. */
    static method Create(role: D.Role, opts: SockOpts) returns (h: UtpHandler)
      ensures fresh(h) && fresh(h.base) && fresh(h.writeQueue)
      ensures h.Valid() && h.Value() == D.Initial(role, opts)
      ensures D.PlainOptions(opts) ==> h.Value() == L.Start(role, opts).s && L.Reachable(L.Start(role, opts))
    {
      if D.PlainOptions(opts) {
        L.StartReachable(role, opts);
      }
      h := new UtpHandler(role, opts);
      h.base.SetPort();
      if role == D.Client {
        h.ConnectTo();
      }
    }

    method ConnectTo()
      requires Valid()
      modifies this, base
      ensures Valid()
      ensures var s := old(Value());
              Value() == D.Says(s.(c := s.c.(status := D.ConnectPending, utp := true)), D.Acquired)
    {
      status := D.ConnectPending;
      utp := true;
      base.Emit(D.Acquired);
    }

    /** libutp asks for bytes; no more than it was offered. */
    method DoWrite(count: nat)
      requires Valid() && count <= writeQueue.sz
      modifies base, writeQueue
      ensures Valid() && Value() == Handed(old(Value()), count)
      ensures writeQueue.sz == old(writeQueue.sz) - count
    {
      if count == 0 {
        HandedNone(Value());
        return;
      }
      var bytes := writeQueue.PopBytes(count);
      base.Emit(D.HandedOver(bytes));
    }

    method DoWrites(pieces: seq<nat>)
      requires Valid() && Sum(pieces) <= writeQueue.sz
      modifies base, writeQueue
      ensures Valid() && Value() == Handed(old(Value()), Sum(pieces))
    {
      hide Handed;
      var i := 0;
      assert pieces[..0] == [];
      HandedNone(Value());
      while i < |pieces|
        invariant 0 <= i <= |pieces| && Valid()
        invariant Sum(pieces[..i]) <= Sum(pieces)
        invariant writeQueue.sz == old(writeQueue.sz) - Sum(pieces[..i])
        invariant Value() == Handed(old(Value()), Sum(pieces[..i]))
      {
        SumPrefix(pieces, i);
        HandedMore(old(Value()), Sum(pieces[..i]), pieces[i]);
        DoWrite(pieces[i]);
        i := i + 1;
      }
      assert pieces[..i] == pieces;
    }

    /** UTP_Write: libutp calls do_write for each piece it takes and returns whether it took everything. */
    method UtpWrite(count: nat, up: D.Uptake) returns (ok: bool)
      requires Valid() && Sum(up.pieces) <= writeQueue.sz
      modifies base, writeQueue
      ensures Valid() && ok == up.ok
      ensures var s := D.UtpWrite(old(Value()), count, up);
              s.c.writable == ok && Value() == s.(c := s.c.(writable := writable))
    {
      ghost var before := Value();
      base.Emit(D.Offered(utp, count, writeQueue.sz));
      ghost var s0 := Value();
      DoWrites(up.pieces);
      ok := up.ok;
      ghost var s := D.UtpWrite(before, count, up);
      assert s.(c := s.c.(writable := writable)) == Handed(s0, Sum(up.pieces));
    }

    /** Queues the segments of a payload one by one. */
    method QueuePayload(ev: seq<IoSegment>)
      requires Valid()
      requires forall i :: 0 <= i < |ev| ==> PlainSegment(ev[i])
      modifies writeQueue
      ensures Valid() && writeQueue.Contents() == old(writeQueue.Contents()) + Payload(ev)
    {
      hide Flatten, Payload, WriteQueue.Contents, WriteQueue.Valid;
      var i := 0;
      ghost var before := writeQueue.Contents();
      assert Payload(ev[..0]) == [] && before + [] == before by { PayloadNone(ev[..0]); }
      while i < |ev|
        invariant 0 <= i <= |ev| && writeQueue.Valid()
        invariant writeQueue.Contents() == before + Payload(ev[..i])
      {
        assert ev[..i + 1] == ev[..i] + [ev[i]];
        PayloadSnoc(ev[..i], ev[i]);
        assert before + Payload(ev[..i]) + ev[i].bytes == before + Payload(ev[..i + 1]);
        assert ev[i].bytes == [] ==> Payload(ev[..i + 1]) == Payload(ev[..i]) + [] == Payload(ev[..i]);
        if |ev[i].bytes| > 0 {
          writeQueue.PushBack(ev[i].bytes);
        } else if ev[i].bin.Some? {
          writeQueue.PushBack(ev[i].bin.value);
        }
        i := i + 1;
      }
      assert ev[..i] == ev;
    }

    /** Queues a payload behind its length prefix. */
    method QueueFrame(ev: seq<IoSegment>) returns (writeTotal: nat)
      requires Valid()
      requires forall i :: 0 <= i < |ev| ==> PlainSegment(ev[i])
      modifies writeQueue
      ensures Valid()
      ensures writeQueue.Contents() == old(writeQueue.Contents()) + D.Frame(base.sockopts.packet, Payload(ev))
      ensures writeTotal == |D.Frame(base.sockopts.packet, Payload(ev))|
    {
      hide Flatten, Payload, BigEndian, WriteQueue.Contents, WriteQueue.Valid;
      writeTotal := 0;
      var size := |Payload(ev)|;
      ghost var before := writeQueue.Contents();
      assert before + [] == before;
      if size > 0 {
        var prefix := BigEndian(size, base.sockopts.packet);
        if base.sockopts.packet > 0 {
          writeQueue.PushBack(prefix);
          writeTotal := writeTotal + base.sockopts.packet;
        }
        QueuePayload(ev);
        assert (before + prefix) + Payload(ev) == before + (prefix + Payload(ev));
        writeTotal := writeTotal + size;
      }
    }

    method Outputv(pid: D.Pid, ev: seq<IoSegment>, up: D.Uptake)
      requires Valid() && D.PlainOptions(base.sockopts)
      requires forall i :: 0 <= i < |ev| ==> PlainSegment(ev[i])
      requires status == D.Connected && utp && writable ==> D.Fits(up, |D.Frame(base.sockopts.packet, Payload(ev))|)
      modifies this, base, writeQueue
      ensures Valid() && Value() == D.Outputv(old(Value()), pid, Payload(ev), up)
    {
      hide D.Frame, D.UtpWrite;
      if status != D.Connected || !utp {
        base.Emit(D.SendReply(D.Proc(pid), D.SendNotConn));
        return;
      }
      if writable {
        var writeTotal := QueueFrame(ev);
        base.Emit(D.Accepted(Payload(ev)));
        writable := UtpWrite(writeTotal, up);
        base.Emit(D.SendReply(D.Proc(pid), D.SendOk));
      } else if base.sockopts.sendTmout == 0 {
        base.Emit(D.SendReply(D.Proc(pid), D.SendTimedOut));
      } else {
        caller := D.Proc(pid);
        senderWaiting := true;
        var tmout := base.sockopts.sendTmout;
        base.Emit(D.SendReply(D.Proc(pid), if tmout == -1 then D.SendWait else D.SendWaitFor(tmout)));
      }
    }

    method CloseUtp()
      requires Valid()
      modifies this, base
      ensures Valid() && Value() == D.CloseUtp(old(Value()))
    {
      if utp && status != D.Destroying {
        if writeQueue.sz != 0 {
          return;
        }
        status := D.Closing;
        base.Emit(D.UtpClosed(writeQueue.sz));
        utp := false;
      }
    }

    method Stop()
      requires Valid()
      modifies this, base
      ensures Valid() && Value() == D.Stop(old(Value()))
    {
      if utp {
        CloseUtp();
      }
      var qsize := |base.portq|;
      if qsize != 0 {
        base.Deq(qsize);
      }
      if status == D.Destroying {
        base.Emit(D.Freed);
      } else {
        status := D.Stopped;
      }
    }

    /** A close that is not yet under way. */
    method StartClose(pid: D.Pid, ref: D.Ref)
      requires Valid()
      modifies this, base
      ensures Valid() && Value() == D.StartClose(old(Value()), pid, ref)
    {
      status := D.Closing;
      base.closePending := true;
      eofSeen := false;
      callerRef := Some(ref);
      caller := D.Proc(pid);
    }

    method Close(pid: D.Pid, ref: D.Ref) returns (waits: bool)
      requires Valid()
      modifies this, base
      ensures Valid() && Value() == D.Close(old(Value()), pid, ref)
      ensures waits == D.CloseWaits(old(Value()))
    {
      hide D.CloseUtp, D.StartClose, D.Emit;
      waits := false;
      if !base.closePending && (eofSeen || (status != D.Closing && status != D.Destroying)) {
        StartClose(pid, ref);
        waits := true;
        CloseUtp();
      }
      base.Emit(D.CloseAnswered(waits));
    }

    method Recv(pid: D.Pid, ref: D.Ref, length: nat)
      requires Valid() && D.ReadOk(base.Value()) && D.FrontFrameOk(base.Value())
      modifies this, base
      ensures Valid() && Value() == D.Recv(old(Value()), pid, ref, length)
    {
      hide D.EmitReadBuffer;
      if base.sockopts.active != ActiveFalse {
        base.Emit(D.RecvAnswered(false));
        return;
      }
      var sent, qsize := base.EmitReadBuffer(length, D.CallReceiver(D.Proc(pid), Some(ref)));
      if sent && qsize == 0 {
        base.Emit(D.RBDrained);
      }
      if !sent {
        callerRef := Some(ref);
        caller := D.Proc(pid);
        recvLen := length;
        receiverWaiting := true;
      }
      base.Emit(D.RecvAnswered(true));
    }

    method CancelSend()
      requires Valid()
      modifies this
      ensures Valid() && Value() == D.CancelSend(old(Value()))
    {
      senderWaiting := false;
      caller := D.NilTerm;
    }

    method CancelRecv()
      requires Valid()
      modifies this
      ensures Valid() && Value() == D.ResetWaitingRecv(old(Value()))
    {
      receiverWaiting := false;
      recvLen := 0;
      callerRef := None;
      caller := D.NullTerm;
    }

    method SetOpts(bin: seq<byte>)
      requires Valid() && D.ReadOk(base.Value()) && D.FrontFrameOk(base.Value())
      requires Parse(bin).Some?
      requires KeepsFraming(base.sockopts, bin)
      modifies base
      ensures Valid() && Value() == D.SetOpts(old(Value()), bin)
    {
      base.SetOpts(bin);
    }

    method ConnectValidate(ref: D.Ref) returns (answer: D.ValidateAnswer)
      requires Valid()
      modifies this, base
      ensures Valid() && Value() == D.ConnectValidate(old(Value()), ref)
      ensures answer == D.Verdict(old(Value()).c)
    {
      match status {
        case ConnectPending =>
          answer := D.ValidateWait;
          callerRef := Some(ref);
        case ConnectFailed =>
          answer := D.ValidateError(errorCode);
          status := D.NotConnected;
        case Connected => answer := D.ValidateOk;
        case _ => answer := D.ValidateIllegal;
      }
      base.Emit(D.ValidateAnswered(answer));
    }

    method DoRead(bytes: seq<byte>)
      requires Valid() && D.ReadOk(base.Value())
      requires D.FrontFrameOk(base.Value().(portq := base.portq + bytes))
      modifies this, base
      ensures Valid() && Value() == D.OnRead(old(Value()), bytes)
    {
      hide D.EmitReadBuffer;
      if |bytes| == 0 {
        return;
      }
      var qsize := 1;
      SumSnoc(base.readCount, |bytes|);
      base.portq := base.portq + bytes;
      base.readCount := base.readCount + [|bytes|];
      base.Emit(D.Arrived(bytes));
      if base.sockopts.active == ActiveFalse {
        if receiverWaiting {
          var sent;
          sent, qsize := base.EmitReadBuffer(recvLen, D.CallReceiver(caller, callerRef));
          if sent {
            CancelRecv();
          }
        }
      } else {
        var sent;
        sent, qsize := base.EmitReadBuffer(0, D.ConnectedReceiver);
      }
      if qsize == 0 {
        base.Emit(D.RBDrained);
      }
    }

    /** What the receive window sees of the driver queue. */
    method DoGetRbSize() returns (size: nat)
      requires Valid()
      ensures size == D.RbSize(Value())
    {
      size := if status == D.Connected then |base.portq| else 0;
    }

    /** The peer has closed: nothing more can be written, so what is queued is thrown away. */
    method StateEof()
      requires Valid()
      modifies this, base, writeQueue
      ensures Valid() && Value() == D.OnEof(old(Value()))
    {
      base.Emit(D.Dropped(writeQueue.Contents()));
      writeQueue.Clear();
      if status != D.Stopped {
        CloseUtp();
      }
      writable := false;
      eofSeen := true;
    }

    /** Offers what is queued and, if libutp takes it all, wakes a waiting sender. */
    method ResumeWriting(up: D.Uptake)
      requires Valid() && (writeQueue.sz != 0 ==> D.Fits(up, writeQueue.sz))
      modifies this, base, writeQueue
      ensures Valid() && Value() == D.ResumeWriting(old(Value()), up)
    {
      hide D.UtpWrite;
      writable := true;
      var sz := writeQueue.sz;
      if sz != 0 {
        writable := UtpWrite(sz, up);
      }
      if writable && senderWaiting {
        base.Emit(D.SendReply(caller, D.SendRetry));
        senderWaiting := false;
      }
    }

    method StateWritable(up: D.Uptake)
      requires Valid() && (writeQueue.sz != 0 ==> D.Fits(up, writeQueue.sz))
      modifies this, base, writeQueue
      ensures Valid() && Value() == D.OnWritable(old(Value()), up)
    {
      hide D.ResumeWriting, D.CloseUtp;
      ResumeWriting(up);
      if base.closePending {
        CloseUtp();
      }
    }

    method StateConnect()
      requires Valid()
      modifies this, base
      ensures Valid() && Value() == D.OnConnect(old(Value()))
    {
      if status == D.ConnectPending && callerRef.Some? {
        base.Emit(D.CallReply(D.ToConnected, callerRef, D.ConnectOk));
      }
      status := D.Connected;
      writable := true;
    }

    /** DESTROYING on a connection being closed: answers the closer, or tells the connected process. */
    method ReportClosed()
      requires Valid()
      modifies this, base
      ensures Valid()
      ensures Value() == D.ReportClosed(old(Value()))
    {
      if base.closePending && callerRef.Some? {
        if caller != D.NilTerm {
          base.Emit(D.CallReply(D.ToCaller(caller), callerRef, D.CloseOk));
        } else {
          base.Emit(D.CallReply(D.ToConnected, callerRef, D.CloseOk));
        }
        caller := D.NilTerm;
        base.closePending := false;
      } else if base.sockopts.active != ActiveFalse {
        var emitted := base.EmitClosedMessage();
      }
    }

    method StateDestroying()
      requires Valid()
      modifies this, base
      ensures Valid() && Value() == D.OnDestroying(old(Value()))
    {
      hide D.ReportClosed;
      if base.selected {
        base.selected := false;
      }
      if status == D.Closing {
        assert Value() == old(Value()).(b := old(Value()).b.(selected := false));
        ReportClosed();
        writable := false;
        status := D.Destroying;
        eofSeen := false;
      } else if status == D.Stopped {
        base.Emit(D.Freed);
      }
    }

    method DoStateChange(state: UtpState, up: D.Uptake)
      requires Valid()
      requires state == UtpWritable && writeQueue.sz != 0 ==> D.Fits(up, writeQueue.sz)
      modifies this, base, writeQueue
      ensures Valid()
      ensures Value() == match state
                         case UtpEof => D.OnEof(old(Value()))
                         case UtpWritable => D.OnWritable(old(Value()), up)
                         case UtpConnect => D.OnConnect(old(Value()))
                         case UtpDestroying => D.OnDestroying(old(Value()))
    {
      match state {
        case UtpEof => StateEof();
        case UtpWritable => StateWritable(up);
        case UtpConnect => StateConnect();
        case UtpDestroying => StateDestroying();
      }
    }

    method DoError(e: D.Errno)
      requires Valid()
      modifies this, base
      ensures Valid() && Value() == D.OnError(old(Value()), e)
    {
      errorCode := e;
      match status {
        case ConnectPending =>
          status := D.ConnectFailed;
          if callerRef.Some? {
            base.Emit(D.CallReply(D.ToConnected, callerRef, D.ConnectError(e)));
          }
        case Connected =>
          if e == D.ConnReset {
            CloseUtp();
          } else if base.sockopts.active != ActiveFalse {
            base.Emit(D.ErrorMessage(e));
          }
        case _ =>
      }
    }

    /** A client ignores incoming connections; a server takes the first. */
    method DoIncoming()
      requires Valid()
      modifies this, base
      ensures Valid() && Value() == D.OnIncoming(old(Value()))
    {
      if role == D.Server && !utp {
        utp := true;
        base.Emit(D.Acquired);
        writable := true;
        status := D.Connected;
      }
    }

    /** Any command of the port, or any callback of libutp, that can come in a reachable state `w`: what each
        method asks for is what holds there. The state it leaves is again reachable, so that events can be
        handled one after the other from Create on. */
    method Handle(e: D.Event, ev: seq<IoSegment>, ghost w: L.World)
      requires Valid() && Value() == w.s && L.Reachable(w) && L.Allowed(w, e)
      requires e.EvOutputv? ==> Payload(ev) == e.data && forall i :: 0 <= i < |ev| ==> PlainSegment(ev[i])
      modifies this, base, writeQueue
      ensures Valid() && Value() == D.Step(old(Value()), e)
      ensures Value() == L.Next(w, e).s && L.Reachable(L.Next(w, e))
    {
      L.ReachableNext(w, e);
      hide L.Reachable, L.Allowed, D.Outputv, D.Recv, D.OnRead, D.SetOpts, D.Close, D.Stop, D.OnWritable, D.OnEof,
           D.OnDestroying, D.OnError,
           D.ConnectValidate, D.OnConnect, D.OnIncoming, D.CancelSend, D.ResetWaitingRecv, Merge, Parse,
           L.NoEmptyFrame, D.Frame,
           D.ReadOk, D.FrontFrameOk, L.UptakeAllowed, D.Fits, D.PlainOptions, Payload, WriteQueue.Contents;
      ReadyFor(w, e);
      match e {
        case EvOutputv(pid, _, up) => Outputv(pid, ev, up);
        case EvRecv(pid, ref, len) => Recv(pid, ref, len);
        case EvCancelSend => CancelSend();
        case EvCancelRecv => CancelRecv();
        case EvClose(pid, ref) => var waits := Close(pid, ref);
        case EvSetOpts(bin) => SetOpts(bin);
        case EvValidate(ref) => var answer := ConnectValidate(ref);
        case EvStop => Stop();
        case EvRead(bytes) => DoRead(bytes);
        case EvWritable(up) => DoStateChange(UtpWritable, up);
        case EvEof => DoStateChange(UtpEof, D.Uptake([], false));
        case EvConnect => DoStateChange(UtpConnect, D.Uptake([], false));
        case EvDestroying => DoStateChange(UtpDestroying, D.Uptake([], false));
        case EvError(err) => DoError(err);
        case EvIncoming => DoIncoming();
      }
    }
  }

  /** Every event that can come in a reachable state finds what its method asks for. */
  lemma ReadyFor(w: L.World, e: D.Event)
    requires L.Reachable(w) && L.Allowed(w, e)
    ensures e.EvOutputv? ==>
              && D.PlainOptions(w.s.b.opts)
              && (w.s.c.status == D.Connected && w.s.c.utp && w.s.c.writable ==>
                    D.Fits(e.up, |D.Frame(w.s.b.opts.packet, e.data)|))
    ensures e.EvRecv? || e.EvSetOpts? ==> D.ReadOk(w.s.b) && D.FrontFrameOk(w.s.b)
    ensures e.EvSetOpts? ==> Parse(e.bin).Some? && KeepsFraming(w.s.b.opts, e.bin)
    ensures e.EvRead? ==> D.ReadOk(w.s.b) && D.FrontFrameOk(w.s.b.(portq := w.s.b.portq + e.bytes))
    ensures e.EvWritable? && |w.s.c.wq| != 0 ==> D.Fits(e.up, |w.s.c.wq|)
  {
    L.ReachableInv(w);
    hide L.Reachable, Merge, Parse, D.Frame, D.Fits, D.ReadOk;
    if !w.env.stopped {
      R.ReadOkOfReachable(w);
    }
  }
}
