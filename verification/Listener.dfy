/** Listening sockets and the processes waiting to accept (c_src/listener.cc), with the monitors on those
    processes. */
module Listeners {
  import opened Bytes
  import opened Driver
  import opened Monitors

  datatype Acceptor = Acceptor(caller: Pid, ref: Ref)

  /** What a readable socket brings: nothing to read, no new UDP socket for it, a peer that cannot be
      connected to, a datagram that opens no uTP connection, or a connection and its new port. */
  datatype Arrival = NoDatagram | NoSocket | Refused(e: Errno) | NotUtp | Incoming(port: nat)

  datatype AcceptOutcome = NewPort(port: nat) | AcceptFailed(e: Errno)

  /** A {utp_async, Port, Ref, Outcome} message. */
  datatype AcceptReply = AcceptReply(to: Pid, ref: Ref, outcome: AcceptOutcome)

  /** The index of the first acceptor with this reference. */
  function FirstWith(q: seq<Acceptor>, ref: Ref): (i: nat)
    ensures i <= |q| && (i < |q| ==> q[i].ref == ref)
    ensures forall j :: 0 <= j < i ==> q[j].ref != ref
  {
    if q == [] || q[0].ref == ref then 0 else 1 + FirstWith(q[1..], ref)
  }

  /** A queue without its i-th acceptor. */
  function Without(q: seq<Acceptor>, i: nat): seq<Acceptor>
    requires i < |q|
  {
    q[..i] + q[i + 1..]
  }

  /** A queue without the acceptors of a process. */
  function Purged(q: seq<Acceptor>, proc: Pid): seq<Acceptor> {
    if q == [] then []
    else Purged(q[..|q| - 1], proc) + (if q[|q| - 1].caller == proc then [] else [q[|q| - 1]])
  }

  class Listener {
    const self: Hid
    const main: MainHandler
    var acceptorQueue: seq<Acceptor>

    constructor (self: Hid, main: MainHandler)
      ensures this.self == self && this.main == main && acceptorQueue == []
    {
      this.self, this.main := self, main;
      acceptorQueue := [];
    }

    method Accept(caller: Pid, ref: Ref, alive: bool, mon: Monitor) returns (answer: Option<Ref>)
      requires mon !in main.vm
      modifies this, main
      ensures answer == if alive then Some(ref) else None
      ensures acceptorQueue == old(acceptorQueue) + (if alive then [Acceptor(caller, ref)] else [])
      ensures main.Value() == if alive then Added(old(main.Value()), caller, self, mon) else old(main.Value())
    {
      answer := None;
      var added := main.AddMon(caller, self, alive, mon);
      if added {
        acceptorQueue := acceptorQueue + [Acceptor(caller, ref)];
        answer := Some(ref);
      }
    }

    method CancelAccept(ref: Ref)
      modifies this, main
      ensures var q := old(acceptorQueue);
              var i := FirstWith(q, ref);
              if i < |q| then acceptorQueue == Without(q, i) && main.Value() == Removed(old(main.Value()), q[i].caller)
              else acceptorQueue == q && main.Value() == old(main.Value())
    {
      var i := 0;
      while i < |acceptorQueue|
        invariant i <= |acceptorQueue| && acceptorQueue == old(acceptorQueue) && main.Value() == old(main.Value())
        invariant forall j :: 0 <= j < i ==> acceptorQueue[j].ref != ref
      {
        if acceptorQueue[i].ref == ref {
          main.DelMon(acceptorQueue[i].caller);
          acceptorQueue := acceptorQueue[..i] + acceptorQueue[i + 1..];
          return;
        }
        i := i + 1;
      }
    }

    method ProcessExited(proc: Pid)
      modifies this
      ensures acceptorQueue == Purged(old(acceptorQueue), proc)
    {
      var i := 0;
      ghost var seen := 0;
      ghost var q := acceptorQueue;
      while i < |acceptorQueue|
        invariant i <= |acceptorQueue| && seen <= |q|
        invariant acceptorQueue[i..] == q[seen..] && acceptorQueue[..i] == Purged(q[..seen], proc)
        decreases |acceptorQueue| - i
      {
        assert q[..seen + 1][..seen] == q[..seen];
        assert acceptorQueue[i] == acceptorQueue[i..][0] == q[seen];
        assert acceptorQueue[i + 1..] == acceptorQueue[i..][1..] == q[seen + 1..];
        if acceptorQueue[i].caller == proc {
          ghost var kept, rest := acceptorQueue[..i], acceptorQueue[i + 1..];
          acceptorQueue := acceptorQueue[..i] + acceptorQueue[i + 1..];
          assert acceptorQueue[i..] == rest && acceptorQueue[..i] == kept;
          assert kept + [] == kept;
        } else {
          i := i + 1;
        }
        seen := seen + 1;
      }
      assert q[..seen] == q && acceptorQueue[..i] == acceptorQueue;
    }

    method InputReady(a: Arrival) returns (reply: Option<AcceptReply>)
      modifies this, main
      ensures old(acceptorQueue) == [] || a.NoDatagram? || a.NoSocket? || a.NotUtp? ==>
                acceptorQueue == old(acceptorQueue) && main.Value() == old(main.Value()) && reply == None
      ensures old(acceptorQueue) != [] && a.Incoming? ==>
                reply == Some(AcceptReply(old(acceptorQueue)[0].caller, old(acceptorQueue)[0].ref, NewPort(a.port)))
      ensures old(acceptorQueue) != [] && a.Refused? ==>
                reply == Some(AcceptReply(old(acceptorQueue)[0].caller, old(acceptorQueue)[0].ref, AcceptFailed(a.e)))
      ensures old(acceptorQueue) != [] && (a.Incoming? || a.Refused?) ==>
                && acceptorQueue == old(acceptorQueue)[1..]
                && main.Value() == Removed(old(main.Value()), old(acceptorQueue)[0].caller)
    {
      reply := None;
      if a.NoDatagram? || |acceptorQueue| == 0 || a.NoSocket? {
        return;
      }
      match a {
        case Refused(e) =>
          var acc := acceptorQueue[0];
          main.DelMon(acc.caller);
          reply := Some(AcceptReply(acc.caller, acc.ref, AcceptFailed(e)));
          acceptorQueue := acceptorQueue[1..];
        case Incoming(port) =>
          var acc := acceptorQueue[0];
          main.DelMon(acc.caller);
          reply := Some(AcceptReply(acc.caller, acc.ref, NewPort(port)));
          acceptorQueue := acceptorQueue[1..];
        case NotUtp =>
      }
    }

    /** stop, which destroys the listener. */
    method Stop()
      requires self != main.self
      modifies main
      ensures main.Value() == Cleared(old(main.Value()), self)
    {
      main.DelMons(self);
    }
  }

  // ---------------------------------------------------------------- all listeners together

  /** A listener's queue, what has become of its acceptors, and the replies it sent. */
  datatype Desk = Desk(
    queue: seq<Acceptor>, enqueued: seq<Acceptor>, served: seq<Acceptor>, removed: multiset<Acceptor>,
    replies: seq<AcceptReply>)

  const NEW_DESK := Desk([], [], [], multiset{}, [])

  /** The monitors, the listeners that exist, and the processes that have died. */
  datatype System = System(t: Table, desks: map<Hid, Desk>, dead: set<Pid>)

  datatype ListenerEvent =
    | Listen(h: Hid)
    | AcceptCalled(h: Hid, caller: Pid, ref: Ref, alive: bool, mon: Monitor)
    | AcceptCancelled(h: Hid, ref: Ref)
    | Readable(h: Hid, a: Arrival)
    | Unlisten(h: Hid)
    | Dies(p: Pid)
    | Fires(mon: Monitor)     // the emulator calls process_exit

  const NO_LISTENERS := System(NO_MONITORS, map[], {})

  predicate Possible(x: System, e: ListenerEvent) {
    match e
    case Listen(h) => h !in x.desks
    case AcceptCalled(h, caller, _, _, mon) => h in x.desks && caller !in x.dead && mon !in x.t.vm
    case AcceptCancelled(h, _) => h in x.desks
    case Readable(h, _) => h in x.desks
    case Unlisten(h) => h in x.desks
    case Dies(p) => true
    case Fires(mon) => mon in x.t.vm && x.t.vm[mon] in x.dead
  }

  function Purge(d: Desk, proc: Pid): Desk {
    var q := Purged(d.queue, proc);
    d.(queue := q, removed := d.removed + (multiset(d.queue) - multiset(q)))
  }

  /** The first acceptor is told the outcome and leaves, with the monitor on record for its process. */
  function Serve(x: System, h: Hid, outcome: AcceptOutcome): System
    requires h in x.desks && x.desks[h].queue != []
  {
    var d := x.desks[h];
    var first := d.queue[0];
    x.(t := Removed(x.t, first.caller),
       desks := x.desks[h := d.(queue := d.queue[1..], served := d.served + [first],
                                replies := d.replies + [AcceptReply(first.caller, first.ref, outcome)])])
  }

  function After(x: System, e: ListenerEvent): System
    requires Possible(x, e)
  {
    match e
    case Listen(h) => x.(desks := x.desks[h := NEW_DESK])
    case AcceptCalled(h, caller, ref, alive, mon) =>
      if !alive then x
      else
        var d, acc := x.desks[h], Acceptor(caller, ref);
        x.(t := Added(x.t, caller, h, mon),
           desks := x.desks[h := d.(queue := d.queue + [acc], enqueued := d.enqueued + [acc])])
    case AcceptCancelled(h, ref) =>
      var d := x.desks[h];
      var i := FirstWith(d.queue, ref);
      if i == |d.queue| then x
      else
        x.(t := Removed(x.t, d.queue[i].caller),
           desks := x.desks[h := d.(queue := Without(d.queue, i), removed := d.removed + multiset{d.queue[i]})])
    case Readable(h, a) =>
      if x.desks[h].queue == [] then x
      else
        (match a
         case NoDatagram => x
         case NoSocket => x
         case Refused(e) => Serve(x, h, AcceptFailed(e))
         case NotUtp => x
         case Incoming(port) => Serve(x, h, NewPort(port)))
    case Unlisten(h) => x.(t := Cleared(x.t, h), desks := x.desks - {h})
    case Dies(p) => x.(dead := x.dead + {p})
    case Fires(mon) =>
      var exit := AfterExit(x.t, mon);
      if exit.to.Some? && exit.to.value in x.desks
      then x.(t := exit.t, desks := x.desks[exit.to.value := Purge(x.desks[exit.to.value], exit.proc)])
      else x.(t := exit.t)
  }

  predicate AllPossible(x: System, es: seq<ListenerEvent>)
    decreases |es|
  {
    es == [] || (Possible(x, es[0]) && AllPossible(After(x, es[0]), es[1..]))
  }

  function RunAll(x: System, es: seq<ListenerEvent>): System
    requires AllPossible(x, es)
    decreases |es|
  {
    if es == [] then x else RunAll(After(x, es[0]), es[1..])
  }

  // ---------------------------------------------------------------- order and conservation

  /** a is b with some elements left out. */
  predicate Subseq<T(==)>(a: seq<T>, b: seq<T>)
    decreases |b|
  {
    a == [] || (b != [] && ((a[0] == b[0] && Subseq(a[1..], b[1..])) || Subseq(a, b[1..])))
  }

  lemma {:induction false} SubseqSnoc<T>(a: seq<T>, b: seq<T>, x: T)
    requires Subseq(a, b)
    ensures Subseq(a + [x], b + [x]) && Subseq(a, b + [x])
    decreases |b|
  {
    if b == [] {
      assert a + [x] == [x] && b + [x] == [x];
      assert Subseq<T>([x][1..], [x][1..]);
    } else {
      assert (b + [x])[1..] == b[1..] + [x];
      if a == [] {
        SubseqSnoc([], b[1..], x);
        assert a + [x] == [x];
      } else if a[0] == b[0] && Subseq(a[1..], b[1..]) {
        assert (a + [x])[1..] == a[1..] + [x];
        SubseqSnoc(a[1..], b[1..], x);
      } else {
        SubseqSnoc(a, b[1..], x);
      }
    }
  }

  /** Leaving out one more element. */
  lemma {:induction false} SubseqWithout<T>(a: seq<T>, b: seq<T>, i: nat)
    requires Subseq(a, b) && i < |a|
    ensures Subseq(a[..i] + a[i + 1..], b)
    decreases |b|
  {
    var less := a[..i] + a[i + 1..];
    if a[0] == b[0] && Subseq(a[1..], b[1..]) {
      if i == 0 {
        assert less == a[1..];
      } else {
        SubseqWithout(a[1..], b[1..], i - 1);
        assert less[1..] == a[1..][..i - 1] + a[1..][i..];
      }
    } else {
      SubseqWithout(a, b[1..], i);
    }
  }

  lemma {:induction false} SubseqPurged(front: seq<Acceptor>, q: seq<Acceptor>, tail: seq<Acceptor>,
                                        b: seq<Acceptor>, proc: Pid)
    requires Subseq(front + q + tail, b)
    ensures Subseq(front + Purged(q, proc) + tail, b)
    decreases |q|
  {
    if q != [] {
      var last := q[|q| - 1];
      var init := q[..|q| - 1];
      assert q == init + [last];
      if last.caller == proc {
        var all := front + q + tail;
        var i := |front + init|;
        assert all[..i] + all[i + 1..] == front + init + tail;
        SubseqWithout(all, b, i);
        SubseqPurged(front, init, tail, b, proc);
        assert Purged(q, proc) == Purged(init, proc) + [] == Purged(init, proc);
      } else {
        assert front + q + tail == front + init + ([last] + tail);
        SubseqPurged(front, init, [last] + tail, b, proc);
        assert front + Purged(init, proc) + ([last] + tail) == front + Purged(q, proc) + tail;
      }
    }
  }

  lemma {:induction false} PurgedKeeps(q: seq<Acceptor>, proc: Pid)
    ensures multiset(Purged(q, proc)) <= multiset(q)
    ensures forall acc :: acc in Purged(q, proc) ==> acc.caller != proc
    ensures forall p :: Count(Purged(q, proc), p) == if p == proc then 0 else Count(q, p)
    decreases |q|
  {
    if q != [] {
      assert q == q[..|q| - 1] + [q[|q| - 1]];
      PurgedKeeps(q[..|q| - 1], proc);
      forall p
        ensures Count(Purged(q, proc), p) == if p == proc then 0 else Count(q, p)
      {
        CountSnoc(Purged(q[..|q| - 1], proc), q[|q| - 1], p);
        assert Purged(q[..|q| - 1], proc) + [] == Purged(q[..|q| - 1], proc);
      }
    }
  }

  /** The acceptors of a process in a queue. */
  function Count(q: seq<Acceptor>, p: Pid): nat {
    if q == [] then 0 else Count(q[..|q| - 1], p) + (if q[|q| - 1].caller == p then 1 else 0)
  }

  lemma CountSnoc(q: seq<Acceptor>, acc: Acceptor, p: Pid)
    ensures Count(q + [acc], p) == Count(q, p) + (if acc.caller == p then 1 else 0)
  {
    assert (q + [acc])[..|q|] == q;
  }

  lemma {:induction false} CountWithout(q: seq<Acceptor>, i: nat, p: Pid)
    requires i < |q|
    ensures Count(q, p) == Count(Without(q, i), p) + (if q[i].caller == p then 1 else 0)
    decreases |q|
  {
    if i == |q| - 1 {
      assert Without(q, i) == q[..i];
    } else {
      var init := q[..|q| - 1];
      CountWithout(init, i, p);
      CountSnoc(Without(init, i), q[|q| - 1], p);
      assert Without(q, i) == Without(init, i) + [q[|q| - 1]];
    }
  }

  lemma {:induction false} CountPositive(q: seq<Acceptor>, acc: Acceptor)
    requires acc in q
    ensures Count(q, acc.caller) > 0
    decreases |q|
  {
    if q[|q| - 1] != acc {
      CountPositive(q[..|q| - 1], acc);
    }
  }

  /** One queue: who was served and who still waits, in this order, are some of those who called accept in
      the order of their calls; and each of them was served, was taken out, or waits. */
  predicate Orderly(d: Desk) {
    && Subseq(d.served + d.queue, d.enqueued)
    && multiset(d.enqueued) == multiset(d.served) + d.removed + multiset(d.queue)
  }

  lemma OrderlyAccept(d: Desk, acc: Acceptor)
    requires Orderly(d)
    ensures Orderly(d.(queue := d.queue + [acc], enqueued := d.enqueued + [acc]))
  {
    SubseqSnoc(d.served + d.queue, d.enqueued, acc);
    assert d.served + d.queue + [acc] == d.served + (d.queue + [acc]);
  }

  lemma OrderlyCancel(d: Desk, i: nat)
    requires Orderly(d) && i < |d.queue|
    ensures Orderly(d.(queue := Without(d.queue, i), removed := d.removed + multiset{d.queue[i]}))
  {
    var all := d.served + d.queue;
    var k := |d.served| + i;
    SubseqWithout(all, d.enqueued, k);
    assert all[..k] + all[k + 1..] == d.served + Without(d.queue, i);
    assert d.queue == d.queue[..i] + [d.queue[i]] + d.queue[i + 1..];
    assert multiset(d.queue) == multiset(d.queue[..i]) + multiset{d.queue[i]} + multiset(d.queue[i + 1..]);
    hide Subseq;
  }

  lemma OrderlyServe(d: Desk, more: seq<AcceptReply>)
    requires Orderly(d) && d.queue != []
    ensures Orderly(d.(queue := d.queue[1..], served := d.served + [d.queue[0]], replies := more))
  {
    assert d.served + [d.queue[0]] + d.queue[1..] == d.served + d.queue;
    assert d.queue == [d.queue[0]] + d.queue[1..];
  }

  lemma OrderlyPurge(d: Desk, proc: Pid)
    requires Orderly(d)
    ensures Orderly(Purge(d, proc))
  {
    PurgedKeeps(d.queue, proc);
    assert d.served + d.queue + [] == d.served + d.queue;
    SubseqPurged(d.served, d.queue, [], d.enqueued, proc);
    assert d.served + Purged(d.queue, proc) + [] == d.served + Purged(d.queue, proc);
  }

  /** What holds of any run: the maps are consistent, every monitor is for a listener that exists, and
      every queue is in order. */
  predicate SystemInv(x: System) {
    && Consistent(x.t)
    && (forall mon :: mon in x.t.mons ==> x.t.mons[mon] in x.desks)
    && (forall h :: h in x.desks ==> Orderly(x.desks[h]))
  }

  lemma StepKeepsOrder(x: System, e: ListenerEvent)
    requires Possible(x, e) && forall h :: h in x.desks ==> Orderly(x.desks[h])
    ensures forall h :: h in After(x, e).desks ==> Orderly(After(x, e).desks[h])
  {
    hide Orderly, Added, Removed, Cleared, AfterExit;
    match e
    case Listen(_) => assert Orderly(NEW_DESK) by { EmptyOrderly(); }
    case AcceptCalled(h, caller, ref, _, _) => OrderlyAccept(x.desks[h], Acceptor(caller, ref));
    case AcceptCancelled(h, ref) =>
      var i := FirstWith(x.desks[h].queue, ref);
      if i < |x.desks[h].queue| {
        OrderlyCancel(x.desks[h], i);
      }
    case Readable(h, _) =>
      if x.desks[h].queue != [] {
        OrderlyServe(x.desks[h], After(x, e).desks[h].replies);
      }
    case Unlisten(_) =>
    case Dies(_) =>
    case Fires(mon) =>
      var exit := AfterExit(x.t, mon);
      if exit.to.Some? && exit.to.value in x.desks {
        OrderlyPurge(x.desks[exit.to.value], exit.proc);
      }
  }

  lemma EmptyOrderly()
    ensures Orderly(NEW_DESK)
  {
  }

  /** No operation adds a monitor but add_monitor, and del_mons leaves none of its handler. */
  lemma MonitorsStay(t: Table, proc: Pid, h: Hid, mon: Monitor)
    requires Consistent(t)
    ensures forall m :: m in Added(t, proc, h, mon).mons ==> m in t.mons || m == mon
    ensures forall m :: m in Added(t, proc, h, mon).mons ==>
              Added(t, proc, h, mon).mons[m] == (if m in t.mons then t.mons[m] else h)
    ensures forall m :: m in Removed(t, proc).mons ==> m in t.mons && Removed(t, proc).mons[m] == t.mons[m]
    ensures forall m :: m in Cleared(t, h).mons ==> m in t.mons && Cleared(t, h).mons[m] == t.mons[m] != h
    ensures mon in t.vm ==>
              var after := AfterExit(t, mon).t;
              forall m :: m in after.mons ==> m in t.mons && after.mons[m] == t.mons[m]
  {
  }

  lemma StepKeepsTable(x: System, e: ListenerEvent)
    requires Possible(x, e) && Consistent(x.t) && forall mon :: mon in x.t.mons ==> x.t.mons[mon] in x.desks
    ensures var y := After(x, e); Consistent(y.t) && forall mon :: mon in y.t.mons ==> y.t.mons[mon] in y.desks
  {
    hide Consistent, Added, Removed, AfterExit, Cleared, Purged, FirstWith, Without;
    match e
    case AcceptCalled(h, caller, _, _, mon) =>
      StaysConsistent(x.t, caller, h, mon);
      MonitorsStay(x.t, caller, h, mon);
    case AcceptCancelled(h, ref) =>
      var i := FirstWith(x.desks[h].queue, ref);
      if i < |x.desks[h].queue| {
        StaysConsistent(x.t, x.desks[h].queue[i].caller, h, 0);
        MonitorsStay(x.t, x.desks[h].queue[i].caller, h, 0);
      }
    case Readable(h, _) =>
      if x.desks[h].queue != [] {
        StaysConsistent(x.t, x.desks[h].queue[0].caller, h, 0);
        MonitorsStay(x.t, x.desks[h].queue[0].caller, h, 0);
      }
    case Unlisten(h) =>
      StaysConsistent(x.t, 0, h, 0);
      MonitorsStay(x.t, 0, h, 0);
    case Fires(mon) =>
      StaysConsistent(x.t, 0, 0, mon);
      MonitorsStay(x.t, 0, 0, mon);
    case Listen(_) =>
    case Dies(_) =>
  }

  lemma StepKeepsInv(x: System, e: ListenerEvent)
    requires SystemInv(x) && Possible(x, e)
    ensures SystemInv(After(x, e))
  {
    hide Orderly, After, Consistent;
    StepKeepsOrder(x, e);
    StepKeepsTable(x, e);
  }

  lemma {:induction false} RunKeepsInv(x: System, es: seq<ListenerEvent>)
    requires SystemInv(x) && AllPossible(x, es)
    ensures SystemInv(RunAll(x, es))
    decreases |es|
  {
    hide SystemInv;
    if es != [] {
      StepKeepsInv(x, es[0]);
      RunKeepsInv(After(x, es[0]), es[1..]);
    }
  }

  // ---------------------------------------------------------------- monitored acceptors

  /** The monitors on a process set for a listener. */
  function MonitorsFor(t: Table, p: Pid, h: Hid): set<Monitor> {
    set mon | mon in t.mons && t.mons[mon] == h && mon in t.vm && t.vm[mon] == p
  }

  /** A process that accepts has no monitor set for another listener. */
  predicate OneListener(x: System, e: ListenerEvent) {
    e.AcceptCalled? ==>
      forall mon :: mon in x.t.mons && mon in x.t.vm && x.t.vm[mon] == e.caller ==> x.t.mons[mon] == e.h
  }

  predicate OneListenerEach(x: System, es: seq<ListenerEvent>)
    requires AllPossible(x, es)
    decreases |es|
  {
    es == [] || (OneListener(x, es[0]) && OneListenerEach(After(x, es[0]), es[1..]))
  }

  predicate OneHome(t: Table) {
    forall a, b :: a in t.mons && b in t.mons && a in t.vm && b in t.vm && t.vm[a] == t.vm[b] ==> t.mons[a] == t.mons[b]
  }

  /** Every process has as many monitors set for a listener as acceptors in its queue. */
  ghost predicate Watched(x: System) {
    forall h, p :: h in x.desks ==> Count(x.desks[h].queue, p) <= |MonitorsFor(x.t, p, h)|
  }

  lemma AddedMonitors(t: Table, caller: Pid, h: Hid, mon: Monitor, p: Pid, k: Hid)
    requires Consistent(t) && mon !in t.vm
    ensures var after := Added(t, caller, h, mon);
            MonitorsFor(after, p, k) == MonitorsFor(t, p, k) + (if p == caller && k == h then {mon} else {})
    ensures mon !in MonitorsFor(t, p, k)
  {
  }

  lemma RemovedMonitors(t: Table, caller: Pid, p: Pid, k: Hid)
    requires Consistent(t)
    ensures var after := Removed(t, caller);
            MonitorsFor(after, p, k) ==
              if p == caller && caller in t.procs && t.mons[t.procs[caller]] == k
              then MonitorsFor(t, p, k) - {t.procs[caller]}
              else MonitorsFor(t, p, k)
    ensures caller in t.procs ==> t.procs[caller] in MonitorsFor(t, caller, t.mons[t.procs[caller]])
  {
  }

  lemma FiredMonitors(t: Table, mon: Monitor, p: Pid, k: Hid)
    requires Consistent(t) && mon in t.vm
    ensures var after := AfterExit(t, mon).t;
            MonitorsFor(after, p, k) ==
              if mon in t.mons && k == t.mons[mon] && p == t.vm[mon] then MonitorsFor(t, p, k) - {mon}
              else MonitorsFor(t, p, k)
  {
  }

  lemma ClearedMonitors(t: Table, h: Hid, p: Pid, k: Hid)
    requires Consistent(t) && k != h
    ensures MonitorsFor(Cleared(t, h), p, k) == MonitorsFor(t, p, k)
  {
    var after := Cleared(t, h);
    assert forall mon :: mon in t.mons && t.mons[mon] == k ==> !MonitorOf(t, h, mon);
  }

  lemma HomeKept(x: System, e: ListenerEvent)
    requires Possible(x, e) && Consistent(x.t) && OneHome(x.t) && OneListener(x, e)
    ensures OneHome(After(x, e).t)
  {
    match e
    case AcceptCalled(h, caller, _, _, mon) =>
    case AcceptCancelled(h, ref) =>
    case Readable(h, _) =>
    case Unlisten(h) =>
    case Fires(mon) =>
    case Listen(_) =>
    case Dies(_) =>
  }

  lemma AcceptWatched(x: System, e: ListenerEvent)
    requires Possible(x, e) && Consistent(x.t) && Watched(x) && e.AcceptCalled?
    ensures Watched(After(x, e))
  {
    hide Added, Count;
    var y := After(x, e);
    if e.alive {
      forall h, p | h in y.desks
        ensures Count(y.desks[h].queue, p) <= |MonitorsFor(y.t, p, h)|
      {
        AddedMonitors(x.t, e.caller, e.h, e.mon, p, h);
        CountSnoc(x.desks[e.h].queue, Acceptor(e.caller, e.ref), p);
        assert Count(x.desks[h].queue, p) <= |MonitorsFor(x.t, p, h)|;
      }
    }
  }

  /** What it takes for an acceptor of p to leave the queue of h: the monitor on record for p, which goes
      with it, is one for h, or one that its own listener can spare. */
  predicate CanLeave(x: System, h: Hid, p: Pid) {
    p in x.t.procs && x.t.procs[p] in x.t.mons && x.t.mons[x.t.procs[p]] in x.desks ==>
      var k := x.t.mons[x.t.procs[p]];
      k == h || Count(x.desks[k].queue, p) < |MonitorsFor(x.t, p, k)|
  }

  /** y is x after the i-th acceptor has left the queue of h, served or cancelled. */
  predicate Leaves(x: System, h: Hid, i: nat, y: System) {
    && h in x.desks && i < |x.desks[h].queue|
    && y.t == Removed(x.t, x.desks[h].queue[i].caller) && y.desks.Keys == x.desks.Keys
    && y.desks[h].queue == Without(x.desks[h].queue, i)
    && forall k :: k in x.desks && k != h ==> y.desks[k].queue == x.desks[k].queue
  }

  lemma LeaveKeeps(x: System, h: Hid, i: nat, y: System)
    requires Consistent(x.t) && Watched(x) && Leaves(x, h, i, y) && CanLeave(x, h, x.desks[h].queue[i].caller)
    ensures Watched(y)
  {
    hide Removed, Count;
    var q := x.desks[h].queue;
    forall k, p | k in y.desks
      ensures Count(y.desks[k].queue, p) <= |MonitorsFor(y.t, p, k)|
    {
      RemovedMonitors(x.t, q[i].caller, p, k);
      CountWithout(q, i, p);
      assert Count(x.desks[k].queue, p) <= |MonitorsFor(x.t, p, k)|;
    }
  }

  /** That condition is exact. */
  lemma LeaveWatched(x: System, h: Hid, i: nat, y: System)
    requires Consistent(x.t) && Watched(x) && Leaves(x, h, i, y)
    ensures Watched(y) <==> CanLeave(x, h, x.desks[h].queue[i].caller)
  {
    var p := x.desks[h].queue[i].caller;
    if CanLeave(x, h, p) {
      LeaveKeeps(x, h, i, y);
    } else {
      hide Removed, Count;
      var k := x.t.mons[x.t.procs[p]];
      RemovedMonitors(x.t, p, p, k);
      assert k != h && Count(y.desks[k].queue, p) > |MonitorsFor(y.t, p, k)|;
    }
  }

  /** With all its monitors for one listener, a process can leave that listener's queue. */
  lemma OneHomeCanLeave(x: System, h: Hid, acc: Acceptor)
    requires Consistent(x.t) && OneHome(x.t) && Watched(x) && h in x.desks && acc in x.desks[h].queue
    ensures CanLeave(x, h, acc.caller)
  {
    hide Count;
    CountPositive(x.desks[h].queue, acc);
    assert |MonitorsFor(x.t, acc.caller, h)| > 0;
    var mon :| mon in MonitorsFor(x.t, acc.caller, h);
  }

  lemma FireWatched(x: System, mon: Monitor)
    requires Possible(x, Fires(mon)) && Consistent(x.t) && Watched(x)
    requires forall m :: m in x.t.mons ==> x.t.mons[m] in x.desks
    ensures Watched(After(x, Fires(mon)))
  {
    hide Count;
    var y := After(x, Fires(mon));
    forall h, p | h in y.desks
      ensures Count(y.desks[h].queue, p) <= |MonitorsFor(y.t, p, h)|
    {
      FiredMonitors(x.t, mon, p, h);
      assert Count(x.desks[h].queue, p) <= |MonitorsFor(x.t, p, h)|;
      PurgedKeeps(x.desks[h].queue, x.t.vm[mon]);
    }
  }

  lemma StopWatched(x: System, h: Hid)
    requires Possible(x, Unlisten(h)) && Consistent(x.t) && Watched(x)
    ensures Watched(After(x, Unlisten(h)))
  {
    hide Count, Cleared;
    var y := After(x, Unlisten(h));
    forall k, p | k in y.desks
      ensures Count(y.desks[k].queue, p) <= |MonitorsFor(y.t, p, k)|
    {
      ClearedMonitors(x.t, h, p, k);
      assert Count(x.desks[k].queue, p) <= |MonitorsFor(x.t, p, k)|;
    }
  }

  lemma CancelLeaves(x: System, h: Hid, ref: Ref)
    requires Possible(x, AcceptCancelled(h, ref)) && FirstWith(x.desks[h].queue, ref) < |x.desks[h].queue|
    ensures Leaves(x, h, FirstWith(x.desks[h].queue, ref), After(x, AcceptCancelled(h, ref)))
  {
    hide FirstWith, Removed;
  }

  lemma ServeLeaves(x: System, h: Hid, a: Arrival)
    requires Possible(x, Readable(h, a)) && x.desks[h].queue != [] && (a.Incoming? || a.Refused?)
    ensures Leaves(x, h, 0, After(x, Readable(h, a)))
  {
    hide Removed;
    assert Without(x.desks[h].queue, 0) == x.desks[h].queue[1..];
  }

  lemma LeaveNobody(x: System, e: ListenerEvent)
    requires Possible(x, e)
    requires e.AcceptCancelled? ==> FirstWith(x.desks[e.h].queue, e.ref) == |x.desks[e.h].queue|
    requires e.Readable? ==> x.desks[e.h].queue == [] || !(e.a.Incoming? || e.a.Refused?)
    ensures e.AcceptCancelled? || e.Readable? ==> After(x, e) == x
  {
  }

  /** The steps that leave an acceptor without a monitor: one of its process leaves another queue, and the
      monitor on record that goes with it is one that is needed here. */
  predicate TakesWatch(x: System, e: ListenerEvent)
    requires Possible(x, e)
  {
    match e
    case AcceptCancelled(h, ref) =>
      var q := x.desks[h].queue;
      var i := FirstWith(q, ref);
      i < |q| && !CanLeave(x, h, q[i].caller)
    case Readable(h, a) =>
      var q := x.desks[h].queue;
      q != [] && (a.Incoming? || a.Refused?) && !CanLeave(x, h, q[0].caller)
    case _ => false
  }

  lemma StepWatched(x: System, e: ListenerEvent)
    requires Possible(x, e) && SystemInv(x) && Watched(x)
    ensures Watched(After(x, e)) <==> !TakesWatch(x, e)
  {
    hide After, Orderly, OneHome, Count, CanLeave, Watched, Leaves, Removed, MonitorsFor;
    match e
    case AcceptCalled(_, _, _, _, _) => AcceptWatched(x, e);
    case AcceptCancelled(h, ref) =>
      var i := FirstWith(x.desks[h].queue, ref);
      if i < |x.desks[h].queue| {
        CancelLeaves(x, h, ref);
        LeaveWatched(x, h, i, After(x, e));
      } else {
        LeaveNobody(x, e);
      }
    case Readable(h, a) =>
      if x.desks[h].queue != [] && (a.Incoming? || a.Refused?) {
        ServeLeaves(x, h, a);
        LeaveWatched(x, h, 0, After(x, e));
      } else {
        LeaveNobody(x, e);
      }
    case Unlisten(h) => StopWatched(x, h);
    case Fires(mon) => FireWatched(x, mon);
    case Listen(h) => ListenWatched(x, h);
    case Dies(p) => DeathWatched(x, p);
  }

  /** With all the monitors of a process for one listener, no step takes a needed one. */
  lemma OneHomeTakesNone(x: System, e: ListenerEvent)
    requires Possible(x, e) && SystemInv(x) && OneHome(x.t) && Watched(x)
    ensures !TakesWatch(x, e)
  {
    hide Orderly, OneHome, Count, CanLeave, Watched;
    if e.AcceptCancelled? {
      var q := x.desks[e.h].queue;
      if FirstWith(q, e.ref) < |q| {
        OneHomeCanLeave(x, e.h, q[FirstWith(q, e.ref)]);
      }
    } else if e.Readable? && x.desks[e.h].queue != [] {
      OneHomeCanLeave(x, e.h, x.desks[e.h].queue[0]);
    }
  }

  /** At every point of a run every queued acceptor has its monitor. */
  ghost predicate AlwaysWatched(x: System, es: seq<ListenerEvent>)
    requires AllPossible(x, es)
    decreases |es|
  {
    Watched(x) && (es == [] || AlwaysWatched(After(x, es[0]), es[1..]))
  }

  predicate NeverTakesWatch(x: System, es: seq<ListenerEvent>)
    requires AllPossible(x, es)
    decreases |es|
  {
    es == [] || (!TakesWatch(x, es[0]) && NeverTakesWatch(After(x, es[0]), es[1..]))
  }

  lemma {:induction false} RunWatchedExactly(x: System, es: seq<ListenerEvent>)
    requires SystemInv(x) && Watched(x) && AllPossible(x, es)
    ensures AlwaysWatched(x, es) <==> NeverTakesWatch(x, es)
    decreases |es|
  {
    hide SystemInv, Watched, TakesWatch, After, Possible;
    if es != [] {
      StepWatched(x, es[0]);
      StepKeepsInv(x, es[0]);
      if !TakesWatch(x, es[0]) {
        RunWatchedExactly(After(x, es[0]), es[1..]);
      } else {
        assert !AlwaysWatched(After(x, es[0]), es[1..]);
      }
    }
  }

  lemma DeathWatched(x: System, p: Pid)
    requires Watched(x)
    ensures Watched(After(x, Dies(p)))
  {
  }

  lemma ListenWatched(x: System, h: Hid)
    requires Possible(x, Listen(h)) && Watched(x)
    ensures Watched(After(x, Listen(h)))
  {
  }

  lemma HomeOfStep(x: System, e: ListenerEvent)
    requires Possible(x, e) && SystemInv(x) && OneHome(x.t) && OneListener(x, e)
    ensures OneHome(After(x, e).t)
  {
    hide Orderly;
    HomeKept(x, e);
  }

  lemma {:induction false} RunWatched(x: System, es: seq<ListenerEvent>)
    requires SystemInv(x) && OneHome(x.t) && Watched(x) && AllPossible(x, es) && OneListenerEach(x, es)
    ensures Watched(RunAll(x, es)) && SystemInv(RunAll(x, es))
    decreases |es|
  {
    hide SystemInv, Watched, OneHome;
    if es != [] {
      StepWatched(x, es[0]);
      OneHomeTakesNone(x, es[0]);
      HomeOfStep(x, es[0]);
      StepKeepsInv(x, es[0]);
      RunWatched(After(x, es[0]), es[1..]);
    }
  }

  // ---------------------------------------------------------------- replies

  /** What a step brings for the first acceptor of a listener. */
  function OutcomeAt(x: System, e: ListenerEvent, h: Hid): seq<AcceptOutcome> {
    if !e.Readable? || e.h != h || h !in x.desks || x.desks[h].queue == [] then []
    else if e.a.Incoming? then [NewPort(e.a.port)]
    else if e.a.Refused? then [AcceptFailed(e.a.e)]
    else []
  }

  /** The connections and the refused peers that found an acceptor, since the listener was opened. */
  function Outcomes(x: System, es: seq<ListenerEvent>, h: Hid, sofar: seq<AcceptOutcome>): seq<AcceptOutcome>
    requires AllPossible(x, es)
    decreases |es|
  {
    if es == [] then sofar
    else
      Outcomes(After(x, es[0]), es[1..], h, if es[0] == Listen(h) then [] else sofar + OutcomeAt(x, es[0], h))
  }

  /** Each acceptor that was served got one reply, with its own reference and the outcome in the same place. */
  predicate Answered(d: Desk, outcomes: seq<AcceptOutcome>) {
    && |d.served| == |d.replies| == |outcomes|
    && forall i :: 0 <= i < |outcomes| ==>
                     d.replies[i] == AcceptReply(d.served[i].caller, d.served[i].ref, outcomes[i])
  }

  lemma StepAnswers(x: System, e: ListenerEvent, h: Hid, sofar: seq<AcceptOutcome>)
    requires Possible(x, e) && e != Listen(h) && h in After(x, e).desks
    requires h in x.desks ==> Answered(x.desks[h], sofar)
    ensures h in x.desks && Answered(After(x, e).desks[h], sofar + OutcomeAt(x, e, h))
  {
    hide Added, Removed, Cleared, AfterExit, Purged, Without, FirstWith;
    assert sofar + [] == sofar;
  }

  lemma {:induction false} RunAnswers(x: System, es: seq<ListenerEvent>, h: Hid, sofar: seq<AcceptOutcome>)
    requires AllPossible(x, es) && (h in x.desks ==> Answered(x.desks[h], sofar))
    ensures h in RunAll(x, es).desks ==> Answered(RunAll(x, es).desks[h], Outcomes(x, es, h, sofar))
    decreases |es|
  {
    hide Answered, OutcomeAt, Possible, After;
    if es != [] {
      var y := After(x, es[0]);
      if es[0] == Listen(h) {
        OpensUnanswered(x, h);
        RunAnswers(y, es[1..], h, []);
      } else {
        if h in y.desks {
          StepAnswers(x, es[0], h, sofar);
        }
        RunAnswers(y, es[1..], h, sofar + OutcomeAt(x, es[0], h));
      }
    }
  }

  lemma OpensUnanswered(x: System, h: Hid)
    requires Possible(x, Listen(h))
    ensures h in After(x, Listen(h)).desks && Answered(After(x, Listen(h)).desks[h], [])
  {
  }

  // ---------------------------------------------------------------- theorems

  /** A readable socket in every case: a datagram that is none, that gets no UDP socket or that is not uTP, or
      that comes when nobody waits, leaves every queue and monitor and tells nobody; a connection or a refused
      peer tells the first acceptor, with its own reference, the new port or the error code, and takes that
      acceptor off the queue, together with the monitor on record for its process. */
  lemma ArrivalExactly(x: System, h: Hid, a: Arrival)
    requires h in x.desks
    ensures x.desks[h].queue == [] || a in {NoDatagram, NoSocket, NotUtp} ==> After(x, Readable(h, a)) == x
    ensures x.desks[h].queue != [] && (a.Incoming? || a.Refused?) ==>
              var d, y := x.desks[h], After(x, Readable(h, a));
              var first := d.queue[0];
              && y.t == Removed(x.t, first.caller) && y.dead == x.dead && y.desks.Keys == x.desks.Keys
              && (forall k :: k in x.desks && k != h ==> y.desks[k] == x.desks[k])
              && [first] + y.desks[h].queue == d.queue && y.desks[h].served == d.served + [first]
              && y.desks[h].replies == d.replies + [AcceptReply(first.caller, first.ref,
                                                    if a.Incoming? then NewPort(a.port) else AcceptFailed(a.e))]
              && y.desks[h].removed == d.removed && y.desks[h].enqueued == d.enqueued
  {
    hide Removed;
  }

  /** In every run the acceptors a listener has served and the replies it has sent are, one to one and in the
      same order, the connections and the refused peers that found an acceptor since it was opened: the i-th
      served got one reply, with its own reference, and the port or the error code of the i-th of them. */
  lemma RepliesInOrder(es: seq<ListenerEvent>, h: Hid)
    requires AllPossible(NO_LISTENERS, es) && h in RunAll(NO_LISTENERS, es).desks
    ensures var d := RunAll(NO_LISTENERS, es).desks[h];
            var outcomes := Outcomes(NO_LISTENERS, es, h, []);
            && |d.served| == |d.replies| == |outcomes|
            && forall i :: 0 <= i < |outcomes| ==>
                             d.replies[i] == AcceptReply(d.served[i].caller, d.served[i].ref, outcomes[i])
  {
    RunAnswers(NO_LISTENERS, es, h, []);
  }

  /** In every run each listener serves its acceptors first come, first served: those served, followed by
      those still waiting, are the ones who called accept in the order of their calls, without the ones
      who cancelled or died; and every accept is accounted for once. */
  lemma ServedInOrder(es: seq<ListenerEvent>, h: Hid)
    requires AllPossible(NO_LISTENERS, es) && h in RunAll(NO_LISTENERS, es).desks
    ensures var d := RunAll(NO_LISTENERS, es).desks[h];
            && Subseq(d.served + d.queue, d.enqueued)
            && multiset(d.enqueued) == multiset(d.served) + d.removed + multiset(d.queue)
  {
    RunKeepsInv(NO_LISTENERS, es);
  }

  /** The maps stay consistent in every run, and process_exit never hands a monitor to a listener that has
      been destroyed. */
  lemma ExitFindsListener(es: seq<ListenerEvent>, mon: Monitor)
    requires AllPossible(NO_LISTENERS, es) && Possible(RunAll(NO_LISTENERS, es), Fires(mon))
    ensures var x := RunAll(NO_LISTENERS, es);
            && Consistent(x.t)
            && (AfterExit(x.t, mon).to.Some? ==> AfterExit(x.t, mon).to.value in x.desks)
  {
    RunKeepsInv(NO_LISTENERS, es);
  }

  /** If no process accepts on a listener while it has a monitor set for another, then in every reachable
      state each process has at least as many monitors set for a listener as acceptors in its queue,
      although proc_mon_map keeps only one; so once a process is dead and all its monitors have fired, no
      queue holds an acceptor of it. */
  lemma AcceptorsWatched(es: seq<ListenerEvent>, h: Hid, p: Pid)
    requires AllPossible(NO_LISTENERS, es) && OneListenerEach(NO_LISTENERS, es) && h in RunAll(NO_LISTENERS, es).desks
    ensures var x := RunAll(NO_LISTENERS, es);
            && Count(x.desks[h].queue, p) <= |MonitorsFor(x.t, p, h)|
            && ((forall mon :: mon in x.t.vm ==> x.t.vm[mon] != p) ==>
                  forall acc :: acc in x.desks[h].queue ==> acc.caller != p)
  {
    RunWatched(NO_LISTENERS, es);
    var x := RunAll(NO_LISTENERS, es);
    if forall mon :: mon in x.t.vm ==> x.t.vm[mon] != p {
      assert MonitorsFor(x.t, p, h) == {};
      forall acc | acc in x.desks[h].queue
        ensures acc.caller != p
      {
        CountPositive(x.desks[h].queue, acc);
      }
    }
  }

  /** And exactly: in any run, whoever accepts where, every queued acceptor has its monitor at every point if
      and only if no acceptor that leaves a queue takes along a monitor that another listener needs. */
  lemma AcceptorsWatchedExactly(es: seq<ListenerEvent>)
    requires AllPossible(NO_LISTENERS, es)
    ensures AlwaysWatched(NO_LISTENERS, es) <==> NeverTakesWatch(NO_LISTENERS, es)
  {
    RunWatchedExactly(NO_LISTENERS, es);
  }

  /** A process that accepts on two listeners can lose the monitor of one: serving it on the second takes
      back the monitor of the first, the only one on record. When it dies the first listener is not told,
      and keeps its acceptor. */
  lemma TwoListenersLoseMonitor(p: Pid, r1: Ref, r2: Ref)
    ensures exists x :: Attainable(x) && p in x.dead && (forall mon :: mon in x.t.vm ==> x.t.vm[mon] != p)
                        && 1 in x.desks && Acceptor(p, r1) in x.desks[1].queue
  {
    hide After, Possible, Attainable;
    NothingAttainable();
    var x2 := TwoListening();
    AttainableNext(NO_LISTENERS, Listen(1));
    AttainableNext(After(NO_LISTENERS, Listen(1)), Listen(2));
    var x4 := TwoAccepts(x2, p, r1, r2);
    AttainableNext(x2, AcceptCalled(1, p, r1, true, 10));
    AttainableNext(After(x2, AcceptCalled(1, p, r1, true, 10)), AcceptCalled(2, p, r2, true, 11));
    SecondServed(x4, p, r1, r2);
    var x5 := After(x4, Readable(2, Incoming(5)));
    AttainableNext(x4, Readable(2, Incoming(5)));
    LeftBehind(x5, p, r1);
    AttainableNext(x5, Dies(p));
    AttainableNext(After(x5, Dies(p)), Fires(11));
    var x7 := After(After(x5, Dies(p)), Fires(11));
    assert Attainable(x7);
  }

  ghost predicate Attainable(x: System) {
    exists es :: AllPossible(NO_LISTENERS, es) && x == RunAll(NO_LISTENERS, es)
  }

  lemma NothingAttainable()
    ensures Attainable(NO_LISTENERS)
  {
    assert AllPossible(NO_LISTENERS, []) && RunAll(NO_LISTENERS, []) == NO_LISTENERS;
  }

  lemma {:induction false} RunSnoc(x: System, es: seq<ListenerEvent>, e: ListenerEvent)
    requires AllPossible(x, es) && Possible(RunAll(x, es), e)
    ensures AllPossible(x, es + [e]) && RunAll(x, es + [e]) == After(RunAll(x, es), e)
    decreases |es|
  {
    hide Possible, After;
    if es == [] {
      assert (es + [e])[1..] == [];
      assert AllPossible(After(x, e), []);
    } else {
      assert (es + [e])[1..] == es[1..] + [e];
      RunSnoc(After(x, es[0]), es[1..], e);
    }
  }

  lemma AttainableNext(x: System, e: ListenerEvent)
    requires Attainable(x) && Possible(x, e)
    ensures Attainable(After(x, e))
  {
    hide Possible, After;
    var es :| AllPossible(NO_LISTENERS, es) && x == RunAll(NO_LISTENERS, es);
    RunSnoc(NO_LISTENERS, es, e);
  }

  lemma TwoListening() returns (x: System)
    ensures Possible(NO_LISTENERS, Listen(1)) && Possible(After(NO_LISTENERS, Listen(1)), Listen(2))
    ensures x == After(After(NO_LISTENERS, Listen(1)), Listen(2)) && Pair(x, NO_MONITORS, [], [])
  {
    x := After(After(NO_LISTENERS, Listen(1)), Listen(2));
  }

  lemma LeftBehind(x: System, p: Pid, r: Ref)
    requires Pair(x, Table(map[11 := 2], map[], map[11 := p]), [Acceptor(p, r)], [])
    ensures Possible(x, Dies(p)) && Possible(After(x, Dies(p)), Fires(11))
    ensures var y := After(After(x, Dies(p)), Fires(11));
            y.dead == {p} && y.t.vm == map[] && 1 in y.desks && y.desks[1].queue == [Acceptor(p, r)]
  {
    var y := After(x, Dies(p));
    assert y.t == x.t;
    assert AfterExit(y.t, 11).t.vm == map[];
  }

  /** Two listeners with these queues. */
  predicate Pair(x: System, t: Table, q1: seq<Acceptor>, q2: seq<Acceptor>) {
    && x.t == t && x.dead == {} && 1 in x.desks && 2 in x.desks
    && x.desks[1].queue == q1 && x.desks[2].queue == q2
  }

  lemma TwoAccepts(x: System, p: Pid, r1: Ref, r2: Ref) returns (y: System)
    requires Pair(x, NO_MONITORS, [], [])
    ensures Possible(x, AcceptCalled(1, p, r1, true, 10))
    ensures Possible(After(x, AcceptCalled(1, p, r1, true, 10)), AcceptCalled(2, p, r2, true, 11))
    ensures y == After(After(x, AcceptCalled(1, p, r1, true, 10)), AcceptCalled(2, p, r2, true, 11))
    ensures var t := Table(map[10 := 1, 11 := 2], map[p := 10], map[10 := p, 11 := p]);
            Pair(y, t, [Acceptor(p, r1)], [Acceptor(p, r2)])
  {
    var y1 := After(x, AcceptCalled(1, p, r1, true, 10));
    assert Pair(y1, Table(map[10 := 1], map[p := 10], map[10 := p]), [Acceptor(p, r1)], []);
    y := After(y1, AcceptCalled(2, p, r2, true, 11));
  }

  lemma SecondServed(x: System, p: Pid, r1: Ref, r2: Ref)
    requires var t := Table(map[10 := 1, 11 := 2], map[p := 10], map[10 := p, 11 := p]);
             Pair(x, t, [Acceptor(p, r1)], [Acceptor(p, r2)])
    ensures Possible(x, Readable(2, Incoming(5)))
    ensures Pair(After(x, Readable(2, Incoming(5))), Table(map[11 := 2], map[], map[11 := p]), [Acceptor(p, r1)], [])
  {
    var y := After(x, Readable(2, Incoming(5)));
    assert y.t == Removed(x.t, p);
    assert y.t.mons == map[11 := 2] && y.t.procs == map[] && y.t.vm == map[11 := p];
  }
}
