/** The main handler's two maps of process monitors (c_src/main_handler.cc), and the emulator's table of
    live monitors behind them. */
module Monitors {
  import opened Bytes
  import opened Driver

  /** A handler, by its address. */
  type Hid = nat

  /** What driver_monitor_process hands out. */
  type Monitor = nat

  /** mon_map, proc_mon_map, and the monitors the emulator has set. */
  datatype Table = Table(mons: map<Monitor, Hid>, procs: map<Pid, Monitor>, vm: map<Monitor, Pid>)

  const NO_MONITORS := Table(map[], map[], map[])

  /** Every monitor known for a process is in mon_map and set on that very process, and the emulator has
      every monitor in mon_map. */
  predicate Consistent(t: Table) {
    && t.mons.Keys <= t.vm.Keys
    && (forall p :: p in t.procs ==> t.procs[p] in t.mons)
    && (forall p :: p in t.procs ==> t.procs[p] in t.vm && t.vm[t.procs[p]] == p)
  }

  /** std::map insertion keeps what is there. */
  function Inserted<K, V>(m: map<K, V>, k: K, v: V): map<K, V> {
    if k in m then m else m[k := v]
  }

  function Added(t: Table, proc: Pid, h: Hid, mon: Monitor): Table {
    Table(Inserted(t.mons, mon, h), Inserted(t.procs, proc, mon), t.vm[mon := proc])
  }

  function Removed(t: Table, proc: Pid): Table {
    if proc in t.procs then Table(t.mons - {t.procs[proc]}, t.procs - {proc}, t.vm - {t.procs[proc]}) else t
  }

  /** A monitor set for a handler. */
  predicate MonitorOf(t: Table, h: Hid, mon: Monitor) { mon in t.mons && t.mons[mon] == h }

  /** A process whose one entry is a monitor for h. */
  predicate ProcOf(t: Table, h: Hid, p: Pid) { p in t.procs && MonitorOf(t, h, t.procs[p]) }

  /** A process is on record with this monitor. */
  predicate Recorded(t: Table, mon: Monitor) { exists p :: p in t.procs && t.procs[p] == mon }

  datatype Exit = Exit(t: Table, to: Option<Hid>, proc: Pid)

  /** process_exit: a monitor fires, and its handler, if any, is told which process is gone. */
  function AfterExit(t: Table, mon: Monitor): Exit
    requires mon in t.vm
  {
    var proc := t.vm[mon];
    if mon in t.mons then Exit(Table(t.mons - {mon}, t.procs - {proc}, t.vm - {mon}), Some(t.mons[mon]), proc)
    else Exit(t.(vm := t.vm - {mon}), None, proc)
  }

  /** What del_mons has to achieve: no entry refers to h any more, every entry that does not involve one
      of its monitors is as it was, and a monitor is taken back from the emulator if and only if it was
      on record for a process. */
  ghost predicate WithoutHandler(before: Table, h: Hid, after: Table) {
    && (forall mon :: mon in after.mons <==> mon in before.mons && before.mons[mon] != h)
    && (forall mon :: mon in after.mons ==> after.mons[mon] == before.mons[mon])
    && (forall p :: p in after.procs <==> p in before.procs && !ProcOf(before, h, p))
    && (forall p :: p in after.procs ==> after.procs[p] == before.procs[p])
    && (forall mon :: mon in after.vm <==> mon in before.vm && !(MonitorOf(before, h, mon) && Recorded(before, mon)))
    && (forall mon :: mon in after.vm ==> after.vm[mon] == before.vm[mon])
  }

  function Cleared(t: Table, h: Hid): (r: Table)
    ensures WithoutHandler(t, h, r)
  {
    Table(map mon | mon in t.mons && t.mons[mon] != h :: t.mons[mon],
          map p | p in t.procs && !ProcOf(t, h, p) :: t.procs[p],
          map mon | mon in t.vm && !(MonitorOf(t, h, mon) && Recorded(t, mon)) :: t.vm[mon])
  }

  class MainHandler {
    const self: Hid
    var monMap: map<Monitor, Hid>
    var procMonMap: map<Pid, Monitor>
    var vm: map<Monitor, Pid>

    function Value(): Table
      reads this
    {
      Table(monMap, procMonMap, vm)
    }

    constructor (self: Hid)
      ensures Value() == NO_MONITORS && this.self == self
    {
      this.self := self;
      monMap, procMonMap, vm := map[], map[], map[];
    }

    /** `alive` and `mon` are the emulator's: whether the process can be monitored, and the new monitor. */
    method AddMon(proc: Pid, h: Hid, alive: bool, mon: Monitor) returns (result: bool)
      requires mon !in vm
      modifies this
      ensures result == alive
      ensures Value() == if result then Added(old(Value()), proc, h, mon) else old(Value())
    {
      result := alive;
      if result {
        vm := vm[mon := proc];
        if mon !in monMap {
          monMap := monMap[mon := h];
        }
        if proc !in procMonMap {
          procMonMap := procMonMap[proc := mon];
        }
      }
    }

    method DelMon(proc: Pid)
      modifies this
      ensures Value() == Removed(old(Value()), proc)
    {
      if proc in procMonMap {
        var mon := procMonMap[proc];
        vm := vm - {mon};
        monMap := monMap - {mon};
        procMonMap := procMonMap - {proc};
      }
    }

    /** The inner loop of del_mons: forgets a monitor under every process it is on record for. */
    method ForgetMonitor(mon: Monitor)
      modifies this`procMonMap, this`vm
      ensures forall p :: p in procMonMap <==> p in old(procMonMap) && old(procMonMap)[p] != mon
      ensures forall p :: p in procMonMap ==> procMonMap[p] == old(procMonMap)[p]
      ensures vm == if Recorded(old(Value()), mon) then old(vm) - {mon} else old(vm)
    {
      var todo := procMonMap.Keys;
      while todo != {}
        invariant todo <= procMonMap.Keys
        invariant forall p :: p in procMonMap <==> p in old(procMonMap) && (old(procMonMap)[p] != mon || p in todo)
        invariant forall p :: p in procMonMap ==> procMonMap[p] == old(procMonMap)[p]
        invariant vm == old(vm) || vm == old(vm) - {mon}
        invariant vm == if exists p :: p in old(procMonMap) && old(procMonMap)[p] == mon && p !in todo
                        then old(vm) - {mon} else old(vm)
      {
        var p :| p in todo;
        todo := todo - {p};
        if procMonMap[p] == mon {
          vm := vm - {mon};
          procMonMap := procMonMap - {p};
        }
      }
    }

    method DelMons(h: Hid)
      modifies this
      ensures Value() == if h == self then old(Value()) else Cleared(old(Value()), h)
    {
      if h == self {
        return;
      }
      ghost var was := Value();
      var todo := monMap.Keys;
      while todo != {}
        invariant todo <= monMap.Keys
        invariant forall mon :: mon in monMap <==> mon in was.mons && (was.mons[mon] != h || mon in todo)
        invariant forall mon :: mon in monMap ==> monMap[mon] == was.mons[mon]
        invariant forall p :: p in procMonMap <==> p in was.procs && (!ProcOf(was, h, p) || was.procs[p] in todo)
        invariant forall p :: p in procMonMap ==> procMonMap[p] == was.procs[p]
        invariant forall mon ::
                    mon in vm <==> mon in was.vm && !(MonitorOf(was, h, mon) && Recorded(was, mon) && mon !in todo)
        invariant forall mon :: mon in vm ==> vm[mon] == was.vm[mon]
      {
        var mon :| mon in todo;
        todo := todo - {mon};
        if monMap[mon] == h {
          ghost var now := Value();
          assert Recorded(now, mon) <==> Recorded(was, mon) by {
            if Recorded(was, mon) {
              var p :| p in was.procs && was.procs[p] == mon;
              assert p in now.procs && now.procs[p] == mon;
            }
          }
          ForgetMonitor(mon);
          monMap := monMap - {mon};
        }
      }
      WithoutHandlerUnique(was, h, Value(), Cleared(was, h));
    }

    method ProcessExit(mon: Monitor) returns (to: Option<Hid>, proc: Pid)
      requires mon in vm
      modifies this
      ensures AfterExit(old(Value()), mon) == Exit(Value(), to, proc)
    {
      to := None;
      proc := vm[mon];
      if mon in monMap {
        to := Some(monMap[mon]);
        monMap := monMap - {mon};
        procMonMap := procMonMap - {proc};
      }
      vm := vm - {mon};
    }
  }

  // ---------------------------------------------------------------- consistency

  /** The two maps stay consistent under every operation. */
  lemma StaysConsistent(t: Table, proc: Pid, h: Hid, mon: Monitor)
    requires Consistent(t)
    ensures mon !in t.vm ==> Consistent(Added(t, proc, h, mon))
    ensures Consistent(Removed(t, proc))
    ensures mon in t.vm ==> Consistent(AfterExit(t, mon).t)
    ensures Consistent(Cleared(t, h))
  {
  }

  /** The result of del_mons is determined. */
  lemma WithoutHandlerUnique(before: Table, h: Hid, a: Table, b: Table)
    requires WithoutHandler(before, h, a) && WithoutHandler(before, h, b)
    ensures a == b
  {
    assert a.mons == b.mons && a.procs == b.procs;
    assert a.vm.Keys == b.vm.Keys;
    assert a.vm == b.vm;
  }
}
