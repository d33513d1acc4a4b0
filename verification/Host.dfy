/**
 The machine an update runs on. Each method is one effect on the durable state.
 An effect may be refused, may happen and still report failure, or may be the
 last thing its process does; a dead process has no further effect. Between any
 two effects the service manager may start or stop the service. The ghost trace
 keeps every state the machine has been in.
 */
module HostSteps {
  import opened Wrappers
  import opened SelfUpdate

  /** What the service manager may have made of the running service in the meantime. */
  predicate RunningMay(d: Disk, running: Option<Release>) {
    || running == d.running
    || running == None
    || (!d.StartRefused() && d.entry.now.At? && running == Some(d.entry.now.release))
  }

  class Host {
    var disk: Disk
    var dead: bool
    const faultless: bool
    ghost var trace: seq<Disk>
    ghost var exposed: bool // a release has been put back where that could leave a torn tree without a block

    ghost predicate Valid()
      reads this
    {
      && |trace| > 0 && trace[|trace| - 1] == disk && Run(trace)
      && (!exposed ==> forall i :: 0 <= i < |trace| ==> trace[i].Guarded())
    }

    /**
     The promise over a whole life: unless a release was put back where that could
     tear it, at every moment of the trace and whatever a power loss would make of
     the files, a missing block means one release, its schema, and the release that
     the migration mark tells.
     */
    lemma MissingBlockMeansSettled(i: nat, s: StateDir, e: Entry)
      requires Valid() && !exposed && i < |trace|
      requires s in trace[i].state.lossy && !s.block && e in trace[i].entry.lossy
      ensures e.At? && trace[i].schema == Full(e.release)
      ensures IsOpen(s.txn) ==> e.release == if s.txn.value.started then s.txn.value.candidate else s.txn.value.previous
      ensures trace[i].running.Some? ==> trace[i].running.value == e.release
    {
      assert Inv(trace[i]) && trace[i].Guarded();
      AbsentBlockMeansSettled(trace[i], s, e);
    }

    constructor (disk: Disk, faultless: bool)
      requires Inv(disk) && disk.Guarded()
      ensures Valid() && this.disk == disk && trace == [disk] && !dead && !exposed && this.faultless == faultless
    {
      this.disk := disk;
      this.faultless := faultless;
      dead := false;
      trace := [disk];
      exposed := false;
    }

    method Record(next: Disk)
      requires Valid() && Inv(next) && StepOk(disk, next)
      requires !exposed ==> next.Guarded()
      modifies `disk, `trace
      ensures Valid() && disk == next && trace == old(trace) + [next]
    {
      disk := next;
      trace := trace + [next];
    }

    /** systemd starts whatever the entry point names, unless it is refused; services also die. */
    method Environment()
      requires Valid()
      modifies `disk, `trace
      ensures Valid() && old(trace) <= trace
      ensures disk == old(disk).(running := disk.running) && RunningMay(old(disk), disk.running)
    {
      var running: Option<Release> := *;
      if RunningMay(disk, running) {
        Record(disk.(running := running));
      }
    }

    method Attempt() returns (effect: bool, ok: bool)
      modifies `dead
      ensures ok ==> effect && !dead
      ensures old(dead) ==> dead && !effect
      ensures faultless && !old(dead) ==> ok
    {
      if dead {
        return false, false;
      }
      if faultless {
        return true, true;
      }
      effect, ok, dead := *, *, *;
      ok := ok && effect && !dead;
    }

    /** Power goes: every file keeps one of its possible contents and the process is gone. */
    method PowerLoss()
      requires Valid()
      modifies `disk, `trace, `dead
      ensures Valid() && old(trace) <= trace && dead
    {
      var state, guard, entry := *, *, *;
      state := if state in disk.state.lossy then state else disk.state.now;
      guard := if guard in disk.guard.lossy then guard else disk.guard.now;
      entry := if entry in disk.entry.lossy then entry else disk.entry.now;
      Record(disk.(
             state := disk.state.Synced(state), guard := disk.guard.Synced(guard),
             entry := disk.entry.Synced(entry), running := None));
      dead := true;
    }

    /** Installs the service drop-in and reloads systemd. */
    method EnsureGuard() returns (ok: bool)
      requires Valid()
      modifies `disk, `trace, `dead
      ensures Valid() && old(trace) <= trace
      ensures (ok ==> !dead) && (old(dead) ==> dead) && (faultless && !old(dead) ==> ok)
      ensures RunningMay(old(disk), disk.running)
      ensures ok ==> disk == old(disk).(running := disk.running, guard := disk.guard) && disk.guard.Durable(true)
      ensures !ok ==> disk == old(disk).(running := disk.running, guard := disk.guard)
                      && (disk.guard == old(disk).guard || disk.guard == old(disk).guard.Put(true))
      ensures old(disk).guard.Durable(true) ==> disk.guard.Durable(true)
    {
      Environment();
      var effect;
      effect, ok := Attempt();
      if effect {
        var guard := disk.guard.Put(true);
        Record(disk.(guard := if ok then guard.Synced(true) else guard));
      }
    }

    method WriteBlock() returns (ok: bool)
      requires Valid()
      requires !dead ==> IsOpen(disk.Txn())
      modifies `disk, `trace, `dead
      ensures Valid() && old(trace) <= trace
      ensures (ok ==> !dead) && (old(dead) ==> dead) && (faultless && !old(dead) ==> ok)
      ensures RunningMay(old(disk), disk.running)
      ensures disk == old(disk).(running := disk.running, state := disk.state)
      ensures var written := old(disk).state.now.(block := true);
              if ok then disk.state.Durable(written)
              else disk.state == old(disk).state || disk.state == old(disk).state.Put(written)
    {
      Environment();
      var effect;
      effect, ok := Attempt();
      if effect {
        var written := disk.state.now.(block := true);
        Record(disk.(state := if ok then disk.state.Synced(written) else disk.state.Put(written)));
      }
    }

    /** Removing an absent block succeeds at once; the directory is then not synced. */
    method RemoveBlock() returns (ok: bool)
      requires Valid()
      requires !dead ==> disk.Settled()
      modifies `disk, `trace, `dead
      ensures Valid() && old(trace) <= trace
      ensures (ok ==> !dead) && (old(dead) ==> dead) && (faultless && !old(dead) ==> ok)
      ensures disk == old(disk).(running := disk.running, state := disk.state)
      ensures var removed := old(disk).state.now.(block := false);
              if ok then (disk.state == old(disk).state && !disk.Block()) || disk.state.Durable(removed)
              else disk.state == old(disk).state || disk.state == old(disk).state.Put(removed)
    {
      Environment();
      if !dead && !disk.Block() {
        ok := true;
        return;
      }
      var effect;
      effect, ok := Attempt();
      if effect {
        var removed := disk.state.now.(block := false);
        Record(disk.(state := if ok then disk.state.Synced(removed) else disk.state.Put(removed)));
      }
    }

    method Stop() returns (ok: bool)
      requires Valid()
      modifies `disk, `trace, `dead
      ensures Valid() && old(trace) <= trace
      ensures (ok ==> !dead) && (old(dead) ==> dead) && (faultless && !old(dead) ==> ok)
      ensures disk == old(disk).(running := disk.running) && RunningMay(old(disk), disk.running)
      ensures ok ==> disk.running.None?
    {
      Environment();
      var effect;
      effect, ok := Attempt();
      if effect {
        Record(disk.(running := None));
      }
    }

    /** A start only reports success once the service has stayed up. */
    method Start() returns (ok: bool)
      requires Valid()
      requires !dead ==> disk.Settled() && !disk.Block()
      modifies `disk, `trace, `dead
      ensures Valid() && old(trace) <= trace
      ensures (ok ==> !dead) && (old(dead) ==> dead) && (faultless && !old(dead) ==> ok)
      ensures disk == old(disk).(running := disk.running) && RunningMay(old(disk), disk.running)
      ensures ok ==> disk.running == Some(disk.entry.now.release)
    {
      Environment();
      var effect;
      effect, ok := Attempt();
      if effect {
        Record(disk.(running := Some(disk.entry.now.release)));
      }
    }

    /** Replaces the transaction file by rename and directory sync. */
    method WriteTransaction(t: Txn) returns (committed: bool, ok: bool)
      requires Valid()
      requires !dead ==> Successor(disk.Txn(), Some(t))
      requires !dead ==> if t.phase == Done then disk.Settled() && !disk.Block() else TxnOk(disk, t)
      requires !dead && !disk.Settled() && !disk.Held() ==> t.Legacy() && !t.started
      modifies `disk, `trace, `dead
      ensures Valid() && old(trace) <= trace
      ensures (ok ==> committed && !dead) && (old(dead) ==> dead && !committed) && (faultless && !old(dead) ==> ok)
      ensures RunningMay(old(disk), disk.running)
      ensures disk == old(disk).(running := disk.running, state := disk.state)
      ensures var written := old(disk).state.now.(txn := Some(t));
              if ok then disk.state.Durable(written)
              else if committed then disk.state == old(disk).state.Put(written)
              else disk.state == old(disk).state
    {
      Environment();
      committed, ok := Attempt();
      if committed {
        var written := disk.state.now.(txn := Some(t));
        Record(disk.(state := if ok then disk.state.Synced(written) else disk.state.Put(written)));
      }
    }

    /** Removes a completed transaction. */
    method RemoveTransaction() returns (ok: bool)
      requires Valid()
      requires !dead ==> disk.Txn().Some? && disk.Txn().value.phase == Done
      modifies `disk, `trace, `dead
      ensures Valid() && old(trace) <= trace
      ensures (ok ==> !dead) && (old(dead) ==> dead) && (faultless && !old(dead) ==> ok)
      ensures disk == old(disk).(running := disk.running, state := disk.state)
      ensures var removed := old(disk).state.now.(txn := None);
              if ok then disk.state.Durable(removed)
              else disk.state == old(disk).state || disk.state == old(disk).state.Put(removed)
    {
      Environment();
      var effect;
      effect, ok := Attempt();
      if effect {
        assert disk.state.now in disk.state.lossy && !IsOpen(disk.Txn());
        var removed := disk.state.now.(txn := None);
        Record(disk.(state := if ok then disk.state.Synced(removed) else disk.state.Put(removed)));
      }
    }

    /**
     Points the entry at the candidate. Replacing a legacy tree is many renames,
     so a failure may leave it torn; otherwise the switch is one rename.
     */
    method Activate(t: Txn) returns (ok: bool)
      requires Valid()
      requires !dead ==> disk.Barred() && disk.TxnDurable(Some(t)) && t.phase != Done
      modifies `disk, `trace, `dead
      ensures Valid() && old(trace) <= trace
      ensures (ok ==> !dead) && (old(dead) ==> dead) && (faultless && !old(dead) ==> ok)
      ensures disk == old(disk).(running := disk.running, entry := disk.entry)
      ensures !old(dead) ==> disk.running.None?
      ensures ok ==> disk.entry.Durable(At(t.candidate))
      ensures !ok && !old(dead) ==>
        disk.entry.lossy <= old(disk).entry.lossy + {At(t.candidate)} + (if t.Legacy() then {Torn} else {})
      ensures old(dead) ==> disk.entry == old(disk).entry
    {
      Environment();
      var effect;
      effect, ok := Attempt();
      if ok {
        Record(disk.(entry := Cell(At(t.candidate), {At(t.candidate)})));
      } else if effect {
        var torn: bool := *;
        if torn && t.Legacy() && !disk.entry.Durable(At(t.candidate)) {
          Record(disk.(entry := disk.entry.Put(Torn)));
        } else {
          Record(disk.(entry := disk.entry.Put(At(t.candidate))));
        }
      }
    }

    /** Puts the previous release back: one rename, or the legacy tree copied from its backup. */
    method Restore(t: Txn) returns (ok: bool)
      requires Valid()
      requires !dead ==> Undoable(disk, t)
      modifies `disk, `trace, `dead, `exposed
      ensures Valid() && old(trace) <= trace
      ensures (ok ==> !dead) && (old(dead) ==> dead) && (faultless && !old(dead) ==> ok)
      ensures disk == old(disk).(running := disk.running, entry := disk.entry)
      ensures ok ==> disk.entry.Durable(At(t.previous)) && disk.Settled()
      ensures !old(dead) ==> RestoreEffect(old(disk).(running := disk.running), t, disk)
      ensures exposed <==> old(exposed) || (!old(dead) && RestoreCanTear(old(disk), t))
    {
      if !dead {
        RestoreTearsExactly(disk, t);
      }
      exposed := exposed || (!dead && t.Legacy() && !disk.BlockDurable());
      Environment();
      ghost var before := disk;
      var effect;
      effect, ok := Attempt();
      if effect {
        var torn: bool := *;
        var next := if ok then Cell(At(t.previous), {At(t.previous)})
                    else disk.entry.Put(if torn && t.Legacy() then Torn else At(t.previous));
        RestoreTearsExactly(before, t);
        RestoreKeeps(before, t, disk.(entry := next));
        Record(disk.(entry := next));
      }
    }

    /** Runs the candidate's migration; once it has completed, running it again changes nothing. */
    method Migrate(t: Txn) returns (ok: bool)
      requires Valid()
      requires !dead ==> disk.TxnDurable(Some(t)) && t.started && t.phase != Done && disk.Barred()
      modifies `disk, `trace, `dead
      ensures Valid() && old(trace) <= trace
      ensures (ok ==> !dead) && (old(dead) ==> dead) && (faultless && !old(dead) ==> ok)
      ensures disk == old(disk).(running := disk.running, schema := disk.schema)
      ensures !old(dead) ==> disk.running.None?
      ensures ok ==> disk.schema == Full(t.candidate)
    {
      Environment();
      var effect;
      effect, ok := Attempt();
      if ok {
        Record(disk.(schema := Full(t.candidate)));
      } else if effect && disk.schema != Full(t.candidate) {
        var half: bool := *;
        Record(disk.(schema := if half then Partial(t.previous, t.candidate) else Full(t.candidate)));
      }
    }

    /** Adds the candidate's directory and, for a legacy tree, its backup. */
    method AddFiles(candidate: Release, backups: set<nat>) returns (ok: bool)
      requires Valid()
      modifies `disk, `trace, `dead
      ensures Valid() && old(trace) <= trace
      ensures (ok ==> !dead) && (old(dead) ==> dead) && (faultless && !old(dead) ==> ok)
      ensures RunningMay(old(disk), disk.running)
      ensures disk == old(disk).(running := disk.running, releases := disk.releases, backups := disk.backups)
      ensures old(disk).releases <= disk.releases <= old(disk).releases + {candidate}
      ensures ok ==> disk.releases == old(disk).releases + {candidate} && disk.backups == old(disk).backups + backups
    {
      Environment();
      var effect;
      effect, ok := Attempt();
      if effect {
        Record(disk.(releases := disk.releases + {candidate}, backups := disk.backups + backups));
      }
    }

    /** Removes release directories and backups, or some of them, on a best effort. */
    method RemoveFiles(releases: set<Release>, backups: set<nat>)
      requires Valid()
      requires !dead ==> forall e :: e in disk.entry.lossy && e.At? ==> e.release !in releases
      requires !dead ==> forall s :: s in disk.state.lossy && IsOpen(s.txn) ==>
                             s.txn.value.candidate !in releases && s.txn.value.previous !in releases
                               && s.txn.value.job !in backups
      modifies `disk, `trace, `dead
      ensures Valid() && old(trace) <= trace
      ensures old(dead) ==> dead
      ensures disk == old(disk).(running := disk.running, releases := disk.releases, backups := disk.backups)
      ensures old(disk).releases - releases <= disk.releases <= old(disk).releases
      ensures faultless ==> dead == old(dead)
    {
      Environment();
      var effect, ok := Attempt();
      if effect {
        var keepReleases: set<Release>, keepBackups: set<nat> := *, *;
        Record(disk.(
               releases := disk.releases - (releases - keepReleases),
               backups := disk.backups - (backups - keepBackups)));
      }
    }
  }
}
