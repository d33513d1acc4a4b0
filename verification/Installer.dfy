/**
 The update and recovery procedures over the machine. Whatever a call returns,
 wherever it dies, the machine is left in a state satisfying the crash
 invariant; the contracts add where a call that succeeds ends up.
 */
module Installer {
  import opened Wrappers
  import opened SelfUpdate
  import opened HostSteps

  /** The transaction is on disk for good and nothing has been switched yet. */
  ghost predicate Staged(d: Disk, t: Txn) {
    && d.TxnDurable(Some(t)) && t.phase == Prepared && !t.started
    && d.Settled() && d.schema == Full(t.previous)
  }

  /** The running job's transaction is, or may next become, one that can be undone. */
  ghost predicate Revocable(d: Disk, t: Txn) {
    !t.started && Undoable(d, t) && Successor(d.Txn(), Some(t))
  }

  /** Past the point of no return: only the candidate may ever run again. */
  ghost predicate Committed(d: Disk, t: Txn) {
    && d.TxnDurable(Some(t)) && t.started && t.phase != Done
    && d.entry.Durable(At(t.candidate))
  }

  method Report(h: Host) returns (ok: bool)
    ensures h.faultless && !h.dead ==> ok
  {
    ok := *;
    ok := ok || (h.faultless && !h.dead);
  }

  /** Moves the running phase on, never back; an equal phase is only reported. */
  method ReachPhase(h: Host, t: Txn, phase: Phase) returns (t': Txn, ok: bool)
    requires h.Valid() && phase != Done
    requires !h.dead ==> h.disk.Txn() == Some(t) && IsOpen(Some(t))
    requires !h.dead ==> (t.started <==> Order(Migrating) <= Order(phase))
    requires !h.dead && t.started ==> h.disk.Held() || h.disk.Settled()
    modifies h`disk, h`trace, h`dead
    ensures h.Valid() && old(h.trace) <= h.trace
    ensures (old(h.dead) ==> h.dead) && (h.faultless && !old(h.dead) ==> ok && !h.dead)
    ensures t'.SameJob(t) && t'.started == t.started
    ensures t'.phase == if Order(t.phase) < Order(phase) then phase else t.phase
    ensures h.disk == old(h.disk).(running := h.disk.running, state := h.disk.state)
    ensures RunningMay(old(h.disk), h.disk.running)
    ensures ok && !h.dead ==> h.disk.Txn() == Some(t')
    ensures var written := old(h.disk).state.now.(txn := Some(t'));
            if ok && !h.dead && t' != t then h.disk.state.Durable(written)
            else
              || h.disk.state == old(h.disk).state || h.disk.state == old(h.disk).state.Put(written)
              || h.disk.state.Durable(written)
  {
    t' := t;
    if Order(phase) < Order(t.phase) {
      return t', true;
    }
    if Order(t.phase) < Order(phase) {
      t' := t.(phase := phase);
      var committed;
      committed, ok := h.WriteTransaction(t');
      if !ok {
        return;
      }
    }
    ok := Report(h);
  }

  /** A start that failed is answered by putting the block back and stopping again. */
  method HoldForRecovery(h: Host)
    requires h.Valid()
    requires !h.dead ==> IsOpen(h.disk.Txn())
    modifies h`disk, h`trace, h`dead
    ensures h.Valid() && old(h.trace) <= h.trace
    ensures old(h.dead) ==> h.dead
  {
    var blocked := h.WriteBlock();
    var stopped := h.Stop();
  }

  /** Takes the block away and, if the service was running, starts it on the current entry. */
  method Unbar(h: Host, wasActive: bool) returns (ok: bool)
    requires h.Valid()
    requires !h.dead ==> h.disk.Settled() && IsOpen(h.disk.Txn())
    modifies h`disk, h`trace, h`dead
    ensures h.Valid() && old(h.trace) <= h.trace
    ensures (old(h.dead) ==> h.dead) && (h.faultless && !old(h.dead) ==> ok && !h.dead)
    ensures ok && !h.dead ==>
              && h.disk == old(h.disk).(running := h.disk.running, state := h.disk.state)
              && (h.disk.state == old(h.disk).state || h.disk.state.Durable(old(h.disk).state.now.(block := false)))
              && !h.disk.Block()
  {
    ok := h.RemoveBlock();
    if !ok {
      return;
    }
    if wasActive {
      ok := h.Start();
      if !ok {
        HoldForRecovery(h);
      }
    }
  }

  method RollbackBeforeMigration(h: Host, t: Txn) returns (ok: bool)
    requires h.Valid() && !t.started
    requires !h.dead ==> Revocable(h.disk, t)
    modifies h`disk, h`trace, h`dead, h`exposed
    ensures h.Valid() && old(h.trace) <= h.trace
    ensures (old(h.dead) ==> h.dead) && (h.faultless && !old(h.dead) ==> ok && !h.dead)
    ensures h.exposed <==> old(h.exposed) || (!old(h.dead) && RestoreCanTear(old(h.disk), t))
    ensures ok && !h.dead ==>
              && h.disk.state.Durable(StateDir(Some(t.(phase := Done)), false))
              && h.disk.entry.Durable(At(t.previous)) && h.disk.schema == Full(t.previous)
  {
    ok := h.Restore(t);
    if !ok {
      return;
    }
    ok := Unbar(h, t.wasActive);
    if !ok {
      return;
    }
    var committed;
    committed, ok := h.WriteTransaction(t.(phase := Done));
    if !ok {
      return;
    }
    h.RemoveFiles({t.candidate}, {t.job});
  }

  /** From now on systemd refuses to start the service. */
  method BlockService(h: Host, ghost t: Txn) returns (ok: bool)
    requires h.Valid()
    requires !h.dead ==> Staged(h.disk, t)
    modifies h`disk, h`trace, h`dead
    ensures h.Valid() && old(h.trace) <= h.trace
    ensures (old(h.dead) ==> h.dead) && (h.faultless && !old(h.dead) ==> ok && !h.dead)
    ensures !h.dead ==> h.disk.TxnDurable(Some(t)) && Revocable(h.disk, t)
    ensures ok && !h.dead ==> h.disk.guard.Durable(true) && h.disk.BlockDurable()
  {
    ok := h.EnsureGuard();
    if ok {
      ok := h.WriteBlock();
    }
  }

  /** Stops the blocked service and records that the switch begins. */
  method StopForSwitch(h: Host, txn: Txn) returns (t: Txn, ok: bool)
    requires h.Valid() && !txn.started && txn.phase == Stopping
    requires !h.dead ==>
               && h.disk.TxnDurable(Some(txn)) && Revocable(h.disk, txn)
               && h.disk.guard.Durable(true) && h.disk.BlockDurable()
    modifies h`disk, h`trace, h`dead
    ensures h.Valid() && old(h.trace) <= h.trace
    ensures (old(h.dead) ==> h.dead) && (h.faultless && !old(h.dead) ==> ok && !h.dead)
    ensures t.SameJob(txn) && !t.started
    ensures !h.dead ==> Revocable(h.disk, t)
    ensures ok && !h.dead ==> t.phase == Switching && h.disk.TxnDurable(Some(t)) && h.disk.Barred()
  {
    t := txn;
    ok := h.Stop();
    if ok {
      t, ok := ReachPhase(h, t, Switching);
    }
  }

  /** Blocks starts, then stops the service; on any error the caller rolls back. */
  method BarService(h: Host, txn: Txn) returns (t: Txn, ok: bool)
    requires h.Valid() && !txn.started && txn.phase == Prepared
    requires !h.dead ==> Staged(h.disk, txn)
    modifies h`disk, h`trace, h`dead
    ensures h.Valid() && old(h.trace) <= h.trace
    ensures (old(h.dead) ==> h.dead) && (h.faultless && !old(h.dead) ==> ok && !h.dead)
    ensures t.SameJob(txn) && !t.started
    ensures !h.dead ==> Revocable(h.disk, t)
    ensures ok && !h.dead ==> t.phase == Switching && h.disk.TxnDurable(Some(t)) && h.disk.Barred()
  {
    t := txn;
    ok := BlockService(h, t);
    if !ok {
      return;
    }
    ok := Report(h);
    if !ok {
      return;
    }
    t, ok := ReachPhase(h, t, Stopping);
    if ok {
      t, ok := StopForSwitch(h, t);
    }
  }

  method SwitchRelease(h: Host, txn: Txn) returns (t: Txn, ok: bool)
    requires h.Valid() && !txn.started && txn.phase == Prepared
    requires !h.dead ==> Staged(h.disk, txn)
    modifies h`disk, h`trace, h`dead, h`exposed
    ensures h.Valid() && old(h.trace) <= h.trace
    ensures (old(h.dead) ==> h.dead) && (h.faultless && !old(h.dead) ==> ok && !h.dead)
    ensures t.SameJob(txn)
    ensures ok ==> t.phase == Migrating && t.started
    ensures ok && !h.dead ==> Committed(h.disk, t) && h.disk.Barred()
    ensures h.exposed ==> old(h.exposed) || (!old(h.dead) && txn.Legacy())
  {
    t, ok := BarService(h, txn);
    if !ok {
      var _ := RollbackBeforeMigration(h, t);
      return;
    }
    ok := h.Activate(t);
    if !ok {
      var _ := RollbackBeforeMigration(h, t);
      return;
    }
    // From here on the schema may be newer than the previous release: an error
    // keeps the block and the candidate, and the disk decides what recovery does.
    t := t.(phase := Migrating, started := true);
    var committed;
    committed, ok := h.WriteTransaction(t);
    if !ok {
      return;
    }
    ok := Report(h);
  }

  method FinishForward(h: Host, txn: Txn) returns (ok: bool)
    requires h.Valid() && txn.started && Order(Migrating) <= Order(txn.phase) && txn.phase != Done
    requires !h.dead ==> Committed(h.disk, txn) && h.disk.Barred()
    modifies h`disk, h`trace, h`dead
    ensures h.Valid() && old(h.trace) <= h.trace
    ensures (old(h.dead) ==> h.dead) && (h.faultless && !old(h.dead) ==> ok && !h.dead)
    ensures ok && !h.dead ==>
              && h.disk.state.Durable(StateDir(Some(txn.(phase := Done)), false))
              && h.disk.entry.Durable(At(txn.candidate)) && h.disk.schema == Full(txn.candidate)
  {
    ok := h.Migrate(txn);
    if !ok {
      return;
    }
    ok := StartCandidate(h, txn);
  }

  /** With the schema complete, lets the candidate run and records the job as done. */
  method StartCandidate(h: Host, txn: Txn) returns (ok: bool)
    requires h.Valid() && txn.started && Order(Migrating) <= Order(txn.phase) && txn.phase != Done
    requires !h.dead ==> Committed(h.disk, txn) && h.disk.Barred() && h.disk.schema == Full(txn.candidate)
    modifies h`disk, h`trace, h`dead
    ensures h.Valid() && old(h.trace) <= h.trace
    ensures (old(h.dead) ==> h.dead) && (h.faultless && !old(h.dead) ==> ok && !h.dead)
    ensures ok && !h.dead ==>
              && h.disk.state.Durable(StateDir(Some(txn.(phase := Done)), false))
              && h.disk.entry.Durable(At(txn.candidate)) && h.disk.schema == Full(txn.candidate)
  {
    var t;
    t, ok := ReachPhase(h, txn, Starting);
    if !ok {
      return;
    }
    ok := Unbar(h, t.wasActive);
    if !ok {
      return;
    }
    ok := CleanUp(h, t);
  }

  /** Nothing is left but to record that the job is done. */
  method CleanUp(h: Host, txn: Txn) returns (ok: bool)
    requires h.Valid() && txn.started && Order(Starting) <= Order(txn.phase) && txn.phase != Done
    requires !h.dead ==> Committed(h.disk, txn) && !h.disk.Block() && h.disk.schema == Full(txn.candidate)
    modifies h`disk, h`trace, h`dead
    ensures h.Valid() && old(h.trace) <= h.trace
    ensures (old(h.dead) ==> h.dead) && (h.faultless && !old(h.dead) ==> ok && !h.dead)
    ensures ok && !h.dead ==>
              && h.disk.state.Durable(StateDir(Some(txn.(phase := Done)), false))
              && h.disk.entry.Durable(At(txn.candidate)) && h.disk.schema == Full(txn.candidate)
  {
    var t;
    t, ok := ReachPhase(h, txn, Cleanup);
    if !ok {
      return;
    }
    var committed;
    committed, ok := h.WriteTransaction(t.(phase := Done));
  }

  /** Forgets a transaction that reads as completed; anything else is left alone. */
  method RemoveDoneTransaction(h: Host, job: nat) returns (ok: bool)
    requires h.Valid()
    modifies h`disk, h`trace, h`dead
    ensures h.Valid() && old(h.trace) <= h.trace
    ensures (old(h.dead) ==> h.dead)
    ensures h.faultless && !old(h.dead) && old(h.disk).Txn().Some? && old(h.disk).Txn().value.job == job ==>
      ok && !h.dead
    ensures ok && !h.dead && old(h.disk).Txn().Some? && old(h.disk).Txn().value.phase == Done ==>
              && h.disk == old(h.disk).(running := h.disk.running, state := h.disk.state)
              && h.disk.state.Durable(StateDir(None, false))
    ensures !(old(h.disk).Txn().Some? && old(h.disk).Txn().value.phase == Done) ==> h.disk == old(h.disk)
  {
    ok := Report(h);
    match h.disk.Txn()
    case None =>
    case Some(t) =>
      if ok && t.job != job {
        ok := false;
      } else if ok && t.phase == Done {
        assert h.disk.state.now in h.disk.state.lossy && !IsOpen(h.disk.Txn());
        ok := h.RemoveTransaction();
      }
  }

  /** Records the outcome, forgets the completed transaction, removes its staging files. */
  method FinalizeRecovery(h: Host, job: nat) returns (ok: bool)
    requires h.Valid()
    requires !h.dead ==> h.disk.Txn().Some? && h.disk.Txn().value.phase == Done && h.disk.Txn().value.job == job
    modifies h`disk, h`trace, h`dead
    ensures h.Valid() && old(h.trace) <= h.trace
    ensures (old(h.dead) ==> h.dead) && (h.faultless && !old(h.dead) ==> ok && !h.dead)
    ensures ok && !h.dead ==>
              && h.disk.state.Durable(StateDir(None, false))
              && h.disk.entry == old(h.disk.entry) && h.disk.schema == old(h.disk.schema)
  {
    ok := Report(h);
    if !ok {
      return;
    }
    ok := RemoveDoneTransaction(h, job);
    if !ok {
      return;
    }
    h.RemoveFiles({}, {job});
  }

  /** Keeps only the release the entry point names. */
  method PruneReleases(h: Host)
    requires h.Valid()
    requires !h.dead ==> h.disk.Settled() && forall s :: s in h.disk.state.lossy ==> !IsOpen(s.txn)
    modifies h`disk, h`trace, h`dead
    ensures h.Valid() && old(h.trace) <= h.trace
    ensures old(h.dead) ==> h.dead
    ensures h.faultless ==> h.dead == old(h.dead)
    ensures h.disk == old(h.disk).(running := h.disk.running, releases := h.disk.releases, backups := h.disk.backups)
  {
    match h.disk.entry.now
    case Torn =>
    case At(current) =>
      h.RemoveFiles(h.disk.releases - {current}, {});
  }

  /**
   Recovery. It may be called in any state at all, any number of times. When no
   step fails it settles the machine where the transaction on disk says.
   */
  method Recover(h: Host) returns (ok: bool)
    requires h.Valid()
    modifies h`disk, h`trace, h`dead, h`exposed
    ensures h.Valid() && old(h.trace) <= h.trace
    ensures old(h.dead) ==> h.dead
    ensures old(h.disk).Txn().None? ==> !ok && h.disk == old(h.disk) && !h.disk.Block()
    ensures h.faultless && !old(h.dead) && IsOpen(old(h.disk).Txn()) ==>
              var t := old(h.disk).Txn().value;
              var r := if t.started then t.candidate else t.previous;
              ok && !h.dead && h.disk.state.Durable(StateDir(None, false))
              && h.disk.entry.Durable(At(r)) && h.disk.schema == Full(r)
    ensures h.faultless && !old(h.dead) && old(h.disk).Txn().Some? && !IsOpen(old(h.disk).Txn()) ==>
              && ok && !h.dead && h.disk.state.Durable(StateDir(None, false))
              && h.disk.entry == old(h.disk.entry) && h.disk.schema == old(h.disk.schema)
    ensures h.exposed == old(h.exposed)
  {
    ok := false;
    if h.disk.Txn().None? {
      return;
    }
    var t := h.disk.Txn().value;
    if t.phase == Done {
      ok := FinalizeRecovery(h, t.job);
      return;
    }
    ok := BarForRecovery(h, t);
    if !ok {
      return;
    }
    if !t.started {
      ok := RollbackBeforeMigration(h, t);
      if ok {
        ok := FinalizeRecovery(h, t.job);
      }
      return;
    }
    ok := h.Activate(t);
    if !ok {
      return;
    }
    ok := FinishForward(h, t);
    if !ok {
      return;
    }
    ok := FinalizeRecovery(h, t.job);
    if ok {
      PruneReleases(h);
    }
  }

  /** What recovery does first: its block write also makes the transaction it read durable. */
  method BarForRecovery(h: Host, t: Txn) returns (ok: bool)
    requires h.Valid()
    requires !h.dead ==> h.disk.Txn() == Some(t) && t.phase != Done
    modifies h`disk, h`trace, h`dead
    ensures h.Valid() && old(h.trace) <= h.trace
    ensures (old(h.dead) ==> h.dead) && (h.faultless && !old(h.dead) ==> ok && !h.dead)
    ensures ok && !h.dead ==> h.disk.TxnDurable(Some(t)) && h.disk.Barred()
  {
    ok := h.EnsureGuard();
    if !ok {
      return;
    }
    ok := h.WriteBlock();
    if !ok {
      return;
    }
    ok := h.Stop();
  }

  /**
   Puts the candidate's files in place and starts the transaction. Files survive
   a failed write only if the transaction did reach the disk.
   */
  method StageUpdate(h: Host, candidate: Release, job: nat) returns (t: Txn, ok: bool)
    requires h.Valid()
    requires !h.dead ==>
               && h.disk.Txn().None? && !h.disk.Block()
               && candidate != LEGACY_TREE && candidate !in h.disk.releases
               && forall s :: s in h.disk.state.lossy && s.txn.Some? ==> s.txn.value.job != job
    modifies h`disk, h`trace, h`dead
    ensures h.Valid() && old(h.trace) <= h.trace
    ensures (old(h.dead) ==> h.dead) && (h.faultless && !old(h.dead) ==> ok && !h.dead)
    ensures t.phase == Prepared && !t.started && t.job == job
    ensures ok && !h.dead ==>
              && Staged(h.disk, t) && t.candidate == candidate
              && h.disk.entry == old(h.disk.entry) && h.disk.entry.Durable(At(t.previous))
  {
    var previous := if h.disk.entry.now.At? then h.disk.entry.now.release else LEGACY_TREE;
    var wasActive: bool := *;
    t := Txn(job, Prepared, previous, candidate, wasActive, false);
    assert !h.dead ==> h.disk.Settled();
    ok := h.AddFiles(candidate, {job});
    if !ok {
      h.RemoveFiles({candidate}, {job});
      return;
    }
    var committed;
    committed, ok := h.WriteTransaction(t);
    if !committed {
      h.RemoveFiles({candidate}, {job});
    }
  }

  /** One update under the update lock, refused while an earlier one is unfinished. */
  method ApplyUpdate(h: Host, candidate: Release, job: nat) returns (ok: bool)
    requires h.Valid()
    requires candidate != LEGACY_TREE && candidate !in h.disk.releases
    requires forall s :: s in h.disk.state.lossy && s.txn.Some? ==> s.txn.value.job != job
    modifies h`disk, h`trace, h`dead, h`exposed
    ensures h.Valid() && old(h.trace) <= h.trace
    ensures old(h.dead) ==> h.dead
    ensures old(h.disk).Txn().Some? || old(h.disk.Block()) ==> !ok && h.disk == old(h.disk)
    ensures h.faultless && !old(h.dead) && old(h.disk).Txn().None? && !old(h.disk.Block()) ==>
              && ok && !h.dead && h.disk.Txn().Some? && h.disk.state.Durable(StateDir(h.disk.Txn(), false))
              && h.disk.Txn().value.job == job && h.disk.Txn().value.phase == Done && h.disk.Txn().value.started
              && h.disk.entry.Durable(At(candidate)) && h.disk.schema == Full(candidate)
    ensures h.exposed ==> old(h.exposed) || old(h.disk).entry.now == At(LEGACY_TREE)
  {
    ok := false;
    if h.disk.Txn().Some? || h.disk.Block() {
      return;
    }
    // Inspecting the installed release and the service may fail; nothing has changed yet.
    ok := Report(h);
    if !ok {
      return;
    }
    var t;
    t, ok := StageUpdate(h, candidate, job);
    if !ok {
      return;
    }
    t, ok := SwitchRelease(h, t);
    if !ok {
      return;
    }
    ok := FinishForward(h, t);
    if !ok {
      return;
    }
    h.RemoveFiles({}, {job});
    PruneReleases(h);
  }

  /** An update job: whatever it came to, a transaction that reads as done is cleaned up. */
  method RunUpdate(h: Host, candidate: Release, job: nat) returns (ok: bool)
    requires h.Valid()
    requires candidate != LEGACY_TREE && candidate !in h.disk.releases
    requires forall s :: s in h.disk.state.lossy && s.txn.Some? ==> s.txn.value.job != job
    modifies h`disk, h`trace, h`dead, h`exposed
    ensures h.Valid() && old(h.trace) <= h.trace
    ensures old(h.dead) ==> h.dead
    ensures h.faultless && !old(h.dead) && old(h.disk).Txn().None? && !old(h.disk.Block()) ==>
              && ok && !h.dead && h.disk.state.Durable(StateDir(None, false))
              && h.disk.entry.Durable(At(candidate)) && h.disk.schema == Full(candidate)
    ensures h.exposed ==> old(h.exposed) || old(h.disk).entry.now == At(LEGACY_TREE)
  {
    ok := ApplyUpdate(h, candidate, job);
    var reported := Report(h);
    if !reported {
      ok := false;
      return;
    }
    var _ := RemoveDoneTransaction(h, job);
  }

  /**
   Any life of an installation: updates, recoveries, process deaths, power losses
   and starts by the service manager in any order. Every call is allowed whenever
   it comes, and the whole trace is a run; a life that begins with a release
   layout never finds a missing block on an unsettled machine.
   */
  method Live(h: Host, years: nat)
    requires h.Valid() && !h.exposed
    modifies h
    ensures h.Valid() && old(h.trace) <= h.trace
    ensures h.exposed ==> exists i :: 0 <= i < |h.trace| && h.trace[i].entry.now == At(LEGACY_TREE)
  {
    for year := 0 to years
      invariant h.Valid() && old(h.trace) <= h.trace
      invariant h.exposed ==> exists i :: 0 <= i < |h.trace| && h.trace[i].entry.now == At(LEGACY_TREE)
    {
      var event: nat, candidate: nat, job: nat := *, *, *;
      ghost var before := h.trace;
      match event
      case 0 =>
        h.PowerLoss();
      case 1 =>
        h.Environment();
      case 2 =>
        h.dead := false;
        var _ := Recover(h);
      case _ =>
        h.dead := false;
        var unused := candidate != LEGACY_TREE && candidate !in h.disk.releases
                     && forall s :: s in h.disk.state.lossy && s.txn.Some? ==> s.txn.value.job != job;
        if unused {
          assert before[|before| - 1] == h.disk;
          var _ := RunUpdate(h, candidate, job);
          assert before <= h.trace && h.trace[|before| - 1] == before[|before| - 1];
        }
    }
  }
}
