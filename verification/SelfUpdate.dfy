/**
 The crash-safe self-update: the durable state one update leaves behind, the
 effects its steps may have on it, and the invariant that every state of every
 run satisfies, whatever step fails, wherever the process dies, and whichever
 unsynced writes a power loss takes back.
 */
module SelfUpdate {

  import opened Wrappers

  /** Release directories are numbered; number 0 is the pre-release install tree. */
  type Release = nat

  const LEGACY_TREE: Release := 0

  datatype Phase =
    | Queued | Locked | Download | Validate | Prepared | Stopping
    | Switching | Migrating | Starting | Cleanup | Done

  function Order(phase: Phase): nat {
    match phase
    case Queued => 0
    case Locked => 1
    case Download => 2
    case Validate => 3
    case Prepared => 4
    case Stopping => 5
    case Switching => 6
    case Migrating => 7
    case Starting => 8
    case Cleanup => 9
    case Done => 10
  }

  datatype Txn = Txn(
    job: nat,
    phase: Phase,
    previous: Release,
    candidate: Release,
    wasActive: bool,
    started: bool)
  {
    predicate Legacy() {
      previous == LEGACY_TREE
    }

    predicate SameJob(other: Txn) {
      this.(phase := other.phase, started := other.started) == other
    }
  }

  /** What the entry point runs: one release, or a tree in the middle of being replaced. */
  datatype Entry = At(release: Release) | Torn

  datatype Schema = Full(release: Release) | Partial(base: Release, target: Release)

  /**
   Something on disk as the running system sees it, with every content a power
   loss might leave: the last synced one and each one it has had since.
   */
  datatype Cell<T(==)> = Cell(now: T, lossy: set<T>)
  {
    predicate Durable(v: T) {
      now == v && lossy == {v}
    }

    function Put(v: T): Cell<T> {
      Cell(v, lossy + {v})
    }

    function Synced(v: T): Cell<T> {
      Cell(v, {v})
    }
  }

  /**
   The transaction file and the block file share a directory: their changes reach
   the disk in order, and one sync covers both.
   */
  datatype StateDir = StateDir(txn: Option<Txn>, block: bool)

  datatype Disk = Disk(
    state: Cell<StateDir>,
    guard: Cell<bool>,
    entry: Cell<Entry>,
    schema: Schema,
    running: Option<Release>,
    releases: set<Release>,
    backups: set<nat>)
  {
    function Txn(): Option<Txn> {
      state.now.txn
    }

    function Block(): bool {
      state.now.block
    }

    ghost predicate TxnDurable(x: Option<Txn>) {
      Txn() == x && forall s :: s in state.lossy ==> s.txn == x
    }

    ghost predicate BlockDurable() {
      Block() && forall s :: s in state.lossy ==> s.block
    }

    /** systemd refuses to start the service: the drop-in is loaded and the block exists. */
    predicate StartRefused() {
      guard.now && Block()
    }

    /** Stopped, and refused whatever a power loss leaves. */
    ghost predicate Barred() {
      BlockDurable() && guard.Durable(true) && running.None?
    }

    /** The entry point is one release, durably, and the schema is that release's. */
    predicate Settled() {
      entry.now.At? && entry.Durable(entry.now) && schema == Full(entry.now.release)
    }

    /** Wherever the block may be found missing, the entry and the schema agree for good. */
    ghost predicate Guarded() {
      Settled() || forall s :: s in state.lossy ==> s.block
    }

    ghost predicate AllOpen() {
      forall s :: s in state.lossy ==> IsOpen(s.txn)
    }

    ghost predicate Held() {
      Barred() && AllOpen()
    }

    /**
     A legacy tree is being copied back without the block in place. This is the
     one way to be unsettled and startable.
     */
    ghost predicate Exposed() {
      && AllOpen()
      && (forall s :: s in state.lossy ==> s.txn.value.Legacy() && !s.txn.value.started)
      && schema == Full(LEGACY_TREE)
      && entry.lossy <= {At(LEGACY_TREE), Torn}
    }
  }

  predicate IsOpen(x: Option<Txn>) {
    x.Some? && x.value.phase != Done
  }

  /** What an unfinished transaction promises about the rest of the state. */
  ghost predicate TxnOk(d: Disk, t: Txn) {
    && t.candidate != LEGACY_TREE && t.candidate != t.previous
    && t.candidate in d.releases
    && (if t.Legacy() then t.job in d.backups else t.previous in d.releases)
    && Order(Prepared) <= Order(t.phase)
    && (t.started <==> Order(Migrating) <= Order(t.phase))
    && (!t.started ==>
          && d.schema == Full(t.previous)
          && d.entry.lossy <= {At(t.previous), At(t.candidate)} + (if t.Legacy() then {Torn} else {}))
    && (t.started ==>
          && d.entry.Durable(At(t.candidate))
          && d.schema in {Full(t.previous), Partial(t.previous, t.candidate), Full(t.candidate)})
  }

  /** The crash invariant: it is all that recovery, boot or the next update may rely on. */
  ghost predicate Inv(d: Disk) {
    && d.state.now in d.state.lossy && d.guard.now in d.guard.lossy && d.entry.now in d.entry.lossy
    && (d.Settled() || d.Held() || d.Exposed())
    && (forall s :: s in d.state.lossy ==> if IsOpen(s.txn) then TxnOk(d, s.txn.value) else !s.block)
    && (forall e :: e in d.entry.lossy && e.At? && e.release != LEGACY_TREE ==> e.release in d.releases)
    && (d.running.Some? ==> d.schema == Full(d.running.value))
  }

  /** The next content the transaction file may take, given the content it has now. */
  predicate Successor(x: Option<Txn>, y: Option<Txn>) {
    match (x, y)
    case (None, Some(t)) => t.phase == Prepared && !t.started
    case (Some(s), Some(t)) => s.SameJob(t) && Order(s.phase) <= Order(t.phase) && (s.started ==> t.started)
    case (Some(s), None) => s.phase == Done
    case (None, None) => true
  }

  /** The only circumstances in which a step may touch the schema. */
  ghost predicate MayMigrate(d: Disk, e: Disk) {
    && d.Txn().Some? && d.TxnDurable(d.Txn())
    && d.Txn().value.started && d.Txn().value.phase != Done
    && d.entry.Durable(At(d.Txn().value.candidate))
    && d.Barred() && e.Barred()
    && e.state == d.state && e.entry == d.entry
    && e.schema in {Partial(d.Txn().value.previous, d.Txn().value.candidate), Full(d.Txn().value.candidate)}
  }

  ghost predicate StepOk(d: Disk, e: Disk) {
    && (forall s :: s in e.state.lossy ==> s in d.state.lossy || Successor(d.Txn(), s.txn))
    && (e.schema == d.schema || MayMigrate(d, e))
  }

  /** A run: the states of the machine in order, each one effect after the last. */
  ghost predicate Run(states: seq<Disk>) {
    && (forall i :: 0 <= i < |states| ==> Inv(states[i]))
    && (forall i, j :: 0 <= i && j == i + 1 < |states| ==> StepOk(states[i], states[j]))
  }

  /**
   Before a job's completion can be on disk, a durable migration mark is never
   lost, the phase never goes back, the entry stays with the candidate, and
   everything either release needs is still there.
   */
  lemma {:induction false} PointOfNoReturn(states: seq<Disk>, i: nat, k: nat, t: Txn)
    requires Run(states) && i <= k < |states|
    requires states[i].TxnDurable(Some(t)) && t.started && t.phase != Done
    requires forall m, s :: i <= m <= k && s in states[m].state.lossy && s.txn.Some? ==> s.txn.value.phase != Done
    ensures forall s :: s in states[k].state.lossy ==>
              s.txn.Some? && s.txn.value.SameJob(t) && s.txn.value.started && Order(t.phase) <= Order(s.txn.value.phase)
    ensures states[k].entry.Durable(At(t.candidate))
    ensures states[k].schema in {Full(t.previous), Partial(t.previous, t.candidate), Full(t.candidate)}
    ensures t.candidate in states[k].releases
    ensures if t.Legacy() then t.job in states[k].backups else t.previous in states[k].releases
  {
    assert Inv(states[k]) && Inv(states[i]);
    if i < k {
      PointOfNoReturn(states, i, k - 1, t);
      assert Inv(states[k - 1]) && StepOk(states[k - 1], states[k]);
    }
    assert states[k].state.now in states[k].state.lossy;
    assert TxnOk(states[k], states[k].Txn().value);
  }

  /**
   The schema moves only from the job's durable migration mark on, under the
   block, with the service stopped and refused; until then it is untouched.
   */
  lemma {:induction false} SchemaMovesOnlyPastTheMark(states: seq<Disk>, i: nat, k: nat)
    requires Run(states) && i <= k < |states|
    requires states[k].schema != states[i].schema
    ensures exists j :: i <= j < k && MayMigrate(states[j], states[j + 1])
  {
    assert StepOk(states[k - 1], states[k - 1 + 1]);
    if states[k - 1].schema != states[i].schema {
      SchemaMovesOnlyPastTheMark(states, i, k - 1);
    } else {
      assert MayMigrate(states[k - 1], states[k - 1 + 1]);
    }
  }

  /**
   What an absent block tells, whatever a power loss makes of the files: a job
   not past its mark is at the previous release, one past it has completed its
   migration, and no service runs, or may start, on another release's schema.
   */
  lemma AbsentBlockMeansSettled(d: Disk, s: StateDir, e: Entry)
    requires Inv(d) && d.Guarded()
    requires s in d.state.lossy && !s.block && e in d.entry.lossy
    ensures e.At? && d.schema == Full(e.release)
    ensures IsOpen(s.txn) ==> e.release == if s.txn.value.started then s.txn.value.candidate else s.txn.value.previous
    ensures d.running.Some? ==> d.running.value == e.release
  {
  }

  // ---- The exception: an install from before release directories ----

  /** Every transaction that may be found is this unfinished job, before its migration. */
  ghost predicate Undoable(d: Disk, t: Txn) {
    forall s :: s in d.state.lossy ==> IsOpen(s.txn) && s.txn.value.SameJob(t) && !s.txn.value.started
  }

  /**
   What putting the previous release back may do: nothing, one rename that may
   not be synced yet, or for a legacy tree a copy that may stop half way.
   */
  ghost predicate RestoreEffect(d: Disk, t: Txn, e: Disk) {
    && e == d.(entry := e.entry)
    && (|| e.entry == d.entry
        || e.entry.Durable(At(t.previous))
        || e.entry == d.entry.Put(At(t.previous))
        || (t.Legacy() && e.entry == d.entry.Put(Torn)))
  }

  /** The restore may leave a state in which the block may be found missing on an unsettled machine. */
  ghost predicate RestoreCanTear(d: Disk, t: Txn) {
    exists e :: RestoreEffect(d, t, e) && !e.Guarded()
  }

  /** The restore can do that exactly if the install is legacy and a power loss may find the block missing. */
  lemma RestoreTearsExactly(d: Disk, t: Txn)
    requires Inv(d) && Undoable(d, t)
    ensures RestoreCanTear(d, t) <==> t.Legacy() && !d.BlockDurable()
  {
    assert d.state.now in d.state.lossy;
    var torn := d.(entry := d.entry.Put(Torn));
    if t.Legacy() && !d.BlockDurable() {
      assert RestoreEffect(d, t, torn) && !torn.Guarded();
    }
    forall e | RestoreEffect(d, t, e) && !(t.Legacy() && !d.BlockDurable())
      ensures e.Guarded()
    {
      assert TxnOk(d, d.Txn().value);
    }
  }

  /** Whatever a restore does, recovery can go on from there; and if it succeeds the previous release is settled. */
  lemma RestoreKeeps(d: Disk, t: Txn, e: Disk)
    requires Inv(d) && Undoable(d, t) && RestoreEffect(d, t, e)
    ensures Inv(e) && StepOk(d, e)
    ensures e.entry.Durable(At(t.previous)) ==> e.Settled()
    ensures !RestoreCanTear(d, t) ==> e.Guarded()
  {
    assert d.state.now in d.state.lossy && TxnOk(d, d.Txn().value);
    assert forall s :: s in d.state.lossy ==> TxnOk(d, s.txn.value);
  }

  /** Such a torn tree without a block is a reachable state, and a power loss may leave just that. */
  lemma TornTreeIsReachable(d: Disk, t: Txn)
    requires Inv(d) && Undoable(d, t) && t.Legacy() && !d.BlockDurable()
    ensures var torn := d.(entry := d.entry.Put(Torn));
      && RestoreEffect(d, t, torn) && Run([d, torn])
      && exists s :: s in torn.state.lossy && !s.block && Torn in torn.entry.lossy
  {
    var torn := d.(entry := d.entry.Put(Torn));
    assert d.state.now in d.state.lossy && TxnOk(d, d.Txn().value);
    assert d.Settled() || d.Exposed();
    assert torn.Exposed();
    assert Inv(torn) && StepOk(d, torn);
  }

  /** One such install: its first update is prepared, and its block was written but not synced. */
  lemma LegacyInstallCanBeTorn()
    ensures exists d, t, torn :: Inv(d) && d.Settled() && d.Block() && RestoreEffect(d, t, torn) && Run([d, torn])
                                && !torn.Guarded()
  {
    var t := Txn(0, Prepared, LEGACY_TREE, 1, true, false);
    var written := StateDir(Some(t), true);
    var synced := StateDir(Some(t), false);
    var d := Disk(Cell(written, {synced, written}), Cell(false, {false}), Cell(At(LEGACY_TREE), {At(LEGACY_TREE)}),
                  Full(LEGACY_TREE), Some(LEGACY_TREE), {1}, {0});
    var torn := d.(entry := d.entry.Put(Torn));
    assert d.Settled() && TxnOk(d, t) && Inv(d);
    assert synced in d.state.lossy && !synced.block;
    TornTreeIsReachable(d, t);
    assert RestoreEffect(d, t, torn) && !torn.Guarded();
  }
}
