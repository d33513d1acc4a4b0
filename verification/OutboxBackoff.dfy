/**
 A channel whose delivery was blocked is left alone until its probe is due, and
 then receives that one probe: in every run of enqueues, claims, and deliveries
 and administration of other channels.
 */
module OutboxBackoff {
  import opened Wrappers
  import opened Outbox
  import opened OutboxSafety

  ghost predicate Resting(row: Row, until: int) {
    row.Final() || row.status.Paused? || (row.status.Blocked? && row.dueAt == until)
  }

  /** Nothing of the channel is in flight, everything it has queued waits for one probe. */
  ghost predicate Quiet(rows: seq<Row>, channel: int, until: int) {
    && (forall i :: 0 <= i < |rows| && rows[i].channel == channel ==> Resting(rows[i], until))
    && (exists i :: 0 <= i < |rows| && rows[i].channel == channel && rows[i].status.Blocked?)
  }

  /** No other row of the channel is in flight. */
  ghost predicate Alone(rows: seq<Row>, id: nat, channel: int) {
    forall i :: 0 <= i < |rows| && i != id && rows[i].channel == channel ==> !rows[i].status.Sending?
  }

  lemma BlockQuiets(db: Db, f: Failure)
    requires f.revision > 0 && Live(db, f) && InFlight(db.rows, f.id, f.channel) && Alone(db.rows, f.id, f.channel)
    ensures var after := RecordFailure(db, f, true); after.Some? && Quiet(after.value.rows, f.channel, f.next)
  {
    var rows := Missed(db.rows, f, true);
    assert rows[f.id].channel == f.channel && rows[f.id].status.Blocked?;
  }

  /** The failures of one batch, recorded one after the other in one transaction. */
  function RecordAll(db: Db, fs: seq<Failure>, codec: Codec): Db
    decreases |fs|
  {
    if fs == [] then db else RecordAll(Apply(db, Record(fs[0], true), codec), fs[1..], codec)
  }

  /** The failures are of distinct rows in flight, and those are all the channel has in flight. */
  ghost predicate WholeBatch(db: Db, fs: seq<Failure>, channel: int, revision: int) {
    && (forall k :: 0 <= k < |fs| ==>
          && fs[k].channel == channel && fs[k].revision == revision > 0 && Live(db, fs[k])
          && InFlight(db.rows, fs[k].id, channel))
    && (forall j, k :: 0 <= j < k < |fs| ==> fs[j].id != fs[k].id)
    && (forall i :: 0 <= i < |db.rows| && InFlight(db.rows, i, channel) ==> exists k :: 0 <= k < |fs| && fs[k].id == i)
  }

  /** Recording the first failure takes its row out of flight and no other. */
  lemma BatchShrinks(db: Db, fs: seq<Failure>, channel: int, revision: int, codec: Codec)
    requires fs != [] && WholeBatch(db, fs, channel, revision)
    ensures WholeBatch(Apply(db, Record(fs[0], true), codec), fs[1..], channel, revision)
  {
    var after := Apply(db, Record(fs[0], true), codec);
    assert InFlight(db.rows, fs[0].id, channel) && Live(db, fs[0]);
    assert after.rows == Missed(db.rows, fs[0], true) && after.channels == db.channels;
    forall i: nat | i < |db.rows|
      ensures InFlight(after.rows, i, channel) <==> InFlight(db.rows, i, channel) && i != fs[0].id
    {
    }
    forall i | 0 <= i < |after.rows| && InFlight(after.rows, i, channel)
      ensures exists k :: 0 <= k < |fs[1..]| && fs[1..][k].id == i
    {
      var k :| 0 <= k < |fs| && fs[k].id == i;
      assert fs[1..][k - 1].id == i;
    }
  }

  /** When a whole batch is refused for good, its channel waits for the last of the probe times. */
  lemma {:induction false} BatchBlockQuiets(db: Db, fs: seq<Failure>, channel: int, revision: int, codec: Codec)
    requires fs != [] && WholeBatch(db, fs, channel, revision)
    ensures Quiet(RecordAll(db, fs, codec).rows, channel, fs[|fs| - 1].next)
    decreases |fs|
  {
    if |fs| == 1 {
      LastBlockQuiets(db, fs, channel, revision, codec);
    } else {
      BatchShrinks(db, fs, channel, revision, codec);
      BatchBlockQuiets(Apply(db, Record(fs[0], true), codec), fs[1..], channel, revision, codec);
    }
  }

  lemma LastBlockQuiets(db: Db, fs: seq<Failure>, channel: int, revision: int, codec: Codec)
    requires |fs| == 1 && WholeBatch(db, fs, channel, revision)
    ensures Quiet(RecordAll(db, fs, codec).rows, channel, fs[0].next)
  {
    LastOfBatchIsAlone(db, fs, channel, revision);
    BlockQuiets(db, fs[0]);
    assert RecordAll(db, fs, codec) == Apply(db, Record(fs[0], true), codec);
  }

  lemma LastOfBatchIsAlone(db: Db, fs: seq<Failure>, channel: int, revision: int)
    requires |fs| == 1 && WholeBatch(db, fs, channel, revision)
    ensures fs[0].revision > 0 && Live(db, fs[0]) && InFlight(db.rows, fs[0].id, channel)
    ensures fs[0].channel == channel && Alone(db.rows, fs[0].id, channel)
  {
    forall i | 0 <= i < |db.rows| && i != fs[0].id && db.rows[i].channel == channel
      ensures !db.rows[i].status.Sending?
    {
      assert !InFlight(db.rows, i, channel);
    }
  }

  /** What other channels, enqueues and claims do: everything but settling or editing this channel. */
  ghost predicate Elsewhere(op: Op, channel: int) {
    match op
    case Finish(_, other, _, _) => other != channel
    case Record(f, _) => f.channel != channel
    case Requeue(_, other, _) => other != channel
    case Suspend(f) => f.channel != channel
    case Discard(f) => f.channel != channel
    case Edit(other, _, _, _, _) => other != channel
    case Reconfigure(other, _, _) => other != channel
    case Switch(other, _, _) => other != channel
    case Remove(other) => other != channel
    case Heal(other, _, _) => other != channel
    case _ => true
  }

  /** The step claims a row of the channel. */
  ghost predicate Claims(db: Db, op: Op, codec: Codec, channel: int) {
    op.Take? && exists k :: 0 <= k < |BatchIds(db.rows, op.now, codec)|
                            && db.rows[BatchIds(db.rows, op.now, codec)[k]].channel == channel
  }

  /** The step claims exactly one row, of this channel, as a probe whose time has come. */
  ghost predicate LoneProbe(db: Db, op: Op, codec: Codec, channel: int, until: int) {
    && op.Take? && until <= op.now
    && var ids := BatchIds(db.rows, op.now, codec);
      && |ids| == 1 && db.rows[ids[0]].channel == channel
      && Apply(db, op, codec).rows[ids[0]].status.Sending? && Apply(db, op, codec).rows[ids[0]].isProbe
  }

  lemma ClaimIsLoneProbe(db: Db, op: Op, codec: Codec, channel: int, until: int)
    requires Quiet(db.rows, channel, until) && Claims(db, op, codec, channel)
    ensures LoneProbe(db, op, codec, channel, until)
  {
    var ids := BatchIds(db.rows, op.now, codec);
    BatchIsClaimable(db.rows, op.now, codec);
    var k :| 0 <= k < |ids| && db.rows[ids[k]].channel == channel;
    assert db.rows[ids[0]].channel == channel;
    FirstIsClaimable(db.rows, op.now, codec);
    assert Resting(db.rows[ids[0]], until);
    assert ids[0] in ids;
  }

  lemma FirstIsClaimable(rows: seq<Row>, now: int, codec: Codec)
    requires BatchIds(rows, now, codec) != []
    ensures Claimable(rows, now, BatchIds(rows, now, codec)[0])
  {
    assert First(rows, now, |rows|) == Some(BatchIds(rows, now, codec)[0]);
  }

  // ---- Other steps leave a quiet channel quiet ----

  /** The channel's rows are the same before and after. */
  ghost predicate Untouched(before: seq<Row>, after: seq<Row>, channel: int) {
    && |before| == |after|
    && forall i :: 0 <= i < |before| ==>
         after[i].channel == before[i].channel && (before[i].channel == channel ==> after[i] == before[i])
  }

  lemma UntouchedStaysQuiet(before: seq<Row>, after: seq<Row>, channel: int, until: int)
    requires Quiet(before, channel, until) && Untouched(before, after, channel)
    ensures Quiet(after, channel, until)
  {
  }

  lemma SweepIsElsewhere(rows: seq<Row>, other: int, statuses: set<Status>, change: Change, channel: int)
    requires other != channel
    ensures Untouched(rows, Sweep(rows, other, statuses, change), channel)
  {
  }

  lemma UpdateIsElsewhere(rows: seq<Row>, id: nat, other: int, change: Change, channel: int)
    requires other != channel && InFlight(rows, id, other)
    ensures Untouched(rows, rows[id := Changed(rows[id], change)], channel)
  {
  }

  lemma DeliveryIsElsewhere(db: Db, op: Op, codec: Codec, channel: int)
    requires op.Finish? || op.Record? || op.Requeue? || op.Suspend? || op.Discard?
    requires Elsewhere(op, channel)
    ensures Untouched(db.rows, Apply(db, op, codec).rows, channel)
  {
    match op
    case Finish(id, other, revision, at) =>
      if other in db.channels && InFlight(db.rows, id, other) {
        UpdateIsElsewhere(db.rows, id, other, Send(at), channel);
        SweepIsElsewhere(db.rows[id := Changed(db.rows[id], Send(at))], other, {Blocked}, Wake(at), channel);
      }
    case Record(f, block) =>
      if InFlight(db.rows, f.id, f.channel) {
        var miss := Miss(f, if block then Blocked else Retry);
        var first := db.rows[f.id := Changed(db.rows[f.id], miss)];
        UpdateIsElsewhere(db.rows, f.id, f.channel, miss, channel);
        SweepIsElsewhere(first, f.channel, {Pending, Retry}, Hold(f), channel);
        var held := Sweep(first, f.channel, {Pending, Retry}, Hold(f));
        SweepIsElsewhere(held, f.channel, {Blocked}, Postpone(f.next), channel);
        UpdateIsElsewhere(db.rows, f.id, f.channel, DropDeleted(), channel);
        UpdateIsElsewhere(db.rows, f.id, f.channel, Pause, channel);
        UpdateIsElsewhere(db.rows, f.id, f.channel, RetryAt(f.failedAt), channel);
      }
    case Requeue(id, other, at) =>
      if InFlight(db.rows, id, other) {
        UpdateIsElsewhere(db.rows, id, other, Release(at), channel);
      }
    case Suspend(f) =>
      if InFlight(db.rows, f.id, f.channel) {
        UpdateIsElsewhere(db.rows, f.id, f.channel, DropDeleted(), channel);
        UpdateIsElsewhere(db.rows, f.id, f.channel, RetryAt(f.failedAt), channel);
        UpdateIsElsewhere(db.rows, f.id, f.channel, Fail(f, Paused), channel);
      }
    case Discard(f) =>
      if InFlight(db.rows, f.id, f.channel) {
        UpdateIsElsewhere(db.rows, f.id, f.channel, RetryAt(f.failedAt), channel);
        UpdateIsElsewhere(db.rows, f.id, f.channel, Fail(f, Discarded), channel);
      }
  }

  lemma AdministrationIsElsewhere(db: Db, op: Op, codec: Codec, channel: int)
    requires op.Create? || op.Edit? || op.Reconfigure? || op.Switch? || op.Remove? || op.Heal?
    requires Elsewhere(op, channel)
    ensures Untouched(db.rows, Apply(db, op, codec).rows, channel)
  {
    var rows := db.rows;
    match op
    case Create(_, _, _) =>
    case Edit(other, _, _, _, at) =>
      SweepIsElsewhere(rows, other, QUEUED + {Paused}, TypeChanged(), channel);
      SweepIsElsewhere(rows, other, QUEUED, Pause, channel);
      SweepIsElsewhere(rows, other, {Retry, Blocked, Paused}, Wake(at), channel);
    case Reconfigure(other, _, at) =>
      SweepIsElsewhere(rows, other, QUEUED, Pause, channel);
      SweepIsElsewhere(rows, other, {Retry, Blocked, Paused}, Wake(at), channel);
    case Switch(other, _, at) =>
      SweepIsElsewhere(rows, other, QUEUED, Pause, channel);
      SweepIsElsewhere(rows, other, QUEUED + {Paused}, Wake(at), channel);
    case Remove(other) =>
      SweepIsElsewhere(rows, other, QUEUED + {Paused}, DropDeleted(), channel);
    case Heal(other, _, at) =>
      SweepIsElsewhere(rows, other, {Blocked}, Wake(at), channel);
  }

  lemma {:induction false} MergeStaysQuiet(rows: seq<Row>, more: seq<Row>, channel: int, until: int)
    requires Quiet(rows, channel, until)
    requires forall k :: 0 <= k < |more| && more[k].channel == channel ==> Resting(more[k], until)
    ensures Quiet(Merge(rows, more), channel, until)
    decreases |more|
  {
    if more != [] {
      var next := if HasKey(rows, more[0].key) then rows else rows + [more[0]];
      var i :| 0 <= i < |rows| && rows[i].channel == channel && rows[i].status.Blocked?;
      assert next[i] == rows[i];
      MergeStaysQuiet(next, more[1..], channel, until);
    }
  }

  /** A notice for a blocked channel joins the wait for the same probe. */
  lemma InsertStaysQuiet(rows: seq<Row>, notices: seq<Notice>, now: int, channel: int, until: int)
    requires Quiet(rows, channel, until)
    ensures Inserted(rows, notices, now).Some? ==> Quiet(Inserted(rows, notices, now).value, channel, until)
  {
    if forall i :: 0 <= i < |notices| ==> Enqueueable(notices[i]) {
      var more := QueuedRows(rows, notices, now);
      forall k | 0 <= k < |more| && more[k].channel == channel
        ensures Resting(more[k], until)
      {
        var probe := NextProbe(rows, channel, |rows|);
        assert probe.Some?;
      }
      MergeStaysQuiet(rows, more, channel, until);
    }
  }

  lemma StepStaysQuiet(db: Db, op: Op, codec: Codec, channel: int, until: int)
    requires Quiet(db.rows, channel, until) && Elsewhere(op, channel) && !Claims(db, op, codec, channel)
    ensures Quiet(Apply(db, op, codec).rows, channel, until)
  {
    match op
    case OpenEvent(targets, now) =>
      InsertStaysQuiet(db.rows, AlertNotices(db.events, Opened, targets), now, channel, until);
    case CloseEvent(event, targets, now) =>
      InsertStaysQuiet(db.rows, AlertNotices(event, Closed, targets), now, channel, until);
    case Enqueue(notices, now) => InsertStaysQuiet(db.rows, notices, now, channel, until);
    case Take(now) =>
      var ids := BatchIds(db.rows, now, codec);
      var after := Batched(db.rows, ids, now);
      assert forall k :: 0 <= k < |ids| ==> db.rows[ids[k]].channel != channel;
      assert Untouched(db.rows, after, channel);
      UntouchedStaysQuiet(db.rows, after, channel, until);
    case _ =>
      if op.Finish? || op.Record? || op.Requeue? || op.Suspend? || op.Discard? {
        DeliveryIsElsewhere(db, op, codec, channel);
      } else {
        AdministrationIsElsewhere(db, op, codec, channel);
      }
      UntouchedStaysQuiet(db.rows, Apply(db, op, codec).rows, channel, until);
  }

  /**
   Until the first claim of the channel it stays quiet, and that first claim,
   whenever it happens, is a single probe at or after the probe time.
   */
  lemma {:induction false} FirstClaimIsTheProbe(dbs: seq<Db>, ops: seq<Op>, codec: Codec, channel: int, until: int,
      k: nat)
    requires Run(dbs, ops, codec) && Quiet(dbs[0].rows, channel, until)
    requires forall i :: 0 <= i < |ops| ==> Elsewhere(ops[i], channel)
    requires k < |ops| && forall i :: 0 <= i < k ==> !Claims(dbs[i], ops[i], codec, channel)
    ensures Quiet(dbs[k].rows, channel, until)
    ensures Claims(dbs[k], ops[k], codec, channel) ==> LoneProbe(dbs[k], ops[k], codec, channel, until)
  {
    if k > 0 {
      FirstClaimIsTheProbe(dbs, ops, codec, channel, until, k - 1);
      StepStaysQuiet(dbs[k - 1], ops[k - 1], codec, channel, until);
      assert dbs[k] == Apply(dbs[k - 1], ops[k - 1], codec);
    }
    if Claims(dbs[k], ops[k], codec, channel) {
      ClaimIsLoneProbe(dbs[k], ops[k], codec, channel, until);
    }
  }

  // ---- The sender's decision ----

  /** The outcome of one delivery attempt as the sender classified it. */
  datatype Outcome = Outcome(status: Status, code: string, error: string, retryAfter: int, revision: int)

  function RetryDelay(attempt: int): (seconds: int)
    ensures 5 <= seconds <= 320
  {
    var shift := if attempt <= 1 then 0 else if attempt >= 7 then 6 else attempt - 1;
    5 * (if shift == 0 then 1 else if shift == 1 then 2 else if shift == 2 then 4 else if shift == 3 then 8
         else if shift == 4 then 16 else if shift == 5 then 32 else 64)
  }

  function BlockedDelay(probes: int): (seconds: int)
    ensures 300 <= seconds <= 3600
  {
    if probes == 0 then 300 else if probes == 1 then 900 else if probes == 2 then 1800 else 3600
  }

  function Max(a: int, b: int): int {
    if a < b then b else a
  }

  /** The transaction that settles row id after a failed delivery; a probe never falls back to a retry. */
  function FailureOp(row: Row, id: nat, outcome: Outcome, failedAt: int): Option<Op> {
    var status := if row.isProbe && outcome.status.Retry? then Blocked else outcome.status;
    var f := Failure(id, row.channel, outcome.revision, outcome.code, outcome.error, failedAt, 0);
    match status
    case Retry => Some(Record(f.(next := failedAt + Max(RetryDelay(row.attempts + 1), outcome.retryAfter)), false))
    case Blocked => Some(Record(f.(next := failedAt + Max(BlockedDelay(row.probes), outcome.retryAfter)), true))
    case Paused => Some(Suspend(f))
    case Discarded => Some(Discard(f))
    case _ => None
  }

  /** A probe that fails keeps its channel quiet for at least five minutes, and at least as long as was asked. */
  lemma FailedProbeBacksOff(db: Db, id: nat, outcome: Outcome, failedAt: int, codec: Codec)
    requires id < |db.rows| && InFlight(db.rows, id, db.rows[id].channel) && Alone(db.rows, id, db.rows[id].channel)
    requires db.rows[id].isProbe && (outcome.status.Retry? || outcome.status.Blocked?)
    requires outcome.revision > 0 && db.rows[id].channel in db.channels
    requires var c := db.channels[db.rows[id].channel]; c.enabled && !c.deleted && c.revision == outcome.revision
    ensures var op := FailureOp(db.rows[id], id, outcome, failedAt);
      && op.Some? && op.value.Record? && op.value.failure.next >= failedAt + Max(300, outcome.retryAfter)
      && Quiet(Apply(db, op.value, codec).rows, db.rows[id].channel, op.value.failure.next)
  {
    var op := FailureOp(db.rows[id], id, outcome, failedAt);
    BlockQuiets(db, op.value.failure);
  }
}
