/**
 What every run of the outbox keeps: no notice is enqueued twice, an alert's end
 is never delivered before its beginning is settled, a settled notice is never
 touched again, and a blocked channel is left alone until one probe is due.
 */
module OutboxSafety {
  import opened Wrappers
  import opened Outbox

  ghost predicate Keyed(rows: seq<Row>) {
    forall i, j :: 0 <= i < j < |rows| ==> rows[i].key != rows[j].key
  }

  /** The probe mark means something only while its row is in flight. */
  ghost predicate Probing(rows: seq<Row>) {
    forall i :: 0 <= i < |rows| && rows[i].isProbe ==> rows[i].status.Sending?
  }

  /** A closing notice is in flight or sent only if its opening one is settled or does not exist. */
  ghost predicate Ordered(rows: seq<Row>) {
    forall i :: 0 <= i < |rows| && rows[i].Delivered() ==> Ready(rows, rows[i])
  }

  ghost predicate Known(rows: seq<Row>, events: nat) {
    forall i :: 0 <= i < |rows| && rows[i].event.Some? ==> rows[i].event.value < events
  }

  ghost predicate Good(db: Db) {
    && Keyed(db.rows) && Probing(db.rows) && Ordered(db.rows) && Known(db.rows, db.events)
    && forall event :: event in db.open ==> event < db.events
  }

  ghost predicate SameNotice(r: Row, s: Row) {
    && s.event == r.event && s.transition == r.transition && s.channel == r.channel && s.kind == r.kind
    && s.payload == r.payload && s.key == r.key
  }

  /** No row disappears or changes its notice, and a settled row is never touched again. */
  ghost predicate Kept(before: seq<Row>, after: seq<Row>) {
    && |before| <= |after|
    && forall i :: 0 <= i < |before| ==>
         SameNotice(before[i], after[i]) && (before[i].Final() ==> after[i] == before[i])
  }

  /** What every step except a claim may do to a row. */
  ghost predicate Settles(r: Row, s: Row) {
    && SameNotice(r, s)
    && (r.Final() ==> s == r)
    && (s.Delivered() ==> r.Delivered())
    && ((r.isProbe ==> r.status.Sending?) ==> (s.isProbe ==> s.status.Sending?))
  }

  ghost predicate AllSettle(before: seq<Row>, after: seq<Row>) {
    |before| == |after| && forall i :: 0 <= i < |before| ==> Settles(before[i], after[i])
  }

  // ---- Steps that settle ----

  ghost predicate Applicable(r: Row, change: Change) {
    match change
    case Send(_) => r.status.Sending?
    case Fail(_, status) => r.status.Sending? && status in {Retry, Blocked, Paused, Discarded}
    case Miss(_, status) => r.status.Sending? && status in {Retry, Blocked}
    case Postpone(_) => r.status.Blocked?
    case _ => !r.Final()
  }

  lemma SweepSettles(rows: seq<Row>, channel: int, statuses: set<Status>, change: Change)
    requires statuses <= QUEUED + {Paused} && !change.Send? && !change.Fail? && !change.Miss?
    requires change.Postpone? ==> statuses == {Blocked}
    ensures AllSettle(rows, Sweep(rows, channel, statuses, change))
  {
  }

  lemma UpdateSettles(rows: seq<Row>, id: nat, change: Change)
    requires id < |rows| && Applicable(rows[id], change)
    ensures AllSettle(rows, rows[id := Changed(rows[id], change)])
  {
  }

  lemma SettlesTwice(a: seq<Row>, b: seq<Row>, c: seq<Row>)
    requires AllSettle(a, b) && AllSettle(b, c)
    ensures AllSettle(a, c)
  {
  }

  lemma MissedSettles(rows: seq<Row>, f: Failure, block: bool)
    requires InFlight(rows, f.id, f.channel)
    ensures AllSettle(rows, Missed(rows, f, block))
  {
  }

  lemma CompleteSettles(db: Db, id: nat, channel: int, revision: int, at: int)
    requires Complete(db, id, channel, revision, at).Some?
    ensures var after := Complete(db, id, channel, revision, at).value;
      after == db.(rows := after.rows) && AllSettle(db.rows, after.rows)
  {
    if InFlight(db.rows, id, channel) {
      var sent := db.rows[id := Changed(db.rows[id], Send(at))];
      UpdateSettles(db.rows, id, Send(at));
      SweepSettles(sent, channel, {Blocked}, Wake(at));
      SettlesTwice(db.rows, sent, Sweep(sent, channel, {Blocked}, Wake(at)));
    }
  }

  lemma RecordSettles(db: Db, f: Failure, block: bool)
    requires RecordFailure(db, f, block).Some?
    ensures var after := RecordFailure(db, f, block).value;
      after == db.(rows := after.rows) && AllSettle(db.rows, after.rows)
  {
    MissedSettles(db.rows, f, block);
    UpdateSettles(db.rows, f.id, DropDeleted());
    UpdateSettles(db.rows, f.id, Pause);
    UpdateSettles(db.rows, f.id, RetryAt(f.failedAt));
  }

  lemma DeliveriesSettle(db: Db, op: Op, codec: Codec)
    requires op.Finish? || op.Record? || op.Requeue? || op.Suspend? || op.Discard?
    ensures Apply(db, op, codec).events == db.events && Apply(db, op, codec).open == db.open
    ensures AllSettle(db.rows, Apply(db, op, codec).rows)
  {
    match op
    case Finish(id, channel, revision, at) =>
      if Complete(db, id, channel, revision, at).Some? {
        CompleteSettles(db, id, channel, revision, at);
      }
    case Record(f, block) =>
      if RecordFailure(db, f, block).Some? {
        RecordSettles(db, f, block);
      }
    case Requeue(id, channel, at) =>
      if InFlight(db.rows, id, channel) {
        UpdateSettles(db.rows, id, Release(at));
      }
    case Suspend(f) =>
      if InFlight(db.rows, f.id, f.channel) {
        UpdateSettles(db.rows, f.id, DropDeleted());
        UpdateSettles(db.rows, f.id, RetryAt(f.failedAt));
        UpdateSettles(db.rows, f.id, Fail(f, Paused));
      }
    case Discard(f) =>
      if InFlight(db.rows, f.id, f.channel) {
        UpdateSettles(db.rows, f.id, RetryAt(f.failedAt));
        UpdateSettles(db.rows, f.id, Fail(f, Discarded));
      }
  }

  lemma AdministrationSettles(db: Db, op: Op, codec: Codec)
    requires op.Create? || op.Edit? || op.Reconfigure? || op.Switch? || op.Remove? || op.Heal?
    ensures Apply(db, op, codec).events == db.events && Apply(db, op, codec).open == db.open
    ensures AllSettle(db.rows, Apply(db, op, codec).rows)
  {
    var rows := db.rows;
    match op
    case Create(_, _, _) =>
    case Edit(channel, _, _, _, at) =>
      SweepSettles(rows, channel, QUEUED + {Paused}, TypeChanged());
      SweepSettles(rows, channel, QUEUED, Pause);
      SweepSettles(rows, channel, {Retry, Blocked, Paused}, Wake(at));
    case Reconfigure(channel, _, at) =>
      SweepSettles(rows, channel, QUEUED, Pause);
      SweepSettles(rows, channel, {Retry, Blocked, Paused}, Wake(at));
    case Switch(channel, _, at) =>
      SweepSettles(rows, channel, QUEUED, Pause);
      SweepSettles(rows, channel, QUEUED + {Paused}, Wake(at));
    case Remove(channel) =>
      SweepSettles(rows, channel, QUEUED + {Paused}, DropDeleted());
    case Heal(channel, _, at) =>
      SweepSettles(rows, channel, {Blocked}, Wake(at));
  }

  lemma SettledKeepsGood(a: Db, b: Db)
    requires Good(a) && AllSettle(a.rows, b.rows) && a.events == b.events && a.open == b.open
    ensures Good(b) && Kept(a.rows, b.rows)
  {
  }

  // ---- Inserts ----

  /** A row that may be appended: waiting, of a known event, and no late opening of a closed one. */
  ghost predicate Admissible(rows: seq<Row>, row: Row, events: nat) {
    && !row.Delivered() && !row.isProbe
    && (row.event.Some? ==> row.event.value < events)
    && (forall i :: 0 <= i < |rows| && rows[i].Delivered() && rows[i].event.Some? ==> !Opens(row, rows[i]))
  }

  lemma AppendKeepsGood(db: Db, row: Row)
    requires Good(db) && Admissible(db.rows, row, db.events) && !HasKey(db.rows, row.key)
    ensures Good(db.(rows := db.rows + [row]))
  {
  }

  lemma {:induction false} MergeKeepsGood(db: Db, more: seq<Row>)
    requires Good(db)
    requires forall k :: 0 <= k < |more| ==> Admissible(db.rows, more[k], db.events)
    ensures Good(db.(rows := Merge(db.rows, more))) && Kept(db.rows, Merge(db.rows, more))
    decreases |more|
  {
    if more != [] {
      assert Admissible(db.rows, more[0], db.events);
      var next := if HasKey(db.rows, more[0].key) then db.rows else db.rows + [more[0]];
      if !HasKey(db.rows, more[0].key) {
        AppendKeepsGood(db, more[0]);
      }
      forall k | 0 <= k < |more[1..]|
        ensures Admissible(next, more[1..][k], db.events)
      {
        assert Admissible(db.rows, more[k + 1], db.events);
      }
      MergeKeepsGood(db.(rows := next), more[1..]);
    }
  }

  lemma InsertKeepsGood(db: Db, notices: seq<Notice>, now: int)
    requires Good(db)
    requires forall k :: 0 <= k < |notices| && notices[k].event.Some? ==>
      notices[k].event.value < db.events
      && (notices[k].transition.Opened? ==>
            forall i :: 0 <= i < |db.rows| ==> db.rows[i].event != notices[k].event)
    ensures var rows := Inserted(db.rows, notices, now);
      rows.Some? ==> Good(db.(rows := rows.value)) && Kept(db.rows, rows.value)
  {
    if forall i :: 0 <= i < |notices| ==> Enqueueable(notices[i]) {
      var more := QueuedRows(db.rows, notices, now);
      forall k | 0 <= k < |more|
        ensures Admissible(db.rows, more[k], db.events)
      {
        assert more[k].event == notices[k].event && more[k].transition == notices[k].transition;
      }
      MergeKeepsGood(db, more);
    }
  }

  lemma InsertsKeepGood(db: Db, op: Op, codec: Codec)
    requires Good(db) && (op.OpenEvent? || op.CloseEvent? || op.Enqueue?)
    ensures Good(Apply(db, op, codec)) && Kept(db.rows, Apply(db, op, codec).rows)
  {
    match op
    case OpenEvent(targets, now) =>
      var more := db.(events := db.events + 1, open := db.open + {db.events});
      InsertKeepsGood(more, AlertNotices(db.events, Opened, targets), now);
    case CloseEvent(event, targets, now) =>
      if event in db.open {
        InsertKeepsGood(db.(open := db.open - {event}), AlertNotices(event, Closed, targets), now);
      }
    case Enqueue(notices, now) =>
      if forall i :: 0 <= i < |notices| ==> notices[i].event.None? {
        InsertKeepsGood(db, notices, now);
      }
  }

  // ---- Claims ----

  /** One claim takes at most a hundred rows of one channel, in the order they may be delivered. */
  lemma BatchIsClaimable(rows: seq<Row>, now: int, codec: Codec)
    ensures var ids := BatchIds(rows, now, codec);
      && (forall k :: 0 <= k < |ids| ==> !rows[ids[k]].Final() && Ready(rows, rows[ids[k]]))
      && (forall k :: 0 <= k < |ids| ==>
            rows[ids[k]].channel == rows[ids[0]].channel && rows[ids[k]].transition == rows[ids[0]].transition)
      && (forall k :: 0 < k < |ids| ==> ids[k] != ids[0] && !rows[ids[k]].isProbe && !rows[ids[k]].status.Blocked?)
      && (|ids| > 1 ==> !rows[ids[0]].isProbe && !rows[ids[0]].status.Blocked?)
  {
  }

  lemma ClaimKeepsGood(db: Db, now: int, codec: Codec)
    requires Good(db)
    ensures var after := db.(rows := Batched(db.rows, BatchIds(db.rows, now, codec), now));
      Good(after) && Kept(db.rows, after.rows)
  {
    var ids := BatchIds(db.rows, now, codec);
    var after := Batched(db.rows, ids, now);
    BatchIsClaimable(db.rows, now, codec);
    forall i | 0 <= i < |db.rows|
      ensures SameNotice(db.rows[i], after[i]) && (after[i].isProbe ==> after[i].status.Sending?)
      ensures db.rows[i].Final() ==> after[i] == db.rows[i]
      ensures after[i].Delivered() ==> Ready(db.rows, db.rows[i])
    {
      if i in ids {
        var k :| 0 <= k < |ids| && ids[k] == i;
        assert !db.rows[ids[k]].Final() && Ready(db.rows, db.rows[ids[k]]);
      }
    }
    forall i | 0 <= i < |after| && after[i].Delivered()
      ensures Ready(after, after[i])
    {
      assert Ready(db.rows, db.rows[i]);
    }
  }

  // ---- Runs ----

  lemma StepKeepsGood(db: Db, op: Op, codec: Codec)
    requires Good(db)
    ensures Good(Apply(db, op, codec)) && Kept(db.rows, Apply(db, op, codec).rows)
  {
    if op.Take? {
      ClaimKeepsGood(db, op.now, codec);
    } else if op.OpenEvent? || op.CloseEvent? || op.Enqueue? {
      InsertsKeepGood(db, op, codec);
    } else {
      if op.Finish? || op.Record? || op.Requeue? || op.Suspend? || op.Discard? {
        DeliveriesSettle(db, op, codec);
      } else {
        AdministrationSettles(db, op, codec);
      }
      SettledKeepsGood(db, Apply(db, op, codec));
    }
  }

  /** In every run: the invariant at every state, and between any two states nothing settled changed. */
  lemma {:induction false} RunsAreSafe(dbs: seq<Db>, ops: seq<Op>, codec: Codec, j: nat, k: nat)
    requires Run(dbs, ops, codec) && j <= k <= |ops| && Good(dbs[j])
    ensures Good(dbs[k]) && Kept(dbs[j].rows, dbs[k].rows)
    decreases k - j
  {
    if j < k {
      RunsAreSafe(dbs, ops, codec, j, k - 1);
      StepKeepsGood(dbs[k - 1], ops[k - 1], codec);
      assert dbs[k] == Apply(dbs[k - 1], ops[k - 1], codec);
    }
  }

}
