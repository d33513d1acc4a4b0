/**
 The alert store's transactions over the outbox and the channels. A method that
 returns false rolled back; otherwise its statements were committed together.
 */
module OutboxStore {
  import opened Wrappers
  import opened Outbox
  import opened OutboxSafety
  import Text

  const KEY_LIMIT := 255

  function TransitionOf(event: string): Transition {
    if event == "opened" then Opened else if event == "closed" then Closed else Other(event)
  }

  /** The caller's key identifies one message; each channel is one delivery of it. */
  function MessageKey(key: string, channel: int): string {
    key + ":" + Decimal(channel)
  }

  predicate KeysFit(key: string, targets: seq<Target>) {
    forall i :: 0 <= i < |targets| ==> Text.Bytes(MessageKey(key, targets[i].channel)) <= KEY_LIMIT
  }

  function MessageNotices(key: string, event: string, targets: seq<Target>): seq<Notice> {
    seq(|targets|, i requires 0 <= i < |targets| =>
      Notice(None, TransitionOf(event), targets[i].channel, targets[i].kind, targets[i].payload,
             MessageKey(key, targets[i].channel)))
  }

  /** The first row of a batch is already in flight when its companions are looked up. */
  lemma {:induction false} CandidatesAfterClaim(rows: seq<Row>, first: nat, now: int, n: nat)
    requires first < |rows| && n <= |rows| && !rows[first].Final()
    ensures Candidates(rows[first := Claimed(rows[first], now)], first, now, n) == Candidates(rows, first, now, n)
  {
    if n > 0 {
      CandidatesAfterClaim(rows, first, now, n - 1);
      if n - 1 != first {
        ReadyAfterClaim(rows, first, now, rows[n - 1]);
      }
    }
  }

  lemma ReadyAfterClaim(rows: seq<Row>, first: nat, now: int, row: Row)
    requires first < |rows| && !rows[first].Final()
    ensures Ready(rows[first := Claimed(rows[first], now)], row) == Ready(rows, row)
  {
    var after := rows[first := Claimed(rows[first], now)];
    assert forall j :: 0 <= j < |rows| ==>
      Opens(after[j], row) == Opens(rows[j], row) && after[j].Final() == rows[j].Final();
    if Ready(after, row) {
      forall j | 0 <= j < |rows| && Opens(rows[j], row)
        ensures row.transition.Closed? && row.event.Some? ==> rows[j].Final()
      {
        assert Opens(after[j], row);
      }
    }
  }

  /** Claiming the first row and then its companions is claiming the batch. */
  lemma ClaimInTwo(rows: seq<Row>, first: nat, now: int, ids: seq<nat>)
    requires first < |rows| && forall k :: 0 <= k < |ids| ==> ids[k] != first
    ensures Companions(rows[first := Claimed(rows[first], now)], ids, now) == Batched(rows, [first] + ids, now)
  {
  }

  /** What the claim finds after its first update is what the batch is made of. */
  lemma BatchInTwo(rows: seq<Row>, now: int, codec: Codec, first: nat, found: seq<nat>, ids: seq<nat>)
    requires First(rows, now, |rows|) == Some(first)
    requires Batchable(rows[first], rows[first].isProbe || rows[first].status.Blocked?, codec)
    requires var claimed := rows[first := Claimed(rows[first], now)];
      && found == Candidates(claimed, first, now, |rows|)
      && ids == found[..Fitting(Payloads(claimed, found), rows[first].kind, 0, [rows[first].payload], codec)]
    ensures [first] + ids == BatchIds(rows, now, codec)
    ensures Companions(rows[first := Claimed(rows[first], now)], ids, now) == Batched(rows, [first] + ids, now)
  {
    var claimed := rows[first := Claimed(rows[first], now)];
    CandidatesAfterClaim(rows, first, now, |rows|);
    assert forall k :: 0 <= k < |found| ==> Joins(rows, first, now, found[k]);
    assert Payloads(claimed, found) == Payloads(rows, found);
    ClaimInTwo(rows, first, now, ids);
  }

  function Companions(rows: seq<Row>, ids: seq<nat>, now: int): (after: seq<Row>)
    ensures |after| == |rows|
  {
    seq(|rows|, i requires 0 <= i < |rows| =>
      if i in ids then rows[i].(status := Sending, dueAt := now) else rows[i])
  }

  /** No row but this one changes. */
  ghost predicate Only(before: seq<Row>, after: seq<Row>, id: nat) {
    && |before| == |after|
    && forall i :: 0 <= i < |before| && i != id ==> after[i] == before[i]
  }

  /** The channel's rows in the given statuses move to another one as they are, and no other row changes. */
  ghost predicate Moved(before: seq<Row>, after: seq<Row>, channel: int, scope: set<Status>, to_: Status) {
    && |before| == |after|
    && forall i :: 0 <= i < |before| ==>
         if before[i].channel == channel && before[i].status in scope then
           SameNotice(before[i], after[i]) && after[i].status == to_ && !after[i].isProbe && after[i].probes == 0
         else after[i] == before[i]
  }

  /** The rows that moved are due at once, with a new budget and no failure on record. */
  ghost predicate Renewed(before: seq<Row>, after: seq<Row>, channel: int, scope: set<Status>, at: int) {
    && |before| == |after|
    && forall i :: 0 <= i < |before| && before[i].channel == channel && before[i].status in scope ==>
         after[i].dueAt == at && after[i].attempts == 0 && after[i].code.None? && after[i].error.None?
  }

  /** The channel's waiting rows after an edit that leaves it enabled or not, its type changed or not. */
  ghost predicate Readjusted(before: seq<Row>, after: seq<Row>, channel: int, changed: bool, enabled: bool, at: int) {
    if changed then Moved(before, after, channel, QUEUED + {Paused}, Discarded)
    else if !enabled then Moved(before, after, channel, QUEUED, Paused)
    else
      Moved(before, after, channel, {Retry, Blocked, Paused}, Retry)
      && Renewed(before, after, channel, {Retry, Blocked, Paused}, at)
  }

  /**
   A failed delivery is given up with a deleted channel, paused with a disabled one,
   and retried at a new revision; otherwise it uses budget, and a block takes every
   queued row of the channel along to one probe time.
   */
  ghost predicate Recorded(before: Db, after: seq<Row>, f: Failure, block: bool)
    requires InFlight(before.rows, f.id, f.channel) && f.channel in before.channels
  {
    var c, was := before.channels[f.channel], before.rows[f.id];
    && |after| == |before.rows| && SameNotice(was, after[f.id])
    && after[f.id].status == (if c.deleted then Discarded else if !c.enabled then Paused
                              else if c.revision != f.revision || !block then Retry else Blocked)
    && after[f.id].attempts == (if Live(before, f) then was.attempts + 1 else was.attempts)
    && after[f.id].probes == (if Live(before, f) && block then was.probes + 1 else 0)
    && (!Live(before, f) || !block ==> Only(before.rows, after, f.id))
    && (Live(before, f) && block ==> Gathered(before.rows, after, f))
  }

  /** The channel's queued rows are blocked until the probe time; what is paused, in flight or settled stays. */
  ghost predicate Gathered(before: seq<Row>, after: seq<Row>, f: Failure) {
    && |before| == |after|
    && forall i :: 0 <= i < |before| && i != f.id ==>
         if before[i].channel == f.channel && before[i].status in QUEUED then
           after[i].status.Blocked? && after[i].dueAt == f.next && SameNotice(before[i], after[i])
         else after[i] == before[i]
  }

  lemma RecordMeans(db: Db, f: Failure, block: bool)
    ensures RecordFailure(db, f, block).Some? <==>
      f.revision > 0 && f.channel in db.channels && InFlight(db.rows, f.id, f.channel)
    ensures RecordFailure(db, f, block).Some? ==> Recorded(db, RecordFailure(db, f, block).value.rows, f, block)
  {
    if InFlight(db.rows, f.id, f.channel) && f.channel in db.channels {
      MissMeans(db.rows, f, block);
    }
  }

  lemma MissMeans(rows: seq<Row>, f: Failure, block: bool)
    requires InFlight(rows, f.id, f.channel)
    ensures var after := Missed(rows, f, block);
      && SameNotice(rows[f.id], after[f.id]) && after[f.id].attempts == rows[f.id].attempts + 1
      && after[f.id].status == (if block then Blocked else Retry)
      && after[f.id].probes == (if block then rows[f.id].probes + 1 else 0)
      && (block ==> after[f.id].dueAt == f.next && Gathered(rows, after, f))
      && (!block ==> Only(rows, after, f.id))
  {
  }

  /** A step on sound tables leaves them sound, keeps every notice, and touches nothing that is settled. */
  ghost predicate Sound(before: Db, after: Db) {
    Good(before) ==> Good(after) && Kept(before.rows, after.rows)
  }

  lemma StepIsSound(db: Db, op: Op, codec: Codec)
    ensures Sound(db, Apply(db, op, codec))
  {
    if Good(db) {
      StepKeepsGood(db, op, codec);
    }
  }

  class Store {
    var rows: seq<Row>
    var channels: map<int, Channel>
    var events: nat
    var open: set<nat>
    const codec: Codec

    function Tables(): Db
      reads this
    {
      Db(rows, channels, events, open)
    }

    constructor (codec: Codec)
      ensures Tables() == Db([], map[], 0, {}) && Good(Tables()) && this.codec == codec
    {
      rows, channels, events, open := [], map[], 0, {};
      this.codec := codec;
    }

    // ---- Enqueueing ----

    method InsertNotifications(notices: seq<Notice>, now: int) returns (ok: bool)
      modifies `rows
      ensures ok == Inserted(old(rows), notices, now).Some?
      ensures rows == if ok then Inserted(old(rows), notices, now).value else old(rows)
    {
      var items: seq<Row> := [];
      for i := 0 to |notices|
        invariant |items| == i
        invariant forall j :: 0 <= j < i ==> Enqueueable(notices[j]) && items[j] == Queued(rows, notices[j], now)
      {
        if !Enqueueable(notices[i]) {
          return false;
        }
        items := items + [Queued(rows, notices[i], now)];
      }
      assert items == QueuedRows(rows, notices, now);
      rows := Merge(rows, items);
      return true;
    }

    method InsertAlertNotifications(event: nat, transition: Transition, targets: seq<Target>, now: int)
      returns (ok: bool)
      modifies `rows
      ensures ok == Inserted(old(rows), AlertNotices(event, transition, targets), now).Some?
      ensures rows == if ok then Inserted(old(rows), AlertNotices(event, transition, targets), now).value else old(rows)
    {
      var items: seq<Notice> := [];
      for i := 0 to |targets|
        invariant items == AlertNotices(event, transition, targets[..i])
      {
        var t := targets[i];
        var key := AlertKey(event, transition, t.channel);
        items := items + [Notice(Some(event), transition, t.channel, t.kind, t.payload, key)];
      }
      assert targets[..|targets|] == targets;
      ok := InsertNotifications(items, now);
    }

    /** Inserts a new event together with its opening notices. */
    method WriteOpenTransition(targets: seq<Target>, now: int) returns (ok: bool)
      modifies `rows, `events, `open
      ensures ok == Commit(old(Tables()), OpenEvent(targets, now), codec).Some?
      ensures Tables() == Apply(old(Tables()), OpenEvent(targets, now), codec)
      ensures Sound(old(Tables()), Tables())
    {
      StepIsSound(Tables(), OpenEvent(targets, now), codec);
      ok := InsertAlertNotifications(events, Opened, targets, now);
      if ok {
        open := open + {events};
        events := events + 1;
      }
    }

    /** Closes an event that is still open, with its closing notices; for any other nothing happens. */
    method WriteCloseTransition(event: nat, targets: seq<Target>, now: int) returns (ok: bool, closed: bool)
      modifies `rows, `open
      ensures ok == Commit(old(Tables()), CloseEvent(event, targets, now), codec).Some?
      ensures Tables() == Apply(old(Tables()), CloseEvent(event, targets, now), codec)
      ensures closed <==> ok && event in old(open)
      ensures open == if closed then old(open) - {event} else old(open)
      ensures !closed ==> rows == old(rows)
      ensures Sound(old(Tables()), Tables())
    {
      StepIsSound(Tables(), CloseEvent(event, targets, now), codec);
      if event !in open {
        return true, false;
      }
      ok := InsertAlertNotifications(event, Closed, targets, now);
      closed := ok;
      if ok {
        open := open - {event};
      }
    }

    method EnqueueNotifications(key: string, event: string, targets: seq<Target>, now: int) returns (ok: bool)
      modifies `rows
      ensures var k, e := Text.Trim(key), Text.Trim(event);
        var op := Enqueue(MessageNotices(k, e, targets), now);
        && ok == (k != [] && e != [] && KeysFit(k, targets) && Commit(old(Tables()), op, codec).Some?)
        && Tables() == if ok then Apply(old(Tables()), op, codec) else old(Tables())
    {
      var k, e := Text.Trim(key), Text.Trim(event);
      if k == [] || e == [] {
        return false;
      }
      var items: seq<Notice> := [];
      for i := 0 to |targets|
        invariant items == MessageNotices(k, e, targets[..i])
        invariant forall j :: 0 <= j < i ==> Text.Bytes(MessageKey(k, targets[j].channel)) <= KEY_LIMIT
      {
        var t := targets[i];
        var dedupe := MessageKey(k, t.channel);
        if Text.Bytes(dedupe) > KEY_LIMIT {
          return false;
        }
        items := items + [Notice(None, TransitionOf(e), t.channel, t.kind, t.payload, dedupe)];
      }
      assert targets[..|targets|] == targets;
      ok := InsertNotifications(items, now);
    }

    // ---- Claiming ----

    method TakeNextNotification(now: int) returns (item: Option<nat>)
      modifies `rows
      ensures item == First(old(rows), now, |old(rows)|)
      ensures rows == if item.None? then old(rows) else old(rows)[item.value := Claimed(old(rows)[item.value], now)]
    {
      item := First(rows, now, |rows|);
      if item.None? {
        return;
      }
      var row := rows[item.value];
      var isProbe := row.isProbe || row.status == Blocked;
      rows := rows[item.value := row.(status := Sending, isProbe := isProbe, dueAt := now)];
    }

    method TakeNotificationBatch(now: int) returns (items: seq<nat>)
      modifies `rows
      ensures items == BatchIds(old(rows), now, codec)
      ensures Tables() == Apply(old(Tables()), Take(now), codec)
    {
      var first := TakeNextNotification(now);
      if first.None? {
        return [];
      }
      var row := rows[first.value];
      items := [first.value];
      if !Batchable(row, row.isProbe, codec) {
        assert rows == Batched(old(rows), items, now);
        return;
      }
      var candidates := Candidates(rows, first.value, now, |rows|);
      var ids := FitCandidates(row, candidates);
      BatchInTwo(old(rows), now, codec, first.value, candidates, ids);
      rows := Companions(rows, ids, now);
      items := items + ids;
    }

    /** The companions whose joined messages the channel still accepts. */
    method FitCandidates(first: Row, candidates: seq<nat>) returns (ids: seq<nat>)
      requires forall k :: 0 <= k < |candidates| ==> candidates[k] < |rows|
      ensures ids == candidates[..Fitting(Payloads(rows, candidates), first.kind, 0, [first.payload], codec)]
    {
      ids := [];
      var messages := [first.payload];
      for k := 0 to |candidates|
        invariant ids == candidates[..k]
        invariant Fitting(Payloads(rows, candidates), first.kind, 0, [first.payload], codec)
               == Fitting(Payloads(rows, candidates), first.kind, k, messages, codec)
      {
        var candidate := rows[candidates[k]];
        if !codec.decodes(candidate.payload) {
          break;
        }
        messages := messages + [candidate.payload];
        if first.kind == Telegram && !codec.fits(messages) {
          break;
        }
        ids := ids + [candidates[k]];
      }
    }

    // ---- Settling ----

    method UpdateSending(id: nat, channel: int, change: Change) returns (ok: bool)
      modifies `rows
      ensures ok == Update(old(Tables()), id, channel, change).Some?
      ensures Tables() == if ok then Update(old(Tables()), id, channel, change).value else old(Tables())
    {
      ok := InFlight(rows, id, channel);
      if ok {
        rows := rows[id := Changed(rows[id], change)];
      }
    }

    /** The update of every row that the statement's condition selects. */
    method SweepChannel(channel: int, statuses: set<Status>, change: Change)
      modifies `rows
      ensures rows == Sweep(old(rows), channel, statuses, change)
    {
      for i := 0 to |rows|
        invariant |rows| == |old(rows)|
        invariant forall k :: i <= k < |rows| ==> rows[k] == old(rows)[k]
        invariant forall k :: 0 <= k < i ==> rows[k] == Sweep(old(rows), channel, statuses, change)[k]
      {
        if rows[i].channel == channel && rows[i].status in statuses {
          rows := rows[i := Changed(rows[i], change)];
        }
      }
    }

    /** A row in flight is sent; at the channel's current revision every blocked row is due at once with it. */
    method CompleteNotification(id: nat, channel: int, revision: int, at: int) returns (ok: bool)
      modifies `rows
      ensures Sound(old(Tables()), Tables())
      ensures Tables() == Apply(old(Tables()), Finish(id, channel, revision, at), codec)
      ensures !ok || !old(InFlight(rows, id, channel)) ==> rows == old(rows)
      ensures ok <==>
        && channel in channels && id < |rows| && rows[id].channel == channel
        && old(rows)[id].status in {Sending, Sent}
      ensures ok && old(InFlight(rows, id, channel)) ==>
        && rows[id].status.Sent? && rows[id].sentAt == Some(at) && rows[id].attempts == old(rows)[id].attempts + 1
        && if channels[channel].deleted || VersionChanged(channels[channel], revision) then Only(old(rows), rows, id)
           else
             Moved(old(rows)[id := rows[id]], rows, channel, {Blocked}, Retry)
             && Renewed(old(rows)[id := rows[id]], rows, channel, {Blocked}, at)
    {
      StepIsSound(Tables(), Finish(id, channel, revision, at), codec);
      if channel !in channels {
        return false;
      }
      var c := channels[channel];
      var marked := UpdateSending(id, channel, Send(at));
      if !marked {
        return id < |rows| && rows[id].channel == channel && rows[id].status == Sent;
      }
      if !c.deleted && !VersionChanged(c, revision) {
        SweepChannel(channel, {Blocked}, Wake(at));
      }
      return true;
    }

    /** A failed delivery: what it does to the row depends on what has become of the channel meanwhile. */
    method RecordNotificationFailure(f: Failure, block: bool) returns (ok: bool)
      modifies `rows
      ensures Sound(old(Tables()), Tables())
      ensures Tables() == Apply(old(Tables()), Record(f, block), codec)
      ensures ok <==> f.revision > 0 && f.channel in channels && old(InFlight(rows, f.id, f.channel))
      ensures !ok ==> rows == old(rows)
      ensures ok ==> Recorded(old(Tables()), rows, f, block)
    {
      StepIsSound(Tables(), Record(f, block), codec);
      RecordMeans(Tables(), f, block);
      if f.revision <= 0 || f.channel !in channels {
        return false;
      }
      var c := channels[f.channel];
      if c.deleted {
        ok := UpdateSending(f.id, f.channel, DropDeleted());
      } else if !c.enabled {
        ok := UpdateSending(f.id, f.channel, Pause);
      } else if VersionChanged(c, f.revision) {
        ok := UpdateSending(f.id, f.channel, RetryAt(f.failedAt));
      } else {
        ok := UpdateSending(f.id, f.channel, Miss(f, if block then Blocked else Retry));
        if ok && block {
          SweepChannel(f.channel, {Pending, Retry}, Hold(f));
          SweepChannel(f.channel, {Blocked}, Postpone(f.next));
        }
      }
    }

    /** Lets a row go without a verdict: no budget is used, a probe waits blocked again, any other is retried. */
    method RequeueNotification(id: nat, channel: int, at: int) returns (ok: bool)
      modifies `rows
      ensures Sound(old(Tables()), Tables())
      ensures Tables() == Apply(old(Tables()), Requeue(id, channel, at), codec)
      ensures ok == old(InFlight(rows, id, channel))
      ensures !ok ==> rows == old(rows)
      ensures ok ==>
        && Only(old(rows), rows, id) && SameNotice(old(rows)[id], rows[id])
        && rows[id].dueAt == at && rows[id].attempts == old(rows)[id].attempts && !rows[id].isProbe
      ensures ok && old(rows)[id].isProbe ==>
        && rows[id].status.Blocked? && rows[id].probes == old(rows)[id].probes
        && rows[id].code == old(rows)[id].code && rows[id].error == old(rows)[id].error
      ensures ok && !old(rows)[id].isProbe ==>
        rows[id].status.Retry? && rows[id].probes == 0 && rows[id].code.None? && rows[id].error.None?
    {
      StepIsSound(Tables(), Requeue(id, channel, at), codec);
      ok := UpdateSending(id, channel, Release(at));
    }

    /** A row whose channel is disabled: by now it may be deleted, or enabled again and to be retried. */
    method PauseNotification(f: Failure) returns (ok: bool)
      modifies `rows
      ensures Sound(old(Tables()), Tables())
      ensures Tables() == Apply(old(Tables()), Suspend(f), codec)
      ensures ok <==> f.channel in channels && old(InFlight(rows, f.id, f.channel))
      ensures !ok ==> rows == old(rows)
      ensures ok ==>
        var c := channels[f.channel];
        && Only(old(rows), rows, f.id) && SameNotice(old(rows)[f.id], rows[f.id])
        && rows[f.id].status == (if c.deleted then Discarded else if c.enabled then Retry else Paused)
        && (!c.deleted && c.enabled ==> rows[f.id].dueAt == f.failedAt)
        && rows[f.id].attempts == old(rows)[f.id].attempts && rows[f.id].probes == 0
    {
      StepIsSound(Tables(), Suspend(f), codec);
      if f.channel !in channels {
        return false;
      }
      var c := channels[f.channel];
      if c.deleted {
        ok := UpdateSending(f.id, f.channel, DropDeleted());
      } else if c.enabled {
        ok := UpdateSending(f.id, f.channel, RetryAt(f.failedAt));
      } else {
        ok := UpdateSending(f.id, f.channel, Fail(f, Paused));
      }
    }

    /** A row that cannot be delivered is given up, unless its channel has been edited meanwhile. */
    method DiscardNotification(f: Failure) returns (ok: bool)
      modifies `rows
      ensures Sound(old(Tables()), Tables())
      ensures Tables() == Apply(old(Tables()), Op.Discard(f), codec)
      ensures ok <==> f.channel in channels && old(InFlight(rows, f.id, f.channel))
      ensures !ok ==> rows == old(rows)
      ensures ok ==>
        var c := channels[f.channel];
        var edited := !c.deleted && f.revision > 0 && c.revision != f.revision;
        && Only(old(rows), rows, f.id) && SameNotice(old(rows)[f.id], rows[f.id])
        && rows[f.id].status == (if edited then Retry else Discarded)
        && (edited ==> rows[f.id].dueAt == f.failedAt) && (!edited ==> rows[f.id].code == NonEmpty(f.code))
        && rows[f.id].attempts == old(rows)[f.id].attempts && rows[f.id].probes == 0
    {
      StepIsSound(Tables(), Op.Discard(f), codec);
      if f.channel !in channels {
        return false;
      }
      var c := channels[f.channel];
      if !c.deleted && VersionChanged(c, f.revision) {
        ok := UpdateSending(f.id, f.channel, RetryAt(f.failedAt));
      } else {
        ok := UpdateSending(f.id, f.channel, Fail(f, Discarded));
      }
    }

    // ---- Channel administration ----

    method CreateChannel(channel: int, kind: Kind, enabled: bool) returns (ok: bool)
      modifies `channels
      ensures Sound(old(Tables()), Tables())
      ensures Tables() == Apply(old(Tables()), Create(channel, kind, enabled), codec)
      ensures ok == (channel !in old(channels))
      ensures channels == if ok then old(channels)[channel := Channel(kind, enabled, false, 1)] else old(channels)
    {
      StepIsSound(Tables(), Create(channel, kind, enabled), codec);
      ok := channel !in channels;
      if ok {
        channels := channels[channel := Channel(kind, enabled, false, 1)];
      }
    }

    /** What an edit does to the waiting rows of its channel. */
    method Readjust(channel: int, changed: bool, enabled: bool, at: int)
      modifies `rows
      ensures rows == if changed then Sweep(old(rows), channel, QUEUED + {Paused}, TypeChanged())
                      else if !enabled then Sweep(old(rows), channel, QUEUED, Pause)
                      else Sweep(old(rows), channel, {Retry, Blocked, Paused}, Wake(at))
      ensures Readjusted(old(rows), rows, channel, changed, enabled, at)
    {
      if changed {
        SweepChannel(channel, QUEUED + {Paused}, TypeChanged());
      } else if !enabled {
        SweepChannel(channel, QUEUED, Pause);
      } else {
        SweepChannel(channel, {Retry, Blocked, Paused}, Wake(at));
      }
    }

    /**
     A stale revision changes nothing. Otherwise the channel is replaced under a
     new one, and its waiting rows are given up if its type changed, paused if it
     is disabled now, and due at once if not.
     */
    method ReplaceChannel(channel: int, revision: int, kind: Kind, enabled: bool, at: int) returns (ok: bool)
      modifies `rows, `channels
      ensures Sound(old(Tables()), Tables())
      ensures Tables() == Apply(old(Tables()), Edit(channel, revision, kind, enabled, at), codec)
      ensures ok <==> revision > 0 && old(Usable(Tables(), channel)) && old(channels)[channel].revision == revision
      ensures !ok ==> rows == old(rows) && channels == old(channels)
      ensures ok ==>
        && channels == old(channels)[channel := Channel(kind, enabled, false, revision + 1)]
        && Readjusted(old(rows), rows, channel, old(channels)[channel].kind != kind, enabled, at)
    {
      StepIsSound(Tables(), Edit(channel, revision, kind, enabled, at), codec);
      if revision <= 0 || !Usable(Tables(), channel) || channels[channel].revision != revision {
        return false;
      }
      var current := channels[channel];
      channels := channels[channel := current.(kind := kind, enabled := enabled, revision := current.revision + 1)];
      Readjust(channel, current.kind != kind, enabled, at);
      return true;
    }

    /** A stale revision changes nothing; a new configuration pauses or wakes the waiting rows. */
    method UpdateChannelConfig(channel: int, revision: int, at: int) returns (ok: bool)
      modifies `rows, `channels
      ensures Sound(old(Tables()), Tables())
      ensures Tables() == Apply(old(Tables()), Reconfigure(channel, revision, at), codec)
      ensures ok <==> revision > 0 && old(Usable(Tables(), channel)) && old(channels)[channel].revision == revision
      ensures !ok ==> rows == old(rows) && channels == old(channels)
      ensures ok ==>
        var c := old(channels)[channel];
        && channels == old(channels)[channel := Channel(c.kind, c.enabled, false, revision + 1)]
        && Readjusted(old(rows), rows, channel, false, c.enabled, at)
    {
      StepIsSound(Tables(), Reconfigure(channel, revision, at), codec);
      if revision <= 0 || !Usable(Tables(), channel) || channels[channel].revision != revision {
        return false;
      }
      var current := channels[channel];
      channels := channels[channel := current.(revision := current.revision + 1)];
      Readjust(channel, false, current.enabled, at);
      return true;
    }

    /** Switching a channel off pauses everything that waits, switching it on makes it all due at once. */
    method SetChannelEnabled(channel: int, enabled: bool, at: int) returns (ok: bool)
      modifies `rows, `channels
      ensures Sound(old(Tables()), Tables())
      ensures Tables() == Apply(old(Tables()), Switch(channel, enabled, at), codec)
      ensures ok == old(Usable(Tables(), channel))
      ensures !ok || old(channels)[channel].enabled == enabled ==> rows == old(rows) && channels == old(channels)
      ensures ok && old(channels)[channel].enabled != enabled ==>
        var c := old(channels)[channel];
        && channels == old(channels)[channel := Channel(c.kind, enabled, false, c.revision + 1)]
        && (!enabled ==> Moved(old(rows), rows, channel, QUEUED, Paused))
        && (enabled ==> Moved(old(rows), rows, channel, QUEUED + {Paused}, Retry)
                        && Renewed(old(rows), rows, channel, QUEUED + {Paused}, at))
    {
      StepIsSound(Tables(), Switch(channel, enabled, at), codec);
      if !Usable(Tables(), channel) {
        return false;
      }
      var current := channels[channel];
      if current.enabled == enabled {
        return true;
      }
      channels := channels[channel := current.(enabled := enabled, revision := current.revision + 1)];
      if !enabled {
        SweepChannel(channel, QUEUED, Pause);
      } else {
        SweepChannel(channel, QUEUED + {Paused}, Wake(at));
      }
      return true;
    }

    /** With the channel go all its waiting rows; what is in flight is settled by its sender. */
    method DeleteChannel(channel: int) returns (ok: bool)
      modifies `rows, `channels
      ensures Sound(old(Tables()), Tables())
      ensures Tables() == Apply(old(Tables()), Remove(channel), codec)
      ensures ok == old(Usable(Tables(), channel)) && (ok ==> !Usable(Tables(), channel))
      ensures !ok ==> rows == old(rows) && channels == old(channels)
      ensures ok ==>
        var c := old(channels)[channel];
        && channels == old(channels)[channel := Channel(c.kind, c.enabled, true, c.revision + 1)]
        && Moved(old(rows), rows, channel, QUEUED + {Paused}, Discarded)
    {
      StepIsSound(Tables(), Remove(channel), codec);
      if !Usable(Tables(), channel) {
        return false;
      }
      SweepChannel(channel, QUEUED + {Paused}, DropDeleted());
      var current := channels[channel];
      channels := channels[channel := current.(deleted := true, revision := current.revision + 1)];
      return true;
    }

    /** A delivery that worked outside the outbox ends the wait of an enabled channel at that revision. */
    method RecoverChannelNotifications(channel: int, revision: int, at: int) returns (ok: bool)
      modifies `rows
      ensures Sound(old(Tables()), Tables())
      ensures Tables() == Apply(old(Tables()), Heal(channel, revision, at), codec)
      ensures ok == Usable(Tables(), channel)
      ensures ok && channels[channel].enabled && (revision <= 0 || channels[channel].revision == revision) ==>
        && Moved(old(rows), rows, channel, {Blocked}, Retry) && Renewed(old(rows), rows, channel, {Blocked}, at)
      ensures !(ok && channels[channel].enabled && (revision <= 0 || channels[channel].revision == revision)) ==>
        rows == old(rows)
    {
      StepIsSound(Tables(), Heal(channel, revision, at), codec);
      if !Usable(Tables(), channel) {
        return false;
      }
      var current := channels[channel];
      if !VersionChanged(current, revision) && current.enabled {
        SweepChannel(channel, {Blocked}, Wake(at));
      }
      return true;
    }
  }
}
