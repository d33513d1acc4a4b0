/**
 The notification outbox as a value. Every store transaction is a function from
 the tables it reads to the tables it commits, or None when it is rolled back;
 a run of the program is any sequence of transactions.
 */
module Outbox {
  import opened Wrappers

  datatype Status = Pending | Retry | Blocked | Paused | Sending | Sent | Discarded

  datatype Transition = Opened | Closed | Other(name: string)

  datatype Kind = Unset | Telegram | Email | Webhook | WeChat | Slack | Discord

  /** A row of the outbox; its id is its position, and the identity is everything up to the key. */
  datatype Row = Row(
    event: Option<nat>,
    transition: Transition,
    channel: int,
    kind: Kind,
    payload: string,
    key: string,
    status: Status,
    attempts: int,
    probes: int,
    isProbe: bool,
    dueAt: int,
    code: Option<string>,
    error: Option<string>,
    sentAt: Option<int>)
  {
    predicate Final() {
      status.Sent? || status.Discarded?
    }

    predicate Delivered() {
      status.Sending? || status.Sent?
    }
  }

  datatype Channel = Channel(kind: Kind, enabled: bool, deleted: bool, revision: int)

  /** The tables: the outbox, the channels, how many alert events were ever inserted, and which are open. */
  datatype Db = Db(rows: seq<Row>, channels: map<int, Channel>, events: nat, open: set<nat>)

  /** What a caller asks to be delivered. */
  datatype Notice = Notice(
    event: Option<nat>, transition: Transition, channel: int, kind: Kind, payload: string, key: string)

  /** One channel that an alert transition is delivered to. */
  datatype Target = Target(channel: int, kind: Kind, payload: string)

  datatype Failure = Failure(id: nat, channel: int, revision: int, code: string, error: string, failedAt: int,
    next: int)

  /** Decoding of payloads, and whether joined messages are within what Telegram accepts. */
  datatype Codec = Codec(decodes: string -> bool, fits: seq<string> -> bool)

  const QUEUED := {Pending, Retry, Blocked}
  const BATCH_LIMIT := 99

  // ---- Enqueueing ----

  /** The probe time of a blocked channel among the first n rows, if it has a blocked row. */
  function NextProbe(rows: seq<Row>, channel: int, n: nat): (probe: Option<int>)
    requires n <= |rows|
    ensures probe.None? ==> forall i :: 0 <= i < n && rows[i].channel == channel ==> rows[i].status != Blocked
    ensures probe.Some? ==>
      && (forall i :: 0 <= i < n && rows[i].channel == channel && rows[i].status == Blocked ==>
        probe.value <= rows[i].dueAt)
      && (exists i :: 0 <= i < n && rows[i].channel == channel
                      && rows[i].status == Blocked && probe.value == rows[i].dueAt)
  {
    if n == 0 then None
    else
      var earlier := NextProbe(rows, channel, n - 1);
      var row := rows[n - 1];
      if row.channel == channel && row.status == Blocked && (earlier.None? || row.dueAt < earlier.value) then
        Some(row.dueAt)
      else earlier
  }

  predicate Enqueueable(notice: Notice) {
    notice.channel > 0 && notice.kind != Unset && notice.transition != Other([]) && notice.key != []
  }

  /** A new row waits for the probe of a blocked channel, and is due at once otherwise. */
  function Queued(rows: seq<Row>, notice: Notice, now: int): Row {
    var probe := NextProbe(rows, notice.channel, |rows|);
    Row(notice.event, notice.transition, notice.channel, notice.kind, notice.payload, notice.key,
        if probe.Some? then Blocked else Pending, 0, 0, false,
        if probe.Some? then probe.value else now, None, None, None)
  }

  predicate HasKey(rows: seq<Row>, key: string) {
    exists i :: 0 <= i < |rows| && rows[i].key == key
  }

  /** An insert that does nothing for a row whose key is taken. */
  function Merge(rows: seq<Row>, more: seq<Row>): seq<Row>
    decreases |more|
  {
    if more == [] then rows
    else Merge(if HasKey(rows, more[0].key) then rows else rows + [more[0]], more[1..])
  }

  function QueuedRows(rows: seq<Row>, notices: seq<Notice>, now: int): seq<Row> {
    seq(|notices|, i requires 0 <= i < |notices| => Queued(rows, notices[i], now))
  }

  function Inserted(rows: seq<Row>, notices: seq<Notice>, now: int): Option<seq<Row>> {
    if forall i :: 0 <= i < |notices| ==> Enqueueable(notices[i]) then Some(Merge(rows, QueuedRows(rows, notices, now)))
    else None
  }

  function Decimal(n: int): string
    decreases if n < 0 then 1 - n else n
  {
    if n < 0 then "-" + Decimal(-n)
    else if n < 10 then [('0' as int + n) as char]
    else Decimal(n / 10) + [('0' as int + n % 10) as char]
  }

  function Name(transition: Transition): string {
    match transition
    case Opened => "opened"
    case Closed => "closed"
    case Other(name) => name
  }

  function AlertKey(event: nat, transition: Transition, channel: int): string {
    "alert:" + Decimal(event) + ":" + Name(transition) + ":" + Decimal(channel)
  }

  function AlertNotices(event: nat, transition: Transition, targets: seq<Target>): seq<Notice> {
    seq(|targets|, i requires 0 <= i < |targets| =>
      Notice(Some(event), transition, targets[i].channel, targets[i].kind, targets[i].payload,
             AlertKey(event, transition, targets[i].channel)))
  }

  // ---- Claiming ----

  predicate Due(row: Row, now: int) {
    (row.status in QUEUED && row.dueAt <= now) || row.status.Sending?
  }

  /** The opening notice of the same event and channel. */
  predicate Opens(begin: Row, end: Row) {
    begin.transition.Opened? && begin.event == end.event && begin.channel == end.channel
  }

  /** A closing notice waits until the opening one of its event and channel is settled. */
  predicate Ready(rows: seq<Row>, row: Row) {
    row.transition.Closed? && row.event.Some? ==>
      forall j :: 0 <= j < |rows| && Opens(rows[j], row) ==> rows[j].Final()
  }

  predicate Claimable(rows: seq<Row>, now: int, i: nat)
    requires i < |rows|
  {
    Due(rows[i], now) && Ready(rows, rows[i])
  }

  /** Rows in flight come first, then the longest due, then the oldest. */
  predicate Precedes(rows: seq<Row>, i: nat, j: nat)
    requires i < |rows| && j < |rows|
  {
    if rows[i].status.Sending? != rows[j].status.Sending? then rows[i].status.Sending?
    else if rows[i].dueAt != rows[j].dueAt then rows[i].dueAt < rows[j].dueAt
    else i <= j
  }

  /** The row that a claim takes, among the first n. */
  function First(rows: seq<Row>, now: int, n: nat): (first: Option<nat>)
    requires n <= |rows|
    ensures first.None? ==> forall i :: 0 <= i < n ==> !Claimable(rows, now, i)
    ensures first.Some? ==>
      && first.value < n && Claimable(rows, now, first.value)
      && forall i :: 0 <= i < n && Claimable(rows, now, i) ==> Precedes(rows, first.value, i)
  {
    if n == 0 then None
    else
      var earlier := First(rows, now, n - 1);
      if !Claimable(rows, now, n - 1) then earlier
      else if earlier.Some? && Precedes(rows, earlier.value, n - 1) then earlier
      else Some(n - 1)
  }

  function Claimed(row: Row, now: int): Row {
    row.(status := Sending, isProbe := row.isProbe || row.status.Blocked?, dueAt := now)
  }

  /** What may travel with the first row: due alerts of the same channel, transition and attempt. */
  predicate Joins(rows: seq<Row>, first: nat, now: int, i: nat)
    requires first < |rows| && i < |rows|
  {
    var row, head := rows[i], rows[first];
    && i != first && row.event.Some?
    && row.channel == head.channel && row.kind == head.kind && row.transition == head.transition
    && row.attempts == head.attempts && !row.isProbe
    && row.status in {Pending, Retry, Sending} && row.dueAt <= now
    && Ready(rows, row)
  }

  function Candidates(rows: seq<Row>, first: nat, now: int, n: nat): (ids: seq<nat>)
    requires first < |rows| && n <= |rows|
    ensures |ids| <= BATCH_LIMIT
    ensures forall k :: 0 <= k < |ids| ==> ids[k] < n && Joins(rows, first, now, ids[k])
    ensures forall j, k :: 0 <= j < k < |ids| ==> ids[j] < ids[k]
  {
    if n == 0 then []
    else
      var earlier := Candidates(rows, first, now, n - 1);
      if |earlier| < BATCH_LIMIT && Joins(rows, first, now, n - 1) then earlier + [n - 1] else earlier
  }

  /** A row that may travel along is left out only if there is no room and all that travel are older. */
  lemma {:induction false} CandidatesAreFirst(rows: seq<Row>, first: nat, now: int, n: nat, i: nat)
    requires first < |rows| && i < n <= |rows| && Joins(rows, first, now, i)
    ensures var ids := Candidates(rows, first, now, n);
      i in ids || (|ids| == BATCH_LIMIT && forall k :: 0 <= k < |ids| ==> ids[k] < i)
  {
    if i < n - 1 {
      CandidatesAreFirst(rows, first, now, n - 1, i);
    }
  }

  predicate Batchable(row: Row, probe: bool, codec: Codec) {
    && !probe && row.event.Some?
    && (row.transition.Opened? || row.transition.Closed?)
    && (row.kind.Telegram? || row.kind.Email?)
    && codec.decodes(row.payload)
  }

  function Payloads(rows: seq<Row>, ids: seq<nat>): seq<string>
    requires forall k :: 0 <= k < |ids| ==> ids[k] < |rows|
  {
    seq(|ids|, k requires 0 <= k < |ids| => rows[ids[k]].payload)
  }

  /** How many of the payloads, from the k-th on, still fit behind the messages taken so far. */
  function Fitting(payloads: seq<string>, kind: Kind, k: nat, messages: seq<string>, codec: Codec): (end: nat)
    requires k <= |payloads|
    ensures k <= end <= |payloads|
    decreases |payloads| - k
  {
    if k == |payloads| || !codec.decodes(payloads[k]) then k
    else
      var more := messages + [payloads[k]];
      if kind.Telegram? && !codec.fits(more) then k else Fitting(payloads, kind, k + 1, more, codec)
  }

  /** The rows one claim takes, in order. */
  function BatchIds(rows: seq<Row>, now: int, codec: Codec): (ids: seq<nat>)
    ensures forall k :: 0 <= k < |ids| ==> ids[k] < |rows|
    ensures |ids| <= BATCH_LIMIT + 1
  {
    var first := First(rows, now, |rows|);
    if first.None? then []
    else
      var row := rows[first.value];
      if !Batchable(row, row.isProbe || row.status.Blocked?, codec) then [first.value]
      else
        var ids := Candidates(rows, first.value, now, |rows|);
        [first.value] + ids[..Fitting(Payloads(rows, ids), row.kind, 0, [row.payload], codec)]
  }

  /** A batched row is in flight like the first one; only the first can be a probe. */
  function Batched(rows: seq<Row>, ids: seq<nat>, now: int): (after: seq<Row>)
    ensures |after| == |rows|
  {
    seq(|rows|, i requires 0 <= i < |rows| =>
      if ids == [] || i !in ids then rows[i]
      else if i == ids[0] then Claimed(rows[i], now)
      else rows[i].(status := Sending, dueAt := now))
  }

  // ---- Settling ----

  /** The column assignments of the store's update statements. */
  datatype Change =
    | Send(at: int)
    | Fail(failure: Failure, status: Status)
    | Miss(failure: Failure, status: Status)
    | RetryAt(at: int)
    | Release(at: int)
    | Wake(at: int)
    | Hold(failure: Failure)
    | Postpone(at: int)
    | Pause
    | Drop(code: string, error: string)

  function NonEmpty(s: string): Option<string> {
    if s == [] then None else Some(s)
  }

  function Failed(row: Row, f: Failure, status: Status): Row {
    row.(status := status, code := NonEmpty(f.code), error := NonEmpty(f.error), isProbe := false,
         probes := if status.Blocked? then row.probes else 0, dueAt := if f.next == 0 then row.dueAt else f.next)
  }

  function Changed(row: Row, change: Change): Row {
    match change
    case Send(at) =>
      row.(status := Sent, sentAt := Some(at), attempts := row.attempts + 1, probes := 0, code := None, error := None,
           isProbe := false)
    case Fail(f, status) => Failed(row, f, status)
    case Miss(f, status) =>
      var failed := Failed(row, f, status);
      failed.(attempts := row.attempts + 1, probes := if status.Blocked? then row.probes + 1 else 0)
    case RetryAt(at) =>
      row.(status := Retry, dueAt := at, code := None, error := None, probes := 0, isProbe := false)
    case Release(at) =>
      if row.isProbe then row.(status := Blocked, dueAt := at, isProbe := false)
      else row.(status := Retry, dueAt := at, code := None, error := None, probes := 0)
    case Wake(at) =>
      row.(status := Retry, isProbe := false, attempts := 0, dueAt := at, code := None, error := None, probes := 0)
    case Hold(f) =>
      row.(status := Blocked, isProbe := false, dueAt := f.next, code := NonEmpty(f.code), error := NonEmpty(f.error),
           probes := 0)
    case Postpone(at) => row.(dueAt := at)
    case Pause => row.(status := Paused, isProbe := false, code := Some("channel_disabled"), error := None, probes := 0)
    case Drop(code, error) =>
      row.(status := Discarded, isProbe := false, code := NonEmpty(code), error := NonEmpty(error), probes := 0)
  }

  /** Every row of the channel in one of the statuses. */
  function Sweep(rows: seq<Row>, channel: int, statuses: set<Status>, change: Change): (after: seq<Row>)
    ensures |after| == |rows|
  {
    seq(|rows|, i requires 0 <= i < |rows| =>
      if rows[i].channel == channel && rows[i].status in statuses then Changed(rows[i], change) else rows[i])
  }

  predicate InFlight(rows: seq<Row>, id: nat, channel: int) {
    id < |rows| && rows[id].channel == channel && rows[id].status.Sending?
  }

  /** A row that is no longer in flight is a conflict, and rolls the transaction back. */
  function Update(db: Db, id: nat, channel: int, change: Change): Option<Db> {
    if InFlight(db.rows, id, channel) then Some(db.(rows := db.rows[id := Changed(db.rows[id], change)])) else None
  }

  predicate VersionChanged(channel: Channel, observed: int) {
    observed > 0 && channel.revision != observed
  }

  function DropDeleted(): Change {
    Drop("channel_deleted", "notification channel deleted")
  }

  function TypeChanged(): Change {
    Drop("channel_type_changed", "notification channel type changed")
  }

  function Complete(db: Db, id: nat, channel: int, revision: int, at: int): Option<Db> {
    if channel !in db.channels then None
    else if InFlight(db.rows, id, channel) then
      var rows := db.rows[id := Changed(db.rows[id], Send(at))];
      var c := db.channels[channel];
      Some(db.(rows := if c.deleted || VersionChanged(c, revision) then rows
                       else Sweep(rows, channel, {Blocked}, Wake(at))))
    else if id < |db.rows| && db.rows[id].channel == channel && db.rows[id].status.Sent? then Some(db)
    else None
  }

  /** A failed delivery at the channel's current revision; a blocked channel holds its whole queue. */
  function Missed(rows: seq<Row>, f: Failure, block: bool): (after: seq<Row>)
    requires f.id < |rows|
    ensures |after| == |rows|
  {
    if block then
      Sweep(Sweep(rows[f.id := Changed(rows[f.id], Miss(f, Blocked))], f.channel, {Pending, Retry}, Hold(f)),
            f.channel, {Blocked}, Postpone(f.next))
    else rows[f.id := Changed(rows[f.id], Miss(f, Retry))]
  }

  predicate Live(db: Db, f: Failure) {
    && f.channel in db.channels
    && var c := db.channels[f.channel]; c.enabled && !c.deleted && c.revision == f.revision
  }

  function RecordFailure(db: Db, f: Failure, block: bool): Option<Db> {
    if f.revision <= 0 || f.channel !in db.channels then None
    else
      var c := db.channels[f.channel];
      if c.deleted then Update(db, f.id, f.channel, DropDeleted())
      else if !c.enabled then Update(db, f.id, f.channel, Pause)
      else if VersionChanged(c, f.revision) then Update(db, f.id, f.channel, RetryAt(f.failedAt))
      else if InFlight(db.rows, f.id, f.channel) then Some(db.(rows := Missed(db.rows, f, block)))
      else None
  }

  function PauseOne(db: Db, f: Failure): Option<Db> {
    if f.channel !in db.channels then None
    else
      var c := db.channels[f.channel];
      if c.deleted then Update(db, f.id, f.channel, DropDeleted())
      else if c.enabled then Update(db, f.id, f.channel, RetryAt(f.failedAt))
      else Update(db, f.id, f.channel, Fail(f, Paused))
  }

  function DiscardOne(db: Db, f: Failure): Option<Db> {
    if f.channel !in db.channels then None
    else
      var c := db.channels[f.channel];
      if !c.deleted && VersionChanged(c, f.revision) then Update(db, f.id, f.channel, RetryAt(f.failedAt))
      else Update(db, f.id, f.channel, Fail(f, Discarded))
  }

  // ---- Channel administration ----

  predicate Usable(db: Db, channel: int) {
    channel in db.channels && !db.channels[channel].deleted
  }

  function Administered(db: Db, channel: int, now: Channel, statuses: set<Status>, change: Change): Db {
    db.(channels := db.channels[channel := now], rows := Sweep(db.rows, channel, statuses, change))
  }

  function Replace(db: Db, channel: int, revision: int, kind: Kind, enabled: bool, at: int): Option<Db> {
    if revision <= 0 || !Usable(db, channel) || db.channels[channel].revision != revision then None
    else
      var now := Channel(kind, enabled, false, revision + 1);
      if db.channels[channel].kind != kind then
        Some(Administered(db, channel, now, QUEUED + {Paused}, TypeChanged()))
      else if !enabled then Some(Administered(db, channel, now, QUEUED, Pause))
      else Some(Administered(db, channel, now, {Retry, Blocked, Paused}, Wake(at)))
  }

  function Configure(db: Db, channel: int, revision: int, at: int): Option<Db> {
    if revision <= 0 || !Usable(db, channel) || db.channels[channel].revision != revision then None
    else
      var now := db.channels[channel].(revision := revision + 1);
      if !now.enabled then Some(Administered(db, channel, now, QUEUED, Pause))
      else Some(Administered(db, channel, now, {Retry, Blocked, Paused}, Wake(at)))
  }

  function Enable(db: Db, channel: int, enabled: bool, at: int): Option<Db> {
    if !Usable(db, channel) then None
    else
      var c := db.channels[channel];
      var now := c.(enabled := enabled, revision := c.revision + 1);
      if c.enabled == enabled then Some(db)
      else if !enabled then Some(Administered(db, channel, now, QUEUED, Pause))
      else Some(Administered(db, channel, now, QUEUED + {Paused}, Wake(at)))
  }

  function Delete(db: Db, channel: int): Option<Db> {
    if !Usable(db, channel) then None
    else
      var c := db.channels[channel];
      Some(Administered(db, channel, c.(deleted := true, revision := c.revision + 1), QUEUED + {Paused}, DropDeleted()))
  }

  function Recover(db: Db, channel: int, revision: int, at: int): Option<Db> {
    if !Usable(db, channel) then None
    else if VersionChanged(db.channels[channel], revision) || !db.channels[channel].enabled then Some(db)
    else Some(db.(rows := Sweep(db.rows, channel, {Blocked}, Wake(at))))
  }

  // ---- Transactions and runs ----

  datatype Op =
    | OpenEvent(targets: seq<Target>, now: int)
    | CloseEvent(event: nat, targets: seq<Target>, now: int)
    | Enqueue(notices: seq<Notice>, now: int)
    | Take(now: int)
    | Finish(id: nat, channel: int, revision: int, at: int)
    | Record(failure: Failure, block: bool)
    | Requeue(id: nat, channel: int, at: int)
    | Suspend(failure: Failure)
    | Discard(failure: Failure)
    | Create(channel: int, kind: Kind, enabled: bool)
    | Edit(channel: int, revision: int, kind: Kind, enabled: bool, at: int)
    | Reconfigure(channel: int, revision: int, at: int)
    | Switch(channel: int, enabled: bool, at: int)
    | Remove(channel: int)
    | Heal(channel: int, revision: int, at: int)

  function WithRows(db: Db, rows: Option<seq<Row>>): Option<Db> {
    if rows.Some? then Some(db.(rows := rows.value)) else None
  }

  /** The committed state of one transaction, or None when it is rolled back. */
  function Commit(db: Db, op: Op, codec: Codec): Option<Db> {
    match op
    case OpenEvent(targets, now) =>
      WithRows(db.(events := db.events + 1, open := db.open + {db.events}),
               Inserted(db.rows, AlertNotices(db.events, Opened, targets), now))
    case CloseEvent(event, targets, now) =>
      if event !in db.open then Some(db)
      else WithRows(db.(open := db.open - {event}), Inserted(db.rows, AlertNotices(event, Closed, targets), now))
    case Enqueue(notices, now) =>
      if forall i :: 0 <= i < |notices| ==> notices[i].event.None? then WithRows(db, Inserted(db.rows, notices, now))
      else None
    case Take(now) => Some(db.(rows := Batched(db.rows, BatchIds(db.rows, now, codec), now)))
    case Finish(id, channel, revision, at) => Complete(db, id, channel, revision, at)
    case Record(failure, block) => RecordFailure(db, failure, block)
    case Requeue(id, channel, at) => Update(db, id, channel, Release(at))
    case Suspend(failure) => PauseOne(db, failure)
    case Discard(failure) => DiscardOne(db, failure)
    case Create(channel, kind, enabled) =>
      if channel in db.channels then None
      else Some(db.(channels := db.channels[channel := Channel(kind, enabled, false, 1)]))
    case Edit(channel, revision, kind, enabled, at) => Replace(db, channel, revision, kind, enabled, at)
    case Reconfigure(channel, revision, at) => Configure(db, channel, revision, at)
    case Switch(channel, enabled, at) => Enable(db, channel, enabled, at)
    case Remove(channel) => Delete(db, channel)
    case Heal(channel, revision, at) => Recover(db, channel, revision, at)
  }

  function Apply(db: Db, op: Op, codec: Codec): Db {
    var after := Commit(db, op, codec);
    if after.Some? then after.value else db
  }

  ghost predicate Run(dbs: seq<Db>, ops: seq<Op>, codec: Codec) {
    |dbs| == |ops| + 1 && forall k :: 0 <= k < |ops| ==> dbs[k + 1] == Apply(dbs[k], ops[k], codec)
  }
}
