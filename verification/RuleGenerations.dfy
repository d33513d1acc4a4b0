/**
 Rule generations, open events and control tasks. A change of what a rule means
 starts a new generation and, in the same transaction, a task that closes what
 the old one opened. User rules have positive ids, built-in ones negative.
 */
module RuleGenerations {
  import opened Wrappers

  datatype Rule = Rule(
    name: string,
    enabled: bool,
    deleted: bool,
    generation: nat,
    metric: string,
    operator: string,
    threshold: real,
    duration: int,
    cooldown: int,
    mode: string,
    offset: real)

  /** The columns a patch sets, already normalised. */
  datatype Updates = Updates(
    name: Option<string>,
    enabled: Option<bool>,
    metric: Option<string>,
    operator: Option<string>,
    threshold: Option<real>,
    duration: Option<int>,
    cooldown: Option<int>,
    mode: Option<string>,
    offset: Option<real>)

  datatype Target = Target(kind: string, id: int)

  datatype Event = Event(rule: int, generation: nat, target: Target, open: bool, reason: Option<string>)

  datatype TaskKey = RuleKey(rule: int, generation: nat) | Named(name: string)

  datatype Payload = Change(rule: int, past: nat, live: nat, reason: string) | Reconcile

  datatype Task = Task(key: TaskKey, payload: Payload, failed: bool)

  /** The tables; an event's id is its position, a task's id its key, and ids are never reused. */
  datatype Db = Db(rules: map<int, Rule>, events: seq<Event>, tasks: map<nat, Task>, nextTask: nat)

  // ---- Rules ----

  function Given<T>(update: Option<T>, current: T): T {
    if update.Some? then update.value else current
  }

  predicate SameFloat(a: real, b: real) {
    -0.000000001 < a - b < 0.000000001
  }

  function Updated(rule: Rule, u: Updates): Rule {
    Rule(Given(u.name, rule.name), Given(u.enabled, rule.enabled), rule.deleted, rule.generation,
         Given(u.metric, rule.metric), Given(u.operator, rule.operator), Given(u.threshold, rule.threshold),
         Given(u.duration, rule.duration), Given(u.cooldown, rule.cooldown), Given(u.mode, rule.mode),
         Given(u.offset, rule.offset))
  }

  predicate NeedsGeneration(rule: Rule, u: Updates) {
    || (u.enabled.Some? && u.enabled.value != rule.enabled)
    || (u.metric.Some? && u.metric.value != rule.metric)
    || (u.operator.Some? && u.operator.value != rule.operator)
    || (u.threshold.Some? && !SameFloat(u.threshold.value, rule.threshold))
    || (u.duration.Some? && u.duration.value != rule.duration)
    || (u.cooldown.Some? && u.cooldown.value != rule.cooldown)
    || (u.mode.Some? && u.mode.value != rule.mode)
    || (u.offset.Some? && !SameFloat(u.offset.value, rule.offset))
  }

  /** Two rules that evaluate alike, up to the precision at which thresholds are compared. */
  predicate SameMeaning(a: Rule, b: Rule) {
    && a.enabled == b.enabled && a.deleted == b.deleted && a.metric == b.metric && a.operator == b.operator
    && a.duration == b.duration && a.cooldown == b.cooldown && a.mode == b.mode
    && SameFloat(a.threshold, b.threshold) && SameFloat(a.offset, b.offset)
  }

  /** A patch keeps its generation exactly when the rule it leaves evaluates like the one it found. */
  lemma GenerationFollowsMeaning(rule: Rule, u: Updates)
    ensures NeedsGeneration(rule, u) <==> !SameMeaning(Updated(rule, u), rule)
  {
  }

  function AfterAll(rule: Rule, patches: seq<Updates>): Rule
    decreases |patches|
  {
    if patches == [] then rule else AfterAll(Updated(rule, patches[0]), patches[1..])
  }

  /** None of the patches starts a new generation. */
  predicate KeepGeneration(rule: Rule, patches: seq<Updates>)
    decreases |patches|
  {
    patches == [] || (!NeedsGeneration(rule, patches[0]) && KeepGeneration(Updated(rule, patches[0]), patches[1..]))
  }

  predicate Within(a: real, b: real, distance: real) {
    -distance <= a - b <= distance
  }

  /** Within one generation thresholds drift by at most a comparison's precision a patch, and nothing else changes. */
  lemma {:induction false} DriftIsBounded(rule: Rule, patches: seq<Updates>)
    requires KeepGeneration(rule, patches)
    ensures var after := AfterAll(rule, patches);
      && Within(after.threshold, rule.threshold, |patches| as real * 0.000000001)
      && Within(after.offset, rule.offset, |patches| as real * 0.000000001)
      && SameMeaning(after.(threshold := rule.threshold, offset := rule.offset), rule)
    decreases |patches|
  {
    if patches != [] {
      var next := Updated(rule, patches[0]);
      GenerationFollowsMeaning(rule, patches[0]);
      DriftIsBounded(next, patches[1..]);
      assert |patches| as real == 1.0 + |patches[1..]| as real;
    }
  }

  /** A patch that moves the threshold by half of that precision. */
  function Nudge(rule: Rule): Updates {
    Updates(None, None, None, None, Some(rule.threshold + 0.0000000005), None, None, None, None)
  }

  function Nudges(rule: Rule, n: nat): seq<Updates>
    decreases n
  {
    if n == 0 then [] else [Nudge(rule)] + Nudges(Updated(rule, Nudge(rule)), n - 1)
  }

  /** The drift is real: patches that each change too little move the threshold any distance in one generation. */
  lemma {:induction false} DriftAddsUp(rule: Rule, n: nat)
    ensures KeepGeneration(rule, Nudges(rule, n))
    ensures AfterAll(rule, Nudges(rule, n)).threshold == rule.threshold + n as real * 0.0000000005
    ensures n > 1 ==> !SameMeaning(AfterAll(rule, Nudges(rule, n)), rule)
    decreases n
  {
    if n > 0 {
      var next := Updated(rule, Nudge(rule));
      DriftAddsUp(next, n - 1);
      assert Nudges(rule, n)[1..] == Nudges(next, n - 1);
      assert n as real == 1.0 + (n - 1) as real;
    }
  }

  function ReasonFor(rule: Rule, u: Updates): string {
    if u.enabled.Some? && rule.enabled && !u.enabled.value then "rule_disabled" else "rule_updated"
  }

  // ---- Transactions ----

  /** An insert that does nothing when the key is taken. */
  function Enqueued(db: Db, key: TaskKey, payload: Payload): Db {
    if exists t :: t in db.tasks && db.tasks[t].key == key then db
    else db.(tasks := db.tasks[db.nextTask := Task(key, payload, false)], nextTask := db.nextTask + 1)
  }

  predicate Found(db: Db, id: int) {
    id in db.rules && !db.rules[id].deleted
  }

  function Created(db: Db, id: int, rule: Rule): Option<Db> {
    if id <= 0 || id in db.rules then None
    else
      var born := rule.(deleted := false, generation := if rule.generation == 0 then 1 else rule.generation);
      Some(Enqueued(db.(rules := db.rules[id := born]), RuleKey(id, born.generation),
                    Change(id, 0, born.generation, "")))
  }

  /** The rule's next generation, with a task that closes what the current one opened. */
  function Advanced(db: Db, id: int, rule: Rule, reason: string): Db
    requires id in db.rules
  {
    var current := db.rules[id].generation;
    Enqueued(db.(rules := db.rules[id := rule.(generation := current + 1)]), RuleKey(id, current + 1),
             Change(id, current, current + 1, reason))
  }

  function Patched(db: Db, id: int, u: Updates): Option<Db> {
    if !Found(db, id) then None
    else if NeedsGeneration(db.rules[id], u) then
      Some(Advanced(db, id, Updated(db.rules[id], u), ReasonFor(db.rules[id], u)))
    else Some(db.(rules := db.rules[id := Updated(db.rules[id], u)]))
  }

  function Deleted(db: Db, id: int): Option<Db> {
    if !Found(db, id) then None else Some(Advanced(db, id, db.rules[id].(deleted := true), "rule_deleted"))
  }

  predicate OpenOf(event: Event, rule: int, generation: nat) {
    event.open && event.rule == rule && event.generation == generation
  }

  /** The open event of a rule generation and target among the first n, which the partial index keeps unique. */
  function FindOpen(events: seq<Event>, rule: int, generation: nat, target: Target, n: nat): (found: Option<nat>)
    requires n <= |events|
    ensures found.None? ==> forall i :: 0 <= i < n && OpenOf(events[i], rule, generation) ==> events[i].target != target
    ensures found.Some? ==>
      found.value < n && OpenOf(events[found.value], rule, generation) && events[found.value].target == target
  {
    if n == 0 then None
    else if OpenOf(events[n - 1], rule, generation) && events[n - 1].target == target then Some(n - 1)
    else FindOpen(events, rule, generation, target, n - 1)
  }

  /** A user rule opens events only in its live generation, while it is enabled and not deleted. */
  predicate MayOpen(db: Db, rule: int, generation: nat) {
    rule < 0
    || (rule in db.rules && db.rules[rule].generation == generation && db.rules[rule].enabled
      && !db.rules[rule].deleted)
  }

  datatype Opening = Stale | Opening(event: nat, created: bool)

  function OpenResult(db: Db, rule: int, generation: nat, target: Target): Opening {
    var found := FindOpen(db.events, rule, generation, target, |db.events|);
    if !MayOpen(db, rule, generation) then Stale
    else if found.Some? then Opening(found.value, false)
    else Opening(|db.events|, true)
  }

  function Opened(db: Db, rule: int, generation: nat, target: Target): Db {
    var result := OpenResult(db, rule, generation, target);
    if result.Opening? && result.created then
      db.(events := db.events + [Event(rule, generation, target, true, None)])
    else db
  }

  datatype Which = ById(id: nat) | ByKey(rule: int, generation: nat, target: Target)

  /** The open event a close transition means, if it is still open. */
  function Lookup(events: seq<Event>, which: Which): (found: Option<nat>)
    ensures found.Some? ==> found.value < |events| && events[found.value].open
  {
    match which
    case ById(id) => if id < |events| && events[id].open then Some(id) else None
    case ByKey(rule, generation, target) => FindOpen(events, rule, generation, target, |events|)
  }

  function Closed(db: Db, which: Which, reason: string): Db {
    var found := Lookup(db.events, which);
    if found.None? then db
    else
      var i := found.value;
      db.(events := db.events[i := db.events[i].(open := false, reason := if reason == [] then None else Some(reason))])
  }

  // ---- Invariant ----

  ghost predicate Current(db: Db) {
    && (forall id :: id in db.rules ==> id > 0 && db.rules[id].generation > 0)
    && (forall i :: 0 <= i < |db.events| && db.events[i].rule >= 0 ==>
          db.events[i].rule in db.rules && 0 < db.events[i].generation <= db.rules[db.events[i].rule].generation)
  }

  /** At most one open event for a rule generation and target. */
  ghost predicate Unique(events: seq<Event>) {
    forall i, j ::
      0 <= i < j < |events| && events[i].open && OpenOf(events[j], events[i].rule, events[i].generation) ==>
      events[i].target != events[j].target
  }

  ghost predicate ValidTask(db: Db, task: Task) {
    match task.payload
    case Reconcile => task.key.Named?
    case Change(rule, past, live, reason) =>
      && rule > 0 && rule in db.rules && live <= db.rules[rule].generation && past < live
      && task.key == RuleKey(rule, live) && !task.failed && (past > 0 ==> reason != [])
  }

  ghost predicate Tasked(db: Db) {
    && (forall t :: t in db.tasks ==> t < db.nextTask && ValidTask(db, db.tasks[t]))
    && (forall t, u :: t in db.tasks && u in db.tasks && db.tasks[t].key == db.tasks[u].key ==> t == u)
  }

  /** A pending task that closes the events of the rule's generation. */
  ghost predicate Closes(task: Task, rule: int, generation: nat) {
    && task.payload.Change? && task.payload.rule == rule && task.payload.past == generation
    && task.payload.reason != [] && !task.failed
  }

  ghost predicate Covered(db: Db, rule: int, generation: nat) {
    exists t :: t in db.tasks && Closes(db.tasks[t], rule, generation)
  }

  ghost predicate StaleOpen(db: Db, i: int) {
    && 0 <= i < |db.events| && db.events[i].open && db.events[i].rule in db.rules
    && db.events[i].generation < db.rules[db.events[i].rule].generation
  }

  /** Every open event that outlived its generation has a pending task that will close it. */
  ghost predicate AllCovered(db: Db) {
    forall i :: StaleOpen(db, i) ==> Covered(db, db.events[i].rule, db.events[i].generation)
  }

  ghost predicate Inv(db: Db) {
    Current(db) && Unique(db.events) && Tasked(db) && AllCovered(db)
  }

  /**
   Generations only grow, a closed event stays closed, a new one belongs to a
   generation not yet past, and a task is never rewritten.
   */
  ghost predicate Later(a: Db, b: Db) {
    && (forall id :: id in a.rules ==> id in b.rules && a.rules[id].generation <= b.rules[id].generation)
    && |a.events| <= |b.events|
    && (forall i :: 0 <= i < |a.events| ==>
          && b.events[i].rule == a.events[i].rule && b.events[i].generation == a.events[i].generation
          && b.events[i].target == a.events[i].target && (b.events[i].open ==> a.events[i].open))
    && (forall i :: |a.events| <= i < |b.events| && b.events[i].rule in a.rules ==>
          a.rules[b.events[i].rule].generation <= b.events[i].generation)
    && a.nextTask <= b.nextTask
    && (forall t :: t in b.tasks && t < a.nextTask ==> t in a.tasks && b.tasks[t] == a.tasks[t])
  }

  /** No event of the rule's generation is open. */
  ghost predicate NoneOpen(db: Db, rule: int, generation: nat) {
    forall i :: 0 <= i < |db.events| ==> !OpenOf(db.events[i], rule, generation)
  }

  ghost predicate Past(db: Db, rule: int, generation: nat) {
    rule in db.rules && generation < db.rules[rule].generation
  }

  /** Once the events of a past generation are closed, none is ever open again. */
  lemma NeverReopened(a: Db, b: Db, rule: int, generation: nat)
    requires Later(a, b) && Past(a, rule, generation) && NoneOpen(a, rule, generation)
    ensures Past(b, rule, generation) && NoneOpen(b, rule, generation)
  {
  }

  lemma LaterTwice(a: Db, b: Db, c: Db)
    requires Later(a, b) && Later(b, c)
    ensures Later(a, c)
  {
  }

  // ---- Every transaction keeps the invariant ----

  lemma EnqueueKeeps(db: Db, key: TaskKey, payload: Payload)
    requires Current(db) && Unique(db.events) && Tasked(db) && ValidTask(db, Task(key, payload, false))
    ensures var after := Enqueued(db, key, payload);
      && Tasked(after) && (forall t :: t in db.tasks ==> t in after.tasks && after.tasks[t] == db.tasks[t])
      && (exists t :: t in after.tasks && after.tasks[t].key == key)
  {
    var after := Enqueued(db, key, payload);
    if !exists t :: t in db.tasks && db.tasks[t].key == key {
      assert after.tasks[db.nextTask].key == key;
      assert forall t :: t in after.tasks ==> t == db.nextTask || t in db.tasks;
      forall t | t in after.tasks
        ensures ValidTask(after, after.tasks[t])
      {
        assert ValidTask(db, after.tasks[t]);
      }
    }
  }

  lemma TasksSurvive(a: Db, b: Db)
    requires Tasked(a) && a.tasks == b.tasks && a.nextTask == b.nextTask
    requires forall id :: id in a.rules ==> id in b.rules && a.rules[id].generation <= b.rules[id].generation
    ensures Tasked(b)
  {
  }

  /** Advancing a rule strands the open events of its generation, and the new task is there to close them. */
  lemma AdvanceKeeps(db: Db, id: int, rule: Rule, reason: string)
    requires Inv(db) && id in db.rules && reason != []
    ensures Inv(Advanced(db, id, rule, reason)) && Later(db, Advanced(db, id, rule, reason))
  {
    var current := db.rules[id].generation;
    var between := db.(rules := db.rules[id := rule.(generation := current + 1)]);
    var key, payload := RuleKey(id, current + 1), Change(id, current, current + 1, reason);
    var after := Advanced(db, id, rule, reason);
    assert forall t :: t in db.tasks ==> ValidTask(db, db.tasks[t]) && db.tasks[t].key != key;
    assert after.tasks == db.tasks[db.nextTask := Task(key, payload, false)];
    TasksSurvive(db, between);
    assert ValidTask(between, Task(key, payload, false));
    EnqueueKeeps(between, key, payload);
    AdvanceCovers(db, id, rule, reason, after);
  }

  lemma AdvanceCovers(db: Db, id: int, rule: Rule, reason: string, after: Db)
    requires Inv(db) && id in db.rules && reason != []
    requires var current := db.rules[id].generation;
      && after.rules == db.rules[id := rule.(generation := current + 1)] && after.events == db.events
      && after.tasks ==
        db.tasks[db.nextTask := Task(RuleKey(id, current + 1), Change(id, current, current + 1, reason), false)]
    ensures AllCovered(after)
  {
    assert Closes(after.tasks[db.nextTask], id, db.rules[id].generation);
    assert db.nextTask !in db.tasks;
    forall i | StaleOpen(after, i)
      ensures Covered(after, after.events[i].rule, after.events[i].generation)
    {
      var e := after.events[i];
      if e.rule == id && e.generation == db.rules[id].generation {
        assert after.tasks[db.nextTask].payload.rule == id;
      } else {
        assert StaleOpen(db, i);
        var t :| t in db.tasks && Closes(db.tasks[t], e.rule, e.generation);
        assert t in after.tasks && after.tasks[t] == db.tasks[t];
      }
    }
  }

  lemma CreateKeeps(db: Db, id: int, rule: Rule)
    requires Inv(db) && id > 0 && id !in db.rules
    ensures Inv(Created(db, id, rule).value) && Later(db, Created(db, id, rule).value)
  {
    CreatedTasked(db, id, rule);
    CreatedCovered(db, id, rule);
    CreatedLater(db, id, rule);
  }

  lemma CreatedTasked(db: Db, id: int, rule: Rule)
    requires Inv(db) && id > 0 && id !in db.rules
    ensures var after := Created(db, id, rule).value;
      Tasked(after) && forall t :: t in db.tasks ==> t in after.tasks && after.tasks[t] == db.tasks[t]
  {
    var born := Created(db, id, rule).value.rules[id];
    var between := db.(rules := db.rules[id := born]);
    TasksSurvive(db, between);
    EnqueueKeeps(between, RuleKey(id, born.generation), Change(id, 0, born.generation, ""));
  }

  lemma CreatedCovered(db: Db, id: int, rule: Rule)
    requires Inv(db) && id > 0 && id !in db.rules
    ensures AllCovered(Created(db, id, rule).value)
  {
    var after := Created(db, id, rule).value;
    CreatedTasked(db, id, rule);
    assert forall i :: StaleOpen(after, i) ==> StaleOpen(db, i);
    CoverageCarries(db, after);
  }

  lemma CreatedLater(db: Db, id: int, rule: Rule)
    requires Inv(db) && id > 0 && id !in db.rules
    ensures Later(db, Created(db, id, rule).value)
  {
  }

  /** The tasks are still there, and no event became stale: coverage carries over. */
  lemma CoverageCarries(a: Db, b: Db)
    requires AllCovered(a) && forall t :: t in a.tasks ==> t in b.tasks && b.tasks[t] == a.tasks[t]
    requires forall i :: StaleOpen(b, i) ==>
      StaleOpen(a, i) && a.events[i].rule == b.events[i].rule && a.events[i].generation == b.events[i].generation
    ensures AllCovered(b)
  {
  }

  lemma PatchKeeps(db: Db, id: int, u: Updates)
    requires Inv(db) && Found(db, id)
    ensures Inv(Patched(db, id, u).value) && Later(db, Patched(db, id, u).value)
  {
    if NeedsGeneration(db.rules[id], u) {
      AdvanceKeeps(db, id, Updated(db.rules[id], u), ReasonFor(db.rules[id], u));
    } else {
      var after := Patched(db, id, u).value;
      TasksSurvive(db, after);
      assert forall i :: StaleOpen(after, i) ==> StaleOpen(db, i);
      CoverageCarries(db, after);
    }
  }

  lemma OpenKeeps(db: Db, rule: int, generation: nat, target: Target)
    requires Inv(db)
    ensures Inv(Opened(db, rule, generation, target)) && Later(db, Opened(db, rule, generation, target))
  {
    var after := Opened(db, rule, generation, target);
    TasksSurvive(db, after);
    OpenStaysUnique(db, rule, generation, target);
    assert forall i :: StaleOpen(after, i) ==> StaleOpen(db, i) && after.events[i] == db.events[i];
    CoverageCarries(db, after);
  }

  lemma OpenStaysUnique(db: Db, rule: int, generation: nat, target: Target)
    requires Unique(db.events)
    ensures Unique(Opened(db, rule, generation, target).events)
  {
  }

  lemma CloseKeeps(db: Db, which: Which, reason: string)
    requires Inv(db)
    ensures Inv(Closed(db, which, reason)) && Later(db, Closed(db, which, reason))
  {
    var after := Closed(db, which, reason);
    TasksSurvive(db, after);
    CloseOnlyCloses(db, which, reason);
    assert forall i :: StaleOpen(after, i) ==> StaleOpen(db, i);
    CoverageCarries(db, after);
  }

  lemma CloseOnlyCloses(db: Db, which: Which, reason: string)
    requires Unique(db.events)
    ensures var after := Closed(db, which, reason).events;
      && |after| == |db.events| && Unique(after)
      && (forall i :: 0 <= i < |after| && after[i].open ==> after[i] == db.events[i])
      && (forall i :: 0 <= i < |after| ==>
        after[i].(open := true, reason := None) == db.events[i].(open := true, reason := None))
  {
  }

  lemma ReconcileKeeps(db: Db, name: string)
    requires Inv(db)
    ensures Inv(Enqueued(db, Named(name), Reconcile)) && Later(db, Enqueued(db, Named(name), Reconcile))
  {
    var after := Enqueued(db, Named(name), Reconcile);
    EnqueueKeeps(db, Named(name), Reconcile);
    forall i | StaleOpen(after, i)
      ensures Covered(after, after.events[i].rule, after.events[i].generation)
    {
      assert StaleOpen(db, i);
      var t :| t in db.tasks && Closes(db.tasks[t], db.events[i].rule, db.events[i].generation);
      assert t in after.tasks;
    }
  }

  /** A task may go once no event of the generation it closes is open. */
  lemma CompleteKeeps(db: Db, t: nat)
    requires Inv(db)
    requires t in db.tasks && db.tasks[t].payload.Change? && db.tasks[t].payload.past > 0 ==>
      NoneOpen(db, db.tasks[t].payload.rule, db.tasks[t].payload.past)
    ensures Inv(db.(tasks := db.tasks - {t})) && Later(db, db.(tasks := db.tasks - {t}))
  {
    var after := db.(tasks := db.tasks - {t});
    forall u | u in after.tasks
      ensures u < after.nextTask && ValidTask(after, after.tasks[u])
    {
      assert ValidTask(db, db.tasks[u]);
    }
    forall i | StaleOpen(after, i)
      ensures Covered(after, after.events[i].rule, after.events[i].generation)
    {
      var e := db.events[i];
      assert StaleOpen(db, i);
      var u :| u in db.tasks && Closes(db.tasks[u], e.rule, e.generation);
      assert OpenOf(e, e.rule, e.generation);
      assert u != t by { assert ValidTask(db, db.tasks[u]); }
      assert u in after.tasks;
    }
  }

  // ---- Runs of the other writers ----

  /** What the API, the evaluation workers and the tickers commit, besides the control loop. */
  datatype Op =
    | Create(id: int, initial: Rule)
    | Patch(id: int, updates: Updates)
    | Delete(id: int)
    | Open(rule: int, generation: nat, target: Target)
    | Close(which: Which, why: string)
    | Reconsider(name: string)

  function Apply(db: Db, op: Op): Db {
    match op
    case Create(id, initial) => Given(Created(db, id, initial), db)
    case Patch(id, updates) => Given(Patched(db, id, updates), db)
    case Delete(id) => Given(Deleted(db, id), db)
    case Open(rule, generation, target) => Opened(db, rule, generation, target)
    case Close(which, why) => Closed(db, which, why)
    case Reconsider(name) => Enqueued(db, Named(name), Reconcile)
  }

  lemma StepKeeps(db: Db, op: Op)
    requires Inv(db)
    ensures Inv(Apply(db, op)) && Later(db, Apply(db, op))
  {
    match op
    case Create(id, initial) =>
      if Created(db, id, initial).Some? {
        CreateKeeps(db, id, initial);
      }
    case Patch(id, updates) =>
      if Found(db, id) {
        PatchKeeps(db, id, updates);
      }
    case Delete(id) =>
      if Found(db, id) {
        AdvanceKeeps(db, id, db.rules[id].(deleted := true), "rule_deleted");
      }
    case Open(rule, generation, target) => OpenKeeps(db, rule, generation, target);
    case Close(which, why) => CloseKeeps(db, which, why);
    case Reconsider(name) => ReconcileKeeps(db, name);
  }
}
