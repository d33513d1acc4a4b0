/**
 The alert store's rule, event and task transactions, and the one loop that
 works the control tasks off. Between any two of the loop's transactions the
 API and the evaluation workers commit any number of their own, and the loop
 may stop at any point, as it does when a statement fails or the process ends.
 */
module ControlLoop {
  import opened Wrappers
  import opened RuleGenerations

  /** The open events of a rule's generation among the first n, oldest first. */
  function OpenIds(events: seq<Event>, rule: int, generation: nat, n: nat): (ids: seq<nat>)
    requires n <= |events|
    ensures forall k :: 0 <= k < |ids| ==> ids[k] < n
    ensures forall i :: 0 <= i < n && OpenOf(events[i], rule, generation) ==> i in ids
  {
    if n == 0 then []
    else
      var earlier := OpenIds(events, rule, generation, n - 1);
      if OpenOf(events[n - 1], rule, generation) then earlier + [n - 1] else earlier
  }

  /** The open events among ids from the k-th on are all that is left open of the generation. */
  ghost predicate Remaining(events: seq<Event>, rule: int, generation: nat, ids: seq<nat>, k: nat)
    requires k <= |ids|
  {
    forall i :: 0 <= i < |events| && OpenOf(events[i], rule, generation) ==> i in ids[k..]
  }

  lemma RemainingLater(a: Db, b: Db, rule: int, generation: nat, ids: seq<nat>, k: nat)
    requires Later(a, b) && Past(a, rule, generation) && k <= |ids|
    requires Remaining(a.events, rule, generation, ids, k)
    ensures Past(b, rule, generation) && Remaining(b.events, rule, generation, ids, k)
  {
  }

  lemma RemainingClosed(db: Db, rule: int, generation: nat, ids: seq<nat>, k: nat, reason: string)
    requires k < |ids| && Remaining(db.events, rule, generation, ids, k)
    ensures Remaining(Closed(db, ById(ids[k]), reason).events, rule, generation, ids, k + 1)
  {
  }

  /** The open event that a close transition may mean. */
  ghost predicate Designated(events: seq<Event>, which: Which, i: int) {
    && 0 <= i < |events|
    && match which
       case ById(id) => i == id && events[i].open
       case ByKey(rule, generation, target) => OpenOf(events[i], rule, generation) && events[i].target == target
  }

  ghost predicate NoneMeant(events: seq<Event>, which: Which) {
    forall i :: !Designated(events, which, i)
  }

  lemma LookupFindsDesignated(events: seq<Event>, which: Which)
    ensures Lookup(events, which).None? <==> NoneMeant(events, which)
    ensures Lookup(events, which).Some? ==> Designated(events, which, Lookup(events, which).value)
  {
    var found := Lookup(events, which);
    if found.Some? {
      assert Designated(events, which, found.value);
    }
  }

  /** The i-th event, which was meant, is closed with the reason, and no other event changes. */
  ghost predicate Ends(before: seq<Event>, after: seq<Event>, which: Which, i: nat, reason: string) {
    && Designated(before, which, i) && |after| == |before|
    && !after[i].open && (reason != [] ==> after[i].reason == Some(reason))
    && (forall k :: 0 <= k < |after| && k != i ==> after[k] == before[k])
  }

  lemma ClosingEndsIt(db: Db, which: Which, reason: string)
    ensures var after := Closed(db, which, reason).events;
      && (Unique(db.events) ==> NoneMeant(after, which))
      && match Lookup(db.events, which)
         case None => after == db.events
         case Some(i) => Ends(db.events, after, which, i, reason)
  {
    LookupFindsDesignated(db.events, which);
    var after := Closed(db, which, reason).events;
    if Unique(db.events) {
      forall i
        ensures !Designated(after, which, i)
      {
        assert 0 <= i < |after| && after[i].open ==> after[i] == db.events[i];
      }
    }
  }

  /** The invariant survives, and what was closed for good stays closed. */
  ghost predicate Sound(before: Db, after: Db) {
    Inv(before) ==> Inv(after) && Later(before, after)
  }

  lemma OpIsSound(db: Db, op: Op)
    ensures Sound(db, Apply(db, op))
  {
    if Inv(db) {
      StepKeeps(db, op);
    }
  }

  /** The change that an advance enqueues closes the generation it leaves behind. */
  lemma AdvanceIsCovered(db: Db, id: int, rule: Rule, reason: string)
    requires id in db.rules && reason != []
    ensures Inv(db) ==> Covered(Advanced(db, id, rule, reason), id, db.rules[id].generation)
  {
    if Inv(db) {
      var current := db.rules[id].generation;
      var after := Advanced(db, id, rule, reason);
      assert forall t :: t in db.tasks ==> ValidTask(db, db.tasks[t]) && db.tasks[t].key != RuleKey(id, current + 1);
      assert Closes(after.tasks[db.nextTask], id, current);
    }
  }

  class Store {
    var rules: map<int, Rule>
    var events: seq<Event>
    var tasks: map<nat, Task>
    var nextTask: nat

    function Tables(): Db
      reads this
    {
      Db(rules, events, tasks, nextTask)
    }

    constructor ()
      ensures Tables() == Db(map[], [], map[], 0) && Inv(Tables())
    {
      rules, events, tasks, nextTask := map[], [], map[], 0;
    }

    // ---- Transactions ----

    /** Inserts unless the unique index has the key: then some task has it, and all there were are as they were. */
    method EnqueueControlTask(key: TaskKey, payload: Payload)
      modifies `tasks, `nextTask
      ensures Tables() == Enqueued(old(Tables()), key, payload)
      ensures exists t :: t in tasks && tasks[t].key == key
      ensures if exists t :: t in old(tasks) && old(tasks)[t].key == key then tasks == old(tasks)
              else tasks == old(tasks)[old(nextTask) := Task(key, payload, false)]
    {
      var left := tasks.Keys;
      while left != {}
        invariant left <= tasks.Keys && tasks == old(tasks) && nextTask == old(nextTask)
        invariant forall t :: t in tasks && t !in left ==> tasks[t].key != key
        decreases |left|
      {
        var t := Pick(left);
        left := left - {t};
        if tasks[t].key == key {
          return;
        }
      }
      tasks := tasks[nextTask := Task(key, payload, false)];
      assert tasks[nextTask].key == key;
      nextTask := nextTask + 1;
    }

    /** A new rule is live in a generation of its own, and a change that names it is committed with it. */
    method CreateRule(id: int, rule: Rule) returns (ok: bool)
      modifies `rules, `tasks, `nextTask
      ensures Tables() == Given(Created(old(Tables()), id, rule), old(Tables()))
      ensures ok <==> id > 0 && id !in old(rules)
      ensures !ok ==> Tables() == old(Tables())
      ensures ok ==>
        && id in rules && rules[id].generation > 0 && !rules[id].deleted && rules == old(rules)[id := rules[id]]
        && (exists t :: t in tasks && tasks[t].key == RuleKey(id, rules[id].generation))
      ensures Sound(old(Tables()), Tables())
    {
      OpIsSound(Tables(), Create(id, rule));
      if id <= 0 || id in rules {
        return false;
      }
      var generation := if rule.generation == 0 then 1 else rule.generation;
      rules := rules[id := rule.(deleted := false, generation := generation)];
      EnqueueControlTask(RuleKey(id, generation), Change(id, 0, generation, ""));
      return true;
    }

    /** Writes the rule in its next generation and enqueues the change that closes the one before. */
    method AdvanceRule(id: int, rule: Rule, reason: string)
      requires id in rules && reason != []
      modifies `rules, `tasks, `nextTask
      ensures Tables() == Advanced(old(Tables()), id, rule, reason)
      ensures rules == old(rules)[id := rule.(generation := old(rules)[id].generation + 1)]
      ensures old(Inv(Tables())) ==> Covered(Tables(), id, old(rules)[id].generation)
    {
      AdvanceIsCovered(Tables(), id, rule, reason);
      var current := rules[id].generation;
      rules := rules[id := rule.(generation := current + 1)];
      EnqueueControlTask(RuleKey(id, current + 1), Change(id, current, current + 1, reason));
    }

    /** A patch that changes what the rule means leaves its old generation covered by a pending change. */
    method PatchRule(id: int, u: Updates) returns (ok: bool)
      modifies `rules, `tasks, `nextTask
      ensures Tables() == Given(Patched(old(Tables()), id, u), old(Tables()))
      ensures ok == old(Found(Tables(), id))
      ensures ok && old(Inv(Tables())) && NeedsGeneration(old(rules)[id], u) ==>
        rules[id].generation == old(rules)[id].generation + 1 && Covered(Tables(), id, old(rules)[id].generation)
      ensures ok && !NeedsGeneration(old(rules)[id], u) ==>
        rules[id].generation == old(rules)[id].generation && tasks == old(tasks)
      ensures Sound(old(Tables()), Tables())
    {
      OpIsSound(Tables(), Patch(id, u));
      if id !in rules || rules[id].deleted {
        return false;
      }
      var current := rules[id];
      if NeedsGeneration(current, u) {
        AdvanceRule(id, Updated(current, u), ReasonFor(current, u));
      } else {
        rules := rules[id := Updated(current, u)];
      }
      return true;
    }

    /** A deleted rule opens nothing any more in any generation, and what it has open is covered by a change. */
    method DeleteRule(id: int) returns (ok: bool)
      modifies `rules, `tasks, `nextTask
      ensures Tables() == Given(Deleted(old(Tables()), id), old(Tables()))
      ensures ok == old(Found(Tables(), id))
      ensures !ok ==> Tables() == old(Tables())
      ensures ok ==>
        && rules == old(rules)[id := old(rules)[id].(deleted := true, generation := old(rules)[id].generation + 1)]
        && (id >= 0 ==> forall generation :: !MayOpen(Tables(), id, generation))
      ensures ok && old(Inv(Tables())) ==> Covered(Tables(), id, old(rules)[id].generation)
      ensures Sound(old(Tables()), Tables())
    {
      OpIsSound(Tables(), Delete(id));
      if id !in rules || rules[id].deleted {
        return false;
      }
      AdvanceRule(id, rules[id].(deleted := true), "rule_deleted");
      return true;
    }

    /** The answer names the one open event of the rule's live generation and object, or the rule is stale. */
    method WriteOpenTransition(rule: int, generation: nat, target: Target) returns (result: Opening)
      modifies `events
      ensures Tables() == Opened(old(Tables()), rule, generation, target)
      ensures result.Stale? <==> !MayOpen(old(Tables()), rule, generation)
      ensures result.Stale? ==> events == old(events)
      ensures result.Opening? ==>
        && result.event < |events| && Designated(events, ByKey(rule, generation, target), result.event)
        && (result.created <==> NoneMeant(old(events), ByKey(rule, generation, target)))
        && events == old(events) + if result.created then [Event(rule, generation, target, true, None)] else []
      ensures Sound(old(Tables()), Tables())
    {
      OpIsSound(Tables(), Open(rule, generation, target));
      LookupFindsDesignated(events, ByKey(rule, generation, target));
      var found := FindOpen(events, rule, generation, target, |events|);
      if !MayOpen(Tables(), rule, generation) {
        return Stale;
      }
      if found.None? {
        events := events + [Event(rule, generation, target, true, None)];
        return Opening(|events| - 1, true);
      }
      return Opening(found.value, false);
    }

    /** The event it finds is closed with the reason, and then none like it is open; without one nothing changes. */
    method WriteCloseTransition(which: Which, reason: string) returns (closed: Option<nat>)
      modifies `events
      ensures Tables() == Closed(old(Tables()), which, reason)
      ensures closed.None? <==> NoneMeant(old(events), which)
      ensures if closed.None? then events == old(events) else Ends(old(events), events, which, closed.value, reason)
      ensures Unique(old(events)) ==> NoneMeant(events, which)
      ensures Sound(old(Tables()), Tables())
    {
      OpIsSound(Tables(), Op.Close(which, reason));
      LookupFindsDesignated(events, which);
      ClosingEndsIt(Tables(), which, reason);
      closed := Lookup(events, which);
      if closed.None? {
        return;
      }
      var i := closed.value;
      events := events[i := events[i].(open := false, reason := if reason == [] then None else Some(reason))];
    }

    method CompleteControlTask(t: nat)
      modifies `tasks
      ensures tasks == old(tasks) - {t}
    {
      tasks := tasks - {t};
    }

    // ---- The loop ----

    /** Any number of transactions of the other writers. */
    method Others()
      requires Inv(Tables())
      modifies this
      ensures Inv(Tables()) && Later(old(Tables()), Tables())
    {
      var n: int := *;
      var i := 0;
      while i < n
        invariant Inv(Tables()) && Later(old(Tables()), Tables())
      {
        var op: Op := *;
        var after := Apply(Tables(), op);
        StepKeeps(Tables(), op);
        LaterTwice(old(Tables()), Tables(), after);
        rules, events, tasks, nextTask := after.rules, after.events, after.tasks, after.nextTask;
        i := i + 1;
      }
    }

    /** Closes what one generation of a rule opened; for a past generation, nothing of it is then left open. */
    method CloseGeneration(rule: int, generation: nat, reason: string) returns (ok: bool)
      requires Inv(Tables())
      modifies this
      ensures Inv(Tables()) && Later(old(Tables()), Tables())
      ensures ok && Past(old(Tables()), rule, generation) ==> NoneOpen(Tables(), rule, generation)
    {
      Others();
      ghost var past := Past(Tables(), rule, generation);
      var listed := OpenIds(events, rule, generation, |events|);
      assert listed[0..] == listed;
      var k := 0;
      while k < |listed|
        invariant k <= |listed| && Inv(Tables()) && Later(old(Tables()), Tables())
        invariant past ==> Past(Tables(), rule, generation) && Remaining(events, rule, generation, listed, k)
      {
        if * {
          return false;
        }
        ghost var before := Tables();
        CloseStep(rule, generation, listed, k, reason, past);
        LaterTwice(old(Tables()), before, Tables());
        k := k + 1;
      }
      return true;
    }

    /** The next event of the list is closed, unless someone else closed it first. */
    method CloseStep(rule: int, generation: nat, listed: seq<nat>, k: nat, reason: string, ghost past: bool)
      requires Inv(Tables()) && k < |listed|
      requires past ==> Past(Tables(), rule, generation) && Remaining(events, rule, generation, listed, k)
      modifies this
      ensures Inv(Tables()) && Later(old(Tables()), Tables())
      ensures past ==> Past(Tables(), rule, generation) && Remaining(events, rule, generation, listed, k + 1)
    {
      Others();
      ghost var before := Tables();
      if past {
        RemainingLater(old(Tables()), before, rule, generation, listed, k);
      }
      CloseKeeps(Tables(), ById(listed[k]), reason);
      if past {
        RemainingClosed(Tables(), rule, generation, listed, k, reason);
      }
      var _ := WriteCloseTransition(ById(listed[k]), reason);
      LaterTwice(old(Tables()), before, Tables());
    }

    /** Generations whose rule no longer compiles. */
    method CloseInvalid(invalid: seq<(int, nat)>) returns (ok: bool)
      requires Inv(Tables())
      modifies this
      ensures Inv(Tables()) && Later(old(Tables()), Tables())
    {
      for i := 0 to |invalid|
        invariant Inv(Tables()) && Later(old(Tables()), Tables())
      {
        ghost var before := Tables();
        ok := CloseGeneration(invalid[i].0, invalid[i].1, "rule_invalid");
        LaterTwice(old(Tables()), before, Tables());
        if !ok {
          return;
        }
      }
      return true;
    }

    /** Events of deleted servers, which the database lists. */
    method CloseDeletedServers(listed: seq<nat>) returns (ok: bool)
      requires Inv(Tables())
      modifies this
      ensures Inv(Tables()) && Later(old(Tables()), Tables())
    {
      for k := 0 to |listed|
        invariant Inv(Tables()) && Later(old(Tables()), Tables())
      {
        if * {
          return false;
        }
        ghost var before := Tables();
        CloseStep(0, 0, listed, k, "server_deleted", false);
        LaterTwice(old(Tables()), before, Tables());
      }
      return true;
    }

    /** What a task asks for; invalid tells a task that no rerun can help. */
    method ControlTask(task: Task, broken: seq<(int, nat)>, orphaned: seq<nat>) returns (ok: bool, invalid: bool)
      requires Inv(Tables()) && ValidTask(Tables(), task)
      modifies this
      ensures Inv(Tables()) && Later(old(Tables()), Tables()) && !invalid
      ensures ok && task.payload.Change? && task.payload.past > 0 ==>
        && Past(Tables(), task.payload.rule, task.payload.past)
        && NoneOpen(Tables(), task.payload.rule, task.payload.past)
    {
      invalid := false;
      match task.payload
      case Change(rule, past, live, reason) =>
        assert rule != 0; // so the branch that rejects a task without a rule is never taken
        if past > 0 && reason != "" {
          ok := CloseGeneration(rule, past, reason);
          if !ok {
            return;
          }
        }
        ghost var closed := Tables();
        ok := CloseInvalid(broken);
        LaterTwice(old(Tables()), closed, Tables());
        if past > 0 {
          NeverReopened(closed, Tables(), rule, past);
        }
      case Reconcile =>
        ok := CloseInvalid(broken);
        if ok {
          ghost var before := Tables();
          ok := CloseDeletedServers(orphaned);
          LaterTwice(old(Tables()), before, Tables());
        }
    }

    /**
     One round of the loop on a pending task. A task that is completed leaves
     nothing open of the generation it names, and never will again.
     */
    method ProcessControlTask(t: nat, broken: seq<(int, nat)>, orphaned: seq<nat>) returns (done: bool)
      requires Inv(Tables()) && t in tasks && !tasks[t].failed
      modifies this
      ensures Inv(Tables()) && Later(old(Tables()), Tables())
      ensures var payload := old(tasks)[t].payload; done ==>
        && t !in tasks
        && (payload.Change? && payload.past > 0 ==>
              Past(Tables(), payload.rule, payload.past) && NoneOpen(Tables(), payload.rule, payload.past))
    {
      var task := tasks[t];
      var ok, invalid := ControlTask(task, broken, orphaned);
      assert !invalid; // so no task of the table is ever marked failed
      if !ok {
        return false; // its row stays pending, for a later round
      }
      ghost var before := Tables();
      Others();
      LaterTwice(old(Tables()), before, Tables());
      if task.payload.Change? && task.payload.past > 0 {
        NeverReopened(before, Tables(), task.payload.rule, task.payload.past);
      }
      before := Tables();
      CompleteKeeps(before, t);
      CompleteControlTask(t);
      LaterTwice(old(Tables()), before, Tables());
      return true;
    }
  }
}
