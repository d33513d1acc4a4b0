/**
 The evaluation worker's steps on one server while the control loop edits the
 same runtime states. Workers of other servers touch only their own entries.
 */
module AlertService {
  import opened Wrappers
  import opened AlertRuntime
  import opened AlertProperties

  const HEARTBEAT_INTERVAL := 60

  /** An open event of a server, as the database lists it. */
  datatype OpenEvent = OpenEvent(
    id: int, rule: int, generation: int, onServer: bool, target: int, firstTrigger: int, lastTrigger: int,
    value: Option<real>, threshold: Option<real>)

  datatype CloseOutcome = Deferred | StaleVersion | StoreError | ClosedNow | NotFound

  type Runtime = map<int, States>

  function StatesOf(runtime: Runtime, server: int): States {
    if server in runtime then runtime[server] else map[]
  }

  // ---- Hysteresis ----

  /** The evaluation read the server with the key's rule mounted and its condition true. */
  ghost predicate Raises(catalog: Catalog, ev: Evaluation, key: Key) {
    Usable(ev) && RuleOf(Rules(ev), key).Some? && Judge(catalog, RuleOf(Rules(ev), key).value, ev).Raised?
  }

  ghost function RaisedAt(catalog: Catalog, ev: Evaluation, key: Key): int
    requires Raises(catalog, ev, key)
  {
    Judge(catalog, RuleOf(Rules(ev), key).value, ev).at
  }

  /** The rule's condition was true in every evaluation from the n-th to the last. */
  ghost predicate Streak(catalog: Catalog, history: seq<Evaluation>, key: Key, n: int) {
    0 <= n < |history| && forall i :: n <= i < |history| ==> Raises(catalog, history[i], key)
  }

  /** A pending state is backed by a streak that began no later than it says. */
  ghost predicate Backed(catalog: Catalog, history: seq<Evaluation>, key: Key, since: int) {
    exists n :: Streak(catalog, history, key, n) && RaisedAt(catalog, history[n], key) <= since
  }

  ghost predicate Honest(catalog: Catalog, history: seq<Evaluation>, states: States) {
    forall key :: key in states && states[key].phase.Pending? ==>
      Backed(catalog, history, key, states[key].pendingSince)
  }

  /** The condition has been true in a streak of evaluations that spans the rule's duration. */
  ghost predicate Justified(catalog: Catalog, history: seq<Evaluation>, open: Open) {
    exists n :: Streak(catalog, history, open.key, n)
                && open.at == RaisedAt(catalog, history[|history| - 1], open.key)
                && open.at - RaisedAt(catalog, history[n], open.key) >= open.rule.duration
  }

  lemma StreakGrows(catalog: Catalog, history: seq<Evaluation>, ev: Evaluation, key: Key, since: int)
    requires Raises(catalog, ev, key)
    requires Backed(catalog, history, key, since) || RaisedAt(catalog, ev, key) <= since
    ensures Backed(catalog, history + [ev], key, since)
  {
    var after := history + [ev];
    if Backed(catalog, history, key, since) {
      var n :| Streak(catalog, history, key, n) && RaisedAt(catalog, history[n], key) <= since;
      assert Streak(catalog, after, key, n) && after[n] == history[n];
    } else {
      assert Streak(catalog, after, key, |history|) && after[|history|] == ev;
    }
  }

  /** What an evaluation leaves pending is backed by the history that includes it. */
  lemma PendingIsBacked(catalog: Catalog, history: seq<Evaluation>, ev: Evaluation, current: States, next: States)
    requires Honest(catalog, history, current) && IsNext(catalog, ev, current, next)
    ensures Honest(catalog, history + [ev], next)
  {
    forall key | key in next && next[key].phase.Pending?
      ensures Backed(catalog, history + [ev], key, next[key].pendingSince)
    {
      assert Get(next, key) == Next(catalog, ev, current, key);
      assert Raises(catalog, ev, key);
      StreakGrows(catalog, history, ev, key, next[key].pendingSince);
    }
  }

  /** An alert opens only after its condition has held for the rule's duration without interruption. */
  lemma OpenIsJustified(catalog: Catalog, history: seq<Evaluation>, ev: Evaluation, current: States,
      result: EvalResult, i: nat)
    requires Honest(catalog, history, current) && DistinctKeys(Rules(ev)) && IsResult(catalog, ev, current, result)
    requires i < |result.opens|
    ensures Justified(catalog, history + [ev], result.opens[i])
  {
    var open, after := result.opens[i], history + [ev];
    OpensAreFresh(catalog, ev, current, result);
    OpenIsPending(catalog, ev, current, result.next, open);
    PendingIsBacked(catalog, history, ev, current, result.next);
    var j :| 0 <= j < |Rules(ev)| && Rules(ev)[j] == open.rule;
    RuleOfKey(Rules(ev), j);
    var since := result.next[open.key].pendingSince;
    var n :| Streak(catalog, after, open.key, n) && RaisedAt(catalog, after[n], open.key) <= since;
    assert open.at == RaisedAt(catalog, after[|after| - 1], open.key);
  }

  // ---- The control loop's edits ----

  /** Whatever differs from before is firing or gone: the control loop never makes a state pending. */
  ghost predicate Edited(before: States, after: States) {
    forall key :: key in after ==> after[key].phase.Firing? || (key in before && before[key] == after[key])
  }

  /** Key by key, the new state replaces the stored one only if that is still the one that was loaded. */
  ghost predicate Swapped(loaded: States, next: States, before: States, after: States) {
    forall key :: Get(after, key) == if Get(before, key) == Get(loaded, key) then Get(next, key) else Get(before, key)
  }

  /** Edits win over the evaluation, and what it leaves pending stays backed. */
  lemma SwapStaysHonest(catalog: Catalog, history: seq<Evaluation>, loaded: States, next: States, before: States,
      after: States)
    requires Honest(catalog, history, next) && Edited(loaded, before) && Swapped(loaded, next, before, after)
    ensures Honest(catalog, history, after)
  {
    forall key | key in after && after[key].phase.Pending?
      ensures Backed(catalog, history, key, after[key].pendingSince)
    {
      assert Get(after, key) == if Get(before, key) == Get(loaded, key) then Get(next, key) else Get(before, key);
      assert key in next && next[key] == after[key];
    }
  }

  function RestoredState(event: OpenEvent): State {
    State(Firing, event.rule, event.generation, event.firstTrigger, event.firstTrigger, 0,
          event.lastTrigger, event.lastTrigger,
          if event.value.Some? then event.value.value else 0.0,
          if event.threshold.Some? then event.threshold.value else 0.0,
          event.id)
  }

  predicate Restores(event: OpenEvent, server: int, key: Key) {
    event.onServer && event.target > 0 && event.target == server && Key(event.rule, event.generation) == key
  }

  /** The last listed event of a server's key, which is its only open one. */
  function Restored(events: seq<OpenEvent>, server: int, key: Key): Option<State> {
    if events == [] then None
    else if Restores(events[|events| - 1], server, key) then Some(RestoredState(events[|events| - 1]))
    else Restored(events[..|events| - 1], server, key)
  }

  /** A restored state that already fires for the same event is left as it is. */
  function Merged(existing: Option<State>, restored: Option<State>): Option<State> {
    if restored.None? || (IsFiring(existing) && existing.value.event == restored.value.event) then existing
    else restored
  }

  /** Every server's states merged with what its open events restore. */
  ghost predicate Restoring(before: Runtime, after: Runtime, events: seq<OpenEvent>) {
    forall server, key ::
      Get(StatesOf(after, server), key) == Merged(Get(StatesOf(before, server), key), Restored(events, server, key))
  }

  /** The servers that are not left lost the keys to drop, and nothing else changed. */
  ghost predicate Dropping(before: Runtime, after: Runtime, drops: map<int, set<Key>>, left: set<int>) {
    forall server :: StatesOf(after, server) == Without(before, drops, left, server)
  }

  ghost function Without(before: Runtime, drops: map<int, set<Key>>, left: set<int>, server: int): States {
    if server in drops && server !in left then StatesOf(before, server) - drops[server] else StatesOf(before, server)
  }

  /** The ended states that are not left are gone, unless they were edited. */
  ghost predicate Ended(current: States, next: States, before: States, stored: States, left: set<Key>) {
    forall key :: Get(stored, key) == Ending(current, next, before, left, key)
  }

  ghost function Ending(current: States, next: States, before: States, left: set<Key>, key: Key): Option<State> {
    if key in current && key !in left && key !in next && Get(before, key) == Get(current, key) then None
    else Get(before, key)
  }

  method RuntimeStatesFromOpenEvents(events: seq<OpenEvent>) returns (grouped: Runtime)
    ensures forall server, key :: Get(StatesOf(grouped, server), key) == Restored(events, server, key)
  {
    grouped := map[];
    for i := 0 to |events|
      invariant forall server, key :: Get(StatesOf(grouped, server), key) == Restored(events[..i], server, key)
    {
      var event := events[i];
      assert events[..i + 1][..i] == events[..i];
      if !event.onServer || event.target <= 0 {
        continue;
      }
      var states := StatesOf(grouped, event.target);
      states := states[Key(event.rule, event.generation) := RestoredState(event)];
      grouped := grouped[event.target := states];
    }
    assert events[..|events|] == events;
  }

  method MergeStates(current: States, restored: States) returns (merged: States)
    ensures forall key :: Get(merged, key) == Merged(Get(current, key), Get(restored, key))
  {
    merged := current;
    var left := restored.Keys;
    while left != {}
      invariant left <= restored.Keys
      invariant forall key :: Get(merged, key) ==
                              (if key in left then Get(current, key) else Merged(Get(current, key), Get(restored, key)))
      decreases |left|
    {
      var key := Pick(left);
      left := left - {key};
      var state := restored[key];
      if key in merged && merged[key].phase.Firing? && merged[key].event == state.event {
        continue;
      }
      merged := merged[key := state];
    }
  }

  lemma RestoredFires(events: seq<OpenEvent>, server: int, key: Key)
    ensures Restored(events, server, key).Some? ==> Restored(events, server, key).value.phase.Firing?
  {
  }

  // ---- Outcomes of the store ----

  /** What becomes of a closing state: kept for another try, dropped, or a cooldown after a cleared condition. */
  function Concluded(existing: Option<State>, close: Close, outcome: CloseOutcome): Option<State> {
    match outcome
    case Deferred => existing
    case StoreError => existing
    case StaleVersion => None
    case NotFound => None
    case ClosedNow =>
      if close.rule.cooldownMin > 0 && close.reason == "condition_cleared"
      then Some(NewCooldown(close.rule, close.closedAt))
      else None
  }

  /** The pending state fires once the store has an event for it. */
  function Fired(pending: State, open: Open, event: int): State {
    if event > 0 then pending.(phase := Firing, firingSince := open.at, lastHeartbeat := open.at, event := event)
      else pending
  }

  ghost predicate FiresFor(states: States, open: Open) {
    && open.key in states && states[open.key].phase.Firing? && states[open.key].event > 0
    && states[open.key].firingSince == open.at
  }

  predicate HeartbeatDue(previous: State, next: State, closing: bool) {
    && !closing && previous.phase.Firing? && next.phase.Firing? && next.event > 0 && next.lastObserved != 0
    && var last := if previous.lastHeartbeat == 0 then previous.firingSince else previous.lastHeartbeat;
      last == 0 || (next.lastObserved > last && next.lastObserved - last >= HEARTBEAT_INTERVAL)
  }

  /** Nothing becomes pending, and what stays pending is as evaluated. */
  ghost predicate Settled(evaluated: States, next: States) {
    forall key :: key in next && next[key].phase.Pending? ==> key in evaluated && evaluated[key] == next[key]
  }

  lemma SettledStaysHonest(catalog: Catalog, history: seq<Evaluation>, evaluated: States, next: States)
    requires Honest(catalog, history, evaluated) && Settled(evaluated, next)
    ensures Honest(catalog, history, next)
  {
  }

  /** A heartbeat renews a firing state or drops it; every other state is untouched. */
  ghost predicate Beaten(current: States, before: States, after: States, closing: set<Key>) {
    forall key :: Get(after, key) == Get(before, key)
      || (&& key in current && key in before && HeartbeatDue(current[key], before[key], key in closing)
          && (key !in after || after[key] == before[key].(lastHeartbeat := before[key].lastObserved)))
  }

  method FlushHeartbeats(current: States, next: States, closing: set<Key>) returns (after: States)
    ensures Beaten(current, next, after, closing)
  {
    after := next;
    var left := next.Keys;
    while left != {}
      invariant left <= next.Keys
      invariant Beaten(current, next, after, closing)
      invariant forall key :: key in left ==> Get(after, key) == Get(next, key)
      decreases |left|
    {
      var key := Pick(left);
      left := left - {key};
      var state := next[key];
      if key !in current || !HeartbeatDue(current[key], state, key in closing) {
        continue;
      }
      var failed, found: bool := *, *;
      if failed {
        continue;
      }
      if !found {
        after := after - {key};
        continue;
      }
      after := after[key := state.(lastHeartbeat := state.lastObserved)];
    }
  }

  class Service {
    const catalog: Catalog
    const openAfter: int
    var runtime: Runtime
    ghost var histories: map<int, seq<Evaluation>>

    ghost function History(server: int): seq<Evaluation>
      reads this
    {
      if server in histories then histories[server] else []
    }

    /** The server's pending states are backed by its evaluations so far. */
    ghost predicate Valid(server: int)
      reads this
    {
      Honest(catalog, History(server), StatesOf(runtime, server))
    }

    constructor (catalog: Catalog, openAfter: int)
      ensures runtime == map[] && histories == map[] && forall server :: Valid(server)
    {
      this.catalog, this.openAfter := catalog, openAfter;
      runtime, histories := map[], map[];
    }

    method SaveRuntimeState(server: int, current: States, next: States)
      modifies `runtime
      ensures Swapped(current, next, StatesOf(old(runtime), server), StatesOf(runtime, server))
      ensures forall other :: other != server ==> StatesOf(runtime, other) == StatesOf(old(runtime), other)
      ensures server in runtime ==> runtime[server] != map[]
    {
      var before := StatesOf(runtime, server);
      var stored := DropEnded(current, next, before);
      stored := StoreChanged(current, next, before, stored);
      if stored == map[] {
        runtime := runtime - {server};
        return;
      }
      runtime := runtime[server := stored];
    }

    /** Overwrites from the open events every state that does not already fire for its event. */
    method RestoreOpenRuntime(events: seq<OpenEvent>)
      modifies `runtime
      ensures Restoring(old(runtime), runtime, events)
      ensures forall server :: Edited(StatesOf(old(runtime), server), StatesOf(runtime, server))
    {
      var grouped := RuntimeStatesFromOpenEvents(events);
      var left := grouped.Keys;
      while left != {}
        invariant left <= grouped.Keys
        invariant forall server :: server in left || server !in grouped ==>
          StatesOf(runtime, server) == StatesOf(old(runtime), server)
        invariant forall server, key :: server in grouped && server !in left ==>
          Get(StatesOf(runtime, server), key)
          == Merged(Get(StatesOf(old(runtime), server), key), Get(grouped[server], key))
        decreases |left|
      {
        var server := Pick(left);
        left := left - {server};
        var merged := MergeStates(StatesOf(runtime, server), grouped[server]);
        runtime := runtime[server := merged];
      }
      RestoreEdits(old(runtime), runtime, grouped, events);
    }

    /** Forgets the states whose events were closed because their server is deleted. */
    method DropClosed(drops: map<int, set<Key>>)
      modifies `runtime
      ensures Dropping(old(runtime), runtime, drops, {})
    {
      var left := drops.Keys;
      while left != {}
        invariant left <= drops.Keys
        invariant Dropping(old(runtime), runtime, drops, left)
        decreases |left|
      {
        var server := Pick(left);
        left := left - {server};
        ghost var before := runtime;
        var states := StatesOf(runtime, server) - drops[server];
        if states == map[] {
          runtime := runtime - {server};
        } else {
          runtime := runtime[server := states];
        }
        assert forall other :: other != server ==> StatesOf(runtime, other) == StatesOf(before, other);
      }
    }

    /** What happens to a server's states while its worker waits: control-loop edits only. */
    method Interfere(server: int)
      modifies `runtime
      ensures Edited(StatesOf(old(runtime), server), StatesOf(runtime, server))
    {
      var n: int := *;
      var i := 0;
      while i < n
        invariant Edited(StatesOf(old(runtime), server), StatesOf(runtime, server))
      {
        var kind: int := *;
        if kind == 0 {
          var events: seq<OpenEvent> := *;
          RestoreOpenRuntime(events);
        } else if kind == 1 {
          var drops: map<int, set<Key>> := *;
          DropClosed(drops);
        } else {
          var others: Runtime := *;
          runtime := if server in runtime then others[server := runtime[server]] else others - {server};
        }
        i := i + 1;
      }
    }

    /** Each close is written, or not: its outcome alone decides what becomes of its key. */
    method WriteCloses(evaluated: States, closes: seq<Close>)
      returns (next: States, closing: set<Key>, outcomes: seq<CloseOutcome>)
      requires DistinctCloses(closes)
      ensures |outcomes| == |closes| && Settled(evaluated, next)
      ensures forall i :: 0 <= i < |closes| ==>
        && Get(next, closes[i].key) == Concluded(Get(evaluated, closes[i].key), closes[i], outcomes[i])
        && (closes[i].key in closing <==> outcomes[i].ClosedNow? || outcomes[i].NotFound?)
      ensures forall key :: (forall i :: 0 <= i < |closes| ==> closes[i].key != key) ==>
        Get(next, key) == Get(evaluated, key)
    {
      next, closing, outcomes := evaluated, {}, [];
      for i := 0 to |closes|
        invariant |outcomes| == i && Settled(evaluated, next)
        invariant forall j :: 0 <= j < i ==>
          && Get(next, closes[j].key) == Concluded(Get(evaluated, closes[j].key), closes[j], outcomes[j])
          && (closes[j].key in closing <==> outcomes[j].ClosedNow? || outcomes[j].NotFound?)
        invariant forall key :: (forall j :: 0 <= j < i ==> closes[j].key != key) ==>
          Get(next, key) == Get(evaluated, key) && key !in closing
      {
        var outcome: CloseOutcome :| true;
        var key := closes[i].key;
        assert forall j :: 0 <= j < i ==> closes[j].key != key;
        assert Get(next, key) == Get(evaluated, key);
        ghost var before, closingBefore := next, closing;
        if outcome.StaleVersion? {
          next := next - {key};
        } else if outcome.ClosedNow? || outcome.NotFound? {
          closing := closing + {key};
          next := next - {key};
          if closes[i].rule.cooldownMin > 0 && closes[i].reason == "condition_cleared" && outcome.ClosedNow? {
            next := next[key := NewCooldown(closes[i].rule, closes[i].closedAt)];
          }
        }
        outcomes := outcomes + [outcome];
        assert forall other :: other != key ==>
          Get(next, other) == Get(before, other) && (other in closing <==> other in closingBefore);
      }
    }

    /** Each open that the store answers with an event fires with that event; the others stay as evaluated. */
    method WriteOpens(evaluated: States, opens: seq<Open>) returns (next: States, fired: seq<Open>, events: seq<int>)
      requires DistinctOpens(opens) && forall i :: 0 <= i < |opens| ==> opens[i].key in evaluated
      ensures |events| == |opens| && Settled(evaluated, next)
      ensures forall i :: 0 <= i < |opens| ==>
        && Get(next, opens[i].key) == Some(Fired(evaluated[opens[i].key], opens[i], events[i]))
        && (events[i] > 0 ==> opens[i] in fired)
      ensures forall key :: (forall i :: 0 <= i < |opens| ==> opens[i].key != key) ==>
        Get(next, key) == Get(evaluated, key)
      ensures forall open :: open in fired ==> exists i :: 0 <= i < |opens| && opens[i] == open && events[i] > 0
    {
      next, fired, events := evaluated, [], [];
      for i := 0 to |opens|
        invariant |events| == i && Settled(evaluated, next)
        invariant forall j :: 0 <= j < i ==>
          && Get(next, opens[j].key) == Some(Fired(evaluated[opens[j].key], opens[j], events[j]))
          && (events[j] > 0 ==> opens[j] in fired)
        invariant forall key :: (forall j :: 0 <= j < i ==> opens[j].key != key) ==>
          Get(next, key) == Get(evaluated, key)
        invariant forall open :: open in fired ==> exists j :: 0 <= j < i && opens[j] == open && events[j] > 0
      {
        var event: int := *;
        var key := opens[i].key;
        assert Get(next, key) == Get(evaluated, key);
        if event > 0 {
          next := next[key := Fired(next[key], opens[i], event)];
          fired := fired + [opens[i]];
        }
        events := events + [event];
      }
    }

    /** The transitions of an evaluation are written; what opened fires from its time on, heartbeats or not. */
    method WriteTransitions(ev: Evaluation, current: States, result: EvalResult)
      returns (next: States, fired: seq<Open>)
      requires DistinctKeys(Rules(ev)) && IsResult(catalog, ev, current, result)
      ensures Settled(result.next, next)
      ensures forall open :: open in fired ==> open in result.opens && FiresFor(next, open)
    {
      var opens := if openAfter == 0 || ev.now >= openAfter then result.opens else [];
      OpensSurviveCloses(catalog, ev, current, result);
      var closed, closing, _ := WriteCloses(result.next, result.closes);
      assert forall i :: 0 <= i < |opens| ==> Get(closed, opens[i].key) == Get(result.next, opens[i].key);
      var events: seq<int>;
      next, fired, events := WriteOpens(closed, opens);
      ghost var written := next;
      next := FlushHeartbeats(current, next, closing);
      BeatsSettle(current, written, next, closing, result.next);
      forall open | open in fired
        ensures open in result.opens && FiresFor(next, open)
      {
        var i :| 0 <= i < |opens| && opens[i] == open && events[i] > 0;
        assert Get(next, open.key) == Get(written, open.key);
      }
    }

    /**
     One worker's turn on one server. Its own evaluation, the store's outcomes
     and the control loop's edits leave the pending states backed, and every
     alert it opened had its condition true for the rule's duration.
     */
    method ProcessServer(ev: Evaluation) returns (fired: seq<Open>)
      requires Valid(ev.server) && ev.compiled.Some? && DistinctKeys(Rules(ev))
      modifies this
      ensures Valid(ev.server)
      ensures histories == old(histories)[ev.server := old(History(ev.server)) + [ev]]
      ensures forall open :: open in fired ==> Justified(catalog, History(ev.server), open)
    {
      ghost var history := History(ev.server);
      var current := StatesOf(runtime, ev.server);
      var result := EvaluateServer(catalog, ev, current);
      var next: States;
      next, fired := WriteTransitions(ev, current, result);
      Interfere(ev.server);
      ghost var before := StatesOf(runtime, ev.server);
      SaveRuntimeState(ev.server, current, next);
      histories := histories[ev.server := history + [ev]];
      TurnIsSound(catalog, history, ev, current, result, next, fired, before, StatesOf(runtime, ev.server));
    }
  }

  lemma TurnIsSound(catalog: Catalog, history: seq<Evaluation>, ev: Evaluation, current: States, result: EvalResult,
                    next: States, fired: seq<Open>, before: States, after: States)
    requires Honest(catalog, history, current) && DistinctKeys(Rules(ev)) && IsResult(catalog, ev, current, result)
    requires Settled(result.next, next) && forall open :: open in fired ==> open in result.opens
    requires Edited(current, before) && Swapped(current, next, before, after)
    ensures Honest(catalog, history + [ev], after)
    ensures forall open :: open in fired ==> Justified(catalog, history + [ev], open)
  {
    PendingIsBacked(catalog, history, ev, current, result.next);
    SettledStaysHonest(catalog, history + [ev], result.next, next);
    SwapStaysHonest(catalog, history + [ev], current, next, before, after);
    forall open | open in fired
      ensures Justified(catalog, history + [ev], open)
    {
      var i :| 0 <= i < |result.opens| && result.opens[i] == open;
      OpenIsJustified(catalog, history, ev, current, result, i);
    }
  }

  lemma BeatsSettle(current: States, before: States, after: States, closing: set<Key>, evaluated: States)
    requires Beaten(current, before, after, closing) && Settled(evaluated, before)
    ensures Settled(evaluated, after)
  {
  }

  /** First loop of a save: a state that ended is dropped, unless it was edited meanwhile. */
  method DropEnded(current: States, next: States, before: States) returns (stored: States)
    ensures Ended(current, next, before, stored, {})
  {
    stored := before;
    var left := current.Keys;
    while left != {}
      invariant left <= current.Keys
      invariant Ended(current, next, before, stored, left)
      decreases |left|
    {
      var key := Pick(left);
      ghost var was, open := stored, left;
      left := left - {key};
      assert Get(stored, key) == Get(before, key);
      if key !in next && key in stored && stored[key] == current[key] {
        stored := stored - {key};
      }
      forall other
        ensures Get(stored, other) == Ending(current, next, before, left, other)
      {
        assert Get(was, other) == Ending(current, next, before, open, other);
      }
    }
  }

  /** Second loop of a save: a state that changed is stored, unless it was edited meanwhile. */
  method StoreChanged(current: States, next: States, before: States, dropped: States) returns (stored: States)
    requires Ended(current, next, before, dropped, {})
    ensures Swapped(current, next, before, stored)
  {
    stored := dropped;
    var left := next.Keys;
    while left != {}
      invariant left <= next.Keys
      invariant forall key :: key in left || key !in next ==> Get(stored, key) == Get(dropped, key)
      invariant forall key :: key in next && key !in left ==>
        Get(stored, key) == if Get(before, key) == Get(current, key) then Get(next, key) else Get(before, key)
      decreases |left|
    {
      var key := Pick(left);
      left := left - {key};
      assert Get(dropped, key) == Get(before, key);
      if key in current && current[key] == next[key] {
        continue;
      }
      if (key in stored) == (key in current) && (key in current ==> stored[key] == current[key]) {
        stored := stored[key := next[key]];
      }
    }
  }

  lemma RestoreEdits(before: Runtime, after: Runtime, grouped: Runtime, events: seq<OpenEvent>)
    requires forall server, key :: Get(StatesOf(grouped, server), key) == Restored(events, server, key)
    requires forall server :: server !in grouped ==> StatesOf(after, server) == StatesOf(before, server)
    requires forall server, key :: server in grouped ==>
      Get(StatesOf(after, server), key) == Merged(Get(StatesOf(before, server), key), Get(grouped[server], key))
    ensures Restoring(before, after, events)
    ensures forall server :: Edited(StatesOf(before, server), StatesOf(after, server))
  {
    forall server, key
      ensures Get(StatesOf(after, server), key) ==
        Merged(Get(StatesOf(before, server), key), Restored(events, server, key))
      ensures key in StatesOf(after, server) ==>
        || StatesOf(after, server)[key].phase.Firing?
        || (key in StatesOf(before, server) && StatesOf(before, server)[key] == StatesOf(after, server)[key])
    {
      RestoredFires(events, server, key);
      assert Get(StatesOf(grouped, server), key) == Restored(events, server, key);
    }
  }

  /** The keys that open are still pending when the closes have been written. */
  lemma OpensSurviveCloses(catalog: Catalog, ev: Evaluation, current: States, result: EvalResult)
    requires DistinctKeys(Rules(ev)) && IsResult(catalog, ev, current, result)
    ensures DistinctOpens(result.opens)
    ensures forall i, j :: 0 <= i < |result.opens| && 0 <= j < |result.closes| ==>
      result.opens[i].key != result.closes[j].key
    ensures forall i :: 0 <= i < |result.opens| ==>
      result.opens[i].key in result.next && !IsFiring(Get(current, result.opens[i].key))
    ensures DistinctCloses(result.closes)
  {
    OpensAreFresh(catalog, ev, current, result);
    ClosesAreFiring(catalog, ev, current, result);
  }
}
