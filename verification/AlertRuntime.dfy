/**
 One evaluation of a server's alert rules: what becomes of each runtime state,
 which alerts open and which close. Times are whole seconds; 0 is the zero time.
 */
module AlertRuntime {
  import opened Wrappers

  datatype Phase = Pending | Firing | Cooldown

  datatype State = State(
    phase: Phase,
    rule: int,
    generation: int,
    pendingSince: int,
    firingSince: int,
    cooldownUntil: int,
    lastHeartbeat: int,
    lastObserved: int,
    value: real,
    threshold: real,
    event: int)

  datatype Key = Key(rule: int, generation: int)

  datatype Operator = Above | AtLeast | Below | AtMost | Equals | Differs | Unknown

  datatype Rule = Rule(
    id: int, generation: int, metric: string, operator: Operator, duration: int, cooldownMin: int, updatedAt: int)
  {
    function StateKey(): Key {
      Key(id, generation)
    }

    predicate Offline() {
      metric == "node.offline"
    }
  }

  datatype Stamp = Blank | Invalid | At(time: int)

  datatype Snapshot = Snapshot(observedAt: Stamp, receivedAt: Stamp, staleAfter: int, metrics: map<string, real>)

  /** The mounted rules, and every compiled rule by its key. */
  datatype Compiled = Compiled(rules: seq<Rule>, byKey: map<Key, Rule>)

  /** What one evaluation of a server looks at. */
  datatype Evaluation = Evaluation(server: int, snapshot: Option<Snapshot>, compiled: Option<Compiled>, now: int)

  /** Metric extraction and effective thresholds. */
  datatype Catalog = Catalog(extract: (string, Snapshot) -> Option<real>, limit: (Rule, Snapshot) -> Option<real>)

  type States = map<Key, State>

  datatype Open = Open(key: Key, rule: Rule, server: int, at: int, value: real, threshold: real)

  datatype Close = Close(
    key: Key, event: int, rule: Rule, server: int, openedAt: int, closedAt: int, reason: string, value: Option<real>)

  datatype EvalResult = EvalResult(next: States, opens: seq<Open>, closes: seq<Close>)

  function Get(states: States, key: Key): Option<State> {
    if key in states then Some(states[key]) else None
  }

  function Compare(operator: Operator, value: real, threshold: real): bool {
    match operator
    case Above => value > threshold
    case AtLeast => value >= threshold
    case Below => value < threshold
    case AtMost => value <= threshold
    case Equals => value == threshold
    case Differs => value != threshold
    case Unknown => false
  }

  // ---- The snapshot ----

  function ReceivedAt(snapshot: Snapshot): Stamp {
    if snapshot.receivedAt.Blank? then snapshot.observedAt else snapshot.receivedAt
  }

  predicate Usable(ev: Evaluation) {
    && ev.snapshot.Some? && ev.snapshot.value.observedAt.At?
    && ReceivedAt(ev.snapshot.value).At? && ReceivedAt(ev.snapshot.value).time != 0
  }

  predicate Online(ev: Evaluation)
    requires Usable(ev)
  {
    var s := ev.snapshot.value;
    ev.now - ReceivedAt(s).time <= if s.staleAfter < 0 then 0 else s.staleAfter
  }

  // ---- What a rule says of a snapshot ----

  datatype Verdict = Silent | Clear(value: real, threshold: real, at: int)
    | Raised(value: real, threshold: real, at: int)

  /** The offline rule is read at the evaluation's own time, every other rule at the observation's. */
  function Judge(catalog: Catalog, rule: Rule, ev: Evaluation): Verdict
    requires Usable(ev)
  {
    var s := ev.snapshot.value;
    var value :=
      if rule.Offline() then Some(if Online(ev) then 0.0 else 1.0)
      else if Online(ev) then catalog.extract(rule.metric, s)
      else None;
    var threshold := catalog.limit(rule, s);
    var at := if rule.Offline() then ev.now else s.observedAt.time;
    if value.None? || threshold.None? then Silent
    else if Compare(rule.operator, value.value, threshold.value) then Raised(value.value, threshold.value, at)
    else Clear(value.value, threshold.value, at)
  }

  predicate CooldownActive(state: State, now: int) {
    state.cooldownUntil != 0 && now < state.cooldownUntil
  }

  predicate Cooling(existing: Option<State>, now: int) {
    existing.Some? && existing.value.phase.Cooldown? && CooldownActive(existing.value, now)
  }

  predicate IsFiring(existing: Option<State>) {
    existing.Some? && existing.value.phase.Firing?
  }

  function KeepFiring(state: State, value: real, threshold: real, observedAt: int): State {
    state.(lastObserved := observedAt, value := value, threshold := threshold)
  }

  function NewPending(rule: Rule, since: int, at: int, value: real, threshold: real): State {
    State(Pending, rule.id, rule.generation, since, 0, 0, 0, at, value, threshold, 0)
  }

  function NewCooldown(rule: Rule, closedAt: int): State {
    State(Cooldown, rule.id, rule.generation, 0, 0, closedAt + rule.cooldownMin * 60, 0, 0, 0.0, 0.0, 0)
  }

  function Max(a: int, b: int): int {
    if a > b then a else b
  }

  /** A pending state of this generation keeps its start; anything else starts now. */
  function Since(rule: Rule, existing: Option<State>, at: int): int {
    if existing.Some? && existing.value.phase.Pending? && existing.value.pendingSince != 0
       && existing.value.pendingSince >= rule.updatedAt
    then existing.value.pendingSince
    else Max(rule.updatedAt, at)
  }

  predicate DurationSatisfied(since: int, duration: int, at: int) {
    since != 0 && at - since >= duration
  }

  function RuleForState(compiled: Option<Compiled>, state: State): Rule {
    var key := Key(state.rule, state.generation);
    if compiled.Some? && key in compiled.value.byKey then compiled.value.byKey[key]
    else Rule(state.rule, state.generation, "", Unknown, 0, 0, 0)
  }

  // ---- The specification, key by key ----

  function RuleNext(catalog: Catalog, rule: Rule, ev: Evaluation, existing: Option<State>): Option<State>
    requires Usable(ev)
  {
    if Cooling(existing, ev.now) then existing
    else
      match Judge(catalog, rule, ev)
      case Silent => if IsFiring(existing) then existing else None
      case Clear(value, threshold, _) =>
        if IsFiring(existing) then Some(KeepFiring(existing.value, value, threshold, ev.snapshot.value.observedAt.time))
        else None
      case Raised(value, threshold, at) =>
        if IsFiring(existing) then Some(KeepFiring(existing.value, value, threshold, at))
        else Some(NewPending(rule, Since(rule, existing, at), at, value, threshold))
  }

  function RuleOpens(catalog: Catalog, rule: Rule, ev: Evaluation, existing: Option<State>): seq<Open>
    requires Usable(ev)
  {
    var verdict := Judge(catalog, rule, ev);
    if verdict.Raised? && !Cooling(existing, ev.now) && !IsFiring(existing)
       && DurationSatisfied(Since(rule, existing, verdict.at), rule.duration, verdict.at)
    then [Open(rule.StateKey(), rule, ev.server, verdict.at, verdict.value, verdict.threshold)]
    else []
  }

  function RuleCloses(catalog: Catalog, rule: Rule, ev: Evaluation, existing: Option<State>): seq<Close>
    requires Usable(ev)
  {
    var verdict := Judge(catalog, rule, ev);
    if verdict.Clear? && IsFiring(existing) then
      [Close(rule.StateKey(), existing.value.event, rule, ev.server, existing.value.firingSince, verdict.at,
             "condition_cleared", Some(verdict.value))]
    else []
  }

  function Opens(catalog: Catalog, ev: Evaluation, current: States, rules: seq<Rule>): seq<Open>
    requires Usable(ev)
  {
    if rules == [] then []
    else
      var rule := rules[|rules| - 1];
      Opens(catalog, ev, current, rules[..|rules| - 1]) + RuleOpens(catalog, rule, ev, Get(current, rule.StateKey()))
  }

  function Closes(catalog: Catalog, ev: Evaluation, current: States, rules: seq<Rule>): seq<Close>
    requires Usable(ev)
  {
    if rules == [] then []
    else
      var rule := rules[|rules| - 1];
      Closes(catalog, ev, current, rules[..|rules| - 1]) + RuleCloses(catalog, rule, ev, Get(current, rule.StateKey()))
  }

  predicate DistinctKeys(rules: seq<Rule>) {
    forall i, j :: 0 <= i < j < |rules| ==> rules[i].StateKey() != rules[j].StateKey()
  }

  function Rules(ev: Evaluation): seq<Rule> {
    if ev.compiled.Some? then ev.compiled.value.rules else []
  }

  function Keys(rules: seq<Rule>): set<Key> {
    set i | 0 <= i < |rules| :: rules[i].StateKey()
  }

  /** The mounted rule of a key. */
  function RuleOf(rules: seq<Rule>, key: Key): (found: Option<Rule>)
    ensures found.Some? ==> found.value in rules && found.value.StateKey() == key
    ensures found.None? ==> forall i :: 0 <= i < |rules| ==> rules[i].StateKey() != key
  {
    if rules == [] then None
    else if rules[|rules| - 1].StateKey() == key then Some(rules[|rules| - 1])
    else RuleOf(rules[..|rules| - 1], key)
  }

  /** What becomes of a key: a rule that is not mounted, or cannot be judged, only keeps a firing state. */
  function Next(catalog: Catalog, ev: Evaluation, current: States, key: Key): Option<State> {
    var rule, existing := RuleOf(Rules(ev), key), Get(current, key);
    if Usable(ev) && rule.Some? then RuleNext(catalog, rule.value, ev, existing)
    else if IsFiring(existing) then existing
    else None
  }

  /** Firing states whose rule is not mounted any more. */
  function Unmounted(ev: Evaluation, current: States): set<Key> {
    set key | key in current && current[key].phase.Firing? && key !in Keys(Rules(ev))
  }

  function UnmountedClose(ev: Evaluation, key: Key, state: State): Close {
    Close(key, state.event, RuleForState(ev.compiled, state), ev.server, state.firingSince, ev.now, "rule_unmounted",
      None)
  }

  /** The closes of unmounted keys, each once, in the order in which the map is walked. */
  ghost predicate UnmountedCloses(ev: Evaluation, current: States, keys: set<Key>, closes: seq<Close>) {
    && (forall i :: 0 <= i < |closes| ==>
          closes[i].key in keys && closes[i].key in current
            && closes[i] == UnmountedClose(ev, closes[i].key, current[closes[i].key]))
    && (forall i, j :: 0 <= i < j < |closes| ==> closes[i].key != closes[j].key)
    && (forall key :: key in keys ==> exists i :: 0 <= i < |closes| && closes[i].key == key)
  }

  ghost predicate IsNext(catalog: Catalog, ev: Evaluation, current: States, next: States) {
    forall key :: Get(next, key) == Next(catalog, ev, current, key)
  }

  function MountedCloses(catalog: Catalog, ev: Evaluation, current: States): seq<Close> {
    if Usable(ev) then Closes(catalog, ev, current, Rules(ev)) else []
  }

  function MountedOpens(catalog: Catalog, ev: Evaluation, current: States): seq<Open> {
    if Usable(ev) then Opens(catalog, ev, current, Rules(ev)) else []
  }

  /** The outcome of an evaluation, up to the order in which unmounted keys are closed. */
  ghost predicate IsResult(catalog: Catalog, ev: Evaluation, current: States, result: EvalResult) {
    var mounted := MountedCloses(catalog, ev, current);
    && IsNext(catalog, ev, current, result.next)
    && result.opens == MountedOpens(catalog, ev, current)
    && mounted <= result.closes
    && UnmountedCloses(ev, current, Unmounted(ev, current), result.closes[|mounted|..])
  }

  // ---- The evaluation ----

  function Put(states: States, key: Key, state: Option<State>): States {
    if state.Some? then states[key := state.value] else states
  }

  /** One rule of the loop, in the order in which the program decides. */
  method EvaluateRule(catalog: Catalog, rule: Rule, ev: Evaluation, current: States, next: States, opens: seq<Open>,
      closes: seq<Close>)
    returns (next': States, opens': seq<Open>, closes': seq<Close>)
    requires Usable(ev)
    ensures var existing := Get(current, rule.StateKey());
      && next' == Put(next, rule.StateKey(), RuleNext(catalog, rule, ev, existing))
      && opens' == opens + RuleOpens(catalog, rule, ev, existing)
      && closes' == closes + RuleCloses(catalog, rule, ev, existing)
  {
    next', opens', closes' := next, opens, closes;
    var key := rule.StateKey();
    var exists_ := key in current;
    if exists_ && current[key].phase.Cooldown? {
      if CooldownActive(current[key], ev.now) {
        next' := next[key := current[key]];
        return;
      }
      exists_ := false;
    }
    var firing := exists_ && current[key].phase.Firing?;
    if !Online(ev) && !rule.Offline() {
      if firing {
        next' := next[key := current[key]];
      }
      return;
    }
    var verdict := Judge(catalog, rule, ev);
    if verdict.Silent? {
      if firing {
        next' := next[key := current[key]];
      }
      return;
    }
    if verdict.Clear? {
      if firing {
        var observedAt := ev.snapshot.value.observedAt.time;
        next' := next[key := KeepFiring(current[key], verdict.value, verdict.threshold, observedAt)];
        closes' := closes + [Close(key, current[key].event, rule, ev.server, current[key].firingSince, verdict.at,
                                   "condition_cleared", Some(verdict.value))];
      }
      return;
    }
    if firing {
      next' := next[key := KeepFiring(current[key], verdict.value, verdict.threshold, verdict.at)];
      return;
    }
    var since := if exists_ then current[key].pendingSince else 0;
    if !exists_ || since == 0 || since < rule.updatedAt {
      since := Max(rule.updatedAt, verdict.at);
    }
    next' := next[key := NewPending(rule, since, verdict.at, verdict.value, verdict.threshold)];
    if DurationSatisfied(since, rule.duration, verdict.at) {
      opens' := opens + [Open(key, rule, ev.server, verdict.at, verdict.value, verdict.threshold)];
    }
  }

  /** The first n rules are decided, and nothing else is. */
  ghost predicate Decided(catalog: Catalog, ev: Evaluation, current: States, n: nat, next: States)
    requires Usable(ev) && n <= |Rules(ev)|
  {
    && (forall j :: 0 <= j < n ==>
          Get(next, Rules(ev)[j].StateKey()) ==
            RuleNext(catalog, Rules(ev)[j], ev, Get(current, Rules(ev)[j].StateKey())))
    && (forall key :: key in next ==> exists j :: 0 <= j < n && Rules(ev)[j].StateKey() == key)
  }

  lemma DecidedStep(catalog: Catalog, ev: Evaluation, current: States, n: nat, next: States)
    requires Usable(ev) && DistinctKeys(Rules(ev)) && n < |Rules(ev)| && Decided(catalog, ev, current, n, next)
    ensures var key := Rules(ev)[n].StateKey();
      Decided(catalog, ev, current, n + 1, Put(next, key, RuleNext(catalog, Rules(ev)[n], ev, Get(current, key))))
  {
  }

  lemma DecidedAll(catalog: Catalog, ev: Evaluation, current: States, next: States, key: Key)
    requires Usable(ev) && DistinctKeys(Rules(ev)) && Decided(catalog, ev, current, |Rules(ev)|, next)
    ensures Get(next, key) == if key in Keys(Rules(ev)) then Next(catalog, ev, current, key) else None
  {
  }

  lemma TransitionsStep(catalog: Catalog, ev: Evaluation, current: States, rules: seq<Rule>, n: nat)
    requires Usable(ev) && n < |rules|
    ensures var existing := Get(current, rules[n].StateKey());
      && Opens(catalog, ev, current, rules[..n + 1])
         == Opens(catalog, ev, current, rules[..n]) + RuleOpens(catalog, rules[n], ev, existing)
      && Closes(catalog, ev, current, rules[..n + 1])
         == Closes(catalog, ev, current, rules[..n]) + RuleCloses(catalog, rules[n], ev, existing)
  {
    assert rules[..n + 1][..n] == rules[..n];
  }

  method EvaluateRules(catalog: Catalog, ev: Evaluation, current: States)
    returns (next: States, opens: seq<Open>, closes: seq<Close>)
    requires Usable(ev) && DistinctKeys(Rules(ev))
    ensures opens == Opens(catalog, ev, current, Rules(ev)) && closes == Closes(catalog, ev, current, Rules(ev))
    ensures Decided(catalog, ev, current, |Rules(ev)|, next)
  {
    next, opens, closes := map[], [], [];
    var rules := Rules(ev);
    for i := 0 to |rules|
      invariant opens == Opens(catalog, ev, current, rules[..i]) && closes == Closes(catalog, ev, current, rules[..i])
      invariant Decided(catalog, ev, current, i, next)
    {
      DecidedStep(catalog, ev, current, i, next);
      TransitionsStep(catalog, ev, current, rules, i);
      next, opens, closes := EvaluateRule(catalog, rules[i], ev, current, next, opens, closes);
    }
    assert rules[..|rules|] == rules;
  }

  lemma {:induction false} RuleOfKey(rules: seq<Rule>, j: nat)
    requires j < |rules| && DistinctKeys(rules)
    ensures RuleOf(rules, rules[j].StateKey()) == Some(rules[j])
  {
  }

  predicate Carried(ev: Evaluation, current: States, key: Key) {
    key in current && current[key].phase.Firing? && (!Usable(ev) || key !in Keys(Rules(ev)))
  }

  /** The walk has carried the firing states over that it met, and changed nothing else. */
  ghost predicate Walked(ev: Evaluation, current: States, left: set<Key>, evaluated: States, next: States) {
    forall key :: Get(next, key) ==
                  (if Carried(ev, current, key) && key !in left then Some(current[key]) else Get(evaluated, key))
  }

  /** Walks the current states, in whatever order, for those whose rule was not evaluated. */
  method CloseUnmounted(ev: Evaluation, current: States, evaluated: States, mounted: seq<Close>)
    returns (next: States, closes: seq<Close>)
    ensures Walked(ev, current, {}, evaluated, next)
    ensures mounted <= closes && UnmountedCloses(ev, current, Unmounted(ev, current), closes[|mounted|..])
  {
    next := evaluated;
    var seen := Keys(Rules(ev));
    var left := current.Keys;
    var tail: seq<Close> := [];
    while left != {}
      invariant left <= current.Keys
      invariant Walked(ev, current, left, evaluated, next)
      invariant UnmountedCloses(ev, current, Unmounted(ev, current) - left, tail)
      decreases |left|
    {
      var key :| key in left;
      ghost var before := left;
      left := left - {key};
      var state := current[key];
      if !state.phase.Firing? || (Usable(ev) && key in seen) {
        assert Unmounted(ev, current) - left == Unmounted(ev, current) - before;
        continue;
      }
      next := next[key := state];
      if key in seen {
        assert Unmounted(ev, current) - left == Unmounted(ev, current) - before;
        continue;
      }
      CloseAppended(ev, current, before, key, tail);
      tail := tail + [UnmountedClose(ev, key, state)];
    }
    assert Unmounted(ev, current) - left == Unmounted(ev, current);
    closes := mounted + tail;
    assert closes[|mounted|..] == tail;
  }

  lemma CloseAppended(ev: Evaluation, current: States, left: set<Key>, key: Key, closes: seq<Close>)
    requires key in left && key in Unmounted(ev, current)
    requires UnmountedCloses(ev, current, Unmounted(ev, current) - left, closes)
    ensures UnmountedCloses(ev, current, Unmounted(ev, current) - (left - {key}),
                            closes + [UnmountedClose(ev, key, current[key])])
  {
    var more := closes + [UnmountedClose(ev, key, current[key])];
    assert more[|closes|].key == key;
    forall k | k in Unmounted(ev, current) - (left - {key})
      ensures exists i :: 0 <= i < |more| && more[i].key == k
    {
      if k != key {
        assert k in Unmounted(ev, current) - left;
        var i :| 0 <= i < |closes| && closes[i].key == k;
        assert more[i].key == k;
      }
    }
  }

  method EvaluateServer(catalog: Catalog, ev: Evaluation, current: States) returns (result: EvalResult)
    requires Usable(ev) ==> ev.compiled.Some?
    requires DistinctKeys(Rules(ev))
    ensures IsResult(catalog, ev, current, result)
  {
    var next: States := map[];
    var opens: seq<Open> := [];
    var closes: seq<Close> := [];
    if Usable(ev) {
      next, opens, closes := EvaluateRules(catalog, ev, current);
    }
    ghost var evaluated := next;
    next, closes := CloseUnmounted(ev, current, next, closes);
    result := EvalResult(next, opens, closes);
    forall key
      ensures Get(next, key) == Next(catalog, ev, current, key)
    {
      KeyIsMounted(Rules(ev), key);
      if Usable(ev) {
        DecidedAll(catalog, ev, current, evaluated, key);
      }
    }
  }

  lemma KeyIsMounted(rules: seq<Rule>, key: Key)
    ensures key in Keys(rules) <==> RuleOf(rules, key).Some?
  {
  }
}
