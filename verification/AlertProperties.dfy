/**
 What the outcome of one evaluation promises, whatever the rules and states are.
 */
module AlertProperties {
  import opened Wrappers
  import opened AlertRuntime

  ghost predicate DistinctCloses(closes: seq<Close>) {
    forall i, j :: 0 <= i < j < |closes| ==> closes[i].key != closes[j].key
  }

  ghost predicate DistinctOpens(opens: seq<Open>) {
    forall i, j :: 0 <= i < j < |opens| ==> opens[i].key != opens[j].key
  }

  /** The close is of a firing state, by its event. */
  ghost predicate ClosesFiring(current: States, close: Close) {
    close.key in current && current[close.key].phase.Firing? && current[close.key].event == close.event
  }

  /** The open is of a raised rule that was neither firing nor cooling down, for long enough. */
  ghost predicate OpensRaised(catalog: Catalog, ev: Evaluation, current: States, open: Open)
    requires Usable(ev)
  {
    var existing := Get(current, open.key);
    && open.rule in Rules(ev) && open.rule.StateKey() == open.key
    && !IsFiring(existing) && !Cooling(existing, ev.now)
    && Judge(catalog, open.rule, ev) == Raised(open.value, open.threshold, open.at)
    && DurationSatisfied(Since(open.rule, existing, open.at), open.rule.duration, open.at)
  }

  lemma {:induction false} RuleClosesAreFiring(catalog: Catalog, ev: Evaluation, current: States, rules: seq<Rule>)
    requires Usable(ev) && DistinctKeys(rules)
    ensures var closes := Closes(catalog, ev, current, rules);
      && DistinctCloses(closes)
      && forall i :: 0 <= i < |closes| ==> closes[i].key in Keys(rules) && ClosesFiring(current, closes[i])
  {
    if rules != [] {
      var n := |rules| - 1;
      var rule := rules[n];
      RuleClosesAreFiring(catalog, ev, current, rules[..n]);
      assert rule.StateKey() in Keys(rules);
      assert rule.StateKey() !in Keys(rules[..n]);
      assert Keys(rules[..n]) <= Keys(rules);
    }
  }

  lemma {:induction false} RuleOpensAreRaised(catalog: Catalog, ev: Evaluation, current: States, rules: seq<Rule>)
    requires Usable(ev) && DistinctKeys(rules) && forall i :: 0 <= i < |rules| ==> rules[i] in Rules(ev)
    ensures var opens := Opens(catalog, ev, current, rules);
      && DistinctOpens(opens)
      && forall i :: 0 <= i < |opens| ==> opens[i].key in Keys(rules) && OpensRaised(catalog, ev, current, opens[i])
  {
    if rules != [] {
      var n := |rules| - 1;
      var rule := rules[n];
      RuleOpensAreRaised(catalog, ev, current, rules[..n]);
      assert rule.StateKey() in Keys(rules);
      assert rule.StateKey() !in Keys(rules[..n]);
      assert Keys(rules[..n]) <= Keys(rules);
    }
  }

  /** Every firing state survives the evaluation with its event, and is not opened again. */
  lemma FiringIsKept(catalog: Catalog, ev: Evaluation, current: States, result: EvalResult, key: Key)
    requires IsResult(catalog, ev, current, result)
    requires key in current && current[key].phase.Firing?
    ensures key in result.next && result.next[key].phase.Firing?
    ensures result.next[key].event == current[key].event && result.next[key].firingSince == current[key].firingSince
  {
    assert Get(result.next, key) == Next(catalog, ev, current, key);
  }

  /** Alerts close at most once each, and only what was firing, by its own event. */
  lemma ClosesAreFiring(catalog: Catalog, ev: Evaluation, current: States, result: EvalResult)
    requires DistinctKeys(Rules(ev)) && IsResult(catalog, ev, current, result)
    ensures DistinctCloses(result.closes)
    ensures forall i :: 0 <= i < |result.closes| ==> ClosesFiring(current, result.closes[i])
  {
    var mounted := MountedCloses(catalog, ev, current);
    var tail := result.closes[|mounted|..];
    assert result.closes == mounted + tail;
    if Usable(ev) {
      RuleClosesAreFiring(catalog, ev, current, Rules(ev));
    }
    UnmountedAreFiring(ev, current, tail);
    JoinCloses(current, Keys(Rules(ev)), mounted, tail);
  }

  lemma UnmountedAreFiring(ev: Evaluation, current: States, closes: seq<Close>)
    requires UnmountedCloses(ev, current, Unmounted(ev, current), closes)
    ensures DistinctCloses(closes)
    ensures forall i :: 0 <= i < |closes| ==> ClosesFiring(current, closes[i]) && closes[i].key !in Keys(Rules(ev))
  {
  }

  lemma JoinCloses(current: States, keys: set<Key>, a: seq<Close>, b: seq<Close>)
    requires DistinctCloses(a) && DistinctCloses(b)
    requires forall i :: 0 <= i < |a| ==> ClosesFiring(current, a[i]) && a[i].key in keys
    requires forall i :: 0 <= i < |b| ==> ClosesFiring(current, b[i]) && b[i].key !in keys
    ensures DistinctCloses(a + b) && forall i :: 0 <= i < |a + b| ==> ClosesFiring(current, (a + b)[i])
  {
  }

  /** Alerts open at most once each, and only where nothing fires or cools down; the state is then pending. */
  lemma OpensAreFresh(catalog: Catalog, ev: Evaluation, current: States, result: EvalResult)
    requires DistinctKeys(Rules(ev)) && IsResult(catalog, ev, current, result)
    ensures DistinctOpens(result.opens)
    ensures forall i :: 0 <= i < |result.opens| ==>
      && Usable(ev) && OpensRaised(catalog, ev, current, result.opens[i])
      && result.opens[i].key in result.next && result.next[result.opens[i].key].phase.Pending?
  {
    if Usable(ev) {
      RuleOpensAreRaised(catalog, ev, current, Rules(ev));
      forall i | 0 <= i < |result.opens|
        ensures result.opens[i].key in result.next && result.next[result.opens[i].key].phase.Pending?
      {
        OpenIsPending(catalog, ev, current, result.next, result.opens[i]);
      }
    }
  }

  lemma OpenIsPending(catalog: Catalog, ev: Evaluation, current: States, next: States, open: Open)
    requires Usable(ev) && DistinctKeys(Rules(ev)) && IsNext(catalog, ev, current, next)
    requires OpensRaised(catalog, ev, current, open)
    ensures open.key in next && next[open.key].phase.Pending?
    ensures next[open.key].pendingSince == Since(open.rule, Get(current, open.key), open.at)
  {
    var j :| 0 <= j < |Rules(ev)| && Rules(ev)[j] == open.rule;
    RuleOfKey(Rules(ev), j);
    assert Get(next, open.key) == Next(catalog, ev, current, open.key);
  }

  /** No key both opens and closes. */
  lemma NeverBoth(catalog: Catalog, ev: Evaluation, current: States, result: EvalResult, i: nat, j: nat)
    requires DistinctKeys(Rules(ev)) && IsResult(catalog, ev, current, result)
    requires i < |result.opens| && j < |result.closes|
    ensures result.opens[i].key != result.closes[j].key
  {
    OpensAreFresh(catalog, ev, current, result);
    ClosesAreFiring(catalog, ev, current, result);
  }

  ghost function CloseSet(closes: seq<Close>): set<Close> {
    set i | 0 <= i < |closes| :: closes[i]
  }

  /** Two evaluations of the same input differ at most in the order in which they close unmounted keys. */
  lemma OrderDoesNotMatter(catalog: Catalog, ev: Evaluation, current: States, a: EvalResult, b: EvalResult)
    requires IsResult(catalog, ev, current, a) && IsResult(catalog, ev, current, b)
    ensures a.next == b.next && a.opens == b.opens && CloseSet(a.closes) == CloseSet(b.closes)
  {
    assert forall key :: Get(a.next, key) == Get(b.next, key);
    SameStates(a.next, b.next);
    ClosesWithin(catalog, ev, current, a, b);
    ClosesWithin(catalog, ev, current, b, a);
  }

  lemma SameStates(a: States, b: States)
    requires forall key :: Get(a, key) == Get(b, key)
    ensures a == b
  {
    assert forall key :: key in a <==> Get(a, key).Some?;
    assert forall key :: key in b <==> Get(b, key).Some?;
    forall key | key in a
      ensures key in b && a[key] == b[key]
    {
      assert Get(a, key) == Get(b, key);
    }
  }

  lemma ClosesWithin(catalog: Catalog, ev: Evaluation, current: States, a: EvalResult, b: EvalResult)
    requires IsResult(catalog, ev, current, a) && IsResult(catalog, ev, current, b)
    ensures CloseSet(a.closes) <= CloseSet(b.closes)
  {
  }
}
