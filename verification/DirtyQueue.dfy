/**
 The queue of servers whose alerts must be evaluated again. Markers and workers
 share it under one mutex; every method of Queue is one critical section or one
 step of a worker, so any interleaving of them is a run of the program.
 */
module DirtyQueue {

  import opened Wrappers

  datatype ServerState<+T> = ServerState(queued: bool, running: bool, dirtyAgain: bool, snapshot: Option<T>)

  /** Where a worker is: about to lock the queue, asleep on the wakeup channel, or holding a server. */
  datatype Worker = Scanning | Waiting | Holding(id: int) | Gone

  const COMPACT_AT := 256

  /** What the queue stands for, with what its clients did: the specification state. */
  datatype View<T> = View(
    states: map<int, ServerState<T>>,
    pending: seq<int>,
    workers: map<nat, Worker>,
    owner: map<int, nat>, // which worker holds a running server
    unseen: set<int>, // marked since they were last handed to a worker
    latest: map<int, Option<T>>) // the last snapshot marked since the server entered the queue
  {
    ghost predicate Queued(id: int) {
      id in states && states[id].queued
    }

    ghost predicate Running(id: int) {
      id in states && states[id].running
    }

    ghost predicate Held(w: nat, id: int) {
      w in workers && workers[w] == Holding(id)
    }

    ghost predicate Scanned() {
      exists w :: w in workers && workers[w] == Scanning
    }

    /** The pending ids are exactly the queued servers, once each. */
    ghost predicate Listed() {
      && (forall i, j :: 0 <= i < j < |pending| ==> pending[i] != pending[j])
      && (forall id :: id in pending <==> Queued(id))
    }

    /** A known server is either queued or running, and can be dirty again only while it runs. */
    ghost predicate Phased() {
      forall id :: id in states ==>
        id > 0 && states[id].queued != states[id].running && (states[id].dirtyAgain ==> states[id].running)
    }

    /** Every running server is held by its one owner, and nothing else is held. */
    ghost predicate Owned() {
      && (forall id :: Running(id) <==> id in owner)
      && (forall id :: id in owner ==> Held(owner[id], id))
      && (forall w :: w in workers && workers[w].Holding? ==> workers[w].id in owner && owner[workers[w].id] == w)
    }

    /** A mark that no worker has picked up yet will be: its server is queued or dirty again. */
    ghost predicate Remembered() {
      forall id :: id in unseen ==> id in states && (states[id].queued || states[id].dirtyAgain)
    }

    ghost predicate Current() {
      latest.Keys == states.Keys && forall id :: id in states ==> states[id].snapshot == latest[id]
    }

    ghost predicate Consistent() {
      Phased() && Listed() && Owned() && Remembered() && Current()
    }
  }

  function Newest<T>(latest: map<int, Option<T>>, id: int, snapshot: Option<T>): Option<T> {
    if snapshot.None? && id in latest then latest[id] else snapshot
  }

  /** A new server joins the end of the line; a running one is noted; a queued one keeps its place. */
  ghost function Marked<T>(v: View<T>, id: int, snapshot: Option<T>): View<T> {
    var newest := Newest(v.latest, id, snapshot);
    var now :=
      if v.Running(id) then ServerState(false, true, true, newest)
      else ServerState(true, false, false, newest);
    v.(states := v.states[id := now],
       pending := if id in v.states then v.pending else v.pending + [id],
       unseen := v.unseen + {id},
       latest := v.latest[id := newest])
  }

  /** The first server in the line is handed to worker w with the newest snapshot. */
  ghost function Taken<T>(v: View<T>, w: nat): View<T>
    requires v.Consistent() && v.pending != []
  {
    var id := v.pending[0];
    assert id in v.pending && v.Queued(id);
    v.(states := v.states[id := ServerState(false, true, false, v.latest[id])],
       pending := v.pending[1..],
       workers := v.workers[w := Holding(id)],
       owner := v.owner[id := w],
       unseen := v.unseen - {id})
  }

  /** The worker lets go: the server goes back to the end of the line if need be, or leaves. */
  ghost function Released<T>(v: View<T>, w: nat, id: int, retry: bool, next: Worker): View<T>
    requires v.Consistent() && v.Held(w, id)
  {
    var free := v.(workers := v.workers[w := next], owner := v.owner - {id});
    if retry || v.states[id].dirtyAgain then
      free.(states := v.states[id := ServerState(true, false, false, v.latest[id])], pending := v.pending + [id])
    else
      free.(states := v.states - {id}, latest := v.latest - {id})
  }

  ghost function Moved<T>(v: View<T>, w: nat, now: Worker): View<T> {
    v.(workers := v.workers[w := now])
  }

  lemma MarkKeeps<T>(v: View<T>, id: int, snapshot: Option<T>)
    requires v.Consistent() && id > 0
    ensures Marked(v, id, snapshot).Consistent()
  {
    var after := Marked(v, id, snapshot);
    forall k
      ensures k in after.pending <==> after.Queued(k)
    {
      assert k in v.pending <==> v.Queued(k);
      assert id !in v.states ==> after.pending[|v.pending|] == id;
    }
    if id !in v.states {
      NewIsLast(v, id);
    }
    assert forall k :: after.Running(k) <==> v.Running(k);
  }

  /** A server that is not queued is nowhere in the line, so appending it repeats nothing. */
  lemma NewIsLast<T>(v: View<T>, id: int)
    requires v.Listed() && !v.Queued(id)
    ensures forall i, j :: 0 <= i < j < |v.pending + [id]| ==> (v.pending + [id])[i] != (v.pending + [id])[j]
  {
  }

  lemma TakeKeeps<T>(v: View<T>, w: nat)
    requires v.Consistent() && v.pending != [] && (w in v.workers ==> !v.workers[w].Holding?)
    ensures Taken(v, w).Consistent()
  {
    var after, id := Taken(v, w), v.pending[0];
    assert id in v.pending && v.Queued(id);
    TakeListed(v, w);
    assert forall k :: k != id ==> (after.Running(k) <==> v.Running(k));
  }

  lemma TakeListed<T>(v: View<T>, w: nat)
    requires v.Consistent() && v.pending != []
    ensures Taken(v, w).Listed()
  {
    var after, id := Taken(v, w), v.pending[0];
    assert v.pending == [id] + after.pending;
    forall k
      ensures k in after.pending <==> after.Queued(k)
    {
      assert k in v.pending <==> v.Queued(k);
    }
  }

  lemma ReleaseKeeps<T>(v: View<T>, w: nat, id: int, retry: bool, next: Worker)
    requires v.Consistent() && v.Held(w, id) && !next.Holding?
    ensures Released(v, w, id, retry, next).Consistent()
    ensures !retry && !v.states[id].dirtyAgain ==> id !in v.unseen
  {
    var after := Released(v, w, id, retry, next);
    assert v.Running(id) by { assert id in v.owner; }
    ReleaseListed(v, w, id, retry, next);
    assert forall k :: k != id ==> (after.Running(k) <==> v.Running(k));
  }

  lemma ReleaseListed<T>(v: View<T>, w: nat, id: int, retry: bool, next: Worker)
    requires v.Consistent() && v.Held(w, id) && v.Running(id)
    ensures Released(v, w, id, retry, next).Listed()
  {
    var after := Released(v, w, id, retry, next);
    forall k
      ensures k in after.pending <==> after.Queued(k)
    {
      assert k in v.pending <==> v.Queued(k);
      assert after.pending != v.pending ==> after.pending[|v.pending|] == id;
    }
    NewIsLast(v, id);
  }

  lemma MoveKeeps<T>(v: View<T>, w: nat, now: Worker)
    requires v.Consistent() && (w in v.workers ==> !v.workers[w].Holding?) && !now.Holding?
    ensures Moved(v, w, now).Consistent()
  {
  }

  /** No lost wakeup: pending work has a worker about to look at it, or the token is set. */
  ghost predicate Awake<T>(v: View<T>, wakeup: bool) {
    v.pending != [] ==> wakeup || v.Scanned()
  }

  /** The consumed prefix never outgrows the pending work by more than the compaction threshold. */
  ghost predicate Bounded<T>(v: View<T>, ready: seq<int>) {
    |ready| <= COMPACT_AT - 1 + |v.pending| || |ready| <= 2 * |v.pending|
  }

  /** The fields of a queue show the view, which keeps its invariants. */
  ghost predicate Sound<T>(v: View<T>, states: map<int, ServerState<T>>, ready: seq<int>, head: nat, wakeup: bool) {
    && v.Consistent() && v.states == states
    && head <= |ready| && v.pending == ready[head..]
    && Awake(v, wakeup) && Bounded(v, ready)
  }

  lemma MarkIsSound<T>(v: View<T>, states: map<int, ServerState<T>>, ready: seq<int>, head: nat, wakeup: bool,
                       id: int, snapshot: Option<T>)
    requires Sound(v, states, ready, head, wakeup) && id > 0
    ensures var after := Marked(v, id, snapshot);
      if id in states then Sound(after, after.states, ready, head, wakeup)
      else Sound(after, after.states, ready + [id], head, true)
  {
    MarkKeeps(v, id, snapshot);
    assert v.Scanned() ==> Marked(v, id, snapshot).Scanned();
  }

  /** What the marked server's state is, given the one it had. */
  lemma MarkedState<T>(v: View<T>, id: int, snapshot: Option<T>)
    requires v.Consistent() && id > 0
    ensures id !in v.states ==>
      Marked(v, id, snapshot).states == v.states[id := ServerState(true, false, false, snapshot)]
    ensures id in v.states ==>
      var now := v.states[id].(snapshot := if snapshot.Some? then snapshot else v.states[id].snapshot);
      Marked(v, id, snapshot).states == v.states[id := if now.running then now.(dirtyAgain := true) else now]
  {
  }

  lemma ReleaseIsSound<T>(v: View<T>, states: map<int, ServerState<T>>, ready: seq<int>, head: nat, wakeup: bool,
                          w: nat, id: int, retry: bool, next: Worker)
    requires Sound(v, states, ready, head, wakeup) && v.Held(w, id) && !next.Holding?
    ensures var after := Released(v, w, id, retry, next);
      if retry || v.states[id].dirtyAgain then Sound(after, after.states, ready + [id], head, true)
      else Sound(after, after.states, ready, head, wakeup)
  {
    var after := Released(v, w, id, retry, next);
    ReleaseKeeps(v, w, id, retry, next);
    assert forall u :: u in v.workers && v.workers[u] == Scanning ==>
      u in after.workers && after.workers[u] == Scanning;
  }

  class Queue<T> {
    var states: map<int, ServerState<T>>
    var ready: seq<int>
    var head: nat
    var wakeup: bool
    ghost var view: View<T>

    ghost predicate Valid()
      reads this
    {
      Sound(view, states, ready, head, wakeup)
    }

    constructor ()
      ensures Valid() && view == View(map[], [], map[], map[], {}, map[])
    {
      states := map[];
      ready := [];
      head := 0;
      wakeup := false;
      view := View(map[], [], map[], map[], {}, map[]);
    }

    method Mark(id: int, snapshot: Option<T>)
      requires Valid()
      modifies this
      ensures Valid()
      ensures view == if id <= 0 then old(view) else Marked(old(view), id, snapshot)
    {
      if id <= 0 {
        return;
      }
      MarkIsSound(view, states, ready, head, wakeup, id, snapshot);
      MarkedState(view, id, snapshot);
      var known := id in states;
      var state := if known then states[id] else ServerState(false, false, false, None);
      if snapshot.Some? {
        state := state.(snapshot := snapshot);
      }
      if !known {
        state := state.(queued := true);
        states := states[id := state];
        ready := ready + [id];
        Signal();
      } else if state.running {
        state := state.(dirtyAgain := true);
        states := states[id := state];
      } else {
        states := states[id := state];
      }
      view := Marked(view, id, snapshot);
    }

    method Signal()
      modifies `wakeup
      ensures wakeup
    {
      wakeup := true;
    }

    method Compact()
      requires head <= |ready|
      modifies `ready, `head
      ensures head <= |ready| && ready[head..] == old(ready[head..])
      ensures head < COMPACT_AT || head * 2 < |ready|
    {
      if head < COMPACT_AT || head * 2 < |ready| {
        return;
      }
      ready := ready[head..];
      head := 0;
    }

    /** Starts a worker: it is about to lock the queue for the first time. */
    ghost method Enter(w: nat)
      requires Valid() && w !in view.workers
      modifies `view
      ensures Valid() && view == Moved(old(view), w, Scanning)
    {
      MoveKeeps(view, w, Scanning);
      view := Moved(view, w, Scanning);
      assert view.workers[w] == Scanning;
    }

    /** A sleeping worker receives the token: it must look at the queue before it can sleep again. */
    method Wake(ghost w: nat)
      requires Valid() && w in view.workers && view.workers[w] == Waiting && wakeup
      modifies `view, `wakeup
      ensures Valid() && !wakeup && view == Moved(old(view), w, Scanning)
    {
      wakeup := false;
      MoveKeeps(view, w, Scanning);
      view := Moved(view, w, Scanning);
      assert view.workers[w] == Scanning;
    }

    /** A sleeping worker whose context is done leaves, and takes no token with it. */
    ghost method Cancel(w: nat)
      requires Valid() && w in view.workers && view.workers[w] == Waiting
      modifies `view
      ensures Valid() && view == Moved(old(view), w, Gone)
    {
      MoveKeeps(view, w, Gone);
      assert forall v :: v in view.workers && view.workers[v] == Scanning ==> v != w;
      view := Moved(view, w, Gone);
      assert forall v :: v in old(view.workers) && old(view.workers[v]) == Scanning ==> view.workers[v] == Scanning;
    }

    /** One critical section of a worker that looks for work: the first pending server, or sleep. */
    method Scan(ghost w: nat) returns (id: int, snapshot: Option<T>, found: bool)
      requires Valid() && w in view.workers && view.workers[w] == Scanning
      modifies this
      ensures Valid()
      ensures found == (old(view).pending != [])
      ensures found ==>
        && id == old(view).pending[0] && id in old(view).latest && snapshot == old(view).latest[id]
        && view == Taken(old(view), w)
      ensures !found ==> view == Moved(old(view), w, Waiting)
    {
      if head < |ready| {
        id := ready[head];
        assert id == view.pending[0] && id in view.pending;
        ready := ready[head := 0];
        head := head + 1;
        assert ready[head..] == view.pending[1..];
        var state := states[id];
        assert state.queued; // so the branch that skips a server that is not queued is never taken
        state := state.(queued := false, running := true, dirtyAgain := false);
        states := states[id := state];
        Compact();
        if head < |ready| {
          Signal();
        }
        TakeKeeps(view, w);
        view := Taken(view, w);
        return id, state.snapshot, true;
      }
      ready := [];
      head := 0;
      MoveKeeps(view, w, Waiting);
      view := Moved(view, w, Waiting);
      return 0, None, false;
    }

    /** The end of a worker's turn; finishing a server that no worker holds changes nothing. */
    method Finish(ghost w: nat, id: int, retry: bool, ghost next: Worker)
      requires Valid() && !next.Holding?
      requires view.Held(w, id) || !view.Running(id)
      modifies this
      ensures Valid()
      ensures view == if old(view).Held(w, id) then Released(old(view), w, id, retry, next) else old(view)
    {
      assert view.Held(w, id) ==> view.Running(id) by {
        assert view.Held(w, id) ==> id in view.owner;
      }
      if id <= 0 || id !in states || !states[id].running {
        return;
      }
      ReleaseIsSound(view, states, ready, head, wakeup, w, id, retry, next);
      var state := states[id];
      state := state.(running := false);
      if retry || state.dirtyAgain {
        state := state.(queued := true, dirtyAgain := false);
        states := states[id := state];
        ready := ready + [id];
        Signal();
      } else {
        states := states - {id};
      }
      view := Released(view, w, id, retry, next);
    }
  }
}
