/**
 The gate between changes of the database and publications of what was read from
 it. A thread that waits on the condition variable takes its step when the
 condition holds, so each method is one critical section, and any interleaving
 of them is a run of the program.
 */
module ProjectionGate {
  import opened Wrappers

  /** The gate with the threads inside it and the database it guards. */
  datatype View<D> = View(version: nat, begins: nat, mutating: set<nat>, building: set<nat>, db: D)

  /**
   Between two moments no mutation began: if none was running at the first,
   none was running at the second, none ended, and the database is the same.
   */
  ghost predicate Later<D>(a: View<D>, b: View<D>) {
    && a.version <= b.version && a.begins <= b.begins
    && (a.mutating == {} && a.begins == b.begins ==> b.mutating == {} && b.version == a.version && b.db == a.db)
  }

  lemma LaterTwice<D>(a: View<D>, b: View<D>, c: View<D>)
    requires Later(a, b) && Later(b, c)
    ensures Later(a, c)
  {
  }

  class Gate<D(0)> {
    var version: nat
    var active: nat
    var builds: nat
    var db: D
    var cache: Option<D>
    ghost var begins: nat // how many mutations were ever let in
    ghost var mutating: set<nat>
    ghost var building: set<nat>

    ghost function Now(): View<D>
      reads this
    {
      View(version, begins, mutating, building, db)
    }

    /** Mutations and publications exclude each other, and the counters count what they are for. */
    ghost predicate Valid()
      reads this
    {
      && active == |mutating| && builds == |building|
      && (mutating == {} || building == {})
      && begins == version + active
    }

    constructor (db: D)
      ensures Valid() && Now() == View(0, 0, {}, {}, db) && cache == None
    {
      version, active, builds, begins := 0, 0, 0, 0;
      mutating, building := {}, {};
      this.db, cache := db, None;
    }

    method MutateEnter(ghost me: nat)
      requires Valid() && builds == 0 && me !in mutating
      modifies `active, `begins, `mutating
      ensures Valid() && active > 0 && builds == 0
      ensures Now() == old(Now()).(begins := old(begins) + 1, mutating := old(mutating) + {me})
    {
      active := active + 1;
      begins := begins + 1;
      mutating := mutating + {me};
    }

    /** What a mutation does to the database while it runs. */
    method Change(ghost me: nat, d: D)
      requires Valid() && me in mutating
      modifies `db
      ensures Valid() && Now() == old(Now()).(db := d)
    {
      db := d;
    }

    method MutateExit(ghost me: nat)
      requires Valid() && me in mutating
      modifies `active, `version, `mutating
      ensures Valid()
      ensures Now() == old(Now()).(version := old(version) + 1, mutating := old(mutating) - {me})
    {
      active := active - 1;
      version := version + 1;
      mutating := mutating - {me};
    }

    /** Reads the version once no mutation is active. */
    method Version() returns (v: nat)
      requires Valid() && active == 0
      ensures v == version && mutating == {} && v == begins
    {
      v := version;
    }

    method PublishEnter(ghost me: nat, v: nat) returns (ok: bool)
      requires Valid() && me !in building
      modifies `builds, `building
      ensures Valid() && ok == (old(active) == 0 && version == v)
      ensures Now() == if ok then old(Now()).(building := old(building) + {me}) else old(Now())
      ensures ok ==> mutating == {} && v == begins
    {
      if active != 0 || version != v {
        return false;
      }
      builds := builds + 1;
      building := building + {me};
      return true;
    }

    method PublishExit(ghost me: nat)
      requires Valid() && me in building
      modifies `builds, `building
      ensures Valid() && Now() == old(Now()).(building := old(building) - {me})
    {
      builds := builds - 1;
      building := building - {me};
    }

    /** One step of another thread. */
    method Other(ghost me: nat, inside: bool)
      requires Valid() && me !in mutating && (inside <==> me in building)
      modifies this
      ensures Valid() && Later(old(Now()), Now())
      ensures me !in mutating && (inside <==> me in building)
      ensures inside ==> begins == old(begins)
    {
      var step: int := *;
      if step == 0 && builds == 0 {
        ghost var who := Bound(mutating + {me});
        MutateEnter(who);
      } else if step == 1 && active > 0 {
        ghost var who :| who in mutating;
        var d: D := *;
        Change(who, d);
      } else if step == 2 && active > 0 {
        ghost var who :| who in mutating;
        MutateExit(who);
      } else if step == 3 {
        ghost var who := Bound(building + {me});
        var v: int := *;
        if v >= 0 {
          var _ := PublishEnter(who, v);
        }
      } else if step == 4 && builds > (if inside then 1 else 0) {
        ghost var who := AnotherOf(building, me);
        PublishExit(who);
      } else if step == 5 {
        var written: Option<D> := *;
        cache := written;
      }
    }

    /** Any steps of the other threads; while I publish, none of them lets a mutation in. */
    method Others(ghost me: nat, inside: bool)
      requires Valid() && me !in mutating && (inside <==> me in building)
      modifies this
      ensures Valid() && Later(old(Now()), Now())
      ensures me !in mutating && (inside <==> me in building)
      ensures inside ==> begins == old(begins)
    {
      var n: int := *;
      var i := 0;
      while i < n
        invariant Valid() && Later(old(Now()), Now())
        invariant me !in mutating && (inside <==> me in building)
        invariant inside ==> begins == old(begins)
      {
        ghost var before := Now();
        Other(me, inside);
        LaterTwice(old(Now()), before, Now());
        i := i + 1;
      }
    }

    /**
     Publishes a snapshot read since version v was. If it runs, then no mutation
     began, ran or ended from the reading of the version to the end of the
     publication, and the snapshot it writes is the database all along.
     */
    method Publish(ghost me: nat, v: nat, snapshot: D, ghost read: View<D>) returns (ok: bool, written: bool)
      requires Valid() && me !in mutating && me !in building
      requires Later(read, Now()) && read.mutating == {} && read.begins == v
      requires begins == read.begins ==> snapshot == read.db
      modifies this
      ensures Valid() && me !in mutating && me !in building && Later(read, Now())
      ensures ok ==> begins == read.begins && mutating == {} && db == snapshot == read.db
    {
      written := false;
      ok := PublishEnter(me, v);
      if !ok {
        return;
      }
      Others(me, true);
      written := *;
      if written {
        assert db == snapshot && mutating == {};
        cache := Some(snapshot);
      }
      Others(me, true);
      PublishExit(me);
      LaterTwice(read, Now(), Now());
    }

    /**
     The bounded rebuild. When it publishes, what it published was the whole
     database from the reading of the version to the end of the publication,
     which is the moment it returns; the caller gets that, or what the cache,
     which samples may have refreshed since, holds now.
     */
    method RebuildSnapshot(ghost me: nat, attempts: nat)
      returns (published: bool, snapshot: Option<D>, ghost moment: View<D>)
      requires Valid() && me !in mutating && me !in building
      modifies this
      ensures Valid() && me !in mutating && me !in building && Later(old(Now()), Now())
      ensures published ==>
        && Later(old(Now()), moment) && Later(moment, Now()) && moment.mutating == {}
        && (snapshot == Some(moment.db) || (snapshot.Some? && snapshot == cache))
    {
      published, snapshot, moment := false, None, Now();
      for i := 0 to attempts
        invariant Valid() && me !in mutating && me !in building && Later(old(Now()), Now())
      {
        ghost var start := Now();
        Others(me, false);
        LaterTwice(old(Now()), start, Now());
        if active != 0 {
          return; // it waits for the mutations to end, and no further
        }
        var v := Version();
        ghost var read := Now();
        Others(me, false);
        var projection := db;
        ghost var seen := Now();
        Others(me, false);
        LaterTwice(read, seen, Now());
        var ok, written := Publish(me, v, projection, read);
        LaterTwice(old(Now()), read, Now());
        if ok {
          moment := Now();
          if written {
            snapshot := FetchOr(me, projection);
            LaterTwice(old(Now()), moment, Now());
          }
          return written, snapshot, moment;
        }
      }
    }

    /** What the cache holds a little later, or the projection if that cannot be had. */
    method FetchOr(ghost me: nat, projection: D) returns (snapshot: Option<D>)
      requires Valid() && me !in mutating && me !in building
      modifies this
      ensures Valid() && me !in mutating && me !in building && Later(old(Now()), Now())
      ensures snapshot == Some(projection) || (snapshot.Some? && snapshot == cache)
    {
      Others(me, false);
      var fetched: bool := *;
      return if fetched && cache.Some? then cache else Some(projection);
    }
  }

  ghost function Bound(ids: set<nat>): (n: nat)
    ensures forall id :: id in ids ==> id < n
    ensures n !in ids
  {
    if ids == {} then 0
    else
      var id :| id in ids;
      var rest := Bound(ids - {id});
      assert ids == (ids - {id}) + {id};
      if id < rest then rest else id + 1
  }

  ghost function AnotherOf(ids: set<nat>, me: nat): (id: nat)
    requires |ids| > if me in ids then 1 else 0
    ensures id in ids && id != me
  {
    assert |ids - {me}| == |ids| - if me in ids then 1 else 0 by {
      assert me !in ids ==> ids - {me} == ids;
    }
    var id :| id in ids - {me};
    id
  }
}
