/**
 The in-memory front cache: payload maps, the catalog of published ids and its
 validity, with the history of everything that was ever done to it.
 */
module FrontCache {
  import opened Wrappers
  import opened FrontView
  import Text

  /** What the cache has of a node besides what the database owns. */
  datatype Sample = Sample(runtime: NodeView, smart: Option<Stamped<Smart>>, thermal: Option<Stamped<Thermal>>)

  /** What happened to the cache, in order. */
  datatype Op =
    | Put(id: int, sample: Sample, invalidate: bool)
    | Rebuilt(fallbacks: map<int, Sample>, metadata: map<int, Meta>)
    | Stripped(id: int) // its metadata was removed
    | Removed(id: int)
    | Cleared

  function Find<T>(m: map<int, T>, id: int): Option<T> {
    if id in m then Some(m[id]) else None
  }

  // ---- What the history says ----

  /** The sample of an id: the last put, or the fallback of the rebuild that introduced it. */
  function Latest(log: seq<Op>, id: int): Option<Sample> {
    if log == [] then None
    else
      var earlier := Latest(log[..|log| - 1], id);
      match log[|log| - 1]
      case Put(other, sample, _) => if other == id then Some(sample) else earlier
      case Rebuilt(fallbacks, _) =>
        if id !in fallbacks then None else if earlier.Some? then earlier else Some(fallbacks[id])
      case Removed(other) => if other == id then None else earlier
      case _ => earlier
  }

  /** The ids of the last rebuild, unless something has invalidated the catalog since. */
  function Published(log: seq<Op>): Option<set<int>> {
    if log == [] then None
    else
      match log[|log| - 1]
      case Rebuilt(fallbacks, _) => Some(fallbacks.Keys)
      case Put(_, _, invalidate) => if invalidate then None else Published(log[..|log| - 1])
      case Stripped(_) => Published(log[..|log| - 1])
      case Removed(_) => None
      case Cleared => None
  }

  /** The metadata of an id: that of the last rebuild, unless it was removed since. */
  function MetaOf(log: seq<Op>, id: int): Option<Meta> {
    if log == [] then None
    else
      match log[|log| - 1]
      case Rebuilt(_, metadata) => Find(metadata, id)
      case Stripped(other) => if other == id then None else MetaOf(log[..|log| - 1], id)
      case Removed(other) => if other == id then None else MetaOf(log[..|log| - 1], id)
      case _ => MetaOf(log[..|log| - 1], id)
  }

  /** The id's metadata was removed after the last rebuild. */
  predicate Bare(log: seq<Op>, id: int) {
    log != [] && !log[|log| - 1].Rebuilt? && (log[|log| - 1] == Stripped(id) || Bare(log[..|log| - 1], id))
  }

  predicate Supersedes(op: Op, id: int) {
    match op
    case Put(other, _, _) => other == id
    case Rebuilt(fallbacks, _) => id !in fallbacks
    case Removed(other) => other == id
    case _ => false
  }

  /** The operation gave the id this sample: a put, or a rebuild that found none. */
  predicate Introduces(log: seq<Op>, k: int, id: int, sample: Sample)
    requires 0 <= k < |log|
  {
    match log[k]
    case Put(other, put, _) => other == id && put == sample
    case Rebuilt(fallbacks, _) => id in fallbacks && fallbacks[id] == sample && Latest(log[..k], id).None?
    case _ => false
  }

  /** The operation gave the id this sample, and nothing since has put, removed or dropped the id. */
  ghost predicate Source(log: seq<Op>, k: int, id: int, sample: Sample) {
    0 <= k < |log| && Introduces(log, k, id, sample) && forall j :: k < j < |log| ==> !Supersedes(log[j], id)
  }

  /** An id has the sample that some operation gave it and nothing has superseded, if there is one. */
  lemma {:induction false} SampleComesFrom(log: seq<Op>, id: int)
    ensures Latest(log, id).Some? <==> exists k, sample :: Source(log, k, id, sample)
    ensures forall k, sample :: Source(log, k, id, sample) ==> Latest(log, id) == Some(sample)
  {
    if log != [] {
      var n := |log| - 1;
      SampleComesFrom(log[..n], id);
      assert forall k :: 0 <= k < n ==> log[..n][..k] == log[..k];
      assert forall k, sample :: 0 <= k < n ==> Introduces(log[..n], k, id, sample) == Introduces(log, k, id, sample);
      assert forall k, sample :: 0 <= k < n && Source(log, k, id, sample) ==> Source(log[..n], k, id, sample);
      if Latest(log, id).Some? {
        if Introduces(log, n, id, Latest(log, id).value) {
          assert Source(log, n, id, Latest(log, id).value);
        } else {
          var k, sample :| Source(log[..n], k, id, sample);
          assert Source(log, k, id, sample);
        }
      }
    }
  }

  // ---- Payloads of a rebuild ----

  predicate ValidProjection(p: Projection) {
    RuntimePayload(p).Some? && p.meta.node.id == p.view.node.id
  }

  /** The first n nodes have valid ids, metadata of their own, and no id twice. */
  ghost predicate ValidNodes(nodes: seq<Projection>, n: nat)
    requires n <= |nodes|
  {
    && (forall i :: 0 <= i < n ==> ValidProjection(nodes[i]))
    && (forall i, j :: 0 <= i < j < n ==> nodes[i].view.node.id != nodes[j].view.node.id)
  }

  ghost predicate ValidSnapshot(nodes: seq<Projection>) {
    ValidNodes(nodes, |nodes|)
  }

  datatype Payloads = Payloads(
    runtime: map<int, NodeView>, metadata: map<int, Meta>, thermal: map<int, Stamped<Thermal>>)
  {
    predicate WellFormed() {
      && runtime.Keys == metadata.Keys && thermal.Keys <= runtime.Keys
      && forall id :: id in metadata ==> metadata[id].node.id == id
    }
  }

  ghost predicate Named(nodes: seq<Projection>, n: nat, id: int)
    requires n <= |nodes|
  {
    exists i :: 0 <= i < n && nodes[i].view.node.id == id
  }

  /** The payloads are those of the first n nodes, each under its id. */
  ghost predicate PayloadsOf(nodes: seq<Projection>, n: nat, out: Payloads)
    requires n <= |nodes|
  {
    out.WellFormed() && AllNamed(nodes, n, out) && AllCarried(nodes, n, out)
  }

  ghost predicate AllNamed(nodes: seq<Projection>, n: nat, out: Payloads)
    requires n <= |nodes|
  {
    forall id :: id in out.runtime ==> Named(nodes, n, id)
  }

  ghost predicate AllCarried(nodes: seq<Projection>, n: nat, out: Payloads)
    requires n <= |nodes|
  {
    forall i :: 0 <= i < n ==> Carries(out, nodes[i])
  }

  predicate Carries(out: Payloads, p: Projection) {
    var id := p.view.node.id;
    && RuntimePayload(p).Some? && Find(out.runtime, id) == RuntimePayload(p) && Find(out.metadata, id) == Some(p.meta)
    && Find(out.thermal, id) == ThermalPayload(p.view)
  }

  method FrontSnapshotPayloads(nodes: seq<Projection>) returns (ok: bool, out: Payloads)
    ensures ok <==> ValidSnapshot(nodes)
    ensures ok ==> PayloadsOf(nodes, |nodes|, out)
  {
    out := Payloads(map[], map[], map[]);
    for i := 0 to |nodes|
      invariant ValidNodes(nodes, i) && PayloadsOf(nodes, i, out)
    {
      var p := nodes[i];
      var id := p.view.node.id;
      if RuntimePayload(p).None? || id in out.runtime || p.meta.node.id != id {
        SnapshotFails(nodes, i, out);
        return false, out;
      }
      AddPayload(nodes, i, out);
      out := Added(out, p);
    }
    return true, out;
  }

  function Added(out: Payloads, p: Projection): Payloads
    requires RuntimePayload(p).Some?
  {
    var id, thermal := p.view.node.id, ThermalPayload(p.view);
    Payloads(out.runtime[id := RuntimePayload(p).value], out.metadata[id := p.meta],
             if thermal.Some? then out.thermal[id := thermal.value] else out.thermal)
  }

  lemma AddPayload(nodes: seq<Projection>, i: nat, out: Payloads)
    requires i < |nodes| && ValidNodes(nodes, i) && PayloadsOf(nodes, i, out)
    requires ValidProjection(nodes[i]) && nodes[i].view.node.id !in out.runtime
    ensures ValidNodes(nodes, i + 1) && PayloadsOf(nodes, i + 1, Added(out, nodes[i]))
  {
    AddedCarries(out, nodes[i]);
    AddedCarriesAll(nodes, i, out);
    AddedNames(nodes, i, out);
    ValidNodesGrow(nodes, i, out);
  }

  lemma ValidNodesGrow(nodes: seq<Projection>, i: nat, out: Payloads)
    requires i < |nodes| && ValidNodes(nodes, i) && AllCarried(nodes, i, out)
    requires ValidProjection(nodes[i]) && nodes[i].view.node.id !in out.runtime
    ensures ValidNodes(nodes, i + 1)
  {
    forall j | 0 <= j < i
      ensures nodes[j].view.node.id != nodes[i].view.node.id
    {
      assert Carries(out, nodes[j]);
    }
  }

  lemma AddedCarriesAll(nodes: seq<Projection>, i: nat, out: Payloads)
    requires i < |nodes| && out.WellFormed() && AllCarried(nodes, i, out)
    requires ValidProjection(nodes[i]) && nodes[i].view.node.id !in out.runtime
    ensures AllCarried(nodes, i + 1, Added(out, nodes[i]))
  {
    AddedCarries(out, nodes[i]);
    forall j | 0 <= j < i
      ensures Carries(Added(out, nodes[i]), nodes[j])
    {
      AddedKeeps(out, nodes[i], nodes[j]);
    }
  }

  lemma AddedNames(nodes: seq<Projection>, i: nat, out: Payloads)
    requires i < |nodes| && RuntimePayload(nodes[i]).Some? && AllNamed(nodes, i, out)
    ensures AllNamed(nodes, i + 1, Added(out, nodes[i]))
  {
  }

  lemma AddedCarries(out: Payloads, p: Projection)
    requires out.WellFormed() && ValidProjection(p) && p.view.node.id !in out.runtime
    ensures Added(out, p).WellFormed() && Carries(Added(out, p), p)
  {
  }

  lemma AddedKeeps(out: Payloads, p: Projection, q: Projection)
    requires RuntimePayload(p).Some? && Carries(out, q) && p.view.node.id !in out.runtime
    ensures q.view.node.id != p.view.node.id && Carries(Added(out, p), q)
  {
  }

  lemma SnapshotFails(nodes: seq<Projection>, i: nat, out: Payloads)
    requires i < |nodes| && PayloadsOf(nodes, i, out)
    requires !ValidProjection(nodes[i]) || nodes[i].view.node.id in out.runtime
    ensures !ValidSnapshot(nodes)
  {
  }

  /** The payloads of a projection that has them. */
  function SampleFrom(p: Projection): Sample
    requires RuntimePayload(p).Some?
  {
    Sample(RuntimePayload(p).value, SmartPayload(p.view), ThermalPayload(p.view))
  }

  // ---- The maps and the history ----

  datatype Contents = Contents(
    catalog: bool,
    ids: set<int>,
    runtime: map<int, NodeView>,
    metadata: map<int, Meta>,
    smart: map<int, Stamped<Smart>>,
    thermal: map<int, Stamped<Thermal>>)
  {
    function SampleOf(id: int): Option<Sample> {
      if id in runtime then Some(Sample(runtime[id], Find(smart, id), Find(thermal, id))) else None
    }

    /** SMART and thermal data are kept only beside a runtime sample. */
    predicate Paired() {
      smart.Keys <= runtime.Keys && thermal.Keys <= runtime.Keys
    }
  }

  ghost predicate Sampled(log: seq<Op>, c: Contents) {
    c.Paired() && forall id :: c.SampleOf(id) == Latest(log, id)
  }

  ghost predicate Described(log: seq<Op>, c: Contents) {
    && (forall id :: Find(c.metadata, id) == MetaOf(log, id))
    && (forall id :: id in c.ids ==> id in c.runtime && (id in c.metadata <==> !Bare(log, id)))
    && (forall id :: id in c.metadata ==> c.metadata[id].node.id == id)
  }

  /** The maps hold what the history says. */
  ghost predicate Reflects(log: seq<Op>, c: Contents) {
    && Sampled(log, c) && Described(log, c)
    && (Published(log).Some? <==> c.catalog) && (c.catalog ==> c.ids == Published(log).value)
  }

  lemma LogGrows(log: seq<Op>, op: Op)
    ensures (log + [op])[..|log|] == log && (log + [op])[|log|] == op
  {
  }

  function Stored<T>(m: map<int, T>, id: int, value: Option<T>): map<int, T> {
    if value.Some? then m[id := value.value] else m - {id}
  }

  function AfterPut(c: Contents, id: int, sample: Sample, invalidate: bool): Contents {
    c.(catalog := c.catalog && !invalidate, runtime := c.runtime[id := sample.runtime],
       smart := Stored(c.smart, id, sample.smart), thermal := Stored(c.thermal, id, sample.thermal))
  }

  lemma PutReflects(log: seq<Op>, c: Contents, id: int, sample: Sample, invalidate: bool)
    requires Reflects(log, c)
    ensures Reflects(log + [Put(id, sample, invalidate)], AfterPut(c, id, sample, invalidate))
  {
    var op, after := Put(id, sample, invalidate), AfterPut(c, id, sample, invalidate);
    LogGrows(log, op);
    forall k
      ensures after.SampleOf(k) == Latest(log + [op], k)
    {
      assert c.SampleOf(k) == Latest(log, k);
    }
    assert forall k :: MetaOf(log + [op], k) == MetaOf(log, k) && Bare(log + [op], k) == Bare(log, k);
  }

  lemma StripReflects(log: seq<Op>, c: Contents, id: int)
    requires Reflects(log, c)
    ensures Reflects(log + [Stripped(id)], c.(metadata := c.metadata - {id}))
  {
    var op, after := Stripped(id), c.(metadata := c.metadata - {id});
    LogGrows(log, op);
    forall k
      ensures after.SampleOf(k) == Latest(log + [op], k) && Find(after.metadata, k) == MetaOf(log + [op], k)
      ensures Bare(log + [op], k) == (k == id || Bare(log, k))
    {
      assert c.SampleOf(k) == Latest(log, k) && Find(c.metadata, k) == MetaOf(log, k);
    }
  }

  function AfterRemove(c: Contents, id: int): Contents {
    Contents(false, c.ids - {id}, c.runtime - {id}, c.metadata - {id}, c.smart - {id}, c.thermal - {id})
  }

  lemma RemoveReflects(log: seq<Op>, c: Contents, id: int)
    requires Reflects(log, c)
    ensures Reflects(log + [Removed(id)], AfterRemove(c, id))
  {
    var op, after := Removed(id), AfterRemove(c, id);
    LogGrows(log, op);
    forall k
      ensures after.SampleOf(k) == Latest(log + [op], k) && Find(after.metadata, k) == MetaOf(log + [op], k)
      ensures Bare(log + [op], k) == Bare(log, k)
    {
      assert c.SampleOf(k) == Latest(log, k) && Find(c.metadata, k) == MetaOf(log, k);
    }
  }

  lemma ClearReflects(log: seq<Op>, c: Contents)
    requires Reflects(log, c)
    ensures Reflects(log + [Cleared], c.(catalog := false))
  {
    LogGrows(log, Cleared);
    forall k
      ensures c.(catalog := false).SampleOf(k) == Latest(log + [Cleared], k)
    {
      assert c.SampleOf(k) == Latest(log, k);
    }
    assert forall k :: MetaOf(log + [Cleared], k) == MetaOf(log, k) && Bare(log + [Cleared], k) == Bare(log, k);
  }

  function Fallbacks(payloads: Payloads): map<int, Sample> {
    map id | id in payloads.runtime :: Sample(payloads.runtime[id], None, Find(payloads.thermal, id))
  }

  /** The contents after a rebuild: the samples there were, or else the fallbacks, of exactly the new ids. */
  ghost predicate Rebuild(c: Contents, payloads: Payloads, after: Contents) {
    && after.catalog && after.ids == after.runtime.Keys == payloads.runtime.Keys && after.metadata == payloads.metadata
    && after.Paired()
    && forall id :: id in payloads.runtime ==>
         after.SampleOf(id) == if id in c.runtime then c.SampleOf(id) else Some(Fallbacks(payloads)[id])
  }

  /** A rebuild keeps the samples there are and takes the fallback for the rest. */
  lemma RebuildReflects(log: seq<Op>, c: Contents, payloads: Payloads, after: Contents)
    requires Reflects(log, c) && payloads.WellFormed() && Rebuild(c, payloads, after)
    ensures Reflects(log + [Rebuilt(Fallbacks(payloads), payloads.metadata)], after)
  {
    var op := Rebuilt(Fallbacks(payloads), payloads.metadata);
    LogGrows(log, op);
    forall k
      ensures after.SampleOf(k) == Latest(log + [op], k) && !Bare(log + [op], k)
    {
      assert c.SampleOf(k) == Latest(log, k);
    }
  }

  /** What is known of the given ids. */
  function KeepFrontRuntime<T>(runtime: map<int, T>, ids: set<int>): (kept: map<int, T>)
    ensures kept.Keys <= ids && forall id :: id in ids ==> Find(kept, id) == Find(runtime, id)
  {
    map id | id in runtime && id in ids :: runtime[id]
  }

  // ---- The cache ----

  datatype Fetched = Miss | Corrupt | Views(nodes: seq<NodeView>)

  class MemCache {
    const lib: Library
    var catalog: bool
    var ids: set<int>
    var runtime: map<int, NodeView>
    var metadata: map<int, Meta>
    var smart: map<int, Stamped<Smart>>
    var thermal: map<int, Stamped<Thermal>>
    var unknown: set<int> // ids that have already invalidated the catalog
    ghost var log: seq<Op>

    ghost predicate Valid()
      reads this
    {
      Reflects(log, Now())
    }

    function Now(): Contents
      reads this
    {
      Contents(catalog, ids, runtime, metadata, smart, thermal)
    }

    constructor (lib: Library)
      ensures Valid() && log == [] && this.lib == lib && !catalog && unknown == {}
    {
      this.lib, catalog, ids, unknown, log := lib, false, {}, {}, [];
      runtime, metadata, smart, thermal := map[], map[], map[], map[];
    }

    /** The view of a published id, recombined from its payloads. */
    function ViewOf(id: int): NodeView
      requires id in runtime && id in metadata
      reads this
    {
      Recompose(lib, runtime[id], metadata[id], Find(smart, id), Find(thermal, id))
    }

    /**
     A fetch misses without a valid catalog; it is corrupt only when metadata of
     a published id was removed; otherwise it returns one view per published id,
     in any order, each built from the id's latest sample.
     */
    method FetchSnapshotCache() returns (result: Fetched)
      requires Valid()
      ensures result.Miss? <==> Published(log).None?
      ensures result.Corrupt? <==> Published(log).Some? && exists id :: id in Published(log).value && Bare(log, id)
      ensures result.Views? ==>
        && |result.nodes| == |Published(log).value|
        && (forall id :: id in Published(log).value ==>
              && id in metadata && id in runtime && ViewOf(id) in result.nodes
              && MetaOf(log, id) == Some(metadata[id]) && Latest(log, id) == Now().SampleOf(id))
        && (forall node :: node in result.nodes ==> node.node.id in Published(log).value)
    {
      if !catalog {
        return Miss;
      }
      var nodes: seq<NodeView> := [];
      var left := ids;
      while left != {}
        invariant left <= ids && |nodes| + |left| == |ids|
        invariant forall id :: id in ids && id !in left ==> id in runtime && id in metadata && ViewOf(id) in nodes
        invariant forall node :: node in nodes ==> node.node.id in ids
        decreases |left|
      {
        var id := Pick(left);
        left := left - {id};
        if id !in runtime || id !in metadata {
          assert Bare(log, id);
          return Corrupt;
        }
        ViewKeepsId(id);
        ghost var before := nodes;
        nodes := nodes + [ViewOf(id)];
        assert nodes[|before|] == ViewOf(id);
        assert forall node :: node in before ==> node in nodes;
      }
      return Views(nodes);
    }

    /** The store's fetch: a corrupt catalog is cleared, so that the next rebuild replaces it. */
    method LoadSnapshot() returns (nodes: Option<seq<NodeView>>)
      requires Valid()
      modifies `catalog, `log
      ensures Valid()
      ensures nodes.Some? <==>
        Published(old(log)).Some? && forall id :: id in Published(old(log)).value ==> !Bare(old(log), id)
      ensures nodes.Some? ==> log == old(log)
      ensures nodes.None? ==> !catalog
    {
      var result := FetchSnapshotCache();
      match result
      case Miss => nodes := None;
      case Corrupt =>
        ClearFrontMeta();
        nodes := None;
      case Views(views) => nodes := Some(views);
    }

    /**
     Over every history: a node whose last sample was put from a report, and whose
     metadata is that of the same server, is fetched as the view that was built
     from the report, up to a blank root file-system type.
     */
    lemma FetchedViewIsWhole(server: Server, report: Report, staleAfter: int, k: nat, invalidate: bool)
      requires Valid() && server.id > 0 && Text.Trim(lib.format(report.timestamp)) != [] && k < |log|
      requires log[k] == Put(server.id, SampleFrom(ProjectionOf(lib, server, report, staleAfter)), invalidate)
      requires forall j :: k < j < |log| ==> !Supersedes(log[j], server.id)
      requires MetaOf(log, server.id) == Some(MetaFromServer(lib, server))
      ensures server.id in runtime && server.id in metadata
      ensures var p := ProjectionOf(lib, server, report, staleAfter); ViewOf(server.id) == Filled(p.view, p.meta)
    {
      var id, sample := server.id, SampleFrom(ProjectionOf(lib, server, report, staleAfter));
      SampleComesFrom(log, id);
      assert Source(log, k, id, sample);
      assert Now().SampleOf(id) == Latest(log, id) == Some(sample);
      assert Find(metadata, id) == MetaOf(log, id);
      SplitIsLossless(lib, server, report, staleAfter);
    }

    lemma ViewKeepsId(id: int)
      requires Valid() && id in runtime && id in metadata
      ensures ViewOf(id).node.id == id
    {
    }

    method HasNodeRuntime(id: int) returns (known: bool)
      ensures known == (id > 0 && id in ids)
    {
      known := id > 0 && id in ids;
    }

    /** Stores a sample, unless it has no valid id or cannot be encoded; it never makes an id a member. */
    method PutSample(p: Projection, invalidate: bool) returns (ok: bool)
      requires Valid()
      modifies `runtime, `smart, `thermal, `catalog, `log
      ensures Valid() && (ok ==> RuntimePayload(p).Some?)
      ensures !ok ==> log == old(log) && Now() == old(Now())
      ensures ok ==>
        && log == old(log) + [Put(p.view.node.id, SampleFrom(p), invalidate)]
        && Now() == AfterPut(old(Now()), p.view.node.id, SampleFrom(p), invalidate)
    {
      var payload := RuntimePayload(p);
      var encoded: bool := *;
      if payload.None? || !encoded {
        return false;
      }
      var id := p.view.node.id;
      var s, t := SmartPayload(p.view), ThermalPayload(p.view);
      PutReflects(log, Now(), id, SampleFrom(p), invalidate);
      if invalidate {
        catalog := false;
      }
      runtime := runtime[id := payload.value];
      smart := if s.Some? then smart[id := s.value] else smart - {id};
      thermal := if t.Some? then thermal[id := t.value] else thermal - {id};
      log := log + [Put(id, SampleFrom(p), invalidate)];
      return true;
    }

    /** Any steps of the cache's other users. */
    method Others()
      requires Valid()
      modifies this
      ensures Valid() && old(log) <= log
    {
      var n: int := *;
      var i := 0;
      while i < n
        invariant Valid() && old(log) <= log
      {
        var step, id: int := *, *;
        var nodes: seq<Projection> :| true;
        if step == 0 && nodes != [] {
          var _ := PutSample(nodes[0], false);
        } else if step == 1 && nodes != [] {
          var _ := PutSample(nodes[0], true);
        } else if step == 2 {
          RemoveNodeMetadata(id);
        } else if step == 3 {
          RemoveNodeSnapshot(id);
        } else if step == 4 {
          ClearFrontMeta();
        } else if step == 5 {
          var _, _ := ReplaceSnapshot(nodes);
        } else if step == 6 {
          unknown := unknown + {id};
        } else if step == 7 {
          unknown := unknown - {id};
        }
        i := i + 1;
      }
    }

    /** Notes that an id has invalidated the catalog; false if it was noted before. */
    method RememberUnknownRuntime(id: int) returns (first: bool)
      requires Valid()
      modifies `unknown
      ensures Valid() && first == (id !in old(unknown)) && unknown == old(unknown) + {id}
    {
      first := id !in unknown;
      unknown := unknown + {id};
    }

    method ForgetUnknownRuntime(id: int)
      requires Valid()
      modifies `unknown
      ensures Valid() && unknown == old(unknown) - {id}
    {
      unknown := unknown - {id};
    }

    /**
     The store's put, other users working in between. It invalidates the catalog
     only for an id that was no member when it looked and that it was first to
     note; and if then nothing is stored, the next put of the id may try again.
     */
    method PutNodeRuntime(p: Projection) returns (ok: bool, known: bool, first: bool)
      requires Valid()
      modifies this
      ensures Valid() && old(log) <= log && (ok ==> RuntimePayload(p).Some?)
      ensures ok ==>
        && |log| > |old(log)|
        && log[|log| - 1] == Put(p.view.node.id, SampleFrom(p), !known && first)
        && Now().SampleOf(p.view.node.id) == Some(SampleFrom(p))
      ensures !ok && !known && first && p.view.node.id > 0 ==> p.view.node.id !in unknown
    {
      var id := p.view.node.id;
      known, first := false, false;
      if id <= 0 {
        return false, false, false;
      }
      Others();
      known := HasNodeRuntime(id);
      Others();
      if known {
        ForgetUnknownRuntime(id);
        Others();
        ok := PutSample(p, false);
        return;
      }
      first := RememberUnknownRuntime(id);
      Others();
      if !first {
        ok := PutSample(p, false);
        return;
      }
      ok := PutSample(p, true);
      if !ok {
        ForgetUnknownRuntime(id);
      }
    }

    method RemoveNodeMetadata(id: int)
      requires Valid()
      modifies `metadata, `log
      ensures Valid() && log == if id <= 0 then old(log) else old(log) + [Stripped(id)]
    {
      if id <= 0 {
        return;
      }
      metadata := metadata - {id};
      StripReflects(log, old(Now()), id);
      log := log + [Stripped(id)];
    }

    method RemoveNodeSnapshot(id: int)
      requires Valid()
      modifies `runtime, `ids, `metadata, `smart, `thermal, `catalog, `log
      ensures Valid() && log == if id <= 0 then old(log) else old(log) + [Removed(id)]
      ensures id > 0 ==> Latest(log, id).None? && !catalog && id !in ids
    {
      if id <= 0 {
        return;
      }
      runtime := runtime - {id};
      ids := ids - {id};
      metadata := metadata - {id};
      smart := smart - {id};
      thermal := thermal - {id};
      catalog := false;
      RemoveReflects(log, old(Now()), id);
      LogGrows(log, Removed(id));
      log := log + [Removed(id)];
    }

    method ClearFrontMeta()
      requires Valid()
      modifies `catalog, `log
      ensures Valid() && log == old(log) + [Cleared] && !catalog
    {
      catalog := false;
      ClearReflects(log, old(Now()));
      log := log + [Cleared];
    }

    /** A rebuild decides membership and metadata, and keeps every sample there is. */
    method ReplaceSnapshot(nodes: seq<Projection>) returns (ok: bool, payloads: Payloads)
      requires Valid()
      modifies `runtime, `ids, `metadata, `smart, `thermal, `catalog, `log
      ensures Valid() && ok == ValidSnapshot(nodes)
      ensures !ok ==> log == old(log) && Now() == old(Now())
      ensures ok ==>
        && PayloadsOf(nodes, |nodes|, payloads) && Rebuild(old(Now()), payloads, Now())
        && log == old(log) + [Rebuilt(Fallbacks(payloads), payloads.metadata)]
    {
      ok, payloads := FrontSnapshotPayloads(nodes);
      if !ok {
        return;
      }
      var newRuntime, newThermal := Kept(payloads);
      runtime := newRuntime;
      ids := payloads.runtime.Keys;
      metadata := payloads.metadata;
      thermal := newThermal;
      smart := KeepFrontRuntime(smart, payloads.runtime.Keys);
      catalog := true;
      RebuildReflects(log, old(Now()), payloads, Now());
      log := log + [Rebuilt(Fallbacks(payloads), payloads.metadata)];
    }

    /** The samples and thermal data of a rebuild: those already there, or the fallbacks. */
    method Kept(payloads: Payloads) returns (newRuntime: map<int, NodeView>, newThermal: map<int, Stamped<Thermal>>)
      requires forall id :: id in payloads.thermal ==> id in payloads.runtime
      ensures newRuntime.Keys == payloads.runtime.Keys && newThermal.Keys <= payloads.runtime.Keys
      ensures forall id :: id in newRuntime ==>
        && newRuntime[id] == (if id in runtime then runtime[id] else payloads.runtime[id])
        && Find(newThermal, id) == (if id in runtime then Find(thermal, id) else Find(payloads.thermal, id))
    {
      newRuntime, newThermal := map[], map[];
      var left := payloads.runtime.Keys;
      while left != {}
        invariant left <= payloads.runtime.Keys && newRuntime.Keys == payloads.runtime.Keys - left
        invariant newThermal.Keys <= newRuntime.Keys
        invariant forall id :: id in newRuntime ==>
          && newRuntime[id] == (if id in runtime then runtime[id] else payloads.runtime[id])
          && Find(newThermal, id) == (if id in runtime then Find(thermal, id) else Find(payloads.thermal, id))
        decreases |left|
      {
        var id := Pick(left);
        left := left - {id};
        if id in runtime {
          newRuntime := newRuntime[id := runtime[id]];
          if id in thermal {
            newThermal := newThermal[id := thermal[id]];
          }
          continue;
        }
        newRuntime := newRuntime[id := payloads.runtime[id]];
        if id in payloads.thermal {
          newThermal := newThermal[id := payloads.thermal[id]];
        }
      }
    }
  }
}
