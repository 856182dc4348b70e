/** internal/catalog of the versioned-schema PoC: the cache that the poller swaps. */
module VersionedCatalog {
  import opened Wrappers
  import opened CatalogTypes
  import opened XrdClient

  datatype Snapshot = Snapshot(items: seq<Item>, entrySchemas: map<string, EntrySchema>, ready: bool)

  const EMPTY := Snapshot([], map[], false)

  function SnapshotOf(list: seq<Xrd>, parseGraph: string -> Option<Graph>): Snapshot {
    Snapshot(Items(list), Schemas(list, parseGraph), true)
  }

  class Cache {
    var items: seq<Item>
    var entrySchemas: map<string, EntrySchema>
    var ready: bool

    ghost function Contents(): Snapshot
      reads this
    {
      Snapshot(items, entrySchemas, ready)
    }

    constructor ()
      ensures Contents() == EMPTY
    {
      items, entrySchemas, ready := [], map[], false;
    }

    method Seed(items: seq<Item>, schemas: map<string, EntrySchema>)
      modifies this
      ensures Contents() == Snapshot(items, schemas, true)
    {
      this.items := items;
      entrySchemas := schemas;
      ready := true;
    }

    method Swap(items: seq<Item>, schemas: map<string, EntrySchema>)
      modifies this
      ensures Contents() == Snapshot(items, schemas, true)
    {
      Seed(items, schemas);
    }

    method GetEntrySchema(serviceId: string) returns (es: Option<EntrySchema>)
      ensures es == if serviceId in entrySchemas then Some(entrySchemas[serviceId]) else None
    {
      if serviceId in entrySchemas {
        es := Some(entrySchemas[serviceId]);
      } else {
        es := None;
      }
    }
  }

  /** The cache after a run of polls, each a LIST or a failure (None). */
  function AfterPolls(start: Snapshot, polls: seq<Option<seq<Xrd>>>, parseGraph: string -> Option<Graph>): Snapshot {
    if polls == [] then start
    else match polls[|polls| - 1]
      case None => AfterPolls(start, polls[..|polls| - 1], parseGraph)
      case Some(list) => SnapshotOf(list, parseGraph)
  }

  /** A first poll, then one for each tick until the context is done. */
  method Poller(cache: Cache, polls: seq<Option<seq<Xrd>>>, parseGraph: string -> Option<Graph>)
    requires |polls| >= 1
    modifies cache
    ensures cache.Contents() == AfterPolls(old(cache.Contents()), polls, parseGraph)
  {
    var i := 0;
    while i < |polls|
      invariant 0 <= i <= |polls|
      invariant cache.Contents() == AfterPolls(old(cache.Contents()), polls[..i], parseGraph)
    {
      assert polls[..i + 1][..i] == polls[..i];
      var derived := ListCatalogItems(polls[i], parseGraph);
      if derived.Some? {
        cache.Swap(derived.value.0, derived.value.1);
      }
      i := i + 1;
    }
    assert polls[..|polls|] == polls;
  }

  /** A failed poll keeps the last good snapshot: the cache holds the last
      successful LIST, whole. */
  lemma {:induction false} LastGoodSnapshot(start: Snapshot, polls: seq<Option<seq<Xrd>>>,
          parseGraph: string -> Option<Graph>, k: nat)
    requires k < |polls| && polls[k].Some? && forall j :: k < j < |polls| ==> polls[j].None?
    ensures AfterPolls(start, polls, parseGraph)
         == Snapshot(Items(polls[k].value), Schemas(polls[k].value, parseGraph), true)
  {
    if k < |polls| - 1 {
      LastGoodSnapshot(start, polls[..|polls| - 1], parseGraph, k);
    }
  }

  ghost predicate SomeSucceeded(polls: seq<Option<seq<Xrd>>>) {
    exists j :: 0 <= j < |polls| && polls[j].Some?
  }

  /** Until a LIST succeeds the cache is as it was; it becomes ready with the
      first that does, and is never unready again. */
  lemma {:induction false} ReadyStays(start: Snapshot, polls: seq<Option<seq<Xrd>>>,
          parseGraph: string -> Option<Graph>)
    ensures !SomeSucceeded(polls) ==> AfterPolls(start, polls, parseGraph) == start
    ensures AfterPolls(start, polls, parseGraph).ready <==> start.ready || SomeSucceeded(polls)
  {
    if polls != [] {
      var front := polls[..|polls| - 1];
      ReadyStays(start, front, parseGraph);
      assert SomeSucceeded(polls) <==> SomeSucceeded(front) || polls[|polls| - 1].Some? by {
        assert forall j :: 0 <= j < |front| ==> front[j] == polls[j];
        if j :| 0 <= j < |front| && front[j].Some? {
          assert polls[j].Some?;
        }
      }
    }
  }
}
