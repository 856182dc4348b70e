/** The catalog-source PoC: cache, poller and the one-row database. */
module CatalogSource {
  import opened Wrappers
  import opened CatalogTypes

  type Items = seq<Item>

  class Cache {
    var items: Items
    var ready: bool

    constructor ()
      ensures items == [] && !ready
    {
      items, ready := [], false;
    }

    method Seed(items: Items)
      modifies this
      ensures this.items == items && ready
    {
      this.items := items;
      ready := true;
    }

    method Swap(items: Items)
      modifies this
      ensures this.items == items && ready
    {
      this.items := items;
      ready := true;
    }
  }

  /** What becomes of a write: done, refused, done with the answer lost, or given
      up by the client while the database may still do it later. */
  datatype Write = Written | Refused | AnswerLost | Adrift

  predicate Lands(write: Write) { write == Written || write == AnswerLost }

  class Store {
    var row: Option<Items>

    constructor ()
      ensures row == None
    {
      row := None;
    }

    method Upsert(items: Items, write: Write) returns (ok: bool)
      modifies this
      ensures ok <==> write == Written
      ensures row == if write == Written || write == AnswerLost then Some(items) else old(row)
    {
      if Lands(write) {
        row := Some(items);
      }
      return write == Written;
    }

    /** No row yet is an empty snapshot, not an error. */
    method LatestSnapshot(readable: bool) returns (items: Option<Items>)
      ensures items == if !readable then None else Some(Stored(row))
    {
      if !readable {
        return None;
      }
      return Some(if row.None? then [] else row.value);
    }
  }

  function Stored(row: Option<Items>): Items { if row.None? then [] else row.value }

  /** A poll: the outcome of its LIST, and of the write that follows a success. */
  datatype Poll = Poll(listed: Option<Items>, write: Write)

  function CacheAfter(start: Items, polls: seq<Poll>): Items {
    if polls == [] then start
    else
      var last := polls[|polls| - 1];
      if last.listed.Some? then last.listed.value else CacheAfter(start, polls[..|polls| - 1])
  }

  function RowAfter(start: Option<Items>, polls: seq<Poll>): Option<Items> {
    if polls == [] then start
    else
      var last := polls[|polls| - 1];
      if last.listed.Some? && Lands(last.write) then last.listed else RowAfter(start, polls[..|polls| - 1])
  }

  /** The poller, over the polls it makes until its context is done. */
  method Poller(cache: Cache, store: Store, polls: seq<Poll>)
    requires |polls| >= 1
    modifies cache, store
    ensures cache.items == CacheAfter(old(cache.items), polls)
    ensures store.row == RowAfter(old(store.row), polls)
    ensures cache.ready == (old(cache.ready) || exists i :: 0 <= i < |polls| && polls[i].listed.Some?)
  {
    var i := 0;
    while i < |polls|
      invariant 0 <= i <= |polls|
      invariant cache.items == CacheAfter(old(cache.items), polls[..i])
      invariant store.row == RowAfter(old(store.row), polls[..i])
      invariant cache.ready == (old(cache.ready) || exists j :: 0 <= j < i && polls[j].listed.Some?)
    {
      assert polls[..i + 1][..i] == polls[..i];
      var listed := polls[i].listed;
      if listed.Some? {
        cache.Swap(listed.value);
        var ok := store.Upsert(listed.value, polls[i].write);
      }
      i := i + 1;
    }
    assert polls[..|polls|] == polls;
  }

  /** Startup: None is the fatal exit when the database cannot be read. */
  method Boot(store: Store, readable: bool) returns (cache: Cache?)
    ensures cache != null <==> readable
    ensures cache != null ==> fresh(cache) && cache.items == Stored(store.row) && cache.ready
  {
    var empty := new Cache();
    var seed := store.LatestSnapshot(readable);
    if seed.None? {
      return null;
    }
    empty.Seed(seed.value);
    return empty;
  }

  // ----- pods, crashes and the shared database -----

  /** Where a pod stands in its poll: which LIST it holds, by position. */
  datatype Phase = Idle | Fetched(list: nat) | Swapped(list: nat)

  /** cacheAt says where the cache came from: 0 the empty value, k the k-th LIST. */
  datatype Pod = Down | Up(cache: Items, ready: bool, cacheAt: nat, phase: Phase)

  /** `lists` are all LISTs that succeeded, in the order the cluster answered;
      `adrift` the places of those whose write was given up but may still land. */
  datatype Sys = Sys(lists: seq<Items>, row: Option<Items>, rowAt: nat, adrift: set<nat>, pods: map<nat, Pod>)

  datatype Event =
    | Booted(pod: nat, readable: bool)
    | Listed(pod: nat, result: Option<Items>)
    | SwappedIn(pod: nat)
    | Upserted(pod: nat, write: Write)
    | Crashed(pod: nat, landed: bool)  // a write under way lands at once, or is adrift
    | Drifted(place: nat)              // a write adrift lands

  const INIT := Sys([], None, 0, {}, map[])

  function PodOf(s: Sys, pod: nat): Pod { if pod in s.pods then s.pods[pod] else Down }

  function WithPod(s: Sys, pod: nat, p: Pod): Sys { s.(pods := s.pods[pod := p]) }

  /** The write of the LIST at a place, counted from one, lands. */
  function Stores(s: Sys, place: nat): Sys {
    if 0 < place <= |s.lists| then s.(row := Some(s.lists[place - 1]), rowAt := place) else s
  }

  function Leaves(s: Sys, place: nat): Sys { s.(adrift := s.adrift + {place}) }

  /** One atomic step; an event that does not fit changes nothing. */
  function Apply(s: Sys, e: Event): Sys {
    match e
    case Booted(pod, readable) =>
      if PodOf(s, pod).Down? && readable then WithPod(s, pod, Up(Stored(s.row), true, s.rowAt, Idle)) else s
    case Listed(pod, result) =>
      var p := PodOf(s, pod);
      if p.Up? && p.phase.Idle? && result.Some? then
        WithPod(s.(lists := s.lists + [result.value]), pod, p.(phase := Fetched(|s.lists|)))
      else s
    case SwappedIn(pod) =>
      var p := PodOf(s, pod);
      if p.Up? && p.phase.Fetched? && p.phase.list < |s.lists| then
        WithPod(s, pod, Up(s.lists[p.phase.list], true, p.phase.list + 1, Swapped(p.phase.list)))
      else s
    case Upserted(pod, write) =>
      var p := PodOf(s, pod);
      if p.Up? && p.phase.Swapped? then
        var place := p.phase.list + 1;
        WithPod(if Lands(write) then Stores(s, place) else if write == Adrift then Leaves(s, place) else s,
                pod, p.(phase := Idle))
      else s
    case Crashed(pod, landed) =>
      var p := PodOf(s, pod);
      if p.Up? && p.phase.Swapped? then
        var place := p.phase.list + 1;
        WithPod(if landed then Stores(s, place) else Leaves(s, place), pod, Down)
      else WithPod(s, pod, Down)
    case Drifted(place) =>
      if place in s.adrift then Stores(s, place).(adrift := s.adrift - {place}) else s
  }

  function RunFrom(s: Sys, events: seq<Event>): Sys {
    if events == [] then s else Apply(RunFrom(s, events[..|events| - 1]), events[|events| - 1])
  }

  function Run(events: seq<Event>): Sys { RunFrom(INIT, events) }

  /** The empty value, or the k-th successful LIST, whole. */
  function Whole(lists: seq<Items>, k: nat): Items
    requires k <= |lists|
  {
    if k == 0 then [] else lists[k - 1]
  }

  predicate PodOk(lists: seq<Items>, p: Pod) {
    p.Up? ==>
      && p.ready
      && p.cacheAt <= |lists| && p.cache == Whole(lists, p.cacheAt)
      && (p.phase.Fetched? ==> p.cacheAt <= p.phase.list < |lists|)
      && (p.phase.Swapped? ==> p.cacheAt == p.phase.list + 1)
  }

  predicate Inv(s: Sys) {
    && s.rowAt <= |s.lists| && Stored(s.row) == Whole(s.lists, s.rowAt)
    && (forall place :: place in s.adrift ==> 0 < place <= |s.lists|)
    && forall pod :: pod in s.pods ==> PodOk(s.lists, s.pods[pod])
  }

  lemma ApplyInv(s: Sys, e: Event)
    requires Inv(s)
    ensures Inv(Apply(s, e))
    ensures s.lists <= Apply(s, e).lists
  {
    var t := Apply(s, e);
    forall pod | pod in t.pods ensures PodOk(t.lists, t.pods[pod]) {
      ApplyPod(s, e, pod);
    }
    ApplyRow(s, e);
  }

  lemma ApplyPod(s: Sys, e: Event, pod: nat)
    requires Inv(s)
    ensures var t := Apply(s, e); pod in t.pods ==> PodOk(t.lists, t.pods[pod])
  {
    if pod in s.pods { assert PodOk(s.lists, s.pods[pod]); }
  }

  lemma ApplyRow(s: Sys, e: Event)
    requires Inv(s)
    ensures var t := Apply(s, e);
            && s.lists <= t.lists
            && t.rowAt <= |t.lists| && Stored(t.row) == Whole(t.lists, t.rowAt)
            && forall place :: place in t.adrift ==> 0 < place <= |t.lists|
  {}

  /** A write given up, or cut off by a crash, changes nothing then, and stores its
      LIST whenever it lands after all. */
  lemma GivenUpMayLand(s: Sys, pod: nat, list: nat, crashed: bool)
    requires Inv(s) && PodOf(s, pod).Up? && PodOf(s, pod).phase == Swapped(list)
    ensures var t := Apply(s, if crashed then Crashed(pod, false) else Upserted(pod, Adrift));
            && t.row == s.row && t.rowAt == s.rowAt && t.lists == s.lists
            && list < |s.lists|
            && Apply(t, Drifted(list + 1)).row == Some(s.lists[list])
            && Apply(t, Drifted(list + 1)).rowAt == list + 1
  {
    assert PodOk(s.lists, s.pods[pod]);
  }

  /** For any pods, failures, crashes and restarts: the database and every cache
      hold the empty value or one whole successful LIST, and a pod that is up is
      ready. */
  lemma {:induction false} AlwaysWhole(events: seq<Event>)
    ensures Inv(Run(events))
  {
    if events != [] {
      AlwaysWhole(events[..|events| - 1]);
      ApplyInv(Run(events[..|events| - 1]), events[|events| - 1]);
    }
  }

  /** Unless the pod crashes, its cache never goes back to an older LIST, and it
      stays up and ready. */
  lemma {:induction false} CacheNeverGoesBack(s: Sys, events: seq<Event>, pod: nat)
    requires Inv(s) && PodOf(s, pod).Up?
    requires forall i :: 0 <= i < |events| ==> events[i].Crashed? ==> events[i].pod != pod
    ensures Inv(RunFrom(s, events))
    ensures var p := PodOf(RunFrom(s, events), pod); p.Up? && p.ready && PodOf(s, pod).cacheAt <= p.cacheAt
  {
    hide Stored, Apply;
    assert PodOk(s.lists, PodOf(s, pod));
    if events != [] {
      var n := |events| - 1;
      CacheNeverGoesBack(s, events[..n], pod);
      var t := RunFrom(s, events[..n]);
      ApplyInv(t, events[n]);
      PodKeeps(t, events[n], pod);
    }
  }

  lemma PodKeeps(s: Sys, e: Event, pod: nat)
    requires Inv(s) && PodOf(s, pod).Up? && !(e.Crashed? && e.pod == pod)
    ensures var p := PodOf(Apply(s, e), pod); p.Up? && p.ready && PodOf(s, pod).cacheAt <= p.cacheAt
  {}

  // ----- how the row moves -----

  /** The place of the LIST whose write the event makes land; 0 for other events. */
  function LandedBy(s: Sys, e: Event): nat {
    match e
    case Upserted(pod, write) =>
      var p := PodOf(s, pod);
      if p.Up? && p.phase.Swapped? && Lands(write) then p.phase.list + 1 else 0
    case Crashed(pod, landed) =>
      var p := PodOf(s, pod);
      if p.Up? && p.phase.Swapped? && landed then p.phase.list + 1 else 0
    case Drifted(place) => if place in s.adrift then place else 0
    case _ => 0
  }

  /** The row changes by landing writes alone, and takes the place of the LIST
      written: that place is lower exactly when the write is of an older LIST. */
  lemma RowMoves(s: Sys, e: Event)
    requires Inv(s)
    ensures var t := Apply(s, e); var k := LandedBy(s, e);
            && k <= |s.lists|
            && t.rowAt == (if k == 0 then s.rowAt else k)
            && (t.rowAt < s.rowAt <==> 0 < k < s.rowAt)
            && (t.row != s.row <==> k != 0 && s.row != Some(s.lists[k - 1]))
  {
    if e.Upserted? || e.Crashed? {
      assert PodOk(s.lists, PodOf(s, e.pod));
    }
  }

  predicate Newer(s: Sys, pod: nat) { PodOf(s, pod).Up? && PodOf(s, pod).cacheAt < s.rowAt }

  /** The row becomes newer than a pod's cache exactly when a write of a LIST
      newer than that cache lands. */
  lemma BecomesNewer(s: Sys, e: Event, pod: nat)
    requires Inv(s) && PodOf(s, pod).Up? && PodOf(Apply(s, e), pod).Up? && !Newer(s, pod)
    ensures Newer(Apply(s, e), pod) <==> PodOf(s, pod).cacheAt < LandedBy(s, e)
  {
    assert PodOk(s.lists, s.pods[pod]);
  }

  // ----- one pod -----

  predicate OfPod(e: Event, pod: nat) { e.Drifted? || e.pod == pod }

  /** With one pod, and no write that lands after it was given up, the database is
      never newer than the cache of the running process, and never goes back. */
  lemma {:induction false} OnePod(events: seq<Event>, pod: nat)
    requires forall i :: 0 <= i < |events| ==> !events[i].Drifted? && events[i].pod == pod
    ensures var s := Run(events);
            && Inv(s)
            && (PodOf(s, pod).Up? ==> s.rowAt <= PodOf(s, pod).cacheAt)
            && (events != [] ==> Run(events[..|events| - 1]).rowAt <= s.rowAt)
  {
    AlwaysWhole(events);
    if events != [] {
      var front := events[..|events| - 1];
      OnePod(front, pod);
      assert PodOk(Run(front).lists, PodOf(Run(front), pod));
    }
  }

  ghost predicate NeverNewer(events: seq<Event>, pod: nat) {
    forall i: nat :: i <= |events| ==> !Newer(Run(events[..i]), pod)
  }

  /** The event is not a late write of a LIST newer than the running cache. */
  predicate NotLate(s: Sys, e: Event, pod: nat) {
    e.Drifted? && PodOf(s, pod).Up? ==> LandedBy(s, e) <= PodOf(s, pod).cacheAt
  }

  predicate NotLateAt(events: seq<Event>, pod: nat, i: int) {
    0 <= i < |events| ==> NotLate(Run(events[..i]), events[i], pod)
  }

  ghost predicate NoneLate(events: seq<Event>, pod: nat) { forall i :: NotLateAt(events, pod, i) }

  /** With one pod the database is never newer than the running cache if and only
      if no write that was given up lands on a cache older than it. */
  lemma {:induction false} OnePodExactly(events: seq<Event>, pod: nat)
    requires forall i :: 0 <= i < |events| ==> OfPod(events[i], pod)
    ensures NeverNewer(events, pod) <==> NoneLate(events, pod)
  {
    hide Run, Newer, NotLate, NeverNewer, NoneLate;
    if events == [] {
      NothingNewer(events, pod);
    } else {
      var front, e := events[..|events| - 1], events[|events| - 1];
      OnePodExactly(front, pod);
      AlwaysWhole(front);
      NeverNewerSnoc(events, pod);
      NoneLateSnoc(events, pod);
      RunLast(events);
      if !Newer(Run(front), pod) {
        OnlyLateIsNewer(Run(front), e, pod);
      }
    }
  }

  lemma NothingNewer(events: seq<Event>, pod: nat)
    requires events == []
    ensures NeverNewer(events, pod) && NoneLate(events, pod)
  {
    assert forall i: nat :: i <= |events| ==> events[..i] == [];
  }

  lemma RunLast(events: seq<Event>)
    requires events != []
    ensures Run(events) == Apply(Run(events[..|events| - 1]), events[|events| - 1])
  {}

  lemma NeverNewerSnoc(events: seq<Event>, pod: nat)
    requires events != []
    ensures var front := events[..|events| - 1];
            && (NeverNewer(events, pod) <==> NeverNewer(front, pod) && !Newer(Run(events), pod))
            && (NeverNewer(front, pod) ==> !Newer(Run(front), pod))
  {
    hide Run, Newer;
    var n := |events| - 1;
    var front := events[..n];
    assert events[..n + 1] == events && front[..n] == front;
    forall i: nat | i <= n ensures events[..i] == front[..i] {}
  }

  lemma NoneLateSnoc(events: seq<Event>, pod: nat)
    requires events != []
    ensures var front := events[..|events| - 1];
            NoneLate(events, pod) <==> NoneLate(front, pod) && NotLate(Run(front), events[|events| - 1], pod)
  {
    hide Run, NotLate;
    var n := |events| - 1;
    var front := events[..n];
    forall i | i != n ensures NotLateAt(events, pod, i) <==> NotLateAt(front, pod, i) {
      assert 0 <= i < n ==> events[..i] == front[..i];
    }
    assert NotLateAt(front, pod, n);
    assert NotLateAt(events, pod, n) <==> NotLate(Run(front), events[n], pod);
  }

  lemma OnlyLateIsNewer(s: Sys, e: Event, pod: nat)
    requires Inv(s) && OfPod(e, pod) && !Newer(s, pod)
    ensures Newer(Apply(s, e), pod) <==> !NotLate(s, e, pod)
  {
    assert PodOk(s.lists, PodOf(s, pod));
  }

  // ----- when several pods are safe -----

  /** The places whose writes landed, in the order they did. */
  function Landed(events: seq<Event>): seq<nat> {
    if events == [] then []
    else
      var front := events[..|events| - 1];
      var k := LandedBy(Run(front), events[|events| - 1]);
      Landed(front) + if k == 0 then [] else [k]
  }

  /** What was stored in s is not replaced in t by other, older data. */
  predicate Keeps(s: Sys, t: Sys) { s.rowAt <= t.rowAt || Stored(s.row) == Stored(t.row) }

  predicate KeepsBetween(events: seq<Event>, i: int, j: int) {
    0 <= i <= j <= |events| ==> Keeps(Run(events[..i]), Run(events[..j]))
  }

  /** At no time is what was stored earlier replaced by other, older data. */
  ghost predicate NeverGoesBack(events: seq<Event>) { forall i, j :: KeepsBetween(events, i, j) }

  /** The later of two landed writes is of a LIST no older, or of the same data. */
  predicate InOrderAt(lists: seq<Items>, landed: seq<nat>, i: int, j: int) {
    0 <= i < j < |landed| && landed[j] < landed[i] <= |lists| ==>
      Whole(lists, landed[i]) == Whole(lists, landed[j])
  }

  ghost predicate InOrder(lists: seq<Items>, landed: seq<nat>) { forall i, j :: InOrderAt(lists, landed, i, j) }

  lemma {:induction false} RowIsLastLanded(events: seq<Event>)
    ensures var landed := Landed(events);
            && Run(events).rowAt == (if landed == [] then 0 else landed[|landed| - 1])
            && forall j :: 0 <= j < |landed| ==> 0 < landed[j] <= |Run(events).lists|
  {
    if events != [] {
      var front, e := events[..|events| - 1], events[|events| - 1];
      RowIsLastLanded(front);
      AlwaysWhole(front);
      ApplyInv(Run(front), e);
      RowMoves(Run(front), e);
      hide Inv, Apply, LandedBy;
    }
  }

  /** Up to any point of a run there is a prefix of its LISTs and landed writes. */
  lemma {:induction false} RunPrefix(events: seq<Event>, n: nat)
    requires n <= |events|
    ensures Landed(events[..n]) <= Landed(events) && Run(events[..n]).lists <= Run(events).lists
    decreases |events|
  {
    if n == |events| {
      assert events[..n] == events;
    } else {
      var front := events[..|events| - 1];
      RunPrefix(front, n);
      AlwaysWhole(front);
      ApplyInv(Run(front), events[|events| - 1]);
      hide Inv, Apply, LandedBy;
      assert front[..n] == events[..n];
    }
  }

  /** What the row holds at any point, in terms of the whole run. */
  lemma RowHolds(events: seq<Event>, n: nat)
    requires n <= |events|
    ensures var s, m := Run(events[..n]), |Landed(events[..n])|;
            && m <= |Landed(events)|
            && s.rowAt == (if m == 0 then 0 else Landed(events)[m - 1])
            && s.rowAt <= |Run(events).lists| && Stored(s.row) == Whole(Run(events).lists, s.rowAt)
  {
    RunPrefix(events, n);
    RowIsLastLanded(events[..n]);
    AlwaysWhole(events[..n]);
    hide Run, Landed, Stored;
  }

  /** Every landed write has a point at which it is the last. */
  lemma {:induction false} LandingPoint(events: seq<Event>, m: nat) returns (n: nat)
    requires m <= |Landed(events)|
    ensures n <= |events| && |Landed(events[..n])| == m
  {
    if m == |Landed(events)| {
      assert events[..|events|] == events;
      n := |events|;
    } else {
      var front := events[..|events| - 1];
      n := LandingPoint(front, m);
      assert front[..n] == events[..n];
    }
  }

  /** For any pods, failures, crashes, restarts and late writes, stored data never
      goes back if and only if of any two landed writes the later is of a LIST no
      older, or of equal data. */
  lemma SafeExactly(events: seq<Event>)
    ensures NeverGoesBack(events) <==> InOrder(Run(events).lists, Landed(events))
  {
    var lists, landed := Run(events).lists, Landed(events);
    if InOrder(lists, landed) {
      forall i, j ensures KeepsBetween(events, i, j) {
        if 0 <= i <= j <= |events| {
          InOrderKeeps(events, i, j);
        }
      }
    }
    if NeverGoesBack(events) {
      forall i, j ensures InOrderAt(lists, landed, i, j) {
        if 0 <= i < j < |landed| {
          KeepsInOrder(events, i, j);
        }
      }
    }
  }

  lemma LandedGrows(events: seq<Event>, i: nat, j: nat)
    requires i <= j <= |events|
    ensures |Landed(events[..i])| <= |Landed(events[..j])|
  {
    hide Run, Landed;
    RunPrefix(events[..j], i);
    assert events[..j][..i] == events[..i];
  }

  lemma InOrderKeeps(events: seq<Event>, i: nat, j: nat)
    requires i <= j <= |events| && InOrder(Run(events).lists, Landed(events))
    ensures Keeps(Run(events[..i]), Run(events[..j]))
  {
    hide Run, Landed, Stored, Whole, Keeps, InOrder;
    RowHolds(events, i);
    RowHolds(events, j);
    LandedGrows(events, i, j);
    var a, b := |Landed(events[..i])|, |Landed(events[..j])|;
    LastsKeep(Run(events[..i]), Run(events[..j]), Run(events).lists, Landed(events), a, b);
  }

  lemma LastsKeep(s: Sys, t: Sys, lists: seq<Items>, landed: seq<nat>, a: nat, b: nat)
    requires a <= b <= |landed| && InOrder(lists, landed)
    requires s.rowAt == (if a == 0 then 0 else landed[a - 1]) && t.rowAt == if b == 0 then 0 else landed[b - 1]
    requires s.rowAt <= |lists| && Stored(s.row) == Whole(lists, s.rowAt)
    requires t.rowAt <= |lists| && Stored(t.row) == Whole(lists, t.rowAt)
    ensures Keeps(s, t)
  {
    hide Stored, Whole;
    assert InOrderAt(lists, landed, a - 1, b - 1);
  }

  /** Two landed writes that show the failure. */
  lemma OutOfOrder(events: seq<Event>, i: nat, j: nat)
    requires i < j < |Landed(events)|
    requires 0 < Landed(events)[j] < Landed(events)[i] <= |Run(events).lists|
    requires Run(events).lists[Landed(events)[i] - 1] != Run(events).lists[Landed(events)[j] - 1]
    ensures !NeverGoesBack(events)
  {
    hide Run, Landed;
    SafeExactly(events);
    assert !InOrderAt(Run(events).lists, Landed(events), i, j);
  }

  lemma KeepsInOrder(events: seq<Event>, i: nat, j: nat)
    requires i < j < |Landed(events)| && NeverGoesBack(events)
    ensures InOrderAt(Run(events).lists, Landed(events), i, j)
  {
    hide Run, Landed, Stored, Whole;
    var a := LandingPoint(events, i + 1);
    var b := LandingPoint(events, j + 1);
    RowHolds(events, a);
    RowHolds(events, b);
    assert a <= b by {
      if b < a { LandedGrows(events, b, a); }
    }
    assert KeepsBetween(events, a, b);
  }

  /** When all LISTs give the same data, as the comment supposes, several pods are safe. */
  lemma SameDataIsSafe(events: seq<Event>)
    requires forall i, j :: 0 <= i < j < |Run(events).lists| ==> Run(events).lists[i] == Run(events).lists[j]
    ensures NeverGoesBack(events)
  {
    hide Run;
    SafeExactly(events);
    RowIsLastLanded(events);
    var lists, landed := Run(events).lists, Landed(events);
    forall i, j ensures InOrderAt(lists, landed, i, j) {}
  }

  /** Otherwise they need not be. When a and b have swapped in LISTs of which a's
      is the older, b's write makes the database newer than a's cache, and a's
      write then puts the older LIST over the newer; the data changes back
      exactly when the two LISTs differ. */
  lemma SlowWriterGoesBack(s: Sys, a: nat, b: nat)
    requires Inv(s) && a != b && PodOf(s, a).Up? && PodOf(s, b).Up?
    requires PodOf(s, a).phase.Swapped? && PodOf(s, b).phase.Swapped?
    requires PodOf(s, a).phase.list < PodOf(s, b).phase.list < |s.lists|
    ensures var t := Apply(s, Upserted(b, Written)); var u := Apply(t, Upserted(a, Written));
            && t.row == Some(PodOf(s, b).cache) && Newer(t, a)
            && u.row == Some(PodOf(s, a).cache) && u.rowAt < t.rowAt
            && (u.row == t.row <==> PodOf(s, a).cache == PodOf(s, b).cache)
            && (Keeps(t, u) <==> PodOf(s, a).cache == PodOf(s, b).cache)
  {
    assert PodOk(s.lists, s.pods[a]) && PodOk(s.lists, s.pods[b]);
  }

  /** Such a state is reached with any two LISTs. */
  lemma SlowWriterReachable(older: Items, newer: Items) returns (events: seq<Event>)
    ensures var s := Run(events);
            && PodOf(s, 0) == Up(older, true, 1, Swapped(0)) && PodOf(s, 1) == Up(newer, true, 2, Swapped(1))
            && PodOf(s, 2) == Down && s.lists == [older, newer] && s.rowAt == 0
  {
    events := [Booted(0, true), Booted(1, true), Listed(0, Some(older)), Listed(1, Some(newer)),
               SwappedIn(0), SwappedIn(1)];
    var s2 := Sys([], None, 0, {}, map[0 := Up([], true, 0, Idle), 1 := Up([], true, 0, Idle)]);
    var s4 := Sys([older, newer], None, 0, {}, map[0 := Up([], true, 0, Fetched(0)), 1 := Up([], true, 0, Fetched(1))]);
    var s6 := Sys([older, newer], None, 0, {},
                  map[0 := Up(older, true, 1, Swapped(0)), 1 := Up(newer, true, 2, Swapped(1))]);
    BothBoot(s2);
    BothList(s2, s4, older, newer);
    BothSwap(s4, s6, older, newer);
    SixSteps(INIT, events);
    assert Run(events) == s6;
  }

  /** With any two different LISTs there is a run in which the older one ends up
      over the newer. */
  lemma OlderOverNewer(older: Items, newer: Items) returns (events: seq<Event>)
    requires older != newer
    ensures Run(events).lists == [older, newer] && Landed(events) == [2, 1]
    ensures Run(events).row == Some(older) && !NeverGoesBack(events)
  {
    var before := SlowWriterReachable(older, newer);
    RowIsLastLanded(before);
    hide Run, Apply, LandedBy, PodOf, NeverGoesBack;
    TwoWrites(Run(before), older, newer);
    var b, a := Upserted(1, Written), Upserted(0, Written);
    events := before + [b] + [a];
    RunSnoc(before, b);
    RunSnoc(before + [b], a);
    OutOfOrder(events, 0, 1);
  }

  lemma TwoWrites(s: Sys, older: Items, newer: Items)
    requires PodOf(s, 0) == Up(older, true, 1, Swapped(0)) && PodOf(s, 1) == Up(newer, true, 2, Swapped(1))
    requires s.lists == [older, newer]
    ensures var t := Apply(s, Upserted(1, Written)); var u := Apply(t, Upserted(0, Written));
            && LandedBy(s, Upserted(1, Written)) == 2 && LandedBy(t, Upserted(0, Written)) == 1
            && u.lists == [older, newer] && u.row == Some(older)
  {}

  /** An equal LIST in between hides nothing: with LISTs d, e, d the writes landing
      third, first, second leave e over the newer d, though each write is newer
      than the one before it or of its data. */
  lemma EqualDataInBetween(d: Items, e: Items) returns (events: seq<Event>)
    requires d != e
    ensures Run(events).lists == [d, e, d] && Landed(events) == [3, 1, 2]
    ensures Run(events).row == Some(e) && !NeverGoesBack(events)
  {
    var before := SlowWriterReachable(d, e);
    RowIsLastLanded(before);
    hide Run, Apply, LandedBy, PodOf, NeverGoesBack;
    ThirdPod(Run(before), d, e);
    var e1 := before + [Booted(2, true)];
    var e2 := e1 + [Listed(2, Some(d))];
    var e3 := e2 + [SwappedIn(2)];
    RunSnoc(before, Booted(2, true));
    RunSnoc(e1, Listed(2, Some(d)));
    RunSnoc(e2, SwappedIn(2));
    ThreeWrites(Run(e3), d, e);
    var e4 := e3 + [Upserted(2, Written)];
    var e5 := e4 + [Upserted(0, Written)];
    events := e5 + [Upserted(1, Written)];
    RunSnoc(e3, Upserted(2, Written));
    RunSnoc(e4, Upserted(0, Written));
    RunSnoc(e5, Upserted(1, Written));
    OutOfOrder(events, 0, 2);
  }

  lemma ThirdPod(s: Sys, d: Items, e: Items)
    requires PodOf(s, 0) == Up(d, true, 1, Swapped(0)) && PodOf(s, 1) == Up(e, true, 2, Swapped(1))
    requires PodOf(s, 2) == Down && s.lists == [d, e]
    ensures var t := Apply(s, Booted(2, true)); var u := Apply(t, Listed(2, Some(d))); var v := Apply(u, SwappedIn(2));
            && LandedBy(s, Booted(2, true)) == LandedBy(t, Listed(2, Some(d))) == LandedBy(u, SwappedIn(2)) == 0
            && PodOf(v, 0) == PodOf(s, 0) && PodOf(v, 1) == PodOf(s, 1) && PodOf(v, 2) == Up(d, true, 3, Swapped(2))
            && v.lists == [d, e, d]
  {
    assert [d, e] + [d] == [d, e, d];
  }

  lemma ThreeWrites(s: Sys, d: Items, e: Items)
    requires PodOf(s, 0) == Up(d, true, 1, Swapped(0)) && PodOf(s, 1) == Up(e, true, 2, Swapped(1))
    requires PodOf(s, 2) == Up(d, true, 3, Swapped(2)) && s.lists == [d, e, d]
    ensures var t := Apply(s, Upserted(2, Written)); var u := Apply(t, Upserted(0, Written));
            var v := Apply(u, Upserted(1, Written));
            && LandedBy(s, Upserted(2, Written)) == 3 && LandedBy(t, Upserted(0, Written)) == 1
            && LandedBy(u, Upserted(1, Written)) == 2
            && v.lists == [d, e, d] && v.row == Some(e)
  {}

  lemma RunSnoc(events: seq<Event>, e: Event)
    ensures Run(events + [e]) == Apply(Run(events), e)
    ensures var k := LandedBy(Run(events), e); Landed(events + [e]) == Landed(events) + if k == 0 then [] else [k]
  {
    assert (events + [e])[..|events|] == events;
  }

  lemma BothBoot(s2: Sys)
    requires s2 == Sys([], None, 0, {}, map[0 := Up([], true, 0, Idle), 1 := Up([], true, 0, Idle)])
    ensures Apply(Apply(INIT, Booted(0, true)), Booted(1, true)) == s2
  {}

  lemma BothList(s2: Sys, s4: Sys, older: Items, newer: Items)
    requires s2 == Sys([], None, 0, {}, map[0 := Up([], true, 0, Idle), 1 := Up([], true, 0, Idle)])
    requires s4 == Sys([older, newer], None, 0, {},
                       map[0 := Up([], true, 0, Fetched(0)), 1 := Up([], true, 0, Fetched(1))])
    ensures Apply(Apply(s2, Listed(0, Some(older))), Listed(1, Some(newer))) == s4
  {}

  lemma BothSwap(s4: Sys, s6: Sys, older: Items, newer: Items)
    requires s4 == Sys([older, newer], None, 0, {},
                       map[0 := Up([], true, 0, Fetched(0)), 1 := Up([], true, 0, Fetched(1))])
    requires s6 == Sys([older, newer], None, 0, {},
                       map[0 := Up(older, true, 1, Swapped(0)), 1 := Up(newer, true, 2, Swapped(1))])
    ensures Apply(Apply(s4, SwappedIn(0)), SwappedIn(1)) == s6
  {}

  lemma SixSteps(s: Sys, e: seq<Event>)
    requires |e| == 6
    ensures RunFrom(s, e) == Apply(Apply(Apply(Apply(Apply(Apply(s, e[0]), e[1]), e[2]), e[3]), e[4]), e[5])
  {
    hide Apply;
    forall n | 1 <= n <= 6 ensures RunFrom(s, e[..n]) == Apply(RunFrom(s, e[..n - 1]), e[n - 1]) {
      assert e[..n][..n - 1] == e[..n - 1];
    }
    assert e[..6] == e;
  }

  // ----- the poller as steps of the system -----

  function StepsOf(pod: nat, polls: seq<Poll>): seq<Event> {
    if polls == [] then []
    else
      var last := polls[|polls| - 1];
      StepsOf(pod, polls[..|polls| - 1]) + [Listed(pod, last.listed), SwappedIn(pod), Upserted(pod, last.write)]
  }

  /** An undisturbed pod goes through the cache and row that Poller's contract names. */
  lemma {:induction false} PollsAsSteps(s: Sys, pod: nat, polls: seq<Poll>)
    requires PodOf(s, pod).Up? && PodOf(s, pod).phase == Idle
    ensures var t := RunFrom(s, StepsOf(pod, polls)); var p := PodOf(t, pod);
            && p.Up? && p.phase == Idle
            && p.cache == CacheAfter(PodOf(s, pod).cache, polls)
            && t.row == RowAfter(s.row, polls)
  {
    if polls != [] {
      var front, last := polls[..|polls| - 1], polls[|polls| - 1];
      PollsAsSteps(s, pod, front);
      var t := RunFrom(s, StepsOf(pod, front));
      ThreeSteps(s, StepsOf(pod, front), Listed(pod, last.listed), SwappedIn(pod), Upserted(pod, last.write));
      OnePoll(t, pod, last);
    }
  }

  lemma ThreeSteps(s: Sys, events: seq<Event>, a: Event, b: Event, c: Event)
    ensures RunFrom(s, events + [a, b, c]) == Apply(Apply(Apply(RunFrom(s, events), a), b), c)
  {
    hide Apply;
    var e := events + [a, b, c];
    var f, g := events + [a, b], events + [a];
    assert e[..|e| - 1] == f && f[..|f| - 1] == g && g[..|g| - 1] == events;
    assert RunFrom(s, g) == Apply(RunFrom(s, events), a);
    assert RunFrom(s, f) == Apply(RunFrom(s, g), b);
  }

  lemma OnePoll(s: Sys, pod: nat, poll: Poll)
    requires PodOf(s, pod).Up? && PodOf(s, pod).phase == Idle
    ensures var t := Apply(Apply(Apply(s, Listed(pod, poll.listed)), SwappedIn(pod)), Upserted(pod, poll.write));
            var p := PodOf(t, pod);
            && p.Up? && p.phase == Idle
            && p.cache == (if poll.listed.Some? then poll.listed.value else PodOf(s, pod).cache)
            && t.row == (if poll.listed.Some? && Lands(poll.write) then poll.listed else s.row)
  {}
}
