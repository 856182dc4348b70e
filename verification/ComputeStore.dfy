/** The locked in-memory store of compute instances. Its lock makes each
    operation one atomic step. */
module ComputeStore {
  import opened Wrappers
  import opened Text

  const PROVISIONING := "provisioning"
  const DELETING := "deleting"

  datatype Record = Record(name: string, tenantId: string, provider: string, size: string, status: string,
      workflowId: string)

  datatype DomainError = NotFound(name: string) | AlreadyExists(name: string) | AlreadyDeleting(name: string)

  function NewRecord(name: string, tenantId: string, provider: string, size: string): Record {
    Record(name, tenantId, provider, size, PROVISIONING, "wf-" + name + "-001")
  }

  // ----- the operations as steps on the records -----

  datatype Op =
    | Create(name: string, tenantId: string, provider: string, size: string)
    | Delete(name: string)
    | Read  // Get and List

  type Records = map<string, Record>

  predicate Succeeds(m: Records, op: Op) {
    match op
    case Create(name, _, _, _) => name !in m
    case Delete(name) => name in m && m[name].status != DELETING
    case Read => true
  }

  function Step(m: Records, op: Op): Records {
    if !Succeeds(m, op) then m
    else match op
      case Create(name, tenantId, provider, size) => m[name := NewRecord(name, tenantId, provider, size)]
      case Delete(name) => m[name := m[name].(status := DELETING)]
      case Read => m
  }

  function Run(m: Records, ops: seq<Op>): Records {
    if ops == [] then m else Step(Run(m, ops[..|ops| - 1]), ops[|ops| - 1])
  }

  // ----- the store -----

  class ComputeInstance {
    const name: string
    const tenantId: string
    const provider: string
    const size: string
    const workflowId: string
    var status: string

    constructor (name: string, tenantId: string, provider: string, size: string)
      ensures View() == NewRecord(name, tenantId, provider, size)
      ensures this.name == name && this.tenantId == tenantId && this.provider == provider && this.size == size
      ensures status == "provisioning" && workflowId == "wf-" + name + "-001"
    {
      this.name, this.tenantId, this.provider, this.size := name, tenantId, provider, size;
      status := PROVISIONING;
      workflowId := "wf-" + name + "-001";
    }

    ghost function View(): Record
      reads this
    {
      Record(name, tenantId, provider, size, status, workflowId)
    }
  }

  class Store {
    var items: map<string, ComputeInstance>

    constructor ()
      ensures Valid() && View() == map[]
    {
      items := map[];
    }

    ghost predicate Valid()
      reads this
    {
      forall n :: n in items ==> items[n].name == n
    }

    ghost function View(): Records
      reads this, items.Values
    {
      map n | n in items :: items[n].View()
    }

    method Create(name: string, tenantId: string, provider: string, size: string)
      returns (r: Result<ComputeInstance, DomainError>)
      requires Valid()
      modifies this
      ensures Valid() && View() == Step(old(View()), Op.Create(name, tenantId, provider, size))
      ensures name in old(items) ==> r == Err(AlreadyExists(name)) && items == old(items)
      ensures name !in old(items) ==> r.Ok? && fresh(r.value) && items == old(items)[name := r.value]
      ensures name !in old(items) ==>
                r.value.View() == Record(name, tenantId, provider, size, "provisioning", "wf-" + name + "-001")
    {
      if name in items {
        return Err(AlreadyExists(name));
      }
      var inst := new ComputeInstance(name, tenantId, provider, size);
      items := items[name := inst];
      return Ok(inst);
    }

    /** The pointer returned is the stored instance, not a copy. */
    method Get(name: string) returns (r: Result<ComputeInstance, DomainError>)
      ensures r == if name in items then Ok(items[name]) else Err(NotFound(name))
    {
      if name !in items {
        return Err(NotFound(name));
      }
      return Ok(items[name]);
    }

    method Delete(name: string) returns (r: Option<DomainError>)
      requires Valid()
      modifies if name in items then {items[name]} else {}
      ensures Valid() && items == old(items) && View() == Step(old(View()), Op.Delete(name))
      ensures r == if name !in items then Some(NotFound(name))
                   else if old(items[name].status) == DELETING then Some(AlreadyDeleting(name))
                   else None
      ensures name in items ==> items[name].status == "deleting"
    {
      if name !in items {
        return Some(NotFound(name));
      }
      var inst := items[name];
      if inst.status == DELETING {
        return Some(AlreadyDeleting(name));
      }
      inst.status := DELETING;
      return None;
    }

    ghost function NamesOf(tenantId: string): set<string>
      reads this
    {
      set n | n in items && items[n].tenantId == tenantId
    }

    /** In whatever order the map yields its entries: different instances of the
        tenant, as many as there are up to the limit, and one even for a limit
        below one. */
    method List(tenantId: string, limit: int) returns (result: seq<ComputeInstance>)
      requires Valid()
      ensures Distinct(result)
      ensures forall x :: x in result ==> x.tenantId == tenantId && x.name in items && items[x.name] == x
      ensures |result| == Min(|NamesOf(tenantId)|, if limit < 1 then 1 else limit)
    {
      result := [];
      ghost var taken: set<string> := {};
      var left := items.Keys;
      ScanStart(tenantId);
      hide Scanned;
      while left != {}
        invariant left <= items.Keys
        invariant Scanned(tenantId, left, result, taken)
        invariant result != [] ==> |result| < limit
        decreases left
      {
        var n :| n in left;
        Scan(tenantId, left, n, result, taken);
        left := left - {n};
        var inst := items[n];
        if inst.tenantId == tenantId {
          result := result + [inst];
          taken := taken + {n};
          if |result| >= limit {
            break;
          }
        }
      }
      ScanMeans(tenantId, left, result, taken);
    }

    /** The tenant's names are taken but for those left. */
    ghost predicate Scanned(tenantId: string, left: set<string>, result: seq<ComputeInstance>, taken: set<string>)
      reads this
    {
      Valid() && Taken(tenantId, result, taken) && taken == NamesOf(tenantId) - left
    }

    lemma ScanStart(tenantId: string)
      requires Valid()
      ensures Scanned(tenantId, items.Keys, [], {})
    {
      assert Distinct<ComputeInstance>([]);
    }

    lemma Scan(tenantId: string, left: set<string>, n: string, result: seq<ComputeInstance>, taken: set<string>)
      requires Scanned(tenantId, left, result, taken) && n in left && left <= items.Keys
      ensures if items[n].tenantId == tenantId then Scanned(tenantId, left - {n}, result + [items[n]], taken + {n})
              else Scanned(tenantId, left - {n}, result, taken)
    {
      TakeOne(NamesOf(tenantId), left, n);
      assert n in NamesOf(tenantId) <==> items[n].tenantId == tenantId;
      hide NamesOf, Taken, Valid;
      if items[n].tenantId == tenantId {
        TakenSnoc(tenantId, result, taken, n);
      }
    }

    lemma ScanMeans(tenantId: string, left: set<string>, result: seq<ComputeInstance>, taken: set<string>)
      requires Scanned(tenantId, left, result, taken)
      ensures Distinct(result)
      ensures forall x :: x in result ==> x.tenantId == tenantId && x.name in items && items[x.name] == x
      ensures |result| <= |NamesOf(tenantId)| && (left == {} ==> |result| == |NamesOf(tenantId)|)
    {
      TakenMeans(tenantId, result, taken);
      SubsetSize(taken, NamesOf(tenantId));
      assert left == {} ==> taken == NamesOf(tenantId);
    }

    /** The result so far: different instances of the tenant, as many as the
        names taken. */
    ghost predicate Taken(tenantId: string, result: seq<ComputeInstance>, taken: set<string>)
      reads this
      ensures Taken(tenantId, result, taken) ==> |result| == |taken|
    {
      && Distinct(result)
      && |result| == |taken|
      && forall x :: x in result ==> x.tenantId == tenantId && x.name in taken && x.name in items && items[x.name] == x
    }

    lemma TakenMeans(tenantId: string, result: seq<ComputeInstance>, taken: set<string>)
      requires Taken(tenantId, result, taken)
      ensures Distinct(result)
      ensures forall x :: x in result ==> x.tenantId == tenantId && x.name in items && items[x.name] == x
    {}

    lemma TakenSnoc(tenantId: string, result: seq<ComputeInstance>, taken: set<string>, n: string)
      requires Valid() && Taken(tenantId, result, taken)
      requires n in items && n !in taken && items[n].tenantId == tenantId
      ensures Taken(tenantId, result + [items[n]], taken + {n})
    {}
  }

  function Min(a: int, b: int): int { if a <= b then a else b }

  lemma TakeOne<T>(mine: set<T>, left: set<T>, n: T)
    requires n in left
    ensures mine - (left - {n}) == if n in mine then (mine - left) + {n} else mine - left
  {}

  // ----- over every interleaving -----

  /** Entries are never removed or renamed, keep all but their status, and the
      status only moves from provisioning to deleting. */
  lemma {:induction false} EntriesStay(m: Records, ops: seq<Op>, name: string)
    requires name in m
    ensures var m' := Run(m, ops);
            && name in m'
            && (m'[name] == m[name] || m'[name] == m[name].(status := DELETING))
  {
    if ops != [] { EntriesStay(m, ops[..|ops| - 1], name); }
  }

  predicate IsCreate(ops: seq<Op>, i: int, name: string) {
    0 <= i < |ops| && ops[i].Create? && ops[i].name == name
  }

  predicate IsDelete(ops: seq<Op>, i: int, name: string) {
    0 <= i < |ops| && ops[i].Delete? && ops[i].name == name
  }

  /** How many of the operations that pick selects succeeded. */
  function Successes(ops: seq<Op>, pick: Op -> bool): nat {
    if ops == [] then 0
    else
      var n := |ops| - 1;
      Successes(ops[..n], pick) + if pick(ops[n]) && Succeeds(Run(map[], ops[..n]), ops[n]) then 1 else 0
  }

  function Creates(name: string): Op -> bool { (op: Op) => op.Create? && op.name == name }

  function Deletes(name: string): Op -> bool { (op: Op) => op.Delete? && op.name == name }

  ghost predicate Created(ops: seq<Op>, name: string) { exists i :: IsCreate(ops, i, name) }

  ghost predicate DeletedAfterCreate(ops: seq<Op>, name: string) {
    exists i, j :: i < j && IsCreate(ops, i, name) && IsDelete(ops, j, name)
  }

  /** Exactly one Create of a name succeeds, if any is tried; a Delete of it
      succeeds exactly once if one comes after a Create, and never otherwise. */
  lemma {:induction false} OneCreateOneDelete(ops: seq<Op>, name: string)
    ensures var m := Run(map[], ops);
            && (name in m <==> Created(ops, name))
            && (name in m ==> (m[name].status == DELETING <==> DeletedAfterCreate(ops, name)))
            && Successes(ops, Creates(name)) == (if Created(ops, name) then 1 else 0)
            && Successes(ops, Deletes(name)) == (if DeletedAfterCreate(ops, name) then 1 else 0)
  {
    if ops == [] {
    } else {
      var n := |ops| - 1;
      var front := ops[..n];
      OneCreateOneDelete(front, name);
      forall i ensures IsCreate(ops, i, name) <==> IsCreate(front, i, name) || (i == n && IsCreate(ops, n, name)) {}
      forall i ensures IsDelete(ops, i, name) <==> IsDelete(front, i, name) || (i == n && IsDelete(ops, n, name)) {}
      CreatedSnoc(ops, name);
    }
  }

  lemma CreatedSnoc(ops: seq<Op>, name: string)
    requires ops != []
    ensures var n := |ops| - 1;
            && (Created(ops, name) <==> Created(ops[..n], name) || IsCreate(ops, n, name))
            && (DeletedAfterCreate(ops, name) <==>
                  DeletedAfterCreate(ops[..n], name) || (Created(ops[..n], name) && IsDelete(ops, n, name)))
  {
    var n := |ops| - 1;
    var front := ops[..n];
    forall i ensures IsCreate(ops, i, name) <==> IsCreate(front, i, name) || (i == n && IsCreate(ops, n, name)) {}
    forall i ensures IsDelete(ops, i, name) <==> IsDelete(front, i, name) || (i == n && IsDelete(ops, n, name)) {}
    if Created(front, name) && IsDelete(ops, n, name) {
      var i :| IsCreate(front, i, name);
      assert i < n && IsCreate(ops, i, name);
    }
    if DeletedAfterCreate(front, name) {
      var i, j :| i < j && IsCreate(front, i, name) && IsDelete(front, j, name);
      assert IsCreate(ops, i, name) && IsDelete(ops, j, name);
    }
    if DeletedAfterCreate(ops, name) {
      var i, j :| i < j && IsCreate(ops, i, name) && IsDelete(ops, j, name);
      assert IsCreate(front, i, name);
      assert j < n ==> IsDelete(front, j, name);
    }
  }
}
