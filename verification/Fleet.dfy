/**
 * All work items and all workers (lib/brain/agent_run.go): each item is a `Brain` server, the clock is shared, and
 * a grant must also respect the worker's capacity. A raised capacity is approved until it expires; the next grant
 * attempt after that puts the previous capacity back.
 */
module Fleet {
  import opened Text
  import Brain

  datatype CapacityChange = CapacityChange(previous: nat, expires: int, approved: bool)

  /** `changes` in order of creation. */
  datatype Worker = Worker(maxConcurrency: nat, changes: seq<CapacityChange>)

  /** `items` in order of creation. */
  datatype Fleet = Fleet(items: seq<Brain.Server>, workers: map<string, Worker>, now: int)

  datatype Event =
    | Tick(elapsed: nat)
    | AddWork(runDeadline: Option<int>)
    | SetWorker(worker: string, row: Worker)
    | Lease(worker: string, id: string, i: nat)
    | OnItem(i: nat, e: Brain.Event)

  /** An unexpired lease of this worker. */
  predicate Holds(sv: Brain.Server, worker: string) {
    && sv.item.status == Brain.WLeased && sv.item.lease.worker == worker
    && sv.item.deadline.Some? && sv.now < sv.item.deadline.value
  }

  function Active(items: seq<Brain.Server>, worker: string): nat {
    if items == [] then 0
    else Active(items[..|items| - 1], worker) + if Holds(items[|items| - 1], worker) then 1 else 0
  }

  predicate Leases(sv: Brain.Server, worker: string) {
    Brain.Live(sv, sv.item.lease) && sv.item.lease.worker == worker
  }

  function HeldBy(items: seq<Brain.Server>, worker: string): set<int> {
    set k | 0 <= k < |items| && Leases(items[k], worker)
  }

  /** The active leases of a worker are the items leased to it whose lease has not run out, each counted once. */
  lemma {:induction false} ActiveExactly(items: seq<Brain.Server>, worker: string)
    ensures Active(items, worker) == |HeldBy(items, worker)|
  {
    if items != [] {
      var n := |items| - 1;
      ActiveExactly(items[..n], worker);
      HeldNext(items, worker);
    }
  }

  lemma HeldNext(items: seq<Brain.Server>, worker: string)
    requires items != []
    ensures var n := |items| - 1;
            |HeldBy(items, worker)| == |HeldBy(items[..n], worker)| + if Holds(items[n], worker) then 1 else 0
  {
    var n := |items| - 1;
    var before := HeldBy(items[..n], worker);
    assert n !in before;
    if Holds(items[n], worker) {
      assert HeldBy(items, worker) == before + {n};
    } else {
      assert HeldBy(items, worker) == before;
    }
  }

  /** The newest approved change that has expired. */
  function ExpiredChange(changes: seq<CapacityChange>, now: int): (k: int)
    ensures -1 <= k < |changes|
    ensures k >= 0 ==> changes[k].approved && changes[k].expires <= now
    ensures forall l :: k < l < |changes| ==> !(changes[l].approved && changes[l].expires <= now)
  {
    if changes == [] then -1
    else
      var last := changes[|changes| - 1];
      if last.approved && last.expires <= now then |changes| - 1 else ExpiredChange(changes[..|changes| - 1], now)
  }

  function Reverted(w: Worker, now: int): Worker {
    var k := ExpiredChange(w.changes, now);
    if k < 0 then w
    else Worker(w.changes[k].previous, w.changes[k := w.changes[k].(approved := false)])
  }

  /** Change k is the newest of those that were approved and have expired. */
  predicate NewestExpired(changes: seq<CapacityChange>, now: int, k: int) {
    && 0 <= k < |changes| && changes[k].approved && changes[k].expires <= now
    && forall l :: k < l < |changes| ==> !(changes[l].approved && changes[l].expires <= now)
  }

  /**
   * The row with an expired raise taken back: the capacity from before the newest of them, which is no longer approved,
   * and everything else as it was. Without one the row is as it was.
   */
  ghost predicate TakenBack(w: Worker, now: int, after: Worker) {
    && (forall k :: NewestExpired(w.changes, now, k) ==>
          && after.maxConcurrency == w.changes[k].previous
          && |after.changes| == |w.changes| && !after.changes[k].approved
          && after.changes[k] == w.changes[k].(approved := after.changes[k].approved)
          && forall l :: 0 <= l < |w.changes| && l != k ==> after.changes[l] == w.changes[l])
    && ((forall k :: !NewestExpired(w.changes, now, k)) ==> after == w)
  }

  lemma RevertedTakesBack(w: Worker, now: int)
    ensures TakenBack(w, now, Reverted(w, now))
  {
    var e := ExpiredChange(w.changes, now);
    assert e >= 0 ==> NewestExpired(w.changes, now, e);
    forall k | NewestExpired(w.changes, now, k)
      ensures k == e
    {
    }
  }

  /** What a grant attempt of a known worker on item i leaves behind. */
  function Attempted(f: Fleet, worker: string, id: string, i: nat): Fleet
    requires worker in f.workers
  {
    var w := Reverted(f.workers[worker], f.now);
    var reverted := f.(workers := f.workers[worker := w]);
    if Active(f.items, worker) >= w.maxConcurrency then reverted
    else if i < |f.items| && Brain.Grantable(f.items[i])
    then reverted.(items := f.items[i := Brain.Step(f.items[i], Brain.Grant(worker, id))])
    else f
  }

  function Ticked(items: seq<Brain.Server>, elapsed: nat): seq<Brain.Server> {
    seq(|items|, k requires 0 <= k < |items| => Brain.Step(items[k], Brain.Tick(elapsed)))
  }

  function Next(f: Fleet, e: Event): Fleet {
    match e
    case Tick(elapsed) => Fleet(Ticked(f.items, elapsed), f.workers, f.now + elapsed)
    case AddWork(runDeadline) => f.(items := f.items + [Brain.NewServer(runDeadline, f.now)])
    case SetWorker(worker, row) => f.(workers := f.workers[worker := row])
    case Lease(worker, id, i) => if worker in f.workers then Attempted(f, worker, id, i) else f
    case OnItem(i, e) =>
      if i >= |f.items| || e.Tick? || e.Grant? then f
      else f.(items := f.items[i := Brain.Step(f.items[i], e)])
  }

  function Exec(f: Fleet, es: seq<Event>): Fleet {
    if es == [] then f else Next(Exec(f, es[..|es| - 1]), es[|es| - 1])
  }

  predicate Inv(f: Fleet) {
    forall k :: 0 <= k < |f.items| ==> Brain.Inv(f.items[k]) && f.items[k].now == f.now
  }

  /** What one event does to one item: nothing, or one event of its own. */
  lemma ItemStep(f: Fleet, e: Event, k: nat) returns (be: Option<Brain.Event>)
    requires k < |f.items|
    ensures k < |Next(f, e).items|
    ensures Next(f, e).items[k] == if be.None? then f.items[k] else Brain.Step(f.items[k], be.value)
    ensures be.Some? && be.value.Grant? ==> e.Lease? && e.i == k && Brain.Grantable(f.items[k])
    ensures be.Some? && be.value.Grant? ==> be.value.worker == e.worker && e.worker in f.workers
    ensures be.Some? && be.value.Tick? <==> e.Tick?
  {
    match e
    case Tick(elapsed) => be := Some(Brain.Tick(elapsed));
    case Lease(worker, id, i) =>
      be := if i == k && Next(f, e).items != f.items then Some(Brain.Grant(worker, id)) else None;
    case OnItem(i, b) => be := if i == k && !b.Tick? && !b.Grant? then Some(b) else None;
    case _ => be := None;
  }

  lemma StepTime(sv: Brain.Server, e: Brain.Event)
    ensures Brain.Step(sv, e).now == if e.Tick? then sv.now + e.elapsed else sv.now
  {
  }

  /** Every item moves with the shared clock. */
  lemma ItemTime(f: Fleet, e: Event, k: nat)
    requires k < |f.items| && f.items[k].now == f.now
    ensures k < |Next(f, e).items| && Next(f, e).items[k].now == Next(f, e).now
  {
    var be := ItemStep(f, e, k);
    if be.Some? {
      StepTime(f.items[k], be.value);
    }
  }

  lemma ItemKeepsInv(f: Fleet, e: Event, k: nat)
    requires k < |f.items| && Brain.Inv(f.items[k]) && f.items[k].now == f.now
    ensures k < |Next(f, e).items| && Brain.Inv(Next(f, e).items[k]) && Next(f, e).items[k].now == Next(f, e).now
  {
    var be := ItemStep(f, e, k);
    ItemTime(f, e, k);
    if be.Some? {
      Brain.StepKeepsInv(f.items[k], be.value);
    }
  }

  lemma NextKeepsInv(f: Fleet, e: Event)
    requires Inv(f)
    ensures Inv(Next(f, e))
  {
    forall k | 0 <= k < |Next(f, e).items|
      ensures Brain.Inv(Next(f, e).items[k]) && Next(f, e).items[k].now == Next(f, e).now
    {
      if k < |f.items| {
        ItemKeepsInv(f, e, k);
      }
    }
  }

  lemma {:induction false} ExecKeepsInv(f: Fleet, es: seq<Event>)
    requires Inv(f)
    ensures Inv(Exec(f, es))
  {
    if es != [] {
      ExecKeepsInv(f, es[..|es| - 1]);
      NextKeepsInv(Exec(f, es[..|es| - 1]), es[|es| - 1]);
    }
  }

  // ---- epochs and fencing ------------------------------------------------------------------------

  function Epoch(f: Fleet, k: nat): nat
    requires k < |f.items|
  {
    f.items[k].item.lease.epoch
  }

  /** An event raises an item's epoch by one if it grants that item, and leaves it alone otherwise. */
  lemma EpochStep(f: Fleet, e: Event, k: nat)
    requires k < |f.items|
    ensures k < |Next(f, e).items|
    ensures Epoch(Next(f, e), k) == Epoch(f, k) || Epoch(Next(f, e), k) == Epoch(f, k) + 1
    ensures Epoch(Next(f, e), k) != Epoch(f, k) ==> e.Lease? && e.i == k && Brain.Grantable(f.items[k])
    ensures Next(f, e).items[k].item.lease != f.items[k].item.lease ==> Epoch(Next(f, e), k) == Epoch(f, k) + 1
  {
    var be := ItemStep(f, e, k);
  }

  lemma {:induction false} EpochsNeverDrop(f: Fleet, es: seq<Event>, k: nat)
    requires k < |f.items|
    ensures k < |Exec(f, es).items| && Epoch(f, k) <= Epoch(Exec(f, es), k)
  {
    if es != [] {
      EpochsNeverDrop(f, es[..|es| - 1], k);
      EpochStep(Exec(f, es[..|es| - 1]), es[|es| - 1], k);
    }
  }

  /** Grants of one item carry strictly increasing epochs, whatever happens between them. */
  lemma GrantsIncrease(f: Fleet, first: Event, between: seq<Event>, second: Event, k: nat)
    requires k < |f.items| && k < |Next(f, first).items|
    requires Epoch(Next(f, first), k) != Epoch(f, k)
    ensures var middle := Exec(Next(f, first), between);
            && k < |middle.items| && k < |Next(middle, second).items|
            && (Epoch(Next(middle, second), k) != Epoch(middle, k) ==>
                  Epoch(Next(middle, second), k) > Epoch(Next(f, first), k) > Epoch(f, k))
  {
    EpochStep(f, first, k);
    EpochsNeverDrop(Next(f, first), between, k);
    EpochStep(Exec(Next(f, first), between), second, k);
  }

  /** A write under `lease`. */
  predicate Writes(e: Brain.Event, lease: Brain.Lease) {
    match e
    case Extend(l) => l == lease
    case Report(l, _) => l == lease
    case Complete(l) => l == lease
    case FailWork(l) => l == lease
    case _ => false
  }

  /** Once a newer lease of the item was granted, no write under an older epoch is ever accepted again. */
  lemma Fencing(f: Fleet, es: seq<Event>, k: nat, lease: Brain.Lease, write: Brain.Event)
    requires k < |f.items| && lease.epoch < Epoch(f, k) && Writes(write, lease)
    ensures Next(Exec(f, es), OnItem(k, write)) == Exec(f, es)
  {
    EpochsNeverDrop(f, es, k);
    var now := Exec(f, es);
    assert !Brain.Live(now.items[k], lease);
    assert now.items[k := now.items[k]] == now.items;
  }

  /** A closed item is never leased again: nothing but its clock changes, whatever the fleet does. */
  lemma {:induction false} ClosedStaysClosed(f: Fleet, es: seq<Event>, k: nat)
    requires Inv(f) && k < |f.items|
    requires f.items[k].item.status !in {Brain.WPending, Brain.WLeased}
    ensures k < |Exec(f, es).items|
    ensures Exec(f, es).items[k] == f.items[k].(now := Exec(f, es).now)
  {
    if es != [] {
      var before := Exec(f, es[..|es| - 1]);
      ClosedStaysClosed(f, es[..|es| - 1], k);
      ExecKeepsInv(f, es[..|es| - 1]);
      ExecKeepsInv(f, es);
      var be := ItemStep(before, es[|es| - 1], k);
    }
  }

  // ---- capacity ----------------------------------------------------------------------------------

  lemma {:induction false} ActiveUpdate(items: seq<Brain.Server>, k: nat, sv: Brain.Server, worker: string)
    requires k < |items|
    ensures Active(items[k := sv], worker) ==
            Active(items, worker) - (if Holds(items[k], worker) then 1 else 0) + (if Holds(sv, worker) then 1 else 0)
  {
    var n := |items| - 1;
    if k == n {
      assert items[k := sv][..n] == items[..n];
    } else {
      assert items[k := sv][..n] == items[..n][k := sv];
      ActiveUpdate(items[..n], k, sv, worker);
    }
  }

  lemma {:induction false} ActiveTicks(items: seq<Brain.Server>, elapsed: nat, worker: string)
    ensures Active(Ticked(items, elapsed), worker) <= Active(items, worker)
  {
    if items != [] {
      assert Ticked(items, elapsed)[..|items| - 1] == Ticked(items[..|items| - 1], elapsed);
      ActiveTicks(items[..|items| - 1], elapsed, worker);
    }
  }

  /** Nothing but a grant to the worker adds to its active leases: extending, expiring and closing never do. */
  lemma OnlyGrantsAdd(f: Fleet, e: Event, worker: string)
    ensures Active(Next(f, e).items, worker) <= Active(f.items, worker) + 1
    ensures Active(Next(f, e).items, worker) > Active(f.items, worker) ==>
              e.Lease? && e.worker == worker && Next(f, e).items != f.items
  {
    match e
    case Tick(elapsed) => ActiveTicks(f.items, elapsed, worker);
    case AddWork(runDeadline) => assert Next(f, e).items[..|f.items|] == f.items;
    case SetWorker(_, _) =>
    case Lease(w, id, i) =>
      if Next(f, e).items != f.items {
        ActiveUpdate(f.items, i, Brain.Step(f.items[i], Brain.Grant(w, id)), worker);
      }
    case OnItem(i, b) =>
      if i < |f.items| && !b.Tick? && !b.Grant? {
        ActiveUpdate(f.items, i, Brain.Step(f.items[i], b), worker);
      }
  }

  /**
   * No grant takes a worker above the capacity it has then, an expired raise already taken back; other workers' rows stay as
   * they were.
   */
  lemma GrantWithinCapacity(f: Fleet, worker: string, id: string, i: nat)
    requires Next(f, Lease(worker, id, i)).items != f.items
    ensures var after := Next(f, Lease(worker, id, i));
            && worker in f.workers && worker in after.workers
            && Active(after.items, worker) <= after.workers[worker].maxConcurrency
            && TakenBack(f.workers[worker], f.now, after.workers[worker])
            && after.workers == f.workers[worker := after.workers[worker]]
            && (forall k :: NewestExpired(f.workers[worker].changes, f.now, k) ==>
                  Active(after.items, worker) <= f.workers[worker].changes[k].previous)
  {
    OnlyGrantsAdd(f, Lease(worker, id, i), worker);
    RevertedTakesBack(f.workers[worker], f.now);
  }

  /** No capacity the worker has, or falls back to when an approved raise expires, is above the cap. */
  predicate Capped(w: Worker, cap: nat) {
    && w.maxConcurrency <= cap
    && forall k :: 0 <= k < |w.changes| && w.changes[k].approved ==> w.changes[k].previous <= cap
  }

  /**
   * Over any run in which nobody rewrites the worker's row, its active leases stay within every cap on its capacity:
   * with an approved raise still running, or running out on the way, as much as without.
   */
  lemma {:induction false} CapacityHolds(f: Fleet, es: seq<Event>, worker: string, cap: nat)
    requires worker in f.workers && Capped(f.workers[worker], cap) && Active(f.items, worker) <= cap
    requires forall k :: 0 <= k < |es| && es[k].SetWorker? ==> es[k].worker != worker
    ensures worker in Exec(f, es).workers && Capped(Exec(f, es).workers[worker], cap)
    ensures Active(Exec(f, es).items, worker) <= cap
  {
    if es != [] {
      CapacityHolds(f, es[..|es| - 1], worker, cap);
      CapacityStep(Exec(f, es[..|es| - 1]), es[|es| - 1], worker, cap);
    }
  }

  lemma CapacityStep(f: Fleet, e: Event, worker: string, cap: nat)
    requires worker in f.workers && Capped(f.workers[worker], cap) && Active(f.items, worker) <= cap
    requires e.SetWorker? ==> e.worker != worker
    ensures worker in Next(f, e).workers && Capped(Next(f, e).workers[worker], cap)
    ensures Active(Next(f, e).items, worker) <= cap
  {
    OnlyGrantsAdd(f, e, worker);
    RevertedStaysCapped(f.workers[worker], f.now, cap);
    if Next(f, e).items != f.items && e.Lease? && e.worker == worker {
      GrantWithinCapacity(f, worker, e.id, e.i);
    }
  }

  lemma RevertedStaysCapped(w: Worker, now: int, cap: nat)
    requires Capped(w, cap)
    ensures Capped(Reverted(w, now), cap)
  {
  }

  // ---- leaseWork ---------------------------------------------------------------------------------

  /** The first item in order of creation that can be granted and that the worker is admitted to. */
  predicate FirstFit(f: Fleet, admits: nat -> bool, i: nat) {
    && i < |f.items| && Brain.Grantable(f.items[i]) && admits(i)
    && forall k :: 0 <= k < i ==> !(Brain.Grantable(f.items[k]) && admits(k))
  }

  predicate NoFit(f: Fleet, admits: nat -> bool) {
    forall k :: 0 <= k < |f.items| ==> !(Brain.Grantable(f.items[k]) && admits(k))
  }

  /** The candidate query: open, its lease run out if it had one, its run's deadline not reached. */
  predicate Candidate(sv: Brain.Server) {
    && (|| sv.item.status == Brain.WPending
        || (sv.item.status == Brain.WLeased && sv.item.deadline.Some? && sv.item.deadline.value < sv.now))
    && !Brain.DeadlinePassed(sv)
  }

  /** Exactly item i changed hands: it is leased to the worker under the next epoch, within the worker's capacity. */
  ghost predicate GrantedTo(before: Fleet, after: Fleet, worker: string, id: string, i: nat)
    requires i < |before.items| && worker in before.workers
  {
    && |after.items| == |before.items| && after.now == before.now
    && (forall k :: 0 <= k < |before.items| && k != i ==> after.items[k] == before.items[k])
    && Brain.Live(after.items[i], Brain.Lease(worker, id, before.items[i].item.lease.epoch + 1))
    && after.items[i].saga == before.items[i].saga
    && worker in after.workers && after.workers == before.workers[worker := after.workers[worker]]
    && TakenBack(before.workers[worker], before.now, after.workers[worker])
    && Active(after.items, worker) <= after.workers[worker].maxConcurrency
  }

  class WorkTable {
    var fleet: Fleet

    constructor (f: Fleet)
      ensures fleet == f
    {
      fleet := f;
    }

    /** The oldest candidate that is not excluded. */
    method Query(excluded: set<nat>) returns (i: nat)
      ensures i <= |fleet.items|
      ensures i < |fleet.items| ==> Candidate(fleet.items[i]) && i !in excluded
      ensures forall k :: 0 <= k < i ==> !Candidate(fleet.items[k]) || k in excluded
    {
      i := 0;
      while i < |fleet.items| && (!Candidate(fleet.items[i]) || i in excluded)
        invariant i <= |fleet.items|
        invariant forall k :: 0 <= k < i ==> !Candidate(fleet.items[k]) || k in excluded
      {
        i := i + 1;
      }
    }

    /** leaseWork: one try after the other, excluding what the worker cannot take. */
    method LeaseWork(worker: string, id: string, admits: nat -> bool) returns (granted: Option<nat>)
      modifies this
      ensures granted.Some? ==>
                && worker in old(fleet.workers)
                && FirstFit(old(fleet), admits, granted.value)
                && fleet == Next(old(fleet), Lease(worker, id, granted.value)) && fleet.items != old(fleet.items)
                && GrantedTo(old(fleet), fleet, worker, id, granted.value)
      ensures granted.None? ==>
                || (worker !in old(fleet.workers) && fleet == old(fleet))
                || (NoFit(old(fleet), admits) && fleet == old(fleet))
                || (&& worker in old(fleet.workers)
                    && fleet == old(fleet).(workers := fleet.workers) && worker in fleet.workers
                    && fleet.workers == old(fleet.workers)[worker := fleet.workers[worker]]
                    && TakenBack(old(fleet.workers[worker]), old(fleet.now), fleet.workers[worker])
                    && Active(fleet.items, worker) >= fleet.workers[worker].maxConcurrency)
    {
      if worker !in fleet.workers {
        return None;
      }
      ghost var f := fleet;
      var row := Reverted(fleet.workers[worker], fleet.now);
      RevertedTakesBack(fleet.workers[worker], fleet.now);
      var excluded: set<nat> := {};
      while true
        invariant fleet == f
        invariant forall k :: k in excluded ==> k < |fleet.items| && !(Brain.Grantable(fleet.items[k]) && admits(k))
        decreases |fleet.items| - |excluded|
        invariant |excluded| <= |fleet.items|
      {
        if Active(fleet.items, worker) >= row.maxConcurrency {
          fleet := fleet.(workers := fleet.workers[worker := row]);
          return None;
        }
        var i := Query(excluded);
        if i == |fleet.items| {
          return None;
        }
        if Brain.RunTerminal(fleet.items[i].run) || !admits(i) {
          ExcludedFits(excluded + {i}, |fleet.items|);
          excluded := excluded + {i};
          continue;
        }
        CandidateFits(fleet.items[i]);
        GrantsTo(fleet, worker, id, i);
        fleet := Attempted(fleet, worker, id, i);
        return Some(i);
      }
    }
  }

  /** A candidate can be granted, unless its run is over. */
  lemma CandidateFits(sv: Brain.Server)
    ensures Brain.Grantable(sv) <==> Candidate(sv) && !Brain.RunTerminal(sv.run)
  {
  }

  /** A grant within the capacity of the row as it was taken back. */
  lemma GrantsTo(f: Fleet, worker: string, id: string, i: nat)
    requires worker in f.workers && i < |f.items| && Brain.Grantable(f.items[i])
    requires Active(f.items, worker) < Reverted(f.workers[worker], f.now).maxConcurrency
    ensures Attempted(f, worker, id, i) == Next(f, Lease(worker, id, i))
    ensures Attempted(f, worker, id, i).items != f.items
    ensures GrantedTo(f, Attempted(f, worker, id, i), worker, id, i)
  {
    var after := Attempted(f, worker, id, i);
    assert after.items == f.items[i := Brain.Step(f.items[i], Brain.Grant(worker, id))] && after.now == f.now;
    Changes(f.items, i, worker, id);
    GrantIsLive(f.items[i], worker, id);
    GrantWithinCapacity(f, worker, id, i);
  }

  lemma GrantIsLive(sv: Brain.Server, worker: string, id: string)
    requires Brain.Grantable(sv)
    ensures var after := Brain.Step(sv, Brain.Grant(worker, id));
            after.saga == sv.saga && Brain.Live(after, Brain.Lease(worker, id, sv.item.lease.epoch + 1))
  {
  }

  /** A granted item is not what it was: its epoch is higher. */
  lemma Changes(items: seq<Brain.Server>, i: nat, worker: string, id: string)
    requires i < |items| && Brain.Grantable(items[i])
    ensures items[i := Brain.Step(items[i], Brain.Grant(worker, id))] != items
  {
    assert Brain.Step(items[i], Brain.Grant(worker, id)).item.lease.epoch != items[i].item.lease.epoch;
    assert items[i := Brain.Step(items[i], Brain.Grant(worker, id))][i] != items[i];
  }

  lemma {:induction false} ExcludedFits(s: set<nat>, n: nat)
    requires forall k :: k in s ==> k < n
    ensures |s| <= n
  {
    if n == 0 {
      assert s == {};
    } else {
      ExcludedFits(s - {n - 1}, n - 1);
    }
  }
}
