/**
 Machine enrollment (core/crates/ployz-core/src/enrollment.rs): subnets for joining Machines, chosen against
 one observation of the Cluster and the operator's saved history, and saved before use
 (core/crates/ployz/src/enrollment/local.rs).
 */
module Enrollment {
  import opened Common

  // ---- Addresses ----

  function Pow2(n: nat): (r: nat)
    ensures r >= 1
  {
    if n == 0 then 1 else 2 * Pow2(n - 1)
  }

  /** An IPv4 pool: any address in it and the prefix length. */
  datatype Net = Net(addr: nat, prefix: nat)

  /** An IPv4 /24, by the number of 256-address blocks below it. */
  datatype Subnet = Subnet(block: nat)

  /** How many /24 a pool of at most /24 has. */
  function Blocks(net: Net): (n: nat)
    requires net.prefix <= 24
    ensures n >= 1
  {
    Pow2(24 - net.prefix)
  }

  /** A number rounded down to a multiple of another. */
  function Trunc(x: nat, n: nat): (r: nat)
    requires n >= 1
    ensures r <= x < r + n
  {
    if x < n then 0 else n + Trunc(x - n, n)
  }

  /** The first /24 of the pool. */
  function Base(net: Net): nat
    requires net.prefix <= 24
  {
    Trunc(net.addr / 256, Blocks(net))
  }

  /** First and last address of the pool. */
  function Network(net: Net): nat
    requires net.prefix <= 24
  {
    256 * Base(net)
  }

  function Broadcast(net: Net): nat
    requires net.prefix <= 24
  {
    256 * Base(net) + 256 * Blocks(net) - 1
  }

  function First(subnet: Subnet): nat
  {
    256 * subnet.block
  }

  function Last(subnet: Subnet): nat
  {
    256 * subnet.block + 255
  }

  /** `Ipv4Net::contains` */
  predicate Contains(net: Net, subnet: Subnet)
    requires net.prefix <= 24
  {
    Network(net) <= First(subnet) && Last(subnet) <= Broadcast(net)
  }

  lemma {:induction false} ContainsByBlock(net: Net, subnet: Subnet)
    requires net.prefix <= 24
    ensures Contains(net, subnet) <==> Base(net) <= subnet.block < Base(net) + Blocks(net)
  {
    hide Base, Blocks;
  }

  // ---- The lowest free /24 ----

  datatype Error = InvalidIdentity | Conflict | InvalidNetwork | Exhausted

  predicate FreeIn(net: Net, claimed: seq<Subnet>, subnet: Subnet)
    requires net.prefix <= 24
  {
    Contains(net, subnet) && subnet !in claimed
  }

  ghost predicate IsLowestFree(net: Net, claimed: seq<Subnet>, subnet: Subnet)
    requires net.prefix <= 24
  {
    FreeIn(net, claimed, subnet) && forall s :: FreeIn(net, claimed, s) ==> subnet.block <= s.block
  }

  /** `allocate_machine_subnet`: the lowest /24 of the pool that nobody claims, if there is one. */
  method AllocateSubnet(net: Net, claimed: seq<Subnet>) returns (r: Result<Subnet, Error>)
    ensures r == PickSubnet(net, claimed)
  {
    if net.prefix > 24 {
      return Err(InvalidNetwork);
    }
    var i := 0;
    while i < Blocks(net)
      invariant 0 <= i <= Blocks(net)
      invariant PickFrom(net, claimed, i) == PickFrom(net, claimed, 0)
    {
      var candidate := Subnet(Base(net) + i);
      if candidate !in claimed {
        return Ok(candidate);
      }
      i := i + 1;
    }
    r := Err(Exhausted);
  }

  function PickFrom(net: Net, claimed: seq<Subnet>, i: nat): Result<Subnet, Error>
    requires net.prefix <= 24 && i <= Blocks(net)
    decreases Blocks(net) - i
  {
    if i == Blocks(net) then Err(Exhausted)
    else if Subnet(Base(net) + i) !in claimed then Ok(Subnet(Base(net) + i))
    else PickFrom(net, claimed, i + 1)
  }

  function PickSubnet(net: Net, claimed: seq<Subnet>): Result<Subnet, Error>
  {
    if net.prefix > 24 then Err(InvalidNetwork) else PickFrom(net, claimed, 0)
  }

  /** A pick is free and no free /24 is lower; without one the pool is full. */
  lemma {:induction false} PickIsLowestFree(net: Net, claimed: seq<Subnet>)
    requires net.prefix <= 24
    ensures var r := PickSubnet(net, claimed);
      if r.Ok? then IsLowestFree(net, claimed, r.value)
      else r.error == Exhausted && forall s :: !FreeIn(net, claimed, s)
  {
    PickIsLowest(net, claimed, 0);
    forall s
      ensures Contains(net, s) <==> Base(net) <= s.block < Base(net) + Blocks(net)
    {
      ContainsByBlock(net, s);
    }
  }

  lemma {:induction false} PickIsLowest(net: Net, claimed: seq<Subnet>, i: nat)
    requires net.prefix <= 24 && i <= Blocks(net)
    ensures var r := PickFrom(net, claimed, i);
      if r.Ok? then
        && Base(net) + i <= r.value.block < Base(net) + Blocks(net) && r.value !in claimed
        && forall s: Subnet :: Base(net) + i <= s.block < r.value.block ==> s in claimed
      else r.error == Exhausted && forall s: Subnet :: Base(net) + i <= s.block < Base(net) + Blocks(net) ==> s in claimed
    decreases Blocks(net) - i
  {
    hide Base, Blocks;
    if i < Blocks(net) && Subnet(Base(net) + i) in claimed {
      PickIsLowest(net, claimed, i + 1);
      forall s: Subnet | Base(net) + i <= s.block && s.block < Base(net) + i + 1
        ensures s == Subnet(Base(net) + i)
      {
      }
    }
  }

  function Distinct(claimed: seq<Subnet>): set<Subnet>
  {
    set s | s in claimed
  }

  /** With fewer distinct claims than /24s in the pool, one is free. */
  lemma {:induction false} FewClaimsLeaveOne(net: Net, claimed: seq<Subnet>)
    requires net.prefix <= 24 && |Distinct(claimed)| < Pow2(24 - net.prefix)
    ensures PickSubnet(net, claimed).Ok?
  {
    PickIsLowest(net, claimed, 0);
    if PickSubnet(net, claimed).Err? {
      BlocksFit(Base(net), Blocks(net), Distinct(claimed));
    }
  }

  lemma {:induction false} BlocksFit(base: nat, n: nat, claimed: set<Subnet>)
    requires forall s: Subnet :: base <= s.block < base + n ==> s in claimed
    ensures n <= |claimed|
    decreases n
  {
    if n > 0 {
      var last := Subnet(base + n - 1);
      assert last in claimed;
      BlocksFit(base, n - 1, claimed - {last});
    }
  }

  // ---- Enrollment ----

  datatype Machine = Machine(
    id: string, name: string, subnet: Subnet, key: string, publicIp: Option<string>, endpoints: seq<string>,
    runtime: string, policy: string, concurrency: Option<nat>)

  datatype Request = Request(
    id: string, wanted: Option<Subnet>, policy: string, name: string, storage: string, key: string,
    publicIp: Option<string>, endpoints: seq<string>, runtime: string)

  datatype Snapshot = Snapshot(network: Net, machines: seq<Machine>)

  datatype Assignment = Assignment(request: Request, network: Net, machine: Machine)

  const DEFAULT_RUNTIME := ""

  /** Retry identity: the request without what a retry may change. */
  function Identity(request: Request): Request
  {
    request.(wanted := None, runtime := DEFAULT_RUNTIME)
  }

  function MachineOf(request: Request, subnet: Subnet): Machine
  {
    Machine(request.id, request.name, subnet, request.key, request.publicIp, request.endpoints, request.runtime, request.policy, None)
  }

  function Machines(saved: seq<Assignment>): (r: seq<Machine>)
    ensures |r| == |saved| && forall i :: 0 <= i < |saved| ==> r[i] == saved[i].machine
  {
    seq(|saved|, i requires 0 <= i < |saved| => saved[i].machine)
  }

  function Known(snapshot: Snapshot, saved: seq<Assignment>): seq<Machine>
  {
    snapshot.machines + Machines(saved)
  }

  function Subnets(machines: seq<Machine>): (r: seq<Subnet>)
    ensures |r| == |machines| && forall i :: 0 <= i < |machines| ==> r[i] == machines[i].subnet
  {
    seq(|machines|, i requires 0 <= i < |machines| => machines[i].subnet)
  }

  function FindSaved(saved: seq<Assignment>, id: string): (r: Option<Assignment>)
    ensures r.Some? ==> r.value in saved && r.value.machine.id == id
    ensures r.None? ==> forall a :: a in saved ==> a.machine.id != id
  {
    if saved == [] then None else if saved[0].machine.id == id then Some(saved[0]) else FindSaved(saved[1..], id)
  }

  function FindMachine(machines: seq<Machine>, id: string): (r: Option<Machine>)
    ensures r.Some? ==> r.value in machines && r.value.id == id
    ensures r.None? ==> forall m :: m in machines ==> m.id != id
  {
    if machines == [] then None else if machines[0].id == id then Some(machines[0]) else FindMachine(machines[1..], id)
  }

  predicate KeyTaken(request: Request, machine: Machine)
  {
    machine.id != request.id && machine.key == request.key
  }

  /** What a known Machine must not say against the one to enroll. */
  predicate Conflicts(machine: Machine, other: Machine)
  {
    if other.id == machine.id then other.(runtime := machine.runtime) != machine
    else other.key == machine.key || other.subnet == machine.subnet
  }

  /** A saved subnet, else the observed one, else the requested one, else the lowest free. */
  function ChooseSubnet(request: Request, snapshot: Snapshot, saved: seq<Assignment>): Result<Subnet, Error>
  {
    var existing, observed := FindSaved(saved, request.id), FindMachine(snapshot.machines, request.id);
    if existing.Some? then Ok(existing.value.machine.subnet)
    else if observed.Some? then Ok(observed.value.subnet)
    else if request.wanted.Some? then Ok(request.wanted.value)
    else PickSubnet(snapshot.network, Subnets(Known(snapshot, saved)))
  }

  function Allocate(request: Request, snapshot: Snapshot, saved: seq<Assignment>): Result<Assignment, Error>
  {
    if request.endpoints == [] then Err(InvalidIdentity)
    else if snapshot.network.prefix > 24 then Err(InvalidNetwork)
    else if exists m :: m in Known(snapshot, saved) && KeyTaken(request, m) then Err(Conflict)
    else if exists a :: a in saved && a.network != snapshot.network then Err(Conflict)
    else if exists a :: a in saved && a.machine.id == request.id && a.request != Identity(request) then Err(Conflict)
    else
      var chosen := ChooseSubnet(request, snapshot, saved);
      if chosen.Err? then Err(chosen.error)
      else if !Contains(snapshot.network, chosen.value) || (request.wanted.Some? && request.wanted.value != chosen.value) then
        Err(Conflict)
      else if exists m :: m in Known(snapshot, saved) && Conflicts(MachineOf(request, chosen.value), m) then Err(Conflict)
      else
        var existing := FindSaved(saved, request.id);
        if existing.Some? then Ok(existing.value)
        else Ok(Assignment(Identity(request), snapshot.network, MachineOf(request, chosen.value)))
  }

  /** The same with its loop over all known Machines. */
  method AllocateEnrollment(request: Request, snapshot: Snapshot, saved: seq<Assignment>) returns (r: Result<Assignment, Error>)
    ensures r == Allocate(request, snapshot, saved)
  {
    if request.endpoints == [] {
      return Err(InvalidIdentity);
    }
    if snapshot.network.prefix > 24 {
      return Err(InvalidNetwork);
    }
    var known := Known(snapshot, saved);
    if exists m :: m in known && KeyTaken(request, m) {
      return Err(Conflict);
    }
    var existing := FindSaved(saved, request.id);
    if exists a :: a in saved && a.network != snapshot.network {
      return Err(Conflict);
    }
    if exists a :: a in saved && a.machine.id == request.id && a.request != Identity(request) {
      return Err(Conflict);
    }
    var chosen := ChooseSubnet(request, snapshot, saved);
    if chosen.Err? {
      return Err(chosen.error);
    }
    if !Contains(snapshot.network, chosen.value) || (request.wanted.Some? && request.wanted.value != chosen.value) {
      return Err(Conflict);
    }
    var machine := MachineOf(request, chosen.value);
    for i := 0 to |known|
      invariant forall j :: 0 <= j < i ==> !Conflicts(machine, known[j])
    {
      if Conflicts(machine, known[i]) {
        assert known[i] in known;
        return Err(Conflict);
      }
    }
    if existing.Some? {
      return Ok(existing.value);
    }
    r := Ok(Assignment(Identity(request), snapshot.network, machine));
  }

  /** `save_assignment`, one scope: a new assignment is added to the history. */
  function Save(history: seq<Assignment>, request: Request, snapshot: Snapshot): seq<Assignment>
  {
    var r := Allocate(request, snapshot, history);
    if r.Ok? && FindSaved(history, r.value.machine.id).None? then history + [r.value] else history
  }

  // ---- What every history keeps ----

  ghost predicate SoundEntry(a: Assignment)
  {
    && a.network.prefix <= 24 && Contains(a.network, a.machine.subnet)
    && Identity(a.request) == a.request && a.request.endpoints != []
    && a.machine == MachineOf(a.request.(runtime := a.machine.runtime), a.machine.subnet)
  }

  predicate Apart(a: Assignment, b: Assignment)
  {
    a.network == b.network && a.machine.id != b.machine.id && a.machine.key != b.machine.key && a.machine.subnet != b.machine.subnet
  }

  ghost predicate Valid(history: seq<Assignment>)
  {
    && (forall a :: a in history ==> SoundEntry(a))
    && forall i, j :: 0 <= i < j < |history| ==> Apart(history[i], history[j])
  }

  /** A new assignment is sound and apart from all saved ones. */
  lemma {:induction false} NewIsApart(request: Request, snapshot: Snapshot, saved: seq<Assignment>, a: Assignment)
    requires Allocate(request, snapshot, saved).Ok? && FindSaved(saved, request.id).None? && a in saved
    ensures Apart(a, Allocate(request, snapshot, saved).value)
  {
    hide PickSubnet, Contains;
    var i :| 0 <= i < |saved| && saved[i] == a;
    assert Known(snapshot, saved)[|snapshot.machines| + i] == a.machine;
    assert a.machine in Known(snapshot, saved);
  }

  lemma {:induction false} NewIsSound(request: Request, snapshot: Snapshot, saved: seq<Assignment>)
    requires Allocate(request, snapshot, saved).Ok?
    ensures Allocate(request, snapshot, saved).value.machine.id == request.id
    ensures FindSaved(saved, request.id).None? ==> SoundEntry(Allocate(request, snapshot, saved).value)
  {
    hide PickSubnet, Contains, Known, ChooseSubnet;
  }

  lemma {:induction false} SaveKeepsValid(history: seq<Assignment>, request: Request, snapshot: Snapshot)
    requires Valid(history)
    ensures Valid(Save(history, request, snapshot)) && history <= Save(history, request, snapshot)
  {
    hide Allocate, SoundEntry, Apart;
    var r := Allocate(request, snapshot, history);
    if r.Ok? && FindSaved(history, r.value.machine.id).None? {
      NewIsSound(request, snapshot, history);
      forall i | 0 <= i < |history|
        ensures Apart(history[i], r.value)
      {
        NewIsApart(request, snapshot, history, history[i]);
      }
    }
  }

  datatype Call = Call(request: Request, snapshot: Snapshot)

  function SaveAll(history: seq<Assignment>, calls: seq<Call>): seq<Assignment>
    decreases |calls|
  {
    if calls == [] then history else SaveAll(Save(history, calls[0].request, calls[0].snapshot), calls[1..])
  }

  lemma {:induction false} CallsKeepValid(history: seq<Assignment>, calls: seq<Call>)
    requires Valid(history)
    ensures Valid(SaveAll(history, calls)) && history <= SaveAll(history, calls)
    decreases |calls|
  {
    hide Valid, Save;
    if calls != [] {
      SaveKeepsValid(history, calls[0].request, calls[0].snapshot);
      CallsKeepValid(Save(history, calls[0].request, calls[0].snapshot), calls[1..]);
    }
  }

  predicate InPool(a: Assignment)
  {
    a.network.prefix <= 24 && Network(a.network) <= First(a.machine.subnet) && Last(a.machine.subnet) <= Broadcast(a.network)
  }

  predicate ShareNothing(a: Assignment, b: Assignment)
  {
    && a.network == b.network && a.machine.id != b.machine.id && a.machine.key != b.machine.key
    && (Last(a.machine.subnet) < First(b.machine.subnet) || Last(b.machine.subnet) < First(a.machine.subnet))
  }

  /**
   From an empty history, whatever is observed and asked for: every entry's subnet lies inside its pool, and
   any two entries share the network but no id, key or address.
   */
  lemma {:induction false} HistoriesAreSound(calls: seq<Call>)
    ensures forall a :: a in SaveAll([], calls) ==> InPool(a)
    ensures var h := SaveAll([], calls); forall i, j :: 0 <= i < j < |h| ==> ShareNothing(h[i], h[j])
  {
    hide SaveAll, Network, Broadcast;
    CallsKeepValid([], calls);
    var h := SaveAll([], calls);
    forall i, j | 0 <= i < j < |h|
      ensures ShareNothing(h[i], h[j])
    {
      assert Apart(h[i], h[j]);
    }
  }

  // ---- Retries ----

  /** What an observation must not say for a saved assignment to be usable. */
  predicate Agrees(snapshot: Snapshot, a: Assignment, request: Request)
  {
    && snapshot.network == a.network
    && (request.wanted.Some? ==> request.wanted.value == a.machine.subnet)
    && forall m :: m in snapshot.machines ==> !Conflicts(MachineOf(request, a.machine.subnet), m)
  }

  /**
   A retry with the same identity gives back the saved assignment itself exactly when the observation does
   not contradict it; otherwise it is a conflict, and the history stays as it is.
   */
  lemma {:induction false} RetryReturnsSaved(history: seq<Assignment>, k: nat, request: Request, snapshot: Snapshot)
    requires Valid(history) && k < |history| && Identity(request) == history[k].request
    ensures Allocate(request, snapshot, history) ==
      if snapshot.network.prefix > 24 then Err(InvalidNetwork)
      else if Agrees(snapshot, history[k], request) then Ok(history[k]) else Err(Conflict)
    ensures Save(history, request, snapshot) == history
  {
    hide PickSubnet, Contains, Valid, Conflicts, KeyTaken;
    var a := history[k];
    EntryIsSound(history, k);
    assert a in history && FindSaved(history, request.id) == Some(a);
    var known, machine := Known(snapshot, history), MachineOf(request, a.machine.subnet);
    assert (exists m :: m in known && KeyTaken(request, m)) ==> exists m :: m in snapshot.machines && Conflicts(machine, m) by {
      OnlyObservedConflict(history, k, request, snapshot);
    }
    assert (exists m :: m in known && Conflicts(machine, m)) <==> exists m :: m in snapshot.machines && Conflicts(machine, m) by {
      OnlyObservedConflict(history, k, request, snapshot);
    }
    hide Known;
  }

  /** What stands against a saved entry is in the observation, not in its own history. */
  lemma {:induction false} OnlyObservedConflict(history: seq<Assignment>, k: nat, request: Request, snapshot: Snapshot)
    requires Valid(history) && k < |history| && Identity(request) == history[k].request
    ensures forall m :: m in Known(snapshot, history) ==>
      && (KeyTaken(request, m) ==> m in snapshot.machines && Conflicts(MachineOf(request, history[k].machine.subnet), m))
      && (Conflicts(MachineOf(request, history[k].machine.subnet), m) ==> m in snapshot.machines)
    ensures forall m :: m in snapshot.machines ==> m in Known(snapshot, history)
  {
    OthersDoNotConflict(history, k, request);
    hide Valid;
    forall m | m in Known(snapshot, history)
      ensures KeyTaken(request, m) ==> m in snapshot.machines && Conflicts(MachineOf(request, history[k].machine.subnet), m)
      ensures Conflicts(MachineOf(request, history[k].machine.subnet), m) ==> m in snapshot.machines
    {
      if m !in snapshot.machines {
        var i :| 0 <= i < |history| && Machines(history)[i] == m;
      }
    }
  }

  lemma {:induction false} EntryIsSound(history: seq<Assignment>, k: nat)
    requires Valid(history) && k < |history|
    ensures SoundEntry(history[k]) && forall a :: a in history ==> a.network == history[k].network
    ensures forall a :: a in history && a.machine.id == history[k].machine.id ==> a == history[k]
  {
    assert history[k] in history;
    forall a | a in history
      ensures a.network == history[k].network && (a.machine.id == history[k].machine.id ==> a == history[k])
    {
      var i :| 0 <= i < |history| && history[i] == a;
      assert i < k ==> Apart(history[i], history[k]);
      assert k < i ==> Apart(history[k], history[i]);
    }
  }

  lemma {:induction false} OthersDoNotConflict(history: seq<Assignment>, k: nat, request: Request)
    requires Valid(history) && k < |history| && Identity(request) == history[k].request
    ensures forall i :: 0 <= i < |history| ==>
      !Conflicts(MachineOf(request, history[k].machine.subnet), history[i].machine) && !KeyTaken(request, history[i].machine)
  {
    var a := history[k];
    assert SoundEntry(a) by { assert a in history; }
    forall i | 0 <= i < |history|
      ensures !Conflicts(MachineOf(request, a.machine.subnet), history[i].machine) && !KeyTaken(request, history[i].machine)
    {
      assert i < k ==> Apart(history[i], history[k]);
      assert k < i ==> Apart(history[k], history[i]);
    }
  }

  // ---- Observed and requested subnets ----

  /** The Machine that a request describes. */
  predicate Describes(request: Request, machine: Machine)
  {
    && machine.id == request.id && machine.key == request.key && machine.name == request.name
    && machine.publicIp == request.publicIp && machine.endpoints == request.endpoints && machine.runtime == request.runtime
    && machine.policy == request.policy && machine.concurrency == None
  }

  /** A new assignment is of the Machine described, for the observed network, and remembers the request to compare retries with. */
  lemma {:induction false} NewIsDescribed(request: Request, snapshot: Snapshot, saved: seq<Assignment>)
    requires Allocate(request, snapshot, saved).Ok? && FindSaved(saved, request.id).None?
    ensures var a := Allocate(request, snapshot, saved).value;
      && Describes(request, a.machine) && a.network == snapshot.network
      && forall retry: Request :: a.request == Identity(retry) <==>
           retry == request.(wanted := retry.wanted, runtime := retry.runtime)
  {
    hide PickSubnet, Contains, Known, ChooseSubnet;
  }

  /** What is asked of every enrollment, whatever subnet it gets. */
  predicate Admissible(request: Request, snapshot: Snapshot, saved: seq<Assignment>)
  {
    && request.endpoints != [] && snapshot.network.prefix <= 24
    && (forall m :: m in Known(snapshot, saved) && m.id != request.id ==> m.key != request.key)
    && forall a :: a in saved ==> a.network == snapshot.network
  }

  /**
   A Machine without a saved assignment that the observation shows gets the subnet it is observed with: exactly
   if that lies in the pool, nobody else has it, it is not asked for another, and the request describes that Machine.
   */
  lemma {:induction false} ObservedKeepsItsSubnet(request: Request, snapshot: Snapshot, saved: seq<Assignment>, observed: Machine)
    requires FindSaved(saved, request.id).None? && FindMachine(snapshot.machines, request.id) == Some(observed)
    ensures var r := Allocate(request, snapshot, saved);
      && (r.Ok? <==>
            && Admissible(request, snapshot, saved) && Contains(snapshot.network, observed.subnet)
            && (request.wanted.Some? ==> request.wanted.value == observed.subnet)
            && (forall m :: m in snapshot.machines && m.id == request.id ==> m.(runtime := request.runtime) == MachineOf(request, observed.subnet))
            && (forall m :: m in Known(snapshot, saved) && m.id != request.id ==> m.subnet != observed.subnet))
      && (r.Ok? ==> r.value.machine == observed.(runtime := request.runtime))
  {
    hide PickSubnet, Contains;
    KnownIsBoth(snapshot, saved);
  }

  lemma {:induction false} KnownIsBoth(snapshot: Snapshot, saved: seq<Assignment>)
    ensures forall m :: m in Known(snapshot, saved) <==> m in snapshot.machines || exists a :: a in saved && a.machine == m
  {
    forall m | exists a :: a in saved && a.machine == m
      ensures m in Known(snapshot, saved)
    {
      var a :| a in saved && a.machine == m;
      var i :| 0 <= i < |saved| && saved[i] == a;
      assert Known(snapshot, saved)[|snapshot.machines| + i] == m;
    }
    forall m | m in Known(snapshot, saved) && m !in snapshot.machines
      ensures exists a :: a in saved && a.machine == m
    {
      var i :| 0 <= i < |saved| && Machines(saved)[i] == m;
      assert saved[i] in saved;
    }
  }

  /** An unknown Machine that asks for a subnet gets that one, exactly if it lies in the pool and nobody has it. */
  lemma {:induction false} RequestedIsGranted(request: Request, snapshot: Snapshot, saved: seq<Assignment>)
    requires request.wanted.Some? && forall m :: m in Known(snapshot, saved) ==> m.id != request.id
    ensures var (r, subnet) := (Allocate(request, snapshot, saved), request.wanted.value);
      && (r.Ok? <==>
            && Admissible(request, snapshot, saved) && Contains(snapshot.network, subnet)
            && forall m :: m in Known(snapshot, saved) ==> m.subnet != subnet)
      && (r.Ok? ==> r.value.machine == MachineOf(request, subnet))
  {
    hide PickSubnet, Contains;
    KnownIsBoth(snapshot, saved);
    assert FindSaved(saved, request.id).None?;
    assert FindMachine(snapshot.machines, request.id).None?;
  }

  // ---- Fresh allocations ----

  /**
   A Machine unknown so far that asks for no subnet gets the lowest free one, and is refused only for the
   stated reasons: no endpoint, a pool that is no pool of /24s, a taken key, a foreign history, a full pool.
   */
  lemma {:induction false} FreshGetsLowestFree(request: Request, snapshot: Snapshot, saved: seq<Assignment>)
    requires request.wanted.None? && forall m :: m in Known(snapshot, saved) ==> m.id != request.id
    ensures var claimed := Subnets(Known(snapshot, saved));
      var r := Allocate(request, snapshot, saved);
      && (r.Ok? <==>
            && request.endpoints != [] && snapshot.network.prefix <= 24
            && (forall m :: m in Known(snapshot, saved) ==> m.key != request.key)
            && (forall a :: a in saved ==> a.network == snapshot.network)
            && exists s :: FreeIn(snapshot.network, claimed, s))
      && (r.Ok? ==> IsLowestFree(snapshot.network, claimed, r.value.machine.subnet))
  {
    hide Contains, PickSubnet;
    var claimed := Subnets(Known(snapshot, saved));
    if snapshot.network.prefix <= 24 {
      PickIsLowestFree(snapshot.network, claimed);
      var r := PickSubnet(snapshot.network, claimed);
    }
  }

}
