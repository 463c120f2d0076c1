/**
 The operator's enrollment store (`save_assignment`, core/crates/ployz/src/enrollment/local.rs): histories kept
 by scope. A scope is known by the Machines observed in it, and an observation that meets several scopes
 merges them. The file, its lock and its durable replacement are not modelled: a save is one step.
 */
module EnrollmentStore {
  import opened Common
  import opened Enrollment

  datatype Peer = Peer(id: string, key: string)

  datatype Scope = Scope(peers: seq<Peer>, assignments: seq<Assignment>)

  datatype SaveError = MissingScope | Allocation(error: Error)

  function PeerOf(machine: Machine): Peer
  {
    Peer(machine.id, machine.key)
  }

  predicate Meets(scope: Scope, snapshot: Snapshot)
  {
    exists m :: m in snapshot.machines && PeerOf(m) in scope.peers
  }

  // ---- One save ----

  /** Peers and history of all scopes that the observation meets, in order, and the scopes it does not meet. */
  function MergedPeers(store: seq<Scope>, snapshot: Snapshot): seq<Peer>
  {
    if store == [] then [] else (if Meets(store[0], snapshot) then store[0].peers else []) + MergedPeers(store[1..], snapshot)
  }

  function MergedHistory(store: seq<Scope>, snapshot: Snapshot): seq<Assignment>
  {
    if store == [] then []
    else (if Meets(store[0], snapshot) then store[0].assignments else []) + MergedHistory(store[1..], snapshot)
  }

  function Others(store: seq<Scope>, snapshot: Snapshot): seq<Scope>
  {
    if store == [] then [] else (if Meets(store[0], snapshot) then [] else [store[0]]) + Others(store[1..], snapshot)
  }

  function WithoutId(peers: seq<Peer>, id: string): (r: seq<Peer>)
    ensures forall p :: p in r <==> p in peers && p.id != id
  {
    if peers == [] then [] else (if peers[0].id == id then [] else [peers[0]]) + WithoutId(peers[1..], id)
  }

  /** A scope gives up its claim to be known by a Machine that was enrolled elsewhere, not its history. */
  function Forget(scopes: seq<Scope>, id: string): (r: seq<Scope>)
    ensures |r| == |scopes|
    ensures forall i :: 0 <= i < |r| ==> r[i] == scopes[i].(peers := WithoutId(scopes[i].peers, id))
  {
    seq(|scopes|, i requires 0 <= i < |scopes| => scopes[i].(peers := WithoutId(scopes[i].peers, id)))
  }

  function AddPeers(peers: seq<Peer>, machines: seq<Machine>): (r: seq<Peer>)
    ensures forall p :: p in r <==> p in peers || exists m :: m in machines && PeerOf(m) == p
    decreases |machines|
  {
    if machines == [] then peers
    else
      assert machines == [machines[0]] + machines[1..];
      AddPeers(if PeerOf(machines[0]) in peers then peers else peers + [PeerOf(machines[0])], machines[1..])
  }

  /** The scope a save leaves behind. */
  function SavedScope(store: seq<Scope>, request: Request, snapshot: Snapshot, a: Assignment): Scope
  {
    Scope(
      AddPeers(MergedPeers(store, snapshot), snapshot.machines + [a.machine]),
      Save(MergedHistory(store, snapshot), request, snapshot))
  }

  function SaveIn(store: seq<Scope>, request: Request, snapshot: Snapshot): (Result<Assignment, SaveError>, seq<Scope>)
  {
    if snapshot.machines == [] then (Err(MissingScope), store)
    else
      var r := Allocate(request, snapshot, MergedHistory(store, snapshot));
      if r.Err? then (Err(Allocation(r.error)), store)
      else (Ok(r.value), Forget(Others(store, snapshot), r.value.machine.id) + [SavedScope(store, request, snapshot, r.value)])
  }

  /** The same with its loops over scopes and peers. */
  method SaveAssignment(store: seq<Scope>, request: Request, snapshot: Snapshot)
      returns (r: Result<Assignment, SaveError>, after: seq<Scope>)
    ensures (r, after) == SaveIn(store, request, snapshot)
  {
    if snapshot.machines == [] {
      return Err(MissingScope), store;
    }
    var scopes, peers, assignments := MergeScopes(store, snapshot);
    var answer := AllocateEnrollment(request, snapshot, assignments);
    if answer.Err? {
      return Err(Allocation(answer.error)), store;
    }
    var a := answer.value;
    if FindSaved(assignments, a.machine.id).None? {
      assignments := assignments + [a];
    }
    var kept := [];
    for i := 0 to |scopes|
      invariant kept == Forget(scopes, a.machine.id)[..i]
    {
      kept := kept + [scopes[i].(peers := WithoutId(scopes[i].peers, a.machine.id))];
    }
    assert kept == Forget(scopes, a.machine.id);
    peers := NotePeers(peers, snapshot.machines + [a.machine]);
    assert assignments == Save(MergedHistory(store, snapshot), request, snapshot);
    r, after := Ok(a), kept + [Scope(peers, assignments)];
  }

  method NotePeers(peers: seq<Peer>, machines: seq<Machine>) returns (r: seq<Peer>)
    ensures r == AddPeers(peers, machines)
  {
    r := peers;
    for i := 0 to |machines|
      invariant AddPeers(r, machines[i..]) == AddPeers(peers, machines)
    {
      assert machines[i..][0] == machines[i] && machines[i..][1..] == machines[i + 1..];
      if PeerOf(machines[i]) !in r {
        r := r + [PeerOf(machines[i])];
      }
    }
    assert machines[|machines|..] == [];
  }

  method MergeScopes(store: seq<Scope>, snapshot: Snapshot)
      returns (scopes: seq<Scope>, peers: seq<Peer>, assignments: seq<Assignment>)
    ensures scopes == Others(store, snapshot)
    ensures peers == MergedPeers(store, snapshot) && assignments == MergedHistory(store, snapshot)
  {
    hide Meets, MergedPeers, MergedHistory, Others;
    scopes, peers, assignments := [], [], [];
    assert store[0..] == store;
    for i := 0 to |store|
      invariant scopes + Others(store[i..], snapshot) == Others(store, snapshot)
      invariant peers + MergedPeers(store[i..], snapshot) == MergedPeers(store, snapshot)
      invariant assignments + MergedHistory(store[i..], snapshot) == MergedHistory(store, snapshot)
    {
      NextScope(store, i, snapshot);
      if Meets(store[i], snapshot) {
        peers, assignments := peers + store[i].peers, assignments + store[i].assignments;
      } else {
        scopes := scopes + [store[i]];
      }
    }
    NextScope(store, |store|, snapshot);
  }

  lemma {:induction false} NextScope(store: seq<Scope>, i: nat, snapshot: Snapshot)
    requires i <= |store|
    ensures var rest := store[i..];
      if i == |store| then MergedPeers(rest, snapshot) == [] && MergedHistory(rest, snapshot) == [] && Others(rest, snapshot) == []
      else var (met, later) := (Meets(store[i], snapshot), store[i + 1..]);
        && MergedPeers(rest, snapshot) == (if met then store[i].peers else []) + MergedPeers(later, snapshot)
        && MergedHistory(rest, snapshot) == (if met then store[i].assignments else []) + MergedHistory(later, snapshot)
        && Others(rest, snapshot) == (if met then [] else [store[i]]) + Others(later, snapshot)
  {
    hide Meets;
    if i < |store| {
      assert store[i..][0] == store[i] && store[i..][1..] == store[i + 1..];
    }
  }

  // ---- No claim is lost ----

  function Claims(store: seq<Scope>): multiset<Assignment>
  {
    if store == [] then multiset{} else multiset(store[0].assignments) + Claims(store[1..])
  }

  lemma {:induction false} ClaimsAppend(store: seq<Scope>, scope: Scope)
    ensures Claims(store + [scope]) == Claims(store) + multiset(scope.assignments)
  {
    if store == [] {
      assert (store + [scope])[1..] == [];
    } else {
      assert (store + [scope])[0] == store[0] && (store + [scope])[1..] == store[1..] + [scope];
      ClaimsAppend(store[1..], scope);
    }
  }

  lemma {:induction false} ClaimsFront(scope: Scope, rest: seq<Scope>)
    ensures Claims([scope] + rest) == multiset(scope.assignments) + Claims(rest)
  {
    assert ([scope] + rest)[0] == scope && ([scope] + rest)[1..] == rest;
  }

  lemma {:induction false} ClaimsDivide(store: seq<Scope>, snapshot: Snapshot)
    ensures Claims(store) == Claims(Others(store, snapshot)) + multiset(MergedHistory(store, snapshot))
  {
    hide Meets, Claims;
    if store != [] {
      var rest := store[1..];
      assert store == [store[0]] + rest;
      ClaimsFront(store[0], rest);
      ClaimsDivide(rest, snapshot);
      if Meets(store[0], snapshot) {
        assert MergedHistory(store, snapshot) == store[0].assignments + MergedHistory(rest, snapshot);
        assert Others(store, snapshot) == Others(rest, snapshot);
      } else {
        assert MergedHistory(store, snapshot) == MergedHistory(rest, snapshot);
        ClaimsFront(store[0], Others(rest, snapshot));
      }
    }
  }

  lemma {:induction false} ForgettingKeepsClaims(scopes: seq<Scope>, id: string)
    ensures Claims(Forget(scopes, id)) == Claims(scopes)
  {
    if scopes != [] {
      assert Forget(scopes, id)[1..] == Forget(scopes[1..], id);
      ForgettingKeepsClaims(scopes[1..], id);
    }
  }

  /** Whatever is merged or forgotten, a save adds at most its own assignment to the claims and removes none. */
  lemma {:induction false} ClaimsAreKept(store: seq<Scope>, request: Request, snapshot: Snapshot)
    ensures var (r, after) := SaveIn(store, request, snapshot);
      Claims(after) == Claims(store) +
        if r.Ok? && FindSaved(MergedHistory(store, snapshot), request.id).None? then multiset{r.value} else multiset{}
  {
    hide Allocate;
    var (r, after) := SaveIn(store, request, snapshot);
    if r.Ok? {
      var history := MergedHistory(store, snapshot);
      NewIsSound(request, snapshot, history);
      ClaimsDivide(store, snapshot);
      ForgettingKeepsClaims(Others(store, snapshot), r.value.machine.id);
      ClaimsAppend(Forget(Others(store, snapshot), r.value.machine.id), SavedScope(store, request, snapshot, r.value));
    }
  }

  // ---- A peer knows one scope ----

  predicate Separate(store: seq<Scope>)
  {
    forall i, j :: 0 <= i < j < |store| ==> Strangers(store[i].peers, store[j].peers)
  }

  predicate Strangers(a: seq<Peer>, b: seq<Peer>)
  {
    forall p :: p in a ==> p !in b
  }

  lemma {:induction false} ScopesAreStrangers(store: seq<Scope>, a: Scope, b: Scope)
    requires Separate(store) && a in store && b in store && a != b
    ensures Strangers(a.peers, b.peers)
  {
    var i :| 0 <= i < |store| && store[i] == a;
    var j :| 0 <= j < |store| && store[j] == b;
    assert i < j ==> Strangers(store[i].peers, store[j].peers);
    assert j < i ==> Strangers(store[j].peers, store[i].peers);
  }

  lemma {:induction false} OthersAreUnmet(store: seq<Scope>, snapshot: Snapshot)
    ensures forall scope :: scope in Others(store, snapshot) ==> scope in store && !Meets(scope, snapshot)
  {
    if store != [] {
      OthersAreUnmet(store[1..], snapshot);
    }
  }

  lemma {:induction false} MergedAreMet(store: seq<Scope>, snapshot: Snapshot)
    ensures forall p :: p in MergedPeers(store, snapshot) ==>
      exists scope :: scope in store && Meets(scope, snapshot) && p in scope.peers
  {
    hide Meets;
    if store != [] {
      MergedAreMet(store[1..], snapshot);
      assert store == [store[0]] + store[1..];
    }
  }

  lemma {:induction false} OthersAreSeparate(store: seq<Scope>, snapshot: Snapshot)
    requires Separate(store)
    ensures Separate(Others(store, snapshot))
  {
    hide Meets, Strangers;
    if store != [] {
      OthersAreSeparate(store[1..], snapshot);
      OthersAreUnmet(store[1..], snapshot);
      var rest := Others(store[1..], snapshot);
      forall j | 0 <= j < |rest|
        ensures Strangers(store[0].peers, rest[j].peers)
      {
        assert rest[j] in rest;
        var k :| 0 <= k < |store[1..]| && store[1..][k] == rest[j];
        assert Strangers(store[0].peers, store[k + 1].peers);
      }
    }
  }

  /** No save makes two scopes share a peer, so every Machine of an observation meets at most one scope. */
  lemma {:induction false} SaveKeepsSeparate(store: seq<Scope>, request: Request, snapshot: Snapshot)
    requires Separate(store)
    ensures Separate(SaveIn(store, request, snapshot).1)
  {
    hide Allocate;
    var (r, after) := SaveIn(store, request, snapshot);
    if r.Ok? {
      var others, saved := Others(store, snapshot), SavedScope(store, request, snapshot, r.value);
      OthersAreSeparate(store, snapshot);
      forall i | 0 <= i < |others|
        ensures Strangers(Forget(others, r.value.machine.id)[i].peers, saved.peers)
      {
        OtherIsStranger(store, request, snapshot, r.value, i);
      }
    }
  }

  lemma {:induction false} OtherIsStranger(store: seq<Scope>, request: Request, snapshot: Snapshot, a: Assignment, i: nat)
    requires Separate(store) && i < |Others(store, snapshot)|
    ensures Strangers(Forget(Others(store, snapshot), a.machine.id)[i].peers, SavedScope(store, request, snapshot, a).peers)
  {
    hide Save, MergedHistory, Others, MergedPeers;
    var scope := Others(store, snapshot)[i];
    OthersAreUnmet(store, snapshot);
    MergedAreMet(store, snapshot);
    assert scope in store && !Meets(scope, snapshot);
    forall p | p in scope.peers
      ensures p !in MergedPeers(store, snapshot)
    {
      if p in MergedPeers(store, snapshot) {
        var met :| met in store && Meets(met, snapshot) && p in met.peers;
        ScopesAreStrangers(store, met, scope);
      }
    }
  }

  // ---- When merging is sound ----

  ghost predicate Sound(store: seq<Scope>)
  {
    forall scope :: scope in store ==> Valid(scope.assignments)
  }

  predicate AllApart(a: seq<Assignment>, b: seq<Assignment>)
  {
    forall x, y :: x in a && y in b ==> Apart(x, y)
  }

  /** The histories that the observation merges have no id, key or subnet in common, and one network. */
  predicate MergesApart(store: seq<Scope>, snapshot: Snapshot)
  {
    forall i, j :: 0 <= i < j < |store| && Meets(store[i], snapshot) && Meets(store[j], snapshot) ==>
      AllApart(store[i].assignments, store[j].assignments)
  }

  lemma {:induction false} ValidAppend(a: seq<Assignment>, b: seq<Assignment>)
    ensures Valid(a + b) <==> Valid(a) && Valid(b) && AllApart(a, b)
  {
    hide SoundEntry, Apart;
    var c := a + b;
    assert forall i :: 0 <= i < |a| ==> c[i] == a[i];
    assert forall i :: 0 <= i < |b| ==> c[|a| + i] == b[i];
    if Valid(c) {
      assert forall x :: x in a || x in b ==> x in c;
      forall i, j | 0 <= i < |a| && 0 <= j < |b|
        ensures Apart(a[i], b[j])
      {
        assert Apart(c[i], c[|a| + j]);
      }
      forall i, j | 0 <= i < j < |b|
        ensures Apart(b[i], b[j])
      {
        assert Apart(c[|a| + i], c[|a| + j]);
      }
    }
  }

  ghost predicate ApartFromMet(a: seq<Assignment>, store: seq<Scope>, snapshot: Snapshot)
  {
    forall scope :: scope in store && Meets(scope, snapshot) ==> AllApart(a, scope.assignments)
  }

  lemma {:induction false} ApartFromMerged(a: seq<Assignment>, store: seq<Scope>, snapshot: Snapshot)
    ensures AllApart(a, MergedHistory(store, snapshot)) <==> ApartFromMet(a, store, snapshot)
  {
    hide Meets, Apart;
    if store != [] {
      ApartFromMerged(a, store[1..], snapshot);
      assert store == [store[0]] + store[1..];
    }
  }

  ghost predicate MetSound(store: seq<Scope>, snapshot: Snapshot)
  {
    forall scope :: scope in store && Meets(scope, snapshot) ==> Valid(scope.assignments)
  }

  lemma {:induction false} MergesApartFront(store: seq<Scope>, snapshot: Snapshot)
    requires store != []
    ensures MergesApart(store, snapshot) <==>
      && MergesApart(store[1..], snapshot)
      && (Meets(store[0], snapshot) ==> ApartFromMet(store[0].assignments, store[1..], snapshot))
  {
    hide Meets, AllApart;
    var rest := store[1..];
    assert forall i :: 0 < i < |store| ==> store[i] == rest[i - 1];
    if MergesApart(store, snapshot) {
      forall i, j | 0 <= i < j < |rest| && Meets(rest[i], snapshot) && Meets(rest[j], snapshot)
        ensures AllApart(rest[i].assignments, rest[j].assignments)
      {
        assert store[i + 1] == rest[i] && store[j + 1] == rest[j];
      }
    }
  }

  lemma {:induction false} MergedValidIff(store: seq<Scope>, snapshot: Snapshot)
    ensures Valid(MergedHistory(store, snapshot)) <==> MetSound(store, snapshot) && MergesApart(store, snapshot)
  {
    hide Meets, Valid, AllApart;
    if store == [] {
      assert Valid([]) by { EmptyIsValid(); }
    } else {
      MergedValidIff(store[1..], snapshot);
      MergesApartFront(store, snapshot);
      ApartFromMerged(store[0].assignments, store[1..], snapshot);
      ValidAppend(store[0].assignments, MergedHistory(store[1..], snapshot));
      assert store == [store[0]] + store[1..];
      assert !Meets(store[0], snapshot) ==> MergedHistory(store, snapshot) == MergedHistory(store[1..], snapshot);
    }
  }

  lemma {:induction false} EmptyIsValid()
    ensures Valid([])
  {
  }

  lemma {:induction false} SaveValidIff(history: seq<Assignment>, request: Request, snapshot: Snapshot)
    ensures Valid(Save(history, request, snapshot)) <==> Valid(history)
  {
    hide Valid, Allocate;
    if Valid(history) {
      SaveKeepsValid(history, request, snapshot);
    } else {
      var r := Allocate(request, snapshot, history);
      if r.Ok? {
        ValidAppend(history, [r.value]);
      }
    }
  }

  lemma {:induction false} OthersHoldUnmet(store: seq<Scope>, snapshot: Snapshot)
    ensures Sound(Others(store, snapshot)) <==>
      forall scope :: scope in store && !Meets(scope, snapshot) ==> Valid(scope.assignments)
  {
    hide Meets, Valid;
    if store != [] {
      OthersHoldUnmet(store[1..], snapshot);
      assert store == [store[0]] + store[1..];
    }
  }

  /** After a save all scopes are sound if and only if they were before and it merged only histories that are apart. */
  lemma {:induction false} SaveSoundIff(store: seq<Scope>, request: Request, snapshot: Snapshot)
    requires SaveIn(store, request, snapshot).0.Ok?
    ensures Sound(SaveIn(store, request, snapshot).1) <==> Sound(store) && MergesApart(store, snapshot)
  {
    hide Meets, Valid, Allocate, Save, MergesApart;
    var (r, after) := SaveIn(store, request, snapshot);
    var others := Others(store, snapshot);
    MergedValidIff(store, snapshot);
    SaveValidIff(MergedHistory(store, snapshot), request, snapshot);
    OthersHoldUnmet(store, snapshot);
    ForgetSound(others, r.value.machine.id);
  }

  lemma {:induction false} ForgetSound(scopes: seq<Scope>, id: string)
    ensures Sound(Forget(scopes, id)) <==> Sound(scopes)
  {
    hide Valid;
    var kept := Forget(scopes, id);
    assert forall i :: 0 <= i < |scopes| ==> kept[i] in kept && scopes[i] in scopes;
  }

  // ---- Whole runs ----

  function SaveAllIn(store: seq<Scope>, calls: seq<Call>): seq<Scope>
    decreases |calls|
  {
    if calls == [] then store else SaveAllIn(SaveIn(store, calls[0].request, calls[0].snapshot).1, calls[1..])
  }

  /** Every save of the run that succeeds merges only histories that are apart. */
  predicate AlwaysMergesApart(store: seq<Scope>, calls: seq<Call>)
    decreases |calls|
  {
    calls == [] ||
    var (r, after) := SaveIn(store, calls[0].request, calls[0].snapshot);
    (r.Ok? ==> MergesApart(store, calls[0].snapshot)) && AlwaysMergesApart(after, calls[1..])
  }

  lemma {:induction false} RunSoundIff(store: seq<Scope>, calls: seq<Call>)
    requires Separate(store)
    ensures Separate(SaveAllIn(store, calls))
    ensures Sound(SaveAllIn(store, calls)) <==> Sound(store) && AlwaysMergesApart(store, calls)
    decreases |calls|
  {
    hide Sound, Separate, MergesApart;
    if calls != [] {
      var (request, snapshot) := (calls[0].request, calls[0].snapshot);
      SaveKeepsSeparate(store, request, snapshot);
      RunSoundIff(SaveIn(store, request, snapshot).1, calls[1..]);
      if SaveIn(store, request, snapshot).0.Ok? {
        SaveSoundIff(store, request, snapshot);
      }
    }
  }

  /**
   In every store that saves can build, no two scopes share a peer. Every scope of it is sound if and only if
   no save along the way merged histories that clash: a clash stays.
   */
  lemma {:induction false} StoresSoundIff(calls: seq<Call>)
    ensures Separate(SaveAllIn([], calls))
    ensures Sound(SaveAllIn([], calls)) <==> AlwaysMergesApart([], calls)
  {
    RunSoundIff([], calls);
  }

  // ---- Resuming ----

  lemma {:induction false} OnlyOneMet(store: seq<Scope>, k: nat, snapshot: Snapshot)
    requires k < |store| && forall i :: 0 <= i < |store| ==> (Meets(store[i], snapshot) <==> i == k)
    ensures MergedPeers(store, snapshot) == store[k].peers && MergedHistory(store, snapshot) == store[k].assignments
    ensures Others(store, snapshot) == store[..k] + store[k + 1..]
  {
    hide Meets;
    if k == 0 {
      NoneMet(store[1..], snapshot);
    } else {
      assert !Meets(store[0], snapshot);
      OnlyOneMet(store[1..], k - 1, snapshot);
      assert [store[0]] + (store[1..][..k - 1] + store[1..][k..]) == store[..k] + store[k + 1..];
    }
  }

  lemma {:induction false} NoneMet(store: seq<Scope>, snapshot: Snapshot)
    requires forall i :: 0 <= i < |store| ==> !Meets(store[i], snapshot)
    ensures MergedPeers(store, snapshot) == [] && MergedHistory(store, snapshot) == [] && Others(store, snapshot) == store
  {
    hide Meets;
    if store != [] {
      NoneMet(store[1..], snapshot);
    }
  }

  /** An observation of Machines that one scope knows, all of them, meets that scope alone. */
  lemma {:induction false} AliasMeetsOne(store: seq<Scope>, k: nat, snapshot: Snapshot)
    requires Separate(store) && k < |store| && snapshot.machines != []
    requires forall m :: m in snapshot.machines ==> PeerOf(m) in store[k].peers
    ensures MergedHistory(store, snapshot) == store[k].assignments
  {
    forall i | 0 <= i < |store|
      ensures Meets(store[i], snapshot) <==> i == k
    {
      assert i < k ==> Strangers(store[i].peers, store[k].peers);
      assert k < i ==> Strangers(store[k].peers, store[i].peers);
      assert snapshot.machines[0] in snapshot.machines;
    }
    OnlyOneMet(store, k, snapshot);
  }

  /**
   Through any alias - any observation of Machines that the scope knows - a retry with the same identity gets
   the saved assignment itself exactly when the observation does not contradict it.
   */
  lemma {:induction false} AliasResumes(store: seq<Scope>, k: nat, n: nat, request: Request, snapshot: Snapshot)
    requires Separate(store) && k < |store| && snapshot.machines != []
    requires forall m :: m in snapshot.machines ==> PeerOf(m) in store[k].peers
    requires Valid(store[k].assignments) && n < |store[k].assignments| && Identity(request) == store[k].assignments[n].request
    ensures var a := store[k].assignments[n];
      SaveIn(store, request, snapshot).0 ==
        if snapshot.network.prefix > 24 then Err(Allocation(InvalidNetwork))
        else if Agrees(snapshot, a, request) then Ok(a) else Err(Allocation(Conflict))
  {
    hide Valid, Allocate, Agrees, Separate;
    AliasMeetsOne(store, k, snapshot);
    RetryReturnsSaved(store[k].assignments, n, request, snapshot);
  }

  lemma {:induction false} AllocateAgain(request: Request, snapshot: Snapshot, saved: seq<Assignment>)
    requires Allocate(request, snapshot, saved).Ok?
    ensures Allocate(request, snapshot, Save(saved, request, snapshot)) == Allocate(request, snapshot, saved)
  {
    var a := Allocate(request, snapshot, saved).value;
    NewIsSound(request, snapshot, saved);
    if FindSaved(saved, request.id).None? {
      FindNew(saved, a);
      KnownWithNew(snapshot, saved, a);
      hide PickSubnet, Contains, Known;
    }
  }

  lemma {:induction false} FindNew(saved: seq<Assignment>, a: Assignment)
    requires FindSaved(saved, a.machine.id).None?
    ensures FindSaved(saved + [a], a.machine.id) == Some(a)
  {
    if saved != [] {
      assert (saved + [a])[0] == saved[0] && (saved + [a])[1..] == saved[1..] + [a];
      FindNew(saved[1..], a);
    }
  }

  lemma {:induction false} KnownWithNew(snapshot: Snapshot, saved: seq<Assignment>, a: Assignment)
    ensures forall m :: m in Known(snapshot, saved + [a]) <==> m in Known(snapshot, saved) || m == a.machine
  {
    assert Machines(saved + [a]) == Machines(saved) + [a.machine];
    assert Known(snapshot, saved + [a]) == Known(snapshot, saved) + [a.machine];
  }

  lemma {:induction false} ForgetTwice(scopes: seq<Scope>, id: string)
    ensures Forget(Forget(scopes, id), id) == Forget(scopes, id)
  {
    forall i | 0 <= i < |scopes|
      ensures WithoutId(WithoutId(scopes[i].peers, id), id) == WithoutId(scopes[i].peers, id)
    {
      NothingToForget(WithoutId(scopes[i].peers, id), id);
    }
  }

  lemma {:induction false} NothingToForget(peers: seq<Peer>, id: string)
    requires forall p :: p in peers ==> p.id != id
    ensures WithoutId(peers, id) == peers
  {
    if peers != [] {
      NothingToForget(peers[1..], id);
    }
  }

  lemma {:induction false} NothingToAdd(peers: seq<Peer>, machines: seq<Machine>)
    requires forall m :: m in machines ==> PeerOf(m) in peers
    ensures AddPeers(peers, machines) == peers
    decreases |machines|
  {
    if machines != [] {
      NothingToAdd(peers, machines[1..]);
    }
  }

  /** Saving the same request against the same observation again gives the same assignment and changes nothing. */
  lemma {:induction false} SaveTwice(store: seq<Scope>, request: Request, snapshot: Snapshot)
    requires SaveIn(store, request, snapshot).0.Ok?
    ensures SaveIn(SaveIn(store, request, snapshot).1, request, snapshot) == SaveIn(store, request, snapshot)
  {
    hide Allocate, Meets;
    var (r, after) := SaveIn(store, request, snapshot);
    var a, history := r.value, MergedHistory(store, snapshot);
    var others, saved := Forget(Others(store, snapshot), a.machine.id), SavedScope(store, request, snapshot, a);
    AfterMeetsLast(store, request, snapshot, after);
    OnlyOneMet(after, |after| - 1, snapshot);
    assert after[..|after| - 1] + after[|after|..] == others;
    AllocateAgain(request, snapshot, history);
    ForgetTwice(Others(store, snapshot), a.machine.id);
    NothingToAdd(saved.peers, snapshot.machines + [a.machine]);
    NewIsSound(request, snapshot, history);
  }

  lemma {:induction false} AfterMeetsLast(store: seq<Scope>, request: Request, snapshot: Snapshot, after: seq<Scope>)
    requires SaveIn(store, request, snapshot).0.Ok? && after == SaveIn(store, request, snapshot).1
    ensures after != [] && forall i :: 0 <= i < |after| ==> (Meets(after[i], snapshot) <==> i == |after| - 1)
  {
    hide Allocate, Save, Others, MergedPeers, MergedHistory;
    var unmet, a := Others(store, snapshot), SaveIn(store, request, snapshot).0.value;
    OthersAreUnmet(store, snapshot);
    assert forall i :: 0 <= i < |unmet| ==> unmet[i] in unmet;
    assert snapshot.machines[0] in snapshot.machines + [a.machine];
  }

  /** The scope a save leaves knows all Machines it observed and the one it enrolled. */
  lemma {:induction false} SavedScopeKnows(store: seq<Scope>, request: Request, snapshot: Snapshot)
    requires SaveIn(store, request, snapshot).0.Ok?
    ensures var (r, after) := SaveIn(store, request, snapshot);
      after != [] && forall m :: m in snapshot.machines || m == r.value.machine ==> PeerOf(m) in after[|after| - 1].peers
  {
    hide Allocate, Save, Forget, Others, MergedPeers, MergedHistory;
  }

  /** Seen through the Machine just enrolled alone, the same request gets the same assignment. */
  lemma {:induction false} NewcomerIsAnAlias(store: seq<Scope>, request: Request, snapshot: Snapshot)
    requires Separate(store) && SaveIn(store, request, snapshot).0.Ok? && Valid(MergedHistory(store, snapshot))
    ensures var (r, after) := SaveIn(store, request, snapshot);
      SaveIn(after, request, Snapshot(snapshot.network, [r.value.machine])).0 == r
  {
    var (r, after) := SaveIn(store, request, snapshot);
    var history, a := MergedHistory(store, snapshot), r.value;
    var alias, k := Snapshot(snapshot.network, [a.machine]), |after| - 1;
    SaveKeepsSeparate(store, request, snapshot);
    SavedScopeKnows(store, request, snapshot);
    SaveKeepsValid(history, request, snapshot);
    var n := SavedAt(history, request, snapshot);
    hide Allocate, Save, Separate, Valid, SaveIn;
    assert after[k].assignments == Save(history, request, snapshot) by { SavedIsLast(store, request, snapshot); }
    AliasResumes(after, k, n, request, alias);
    SavedAgrees(history, request, snapshot);
  }

  lemma {:induction false} SavedIsLast(store: seq<Scope>, request: Request, snapshot: Snapshot)
    requires SaveIn(store, request, snapshot).0.Ok?
    ensures var after := SaveIn(store, request, snapshot).1;
      after != [] && after[|after| - 1].assignments == Save(MergedHistory(store, snapshot), request, snapshot)
  {
    hide Allocate, Save, Forget, Others, MergedPeers, MergedHistory;
  }

  lemma {:induction false} SavedAt(history: seq<Assignment>, request: Request, snapshot: Snapshot) returns (n: nat)
    requires Allocate(request, snapshot, history).Ok?
    ensures var saved := Save(history, request, snapshot);
      n < |saved| && saved[n] == Allocate(request, snapshot, history).value && saved[n].request == Identity(request)
  {
    hide PickSubnet, Contains;
    var a := Allocate(request, snapshot, history).value;
    if FindSaved(history, request.id).Some? {
      n :| 0 <= n < |history| && history[n] == a;
    } else {
      n := |history|;
    }
  }

  lemma {:induction false} SavedAgrees(history: seq<Assignment>, request: Request, snapshot: Snapshot)
    requires Valid(history) && Allocate(request, snapshot, history).Ok?
    ensures var a := Allocate(request, snapshot, history).value;
      snapshot.network.prefix <= 24 && Agrees(Snapshot(snapshot.network, [a.machine]), a, request)
  {
    hide PickSubnet, Contains;
    var a := Allocate(request, snapshot, history).value;
    if FindSaved(history, request.id).Some? {
      assert a in history && SoundEntry(a);
    }
  }

  // ---- A merge that clashes ----

  const POOL := Net(0, 22)

  function Joining(id: string): Request
  {
    Request(id, None, "", "", "", id, None, ["endpoint"], "")
  }

  function Observed(ids: seq<string>): Snapshot
  {
    Snapshot(POOL, seq(|ids|, i requires 0 <= i < |ids| => MachineOf(Joining(ids[i]), Subnet(0))))
  }

  /** Two Clusters that use the same pool, each seen by one Machine, and then both seen at once. */
  const CLASH := [
    Call(Joining("3"), Observed(["1"])), Call(Joining("4"), Observed(["2"])), Call(Joining("5"), Observed(["1", "2"]))]

  lemma {:induction false} SecondBlockIsNext(claimed: seq<Subnet>)
    requires Subnet(0) in claimed && Subnet(1) !in claimed
    ensures PickSubnet(POOL, claimed) == Ok(Subnet(1)) && Blocks(POOL) == 4 && Base(POOL) == 0
  {
    assert Pow2(2) == 2 * Pow2(1) && Pow2(1) == 2 * Pow2(0);
    assert Blocks(POOL) == 4 && Base(POOL) == 0;
    assert PickFrom(POOL, claimed, 1) == Ok(Subnet(1));
  }

  function Given(id: string): Assignment
  {
    Assignment(Joining(id), POOL, MachineOf(Joining(id), Subnet(1)))
  }

  /** A scope nobody knew yet gives its first Machine the second subnet, whatever other scopes gave away. */
  lemma {:induction false} FirstOfScope(store: seq<Scope>, id: string, host: string)
    requires id != host && forall i :: 0 <= i < |store| ==> !Meets(store[i], Observed([host]))
    ensures SaveIn(store, Joining(id), Observed([host])) ==
      (Ok(Given(id)), Forget(store, id) + [Scope([Peer(host, host), Peer(id, id)], [Given(id)])])
  {
    var request, snapshot := Joining(id), Observed([host]);
    NoneMet(store, snapshot);
    FirstAllocation(id, host);
    hide Allocate;
    var a := Given(id);
    AddTwo(snapshot.machines[0], a.machine);
    assert snapshot.machines + [a.machine] == [snapshot.machines[0], a.machine];
    assert Save([], request, snapshot) == [a];
  }

  lemma {:induction false} AddTwo(a: Machine, b: Machine)
    requires PeerOf(a) != PeerOf(b)
    ensures AddPeers([], [a, b]) == [PeerOf(a), PeerOf(b)]
  {
    assert [a, b][1..] == [b] && [b][1..] == [];
    assert [] + [PeerOf(a)] == [PeerOf(a)] && [PeerOf(a)] + [PeerOf(b)] == [PeerOf(a), PeerOf(b)];
    assert AddPeers([PeerOf(a)], [b]) == AddPeers([PeerOf(a), PeerOf(b)], []);
  }

  lemma {:induction false} FirstAllocation(id: string, host: string)
    requires id != host
    ensures Allocate(Joining(id), Observed([host]), []) == Ok(Given(id))
  {
    var request, snapshot := Joining(id), Observed([host]);
    assert Known(snapshot, []) == snapshot.machines;
    assert Subnets(snapshot.machines) == [Subnet(0)];
    SecondBlockIsNext([Subnet(0)]);
    ContainsByBlock(POOL, Subnet(1));
  }

  /** The store after the first two saves of `CLASH`. */
  const TWO_SCOPES := [
    Scope([Peer("1", "1"), Peer("3", "3")], [Given("3")]), Scope([Peer("2", "2"), Peer("4", "4")], [Given("4")])]

  lemma {:induction false} ClashStarts()
    ensures SaveAllIn([], CLASH) == SaveIn(TWO_SCOPES, CLASH[2].request, CLASH[2].snapshot).1
  {
    hide SaveIn, WithoutId;
    assert "1"[0] != "2"[0] && "3"[0] != "1"[0] && "4"[0] != "2"[0] && "3"[0] != "2"[0] && "4"[0] != "3"[0] && "4"[0] != "1"[0];
    FirstOfScope([], "3", "1");
    var one := TWO_SCOPES[..1];
    assert Forget([], "3") + [TWO_SCOPES[0]] == one;
    FirstOfScope(one, "4", "2");
    NothingToForget(one[0].peers, "4");
    assert Forget(one, "4") == one && one + [TWO_SCOPES[1]] == TWO_SCOPES;
    assert CLASH[1..][0] == CLASH[1] && CLASH[1..][1..] == CLASH[2..] && CLASH[2..][0] == CLASH[2] && CLASH[2..][1..] == [];
  }

  /** Both scopes gave away the same subnet; the save that merges them succeeds, and their scope is no longer sound. */
  lemma {:induction false} MergingClashes()
    ensures Given("3").machine.subnet == Given("4").machine.subnet
    ensures SaveIn(TWO_SCOPES, CLASH[2].request, CLASH[2].snapshot).0.Ok?
    ensures !Sound(SaveAllIn([], CLASH))
  {
    hide SaveIn;
    var (request, snapshot) := (CLASH[2].request, CLASH[2].snapshot);
    ClashStarts();
    ThirdIsAllocated();
    assert Given("3") in TWO_SCOPES[0].assignments && Given("4") in TWO_SCOPES[1].assignments && !Apart(Given("3"), Given("4"));
    SaveSoundIff(TWO_SCOPES, request, snapshot);
  }

  lemma {:induction false} ThirdIsAllocated()
    ensures Meets(TWO_SCOPES[0], CLASH[2].snapshot) && Meets(TWO_SCOPES[1], CLASH[2].snapshot)
    ensures SaveIn(TWO_SCOPES, CLASH[2].request, CLASH[2].snapshot).0.Ok?
  {
    var (request, snapshot) := (CLASH[2].request, CLASH[2].snapshot);
    var machines := snapshot.machines;
    assert PeerOf(machines[0]) == Peer("1", "1") && machines[0] in machines;
    assert PeerOf(machines[1]) == Peer("2", "2") && machines[1] in machines;
    hide Allocate, Meets;
    assert TWO_SCOPES[1..] == [TWO_SCOPES[1]] && [TWO_SCOPES[1]][1..] == [];
    var saved := [Given("3"), Given("4")];
    assert MergedHistory(TWO_SCOPES, snapshot) == saved;
    FifthIsAllocated(saved);
  }

  lemma {:induction false} FifthIsAllocated(saved: seq<Assignment>)
    requires saved == [Given("3"), Given("4")]
    ensures Allocate(Joining("5"), Observed(["1", "2"]), saved).Ok?
  {
    hide Allocate, Contains;
    var snapshot := Observed(["1", "2"]);
    var known := Known(snapshot, saved);
    assert "5"[0] != "1"[0] && "5"[0] != "2"[0] && "5"[0] != "3"[0] && "5"[0] != "4"[0];
    assert known[0].id == "1" && known[1].id == "2" && known[2].id == "3" && known[3].id == "4";
    assert Contains(POOL, Subnet(2)) by {
      ContainsByBlock(POOL, Subnet(2));
      SecondBlockIsNext([Subnet(0)]);
    }
    assert FreeIn(POOL, Subnets(known), Subnet(2));
    FreshGetsLowestFree(Joining("5"), snapshot, saved);
  }
}
