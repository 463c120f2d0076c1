/**
 Post-commit effects across nested transactions (dashboard/src/server/database.server.ts) and the retry
 around them (dashboard/src/server/mutation-result.server.ts).

 A program is what the caller may write: actions, failures, recovery, transactions to any depth, effects
 registered anywhere, and effects that do all of this themselves. How a commit ends is part of the program.
 */
module Transactions {
  import opened Common

  datatype Error =
    | Plain(code: nat)
    /** A serialization failure: the one kind of error that is retried. */
    | Serialization
    /** `DatabasePostCommitFailure` */
    | PostCommit(cause: Error)

  datatype Prog =
    | Done
    | Act(tag: nat)
    | Fail(error: Error)
    | Seq(first: Prog, second: Prog)
    | Catch(body: Prog, handler: Prog)
    | AfterCommit(effect: Prog)
    | Transaction(work: Prog, commit: Option<Error>)
    /** `withMutationResult`: the program as its first and, if retried, its second run finds it. */
    | Mutation(attempt: Prog, attemptCommit: Option<Error>, again: Prog, againCommit: Option<Error>)

  type Outcome = Result<(), Error>

  datatype Event =
    | Did(tag: nat)
    | Open
    | Close(committed: bool)
    | Registered(effect: Prog)
    /** A deferred effect starts; an effect registered outside any transaction starts at once. */
    | Ran(effect: Prog)
    | RanAtOnce(effect: Prog)

  datatype Run = Run(outcome: Outcome, trace: seq<Event>, pending: seq<Prog>)

  function Size(p: Prog): nat
  {
    match p
    case Seq(a, b) => 1 + Size(a) + Size(b)
    case Catch(a, b) => 1 + Size(a) + Size(b)
    case AfterCommit(q) => 1 + Size(q)
    case Transaction(q, _) => 2 + Size(q)
    case Mutation(a, _, b, _) => 6 + Size(a) + Size(b)
    case _ => 0
  }

  function Total(effects: seq<Prog>): nat
  {
    if effects == [] then 0 else 1 + Size(effects[0]) + Total(effects[1..])
  }

  lemma {:induction false} TotalAppend(a: seq<Prog>, b: seq<Prog>)
    ensures Total(a + b) == Total(a) + Total(b)
  {
    if a == [] {
      assert a + b == b;
    } else {
      assert (a + b)[0] == a[0] && (a + b)[1..] == a[1..] + b;
      TotalAppend(a[1..], b);
    }
  }

  // ---- What the code does ----

  /**
   Runs a program with a database service: `nested` when it belongs to a transaction, whose `pending` array
   collects the effects.
   */
  function Exec(p: Prog, nested: bool, pending: seq<Prog>): (r: Run)
    ensures nested ==> Total(r.pending) <= Total(pending) + Size(p)
    decreases Size(p), 1
  {
    match p
    case Done => Run(Ok(()), [], pending)
    case Act(tag) => Run(Ok(()), [Did(tag)], pending)
    case Fail(error) => Run(Err(error), [], pending)
    case Seq(a, b) =>
      var first := Exec(a, nested, pending);
      if first.outcome.Err? then first
      else
        var second := Exec(b, nested, first.pending);
        Run(second.outcome, first.trace + second.trace, second.pending)
    case Catch(a, b) =>
      var first := Exec(a, nested, pending);
      if first.outcome.Ok? then first
      else
        var second := Exec(b, nested, first.pending);
        Run(second.outcome, first.trace + second.trace, second.pending)
    case AfterCommit(q) =>
      if nested then
        TotalAppend(pending, [q]);
        Run(Ok(()), [Registered(q)], pending + [q])
      else
        var now := Exec(q, false, []);
        Run(now.outcome, [RanAtOnce(q)] + now.trace, pending)
    case Transaction(body, commit) => Transact(body, commit, nested, pending)
    case Mutation(a, ca, b, cb) =>
      var first := Transact(a, ca, nested, pending);
      if first.outcome != Err(Serialization) then first
      else
        var second := Transact(b, cb, nested, first.pending);
        Run(second.outcome, first.trace + second.trace, second.pending)
  }

  function Transact(body: Prog, commit: Option<Error>, nested: bool, pending: seq<Prog>): (r: Run)
    ensures nested ==> Total(r.pending) <= Total(pending) + Size(body)
    decreases Size(body) + 1, 2
  {
    var inner := Exec(body, true, []);
    if inner.outcome.Err? then Run(inner.outcome, [Open] + inner.trace + [Close(false)], pending)
    else if commit.Some? then Run(Err(commit.value), [Open] + inner.trace + [Close(false)], pending)
    else if nested then
      TotalAppend(pending, inner.pending);
      Run(Ok(()), [Open] + inner.trace + [Close(true)], pending + inner.pending)
    else
      var after := RunEffects(inner.pending);
      Run(Reported(after.outcome),
          [Open] + inner.trace + [Close(true)] + after.trace, pending)
  }

  /** The transaction's outcome after its effects: their failure is wrapped. */
  function Reported(outcome: Outcome): Outcome
  {
    if outcome.Err? then Err(PostCommit(outcome.error)) else outcome
  }

  /** In order, with the outermost database, up to the first failure. */
  function RunEffects(effects: seq<Prog>): Run
    decreases Total(effects), 0
  {
    if effects == [] then Run(Ok(()), [], [])
    else
      var first := Exec(effects[0], false, []);
      if first.outcome.Err? then Run(first.outcome, [Ran(effects[0])] + first.trace, [])
      else
        var rest := RunEffects(effects[1..]);
        Run(rest.outcome, [Ran(effects[0])] + first.trace + rest.trace, [])
  }

  // ---- What should happen, told from the trace ----

  /**
   What follows a registration: every `Close` that ends a scope open at the registration is a commit.
   `depth` counts the scopes opened since.
   */
  predicate Survives(after: seq<Event>, depth: nat)
  {
    after == [] ||
    match after[0]
    case Open => Survives(after[1..], depth + 1)
    case Close(committed) => if depth == 0 then committed && Survives(after[1..], 0) else Survives(after[1..], depth - 1)
    case _ => Survives(after[1..], depth)
  }

  /** The effects registered in scopes that all committed, in the order of registration. */
  function Survivors(trace: seq<Event>): seq<Prog>
  {
    if trace == [] then []
    else (if trace[0].Registered? && Survives(trace[1..], 0) then [trace[0].effect] else []) + Survivors(trace[1..])
  }

  // ---- The two agree ----

  /** A trace that opens and closes its own scopes says nothing of the scopes around it. */
  ghost predicate Balanced(trace: seq<Event>)
  {
    forall rest, depth: nat {:trigger Survives(trace + rest, depth)} :: Survives(trace + rest, depth) == Survives(rest, depth)
  }

  /** Whatever follows, the trace's registrations survive together or not at all. */
  ghost predicate Passes(trace: seq<Event>, effects: seq<Prog>)
  {
    forall rest {:trigger Survivors(trace + rest)} ::
      Survivors(trace + rest) == (if Survives(rest, 0) then effects else []) + Survivors(rest)
  }

  ghost predicate Yields(trace: seq<Event>, effects: seq<Prog>)
  {
    Balanced(trace) && Passes(trace, effects)
  }

  lemma {:induction false} NothingYields()
    ensures Yields([], [])
  {
    forall rest: seq<Event>, depth: nat
      ensures Survives([] + rest, depth) == Survives(rest, depth)
    {
      assert [] + rest == rest;
    }
    forall rest: seq<Event>
      ensures Survivors([] + rest) == (if Survives(rest, 0) then [] else []) + Survivors(rest)
    {
      assert [] + rest == rest;
    }
  }

  lemma {:induction false} EventYields(event: Event)
    requires !event.Open? && !event.Close?
    ensures Yields([event], if event.Registered? then [event.effect] else [])
  {
    forall rest, depth: nat
      ensures Survives([event] + rest, depth) == Survives(rest, depth)
    {
      assert ([event] + rest)[1..] == rest;
    }
    forall rest
      ensures Survivors([event] + rest) ==
        (if Survives(rest, 0) then if event.Registered? then [event.effect] else [] else []) + Survivors(rest)
    {
      assert ([event] + rest)[1..] == rest;
    }
  }

  lemma {:induction false} AppendYields(a: seq<Event>, x: seq<Prog>, b: seq<Event>, y: seq<Prog>)
    requires Yields(a, x) && Yields(b, y)
    ensures Yields(a + b, x + y)
  {
    hide Survives, Survivors;
    forall rest, depth: nat
      ensures Survives(a + b + rest, depth) == Survives(rest, depth)
    {
      assert a + b + rest == a + (b + rest);
    }
    forall rest
      ensures Survivors(a + b + rest) == (if Survives(rest, 0) then x + y else []) + Survivors(rest)
    {
      assert a + b + rest == a + (b + rest);
      assert Survivors(b + rest) == (if Survives(rest, 0) then y else []) + Survivors(rest);
      assert Survives(b + rest, 0) == Survives(rest, 0);
      assert x + (y + Survivors(rest)) == (x + y) + Survivors(rest);
    }
  }

  function Scope(trace: seq<Event>, committed: bool): seq<Event>
  {
    [Open] + trace + [Close(committed)]
  }

  /** Closing a scope passes its effects on, or drops them all. */
  lemma {:induction false} ScopeYields(trace: seq<Event>, effects: seq<Prog>, committed: bool)
    requires Yields(trace, effects)
    ensures Yields(Scope(trace, committed), if committed then effects else [])
  {
    forall rest, depth: nat
      ensures Survives(Scope(trace, committed) + rest, depth) == Survives(rest, depth)
    {
      Unfold(trace, committed, rest);
      assert Survives(trace + ([Close(committed)] + rest), depth + 1) == Survives([Close(committed)] + rest, depth + 1);
    }
    forall rest
      ensures Survivors(Scope(trace, committed) + rest) ==
        (if Survives(rest, 0) then if committed then effects else [] else []) + Survivors(rest)
    {
      Unfold(trace, committed, rest);
      var tail := [Close(committed)] + rest;
      assert Survivors(trace + tail) == (if Survives(tail, 0) then effects else []) + Survivors(tail);
    }
  }

  lemma {:induction false} Unfold(trace: seq<Event>, committed: bool, rest: seq<Event>)
    ensures var whole := Scope(trace, committed) + rest;
      whole[0] == Open && whole[1..] == trace + ([Close(committed)] + rest)
    ensures ([Close(committed)] + rest)[0] == Close(committed) && ([Close(committed)] + rest)[1..] == rest
  {
  }

  /** What a program leaves pending is what its trace says should survive. */
  lemma {:induction false} ExecYields(p: Prog, pending: seq<Prog>) returns (effects: seq<Prog>)
    ensures var r := Exec(p, true, pending); r.pending == pending + effects && Yields(r.trace, effects)
    decreases Size(p), 1
  {
    hide Yields;
    var r := Exec(p, true, pending);
    match p {
      case Seq(a, b) => effects := TwoYield(a, b, pending, Exec(a, true, pending).outcome.Ok?);
      case Catch(a, b) => effects := TwoYield(a, b, pending, Exec(a, true, pending).outcome.Err?);
      case AfterCommit(q) =>
        EventYields(Registered(q));
        effects := [q];
      case Transaction(body, commit) => effects := TransactYields(body, commit, pending);
      case Mutation(a, ca, b, cb) =>
        var x := TransactYields(a, ca, pending);
        var first := Transact(a, ca, true, pending);
        effects := x;
        if first.outcome == Err(Serialization) {
          var y := TransactYields(b, cb, first.pending);
          AppendYields(first.trace, x, Transact(b, cb, true, first.pending).trace, y);
          effects := x + y;
        }
      case Act(tag) =>
        EventYields(Did(tag));
        effects := [];
      case _ =>
        NothingYields();
        effects := [];
    }
  }

  lemma {:induction false} TwoYield(a: Prog, b: Prog, pending: seq<Prog>, both: bool) returns (effects: seq<Prog>)
    ensures var first := Exec(a, true, pending);
      var second := Exec(b, true, first.pending);
      if both then second.pending == pending + effects && Yields(first.trace + second.trace, effects)
      else first.pending == pending + effects && Yields(first.trace, effects)
    decreases Size(a) + Size(b) + 1, 0
  {
    hide Yields, Exec;
    effects := ExecYields(a, pending);
    if both {
      var first := Exec(a, true, pending);
      var y := ExecYields(b, first.pending);
      AppendYields(first.trace, effects, Exec(b, true, first.pending).trace, y);
      effects := effects + y;
    }
  }

  lemma {:induction false} TransactYields(body: Prog, commit: Option<Error>, pending: seq<Prog>) returns (effects: seq<Prog>)
    ensures var r := Transact(body, commit, true, pending); r.pending == pending + effects && Yields(r.trace, effects)
    decreases Size(body) + 1, 2
  {
    hide Yields, Exec;
    var inner := Exec(body, true, []);
    var x := ExecYields(body, []);
    var committed := inner.outcome.Ok? && commit.None?;
    ScopeYields(inner.trace, x, committed);
    assert Transact(body, commit, true, pending).trace == Scope(inner.trace, committed);
    effects := if committed then x else [];
  }

  // ---- Effects run only outside transactions ----

  predicate IsRun(event: Event)
  {
    event.Ran? || event.RanAtOnce?
  }

  /** Inside a transaction nothing deferred runs. */
  lemma {:induction false} NestedRunsNothing(p: Prog, pending: seq<Prog>)
    ensures forall event :: event in Exec(p, true, pending).trace ==> !IsRun(event)
    decreases Size(p), 1
  {
    match p {
      case Seq(a, b) =>
        NestedRunsNothing(a, pending);
        NestedRunsNothing(b, Exec(a, true, pending).pending);
      case Catch(a, b) =>
        NestedRunsNothing(a, pending);
        NestedRunsNothing(b, Exec(a, true, pending).pending);
      case Transaction(body, commit) => NestedRunsNothing(body, []);
      case Mutation(a, ca, b, cb) =>
        NestedRunsNothing(a, []);
        NestedRunsNothing(b, []);
      case _ =>
    }
  }

  /**
   The effects run after an outermost transaction are exactly those its trace says should survive, and they
   start only behind its commit; after a rollback nothing runs.
   */
  lemma {:induction false} CommittedEffectsRun(body: Prog, commit: Option<Error>) returns (inside: seq<Event>, committed: bool)
    ensures var r := Exec(Transaction(body, commit), false, []);
      var due := Survivors(Scope(inside, committed));
      && r.trace == Scope(inside, committed) + RunEffects(due).trace
      && (forall event :: event in inside ==> !IsRun(event))
      && (!committed ==> due == [] && r.outcome.Err?)
      && (committed ==> r.outcome == Reported(RunEffects(due).outcome))
  {
    hide Exec, Yields, Survivors;
    var inner := Exec(body, true, []);
    var effects := ExecYields(body, []);
    NestedRunsNothing(body, []);
    assert inner.pending == effects;
    inside, committed := inner.trace, inner.outcome.Ok? && commit.None?;
    ScopeYields(inside, effects, committed);
    DueIs(Scope(inside, committed), if committed then effects else []);
    ExecTransaction(body, commit);
    assert RunEffects([]).trace == [];
    assert !committed ==> Scope(inside, committed) + [] == Scope(inside, committed);
  }

  lemma {:induction false} ExecTransaction(body: Prog, commit: Option<Error>)
    ensures Exec(Transaction(body, commit), false, []) == Transact(body, commit, false, [])
  {
    hide Transact;
  }

  lemma {:induction false} DueIs(trace: seq<Event>, effects: seq<Prog>)
    requires Yields(trace, effects)
    ensures Survivors(trace) == effects
  {
    assert trace + [] == trace;
    assert Survivors(trace + []) == (if Survives([], 0) then effects else []) + Survivors([]);
  }

  /** How many effects start: all, or up to the first that fails. */
  function Started(effects: seq<Prog>): (n: nat)
    ensures n <= |effects|
  {
    if effects == [] then 0
    else if Exec(effects[0], false, []).outcome.Err? then 1
    else 1 + Started(effects[1..])
  }

  function Each(effects: seq<Prog>): seq<seq<Event>>
  {
    if effects == [] then [] else [[Ran(effects[0])] + Exec(effects[0], false, []).trace] + Each(effects[1..])
  }

  /** Each effect runs once, in order, and none after the first failure. */
  lemma {:induction false} EffectsRunInOrder(effects: seq<Prog>)
    ensures var n := Started(effects);
      && RunEffects(effects).trace == Concat(Each(effects[..n]))
      && (forall i :: 0 <= i < n - 1 ==> Exec(effects[i], false, []).outcome.Ok?)
      && (RunEffects(effects).outcome.Ok? <==> n == |effects| && forall i :: 0 <= i < n ==> Exec(effects[i], false, []).outcome.Ok?)
    decreases |effects|
  {
    hide Exec;
    var n := Started(effects);
    if effects != [] {
      var first := [Ran(effects[0])] + Exec(effects[0], false, []).trace;
      if Exec(effects[0], false, []).outcome.Err? {
        assert effects[..1] == [effects[0]] && [effects[0]][1..] == [];
        assert Each(effects[..1]) == [first] + Each([]) && Each([]) == [];
        ConcatFront(first, []);
      } else {
        EffectsRunInOrder(effects[1..]);
        assert effects[..n][0] == effects[0] && effects[..n][1..] == effects[1..][..n - 1];
        ConcatFront(first, Each(effects[1..][..n - 1]));
        assert forall i :: 1 <= i < |effects| ==> effects[i] == effects[1..][i - 1];
      }
    }
  }

  /** The transaction commits: its body succeeds and so does the commit itself. */
  predicate Commits(body: Prog, commit: Option<Error>)
  {
    Exec(body, true, []).outcome.Ok? && commit.None?
  }

  /** A retried attempt was rolled back: nothing of it ran or stays pending. */
  lemma {:induction false} RetriedAttemptLeavesNothing(a: Prog, commit: Option<Error>, nested: bool, pending: seq<Prog>)
    requires Transact(a, commit, nested, pending).outcome == Err(Serialization)
    ensures !Commits(a, commit)
    ensures var r := Transact(a, commit, nested, pending);
      && r.pending == pending
      && r.trace == Scope(Exec(a, true, []).trace, false)
      && forall event :: event in r.trace ==> !IsRun(event)
  {
    NestedRunsNothing(a, []);
  }

  /** A mutation whose first attempt commits is that attempt: nothing depends on what a second would have been. */
  lemma {:induction false} CommittedIsNotRetried(a: Prog, commit: Option<Error>, again: Prog, againCommit: Option<Error>, nested: bool, pending: seq<Prog>)
    requires Commits(a, commit)
    ensures Exec(Mutation(a, commit, again, againCommit), nested, pending) == Exec(Transaction(a, commit), nested, pending)
  {
  }

  /** A failing effect behind that commit is reported as such, whatever its error, and never leads to a retry. */
  lemma {:induction false} PostCommitIsReported(a: Prog, commit: Option<Error>, again: Prog, againCommit: Option<Error>)
    requires Commits(a, commit)
    ensures var (r, due) := (Exec(Mutation(a, commit, again, againCommit), false, []), Survivors(Scope(Exec(a, true, []).trace, true)));
      && r.trace == Scope(Exec(a, true, []).trace, true) + RunEffects(due).trace
      && r.outcome == if RunEffects(due).outcome.Err? then Err(PostCommit(RunEffects(due).outcome.error)) else Ok(())
  {
    hide Survivors, Yields, RunEffects;
    CommittedIsNotRetried(a, commit, again, againCommit, false, []);
    var effects := ExecYields(a, []);
    ScopeYields(Exec(a, true, []).trace, effects, true);
    DueIs(Scope(Exec(a, true, []).trace, true), effects);
    assert Exec(a, true, []).pending == effects;
    assert RunEffects(effects).outcome.Ok? ==> RunEffects(effects).outcome.value == ();
  }

  /**
   A mutation is retried exactly when its first attempt ends in a serialization failure. Then the attempt was
   rolled back, and all that is left of it is its trace: outcome and pending effects are those of the second
   attempt alone, run as if it were the only one.
   */
  lemma {:induction false} RetriedIff(a: Prog, commit: Option<Error>, again: Prog, againCommit: Option<Error>, nested: bool, pending: seq<Prog>)
    ensures var (r, first) := (Exec(Mutation(a, commit, again, againCommit), nested, pending), Exec(Transaction(a, commit), nested, pending));
      var second := Exec(Transaction(again, againCommit), nested, pending);
      if first.outcome == Err(Serialization) then
        !Commits(a, commit) && r == Run(second.outcome, Scope(Exec(a, true, []).trace, false) + second.trace, second.pending)
      else r == first
  {
    hide Transact, Commits, Scope;
    var first := Transact(a, commit, nested, pending);
    if first.outcome == Err(Serialization) {
      RetriedAttemptLeavesNothing(a, commit, nested, pending);
    }
  }

  /** Every effect starts where no transaction is open. */
  predicate Outside(trace: seq<Event>, depth: nat)
  {
    trace == [] ||
    match trace[0]
    case Open => Outside(trace[1..], depth + 1)
    case Close(_) => Outside(trace[1..], if depth == 0 then 0 else depth - 1)
    case _ => (IsRun(trace[0]) ==> depth == 0) && Outside(trace[1..], depth)
  }

  /** Between transactions the trace starts effects only outside, and ends outside. */
  ghost predicate OutsideTop(trace: seq<Event>)
  {
    forall rest {:trigger Outside(trace + rest, 0)} :: Outside(trace + rest, 0) == Outside(rest, 0)
  }

  /** The same at any depth: nothing is started at all. */
  ghost predicate OutsideAnywhere(trace: seq<Event>)
  {
    forall rest, depth: nat {:trigger Outside(trace + rest, depth)} :: Outside(trace + rest, depth) == Outside(rest, depth)
  }

  lemma {:induction false} OutsideNothing()
    ensures OutsideAnywhere([])
  {
    forall rest: seq<Event>, depth: nat
      ensures Outside([] + rest, depth) == Outside(rest, depth)
    {
      assert [] + rest == rest;
    }
  }

  lemma {:induction false} OutsideEvent(event: Event)
    requires !event.Open? && !event.Close?
    ensures if IsRun(event) then OutsideTop([event]) else OutsideAnywhere([event])
  {
    forall rest, depth: nat | IsRun(event) ==> depth == 0
      ensures Outside([event] + rest, depth) == Outside(rest, depth)
    {
      assert ([event] + rest)[1..] == rest;
    }
  }

  lemma {:induction false} OutsideAppend(a: seq<Event>, b: seq<Event>)
    ensures OutsideAnywhere(a) && OutsideAnywhere(b) ==> OutsideAnywhere(a + b)
    ensures OutsideTop(a) && OutsideTop(b) ==> OutsideTop(a + b)
  {
    hide Outside;
    forall rest
      ensures a + b + rest == a + (b + rest)
    {
    }
  }

  lemma {:induction false} OutsideScope(trace: seq<Event>, committed: bool)
    requires OutsideAnywhere(trace)
    ensures OutsideAnywhere(Scope(trace, committed))
  {
    forall rest, depth: nat
      ensures Outside(Scope(trace, committed) + rest, depth) == Outside(rest, depth)
    {
      Unfold(trace, committed, rest);
      assert Outside(trace + ([Close(committed)] + rest), depth + 1) == Outside([Close(committed)] + rest, depth + 1);
    }
  }

  lemma {:induction false} NestedIsOutside(p: Prog, pending: seq<Prog>)
    ensures OutsideAnywhere(Exec(p, true, pending).trace)
    decreases Size(p), 1
  {
    hide OutsideAnywhere;
    match p {
      case Seq(a, b) =>
        NestedIsOutside(a, pending);
        NestedIsOutside(b, Exec(a, true, pending).pending);
        OutsideAppend(Exec(a, true, pending).trace, Exec(b, true, Exec(a, true, pending).pending).trace);
      case Catch(a, b) =>
        NestedIsOutside(a, pending);
        NestedIsOutside(b, Exec(a, true, pending).pending);
        OutsideAppend(Exec(a, true, pending).trace, Exec(b, true, Exec(a, true, pending).pending).trace);
      case AfterCommit(q) => OutsideEvent(Registered(q));
      case Act(tag) => OutsideEvent(Did(tag));
      case Transaction(body, commit) => NestedTransactIsOutside(body, commit, pending);
      case Mutation(a, ca, b, cb) =>
        NestedTransactIsOutside(a, ca, pending);
        var first := Transact(a, ca, true, pending);
        NestedTransactIsOutside(b, cb, first.pending);
        OutsideAppend(first.trace, Transact(b, cb, true, first.pending).trace);
      case _ => OutsideNothing();
    }
  }

  lemma {:induction false} NestedTransactIsOutside(body: Prog, commit: Option<Error>, pending: seq<Prog>)
    ensures OutsideAnywhere(Transact(body, commit, true, pending).trace)
    decreases Size(body) + 1, 2
  {
    hide OutsideAnywhere, Exec;
    var inner := Exec(body, true, []);
    NestedIsOutside(body, []);
    OutsideScope(inner.trace, inner.outcome.Ok? && commit.None?);
    assert Transact(body, commit, true, pending).trace == Scope(inner.trace, inner.outcome.Ok? && commit.None?);
  }

  lemma {:induction false} TopIsOutside(p: Prog, pending: seq<Prog>)
    ensures OutsideTop(Exec(p, false, pending).trace)
    decreases Size(p), 1
  {
    hide OutsideTop;
    match p {
      case Seq(a, b) =>
        TopIsOutside(a, pending);
        TopIsOutside(b, Exec(a, false, pending).pending);
        OutsideAppend(Exec(a, false, pending).trace, Exec(b, false, Exec(a, false, pending).pending).trace);
      case Catch(a, b) =>
        TopIsOutside(a, pending);
        TopIsOutside(b, Exec(a, false, pending).pending);
        OutsideAppend(Exec(a, false, pending).trace, Exec(b, false, Exec(a, false, pending).pending).trace);
      case AfterCommit(q) =>
        TopIsOutside(q, []);
        OutsideEvent(RanAtOnce(q));
        OutsideAppend([RanAtOnce(q)], Exec(q, false, []).trace);
      case Act(tag) =>
        OutsideEvent(Did(tag));
        AnywhereIsTop([Did(tag)]);
      case Transaction(body, commit) => TransactIsOutside(body, commit, pending);
      case Mutation(a, ca, b, cb) =>
        TransactIsOutside(a, ca, pending);
        var first := Transact(a, ca, false, pending);
        TransactIsOutside(b, cb, first.pending);
        OutsideAppend(first.trace, Transact(b, cb, false, first.pending).trace);
      case _ =>
        OutsideNothing();
        AnywhereIsTop([]);
    }
  }

  lemma {:induction false} AnywhereIsTop(trace: seq<Event>)
    requires OutsideAnywhere(trace)
    ensures OutsideTop(trace)
  {
  }

  lemma {:induction false} TransactIsOutside(body: Prog, commit: Option<Error>, pending: seq<Prog>)
    ensures OutsideTop(Transact(body, commit, false, pending).trace)
    decreases Size(body) + 1, 2
  {
    hide OutsideAnywhere, OutsideTop, Exec, RunEffects;
    var inner := Exec(body, true, []);
    var committed := inner.outcome.Ok? && commit.None?;
    NestedIsOutside(body, []);
    OutsideScope(inner.trace, committed);
    AnywhereIsTop(Scope(inner.trace, committed));
    if committed {
      EffectsAreOutside(inner.pending);
      OutsideAppend(Scope(inner.trace, committed), RunEffects(inner.pending).trace);
    } else {
      assert Transact(body, commit, false, pending).trace == Scope(inner.trace, committed);
    }
  }

  lemma {:induction false} EffectsAreOutside(effects: seq<Prog>)
    ensures OutsideTop(RunEffects(effects).trace)
    decreases Total(effects), 0
  {
    hide OutsideTop, Exec;
    if effects == [] {
      OutsideNothing();
      AnywhereIsTop([]);
    } else {
      var first := Exec(effects[0], false, []);
      TopIsOutside(effects[0], []);
      OutsideEvent(Ran(effects[0]));
      OutsideAppend([Ran(effects[0])], first.trace);
      if first.outcome.Ok? {
        EffectsAreOutside(effects[1..]);
        OutsideAppend([Ran(effects[0])] + first.trace, RunEffects(effects[1..]).trace);
      }
    }
  }

  /** In every program, effects of effects included, no deferred work starts while a transaction is open. */
  lemma {:induction false} EffectsStartOutside(p: Prog)
    ensures Outside(Exec(p, false, []).trace, 0)
  {
    var trace := Exec(p, false, []).trace;
    TopIsOutside(p, []);
    assert trace + [] == trace;
    assert Outside(trace + [], 0) == Outside([], 0);
  }
}
