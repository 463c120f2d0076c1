/**
 The database service with the arrays it really keeps (dashboard/src/server/database.server.ts): each
 transaction has its own array of effects, and an inner commit pushes its array onto the outer one.
 */
module DatabaseService {
  import opened Common
  import opened Transactions

  class Pending {
    var effects: seq<Prog>

    constructor ()
      ensures effects == []
    {
      effects := [];
    }
  }

  function Collected(pending: Pending?): seq<Prog>
    reads pending
  {
    if pending == null then [] else pending.effects
  }

  method Execute(p: Prog, pending: Pending?) returns (outcome: Outcome, trace: seq<Event>)
    modifies pending
    ensures Run(outcome, trace, Collected(pending)) == old(Exec(p, pending != null, Collected(pending)))
    decreases Size(p), 1
  {
    match p {
      case Done => outcome, trace := Ok(()), [];
      case Act(tag) => outcome, trace := Ok(()), [Did(tag)];
      case Fail(error) => outcome, trace := Err(error), [];
      case Seq(a, b) =>
        outcome, trace := Execute(a, pending);
        if outcome.Ok? {
          var last, more := Execute(b, pending);
          outcome, trace := last, trace + more;
        }
      case Catch(a, b) =>
        outcome, trace := Execute(a, pending);
        if outcome.Err? {
          var last, more := Execute(b, pending);
          outcome, trace := last, trace + more;
        }
      case AfterCommit(q) =>
        if pending == null {
          var now, more := Execute(q, null);
          outcome, trace := now, [RanAtOnce(q)] + more;
        } else {
          pending.effects := pending.effects + [q];
          outcome, trace := Ok(()), [Registered(q)];
        }
      case Transaction(body, commit) =>
        outcome, trace := RunTransaction(body, commit, pending);
      case Mutation(a, ca, b, cb) =>
        outcome, trace := RunTransaction(a, ca, pending);
        if outcome == Err(Serialization) {
          var last, more := RunTransaction(b, cb, pending);
          outcome, trace := last, trace + more;
        }
    }
  }

  method RunTransaction(body: Prog, commit: Option<Error>, pending: Pending?) returns (outcome: Outcome, trace: seq<Event>)
    modifies pending
    ensures Run(outcome, trace, Collected(pending)) == old(Transact(body, commit, pending != null, Collected(pending)))
    decreases Size(body) + 1, 2
  {
    var own := new Pending();
    var inner, inside := Execute(body, own);
    if inner.Err? {
      return inner, [Open] + inside + [Close(false)];
    }
    if commit.Some? {
      return Err(commit.value), [Open] + inside + [Close(false)];
    }
    outcome, trace := Ok(()), [Open] + inside + [Close(true)];
    if pending != null {
      pending.effects := pending.effects + own.effects;
    } else {
      var after, more := RunAll(own.effects);
      outcome, trace := Reported(after), trace + more;
    }
  }

  /** The effects one after another, with the outermost database, stopping at a failure. */
  method RunAll(effects: seq<Prog>) returns (outcome: Outcome, trace: seq<Event>)
    ensures outcome == RunEffects(effects).outcome && trace == RunEffects(effects).trace
    decreases Total(effects), 0
  {
    hide Exec, RunEffects;
    outcome, trace := Ok(()), [];
    var i := 0;
    assert effects[0..] == effects;
    while i < |effects| && outcome.Ok?
      invariant 0 <= i <= |effects|
      invariant RunEffects(effects).outcome == if outcome.Ok? then RunEffects(effects[i..]).outcome else outcome
      invariant RunEffects(effects).trace == trace + if outcome.Ok? then RunEffects(effects[i..]).trace else []
      decreases |effects| - i
    {
      SmallerTail(effects, i);
      NextEffect(effects, i);
      var now, more := Execute(effects[i], null);
      ghost var later := if now.Ok? then RunEffects(effects[i + 1..]).trace else [];
      assert trace + ([Ran(effects[i])] + more + later) == trace + ([Ran(effects[i])] + more) + later;
      outcome, trace := now, trace + ([Ran(effects[i])] + more);
      i := i + 1;
    }
    NextEffect(effects, i);
    assert outcome.Ok? ==> outcome.value == ();
  }

  lemma {:induction false} NextEffect(effects: seq<Prog>, i: nat)
    requires i <= |effects|
    ensures i == |effects| ==> RunEffects(effects[i..]) == Run(Ok(()), [], [])
    ensures i < |effects| ==>
      var (r, now) := (RunEffects(effects[i..]), Exec(effects[i], false, []));
      && r.outcome == (if now.outcome.Ok? then RunEffects(effects[i + 1..]).outcome else now.outcome)
      && r.trace == [Ran(effects[i])] + now.trace + if now.outcome.Ok? then RunEffects(effects[i + 1..]).trace else []
  {
    hide Exec;
    if i < |effects| {
      assert effects[i..][0] == effects[i] && effects[i..][1..] == effects[i + 1..];
    }
  }

  lemma {:induction false} SmallerTail(effects: seq<Prog>, i: nat)
    requires i < |effects|
    ensures Size(effects[i]) < Total(effects)
  {
    if i > 0 {
      SmallerTail(effects[1..], i - 1);
    }
  }
}
