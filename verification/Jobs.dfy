/** internal/jobs/registry.go: who owns the cancel function of an in-flight job. */
module Jobs {
  import opened Text

  /** A cancel function, by identity; a job may be registered without one. */
  type Token = nat
  type Cancel = Option<Token>

  class Registry {
    var jobs: map<string, Cancel>
    ghost var cancelled: multiset<Token>      // every call of a cancel function so far

    constructor ()
      ensures jobs == map[] && cancelled == multiset{}
    {
      jobs := map[];
      cancelled := multiset{};
    }

    /** False is ErrJobExists: the entry that is there stays. */
    method Start(jobID: string, cancel: Cancel) returns (ok: bool)
      modifies this
      ensures ok <==> jobID !in old(jobs)
      ensures jobs == if ok then old(jobs)[jobID := cancel] else old(jobs)
      ensures cancelled == old(cancelled)
    {
      if jobID in jobs {
        return false;
      }
      jobs := jobs[jobID := cancel];
      return true;
    }

    method Finish(jobID: string)
      modifies this
      ensures jobs == old(jobs) - {jobID} && cancelled == old(cancelled)
    {
      jobs := jobs - {jobID};
    }

    method ActiveCount() returns (n: nat)
      ensures n == |jobs|
    {
      return |jobs|;
    }

    /** Ranges over the entries in whatever order. */
    method CancelAll()
      modifies this
      ensures jobs == map[]
      ensures forall t: Token :: cancelled[t] == old(cancelled[t]) + |Holders(old(jobs), t)|
    {
      var left := jobs;
      while left != map[]
        invariant jobs == old(jobs)
        invariant forall t: Token :: cancelled[t] + |Holders(left, t)| == old(cancelled[t]) + |Holders(old(jobs), t)|
        decreases |left|
      {
        assert left.Keys != {};
        var id :| id in left;
        forall t: Token
          ensures |Holders(left, t)| == |Holders(left - {id}, t)| + if left[id] == Some(t) then 1 else 0
        {
          HoldersWithout(left, id, t);
        }
        if left[id].Some? {
          cancelled := cancelled + multiset{left[id].value};
        }
        assert (left - {id}).Keys == left.Keys - {id};
        left := left - {id};
      }
      jobs := map[];
    }
  }

  /** The jobs whose cancel function is `t`. */
  ghost function Holders(jobs: map<string, Cancel>, t: Token): set<string> {
    set id | id in jobs && jobs[id] == Some(t)
  }

  lemma HoldersWithout(jobs: map<string, Cancel>, id: string, t: Token)
    requires id in jobs
    ensures |Holders(jobs, t)| == |Holders(jobs - {id}, t)| + if jobs[id] == Some(t) then 1 else 0
  {
    if jobs[id] == Some(t) {
      assert Holders(jobs, t) == Holders(jobs - {id}, t) + {id};
    } else {
      assert Holders(jobs, t) == Holders(jobs - {id}, t);
    }
  }

  // ---- any interleaving of calls -----------------------------------------------------------

  /** Each call holds the registry's mutex, so an interleaving is a sequence of calls. */
  datatype Op = Start(id: string, cancel: Cancel) | Finish(id: string) | CancelAll

  /** The active jobs, and how often one cancel function was offered to `Start`, accepted by it,
      dropped by `Finish` and called by `CancelAll`. */
  datatype Ledger = Ledger(active: map<string, Cancel>, offered: nat, started: nat, finished: nat, cancelled: nat)

  ghost function AfterOp(l: Ledger, op: Op, t: Token): Ledger {
    match op
    case Start(id, cancel) =>
      var one := if cancel == Some(t) then 1 else 0;
      if id in l.active then l.(offered := l.offered + one)
      else l.(active := l.active[id := cancel], offered := l.offered + one, started := l.started + one)
    case Finish(id) =>
      if id in l.active
      then l.(active := l.active - {id},
              finished := l.finished + if l.active[id] == Some(t) then 1 else 0)
      else l
    case CancelAll =>
      l.(active := map[], cancelled := l.cancelled + |Holders(l.active, t)|)
  }

  ghost function AfterOps(ops: seq<Op>, t: Token): Ledger {
    if ops == [] then Ledger(map[], 0, 0, 0, 0)
    else AfterOp(AfterOps(ops[..|ops| - 1], t), ops[|ops| - 1], t)
  }

  /** Conservation: an accepted cancel function is active, finished or cancelled, as often as it was
      accepted. */
  lemma {:induction false} TokensAreConserved(ops: seq<Op>, t: Token)
    ensures var l := AfterOps(ops, t);
      l.started == |Holders(l.active, t)| + l.finished + l.cancelled && l.started <= l.offered
  {
    if ops != [] {
      TokensAreConserved(ops[..|ops| - 1], t);
      var l, op := AfterOps(ops[..|ops| - 1], t), ops[|ops| - 1];
      match op
      case CancelAll => assert Holders(map[], t) == {};
      case Start(id, cancel) =>
        if id !in l.active {
          HoldersWithout(l.active[id := cancel], id, t);
          assert l.active[id := cancel] - {id} == l.active;
        }
      case Finish(id) =>
        if id in l.active {
          HoldersWithout(l.active, id, t);
        }
    }
  }

  /** A cancel function offered once and accepted is in exactly one of the three places: one active
      job, finished, or called exactly once. */
  lemma EachTokenHasOneOwner(ops: seq<Op>, t: Token)
    requires AfterOps(ops, t).offered == 1 && AfterOps(ops, t).started == 1
    ensures var l := AfterOps(ops, t);
      || ((exists id :: Holders(l.active, t) == {id}) && l.finished == 0 && l.cancelled == 0)
      || (Holders(l.active, t) == {} && l.finished == 1 && l.cancelled == 0)
      || (Holders(l.active, t) == {} && l.finished == 0 && l.cancelled == 1)
  {
    TokensAreConserved(ops, t);
    var held := Holders(AfterOps(ops, t).active, t);
    if held != {} {
      var id :| id in held;
      assert |held - {id}| == 0;
      assert held == {id};
    }
  }

  lemma StepsAreNotLate(l: Ledger, op: Op, t: Token)
    requires AfterOp(l, op, t).offered == l.offered && Holders(l.active, t) == {}
    ensures AfterOp(l, op, t).cancelled == l.cancelled && Holders(AfterOp(l, op, t).active, t) == {}
  {
  }

  /** Once finished or cancelled, a cancel function that is not offered again is never called. */
  lemma {:induction false} NoLateCancel(ops: seq<Op>, more: seq<Op>, t: Token)
    requires AfterOps(ops + more, t).offered == AfterOps(ops, t).offered
    requires Holders(AfterOps(ops, t).active, t) == {}
    ensures AfterOps(ops + more, t).cancelled == AfterOps(ops, t).cancelled
    ensures Holders(AfterOps(ops + more, t).active, t) == {}
  {
    if more == [] {
      assert ops + more == ops;
    } else {
      var n := |more| - 1;
      assert (ops + more)[..|ops + more| - 1] == ops + more[..n];
      OffersGrow(ops, more[..n], t);
      OfferedOnly(AfterOps(ops + more[..n], t), more[n], t);
      hide AfterOp;
      NoLateCancel(ops, more[..n], t);
      StepsAreNotLate(AfterOps(ops + more[..n], t), more[n], t);
    }
  }

  lemma OfferedOnly(l: Ledger, op: Op, t: Token)
    ensures l.offered <= AfterOp(l, op, t).offered
  {
  }

  lemma {:induction false} OffersGrow(ops: seq<Op>, more: seq<Op>, t: Token)
    ensures AfterOps(ops, t).offered <= AfterOps(ops + more, t).offered
  {
    if more == [] {
      assert ops + more == ops;
    } else {
      assert (ops + more)[..|ops + more| - 1] == ops + more[..|more| - 1];
      OffersGrow(ops, more[..|more| - 1], t);
    }
  }

  // ---- whose entry an id names -------------------------------------------------------------

  lemma {:induction false} EntrySurvives(ops: seq<Op>, id: string, t: Token, more: seq<Op>)
    requires id !in AfterOps(ops, t).active
    requires Start(id, Some(t)) !in more
    ensures (var active := AfterOps(ops + [Start(id, Some(t))] + more, t).active; id in active && active[id] == Some(t))
            <==> CancelAll !in more && Finish(id) !in more
  {
    hide Holders;
    var accepted := ops + [Start(id, Some(t))];
    assert accepted[..|ops|] == ops;
    if more == [] {
      assert accepted + more == accepted;
    } else {
      var n := |more| - 1;
      assert (accepted + more)[..|accepted + more| - 1] == accepted + more[..n];
      assert more == more[..n] + [more[n]];
      EntrySurvives(ops, id, t, more[..n]);
    }
  }

  /** `Finish` goes by id. It drops the entry that an accepted `Start` made exactly when neither a
      `Finish` of that id nor a `CancelAll` came between; otherwise it drops nothing, or the entry of
      a later `Start` of the same id. */
  lemma FinishDropsOwnIff(ops: seq<Op>, id: string, t: Token, more: seq<Op>)
    requires id !in AfterOps(ops, t).active
    requires Start(id, Some(t)) !in more
    ensures var before := AfterOps(ops + [Start(id, Some(t))] + more, t);
      AfterOp(before, Finish(id), t).finished == before.finished + 1 <==> CancelAll !in more && Finish(id) !in more
  {
    EntrySurvives(ops, id, t, more);
  }

  /** For example, a job that finishes late, after `CancelAll` and another job of its id: it drops the
      other's cancel function `b`, which no `CancelAll` will then call. */
  lemma LateFinishDropsSuccessor(id: string, a: Token, b: Token)
    requires a != b
    ensures var l := AfterOps([Start(id, Some(a)), CancelAll, Start(id, Some(b)), Finish(id)], b);
      l.started == 1 && l.finished == 1 && l.active == map[]
  {
    var ops := [Start(id, Some(a)), CancelAll, Start(id, Some(b)), Finish(id)];
    OneMoreOp([], ops[0], b);
    OneMoreOp([ops[0]], ops[1], b);
    OneMoreOp([ops[0], ops[1]], ops[2], b);
    OneMoreOp([ops[0], ops[1], ops[2]], ops[3], b);
    assert [] + [ops[0]] == [ops[0]] && [ops[0]] + [ops[1]] == [ops[0], ops[1]];
    assert [ops[0], ops[1]] + [ops[2]] == [ops[0], ops[1], ops[2]] && [ops[0], ops[1], ops[2]] + [ops[3]] == ops;
    assert map[id := Some(b)] - {id} == map[];
  }

  lemma OneMoreOp(ops: seq<Op>, op: Op, t: Token)
    ensures AfterOps(ops + [op], t) == AfterOp(AfterOps(ops, t), op, t)
  {
    assert (ops + [op])[..|ops|] == ops;
  }
}
