/** Every request is answered: the server never stalls and no run of it is endless. */
module ServerProgress {
  import opened TransferStore
  import opened Progress
  import opened TransferApi
  import opened ApiInvariant

  // ---------- the server never stalls ----------

  lemma RunningMoves(a: Api, i: nat)
    requires ApiInv(a) && i < |a.handlers| && a.handlers[i].phase.Running?
    requires !Blocked(a.db, i)
    ensures ApiStep(a, Advance(i)) != a
  {
    assert HandlerOk(a.db.committed, a.handlers[i], a.db.txs[i]);
    StatementMoves(a.db, i);
  }

  /** Deadlock freedom of the server: in every reachable state, if some request has not been
      answered, some handler can go on. */
  lemma {:induction false} ServerNeverStalls(a: Api, schedule: seq<ApiAction>, i: nat) returns (r: nat)
    requires ApiInitial(a) && i < |ApiExec(a, schedule).handlers|
    requires !ApiExec(a, schedule).handlers[i].phase.Finished?
    ensures ApiStep(ApiExec(a, schedule), Advance(r)) != ApiExec(a, schedule)
  {
    ApiExecInv(a, schedule);
    var m := ApiExec(a, schedule);
    assert HandlerOk(m.db.committed, m.handlers[i], m.db.txs[i]);
    r := i;
    if m.handlers[i].phase.Running? {
      r := EndOfWaits(m.db, i);
      assert HandlerOk(m.db.committed, m.handlers[r], m.db.txs[r]);
      RunningMoves(m, r);
    } else {
      var m' := ApiStep(m, Advance(i));
      assert m'.handlers[i].phase != m.handlers[i].phase;
    }
  }

  // ---------- and no run of it is endless ----------

  /** How far a handler still has to go, apart from its transaction. */
  function Rank(phase: Phase): nat {
    match phase
    case ReadFrom => 4
    case ReadTo => 3
    case Running => 2
    case Replaying => 1
    case Finished(_) => 0
  }

  function TotalRank(handlers: seq<Handler>): nat {
    if handlers == [] then 0 else TotalRank(handlers[..|handlers| - 1]) + Rank(handlers[|handlers| - 1].phase)
  }

  lemma {:induction false} RankUpdate(handlers: seq<Handler>, i: nat, h: Handler)
    requires i < |handlers|
    ensures TotalRank(handlers[i := h]) == TotalRank(handlers) - Rank(handlers[i].phase) + Rank(h.phase)
  {
    var n := |handlers| - 1;
    if i == n {
      assert handlers[i := h][..n] == handlers[..n];
    } else {
      assert handlers[i := h][..n] == handlers[..n][i := h];
      RankUpdate(handlers[..n], i, h);
    }
  }

  /** Calls the server may still make, at most. */
  function Work(a: Api): nat {
    TotalRemaining(a.db.txs) + TotalRank(a.handlers)
  }

  lemma PhaseCounts(a: Api, i: nat, phase: Phase)
    requires i < |a.handlers| && Rank(phase) < Rank(a.handlers[i].phase)
    ensures Work(WithPhase(a, i, phase)) < Work(a)
  {
    RankUpdate(a.handlers, i, a.handlers[i].(phase := phase));
  }

  lemma TxStepCounts(a: Api, i: nat, action: Action)
    requires i < |a.handlers| == |a.db.txs| && a.handlers[i].phase.Running? && ActsOn(action, i)
    ensures TxStep(a, i, action) != a ==> Work(TxStep(a, i, action)) < Work(a)
  {
    EveryStepCounts(a.db, action);
    var a' := TxStep(a, i, action);
    if i < |a'.db.txs| {
      RankUpdate(a.handlers, i, a'.handlers[i]);
      if a'.handlers[i].phase == a.handlers[i].phase {
        assert a'.handlers == a.handlers;
      }
    }
  }

  lemma EveryCallCounts(a: Api, action: ApiAction)
    requires |a.handlers| == |a.db.txs|
    ensures !action.Open? && ApiStep(a, action) != a ==> Work(ApiStep(a, action)) < Work(a)
    ensures Work(ApiStep(a, action)) <= Work(a)
  {
    if !action.Open? && action.i < |a.handlers| {
      var i := action.i;
      if a.handlers[i].phase.Running? {
        TxStepCounts(a, i, if action.Advance? then Statement(i) else if action.Fail? then Interrupt(i) else LoseAck(i));
      } else if ApiStep(a, action) != a {
        PhaseCounts(a, i, ApiStep(a, action).handlers[i].phase);
      }
    }
  }

  /** The steps of a run that handlers take. */
  function Calls(a: Api, schedule: seq<ApiAction>): nat {
    if schedule == [] then 0 else
    var before, action := schedule[..|schedule| - 1], schedule[|schedule| - 1];
    Calls(a, before) + if !action.Open? && ApiStep(ApiExec(a, before), action) != ApiExec(a, before) then 1 else 0
  }

  /** However requests are interleaved, their handlers make a bounded number of calls. */
  lemma {:induction false} ServerRunsAreFinite(a: Api, schedule: seq<ApiAction>)
    requires |a.handlers| == |a.db.txs|
    ensures Calls(a, schedule) + Work(ApiExec(a, schedule)) <= Work(a)
  {
    if schedule != [] {
      ServerRunsAreFinite(a, schedule[..|schedule| - 1]);
      ApiRunsTheStore(a, schedule[..|schedule| - 1]);
      EveryCallCounts(ApiExec(a, schedule[..|schedule| - 1]), schedule[|schedule| - 1]);
    }
  }

  ghost predicate AllAnswered(a: Api) {
    forall i :: 0 <= i < |a.handlers| ==> a.handlers[i].phase.Finished?
  }

  /** A run of the server is over, in that no handler can go on, exactly when every request
      has its answer. */
  lemma {:induction false} OverMeansAnswered(a: Api, schedule: seq<ApiAction>)
    requires ApiInitial(a)
    ensures AllAnswered(ApiExec(a, schedule)) <==>
      (forall i: nat :: ApiStep(ApiExec(a, schedule), Advance(i)) == ApiExec(a, schedule))
  {
    var m := ApiExec(a, schedule);
    if !AllAnswered(m) {
      var i: nat :| i < |m.handlers| && !m.handlers[i].phase.Finished?;
      var r := ServerNeverStalls(a, schedule, i);
      assert ApiStep(m, Advance(r)) != m;
    }
  }
}
