/** No deadlock, and no endless run. Each transaction claims at most one key, before it holds
    anything, and then takes account rows in ascending id. */
module Progress {
  import opened Schema
  import opened TransferStore
  import opened StoreInvariant

  // ---------- the waits-for graph ----------

  /** The order in which rows are locked: keys, then accounts by id. */
  predicate Before(r: Resource, r': Resource) {
    match (r, r')
    case (KeyLock(_), AccountLock(_)) => true
    case (AccountLock(i), AccountLock(j)) => i < j
    case _ => false
  }

  /** Whatever a transaction holds comes before the row it needs next. */
  lemma HeldComesFirst(c: Tables, q: Sequences, tx: Tx, r: Resource)
    requires Shape(c, q, tx) && Holds(tx, r) && Needs(tx).Some? && !Holds(tx, Needs(tx).value)
    ensures Before(r, Needs(tx).value)
  {}

  /** Along the waits-for graph the awaited row moves up. */
  lemma {:induction false} WaitsClimb(s: Db, t: nat, u: nat, v: nat)
    requires Inv(s) && WaitsFor(s, t, u) && WaitsFor(s, u, v)
    ensures Before(Needs(s.txs[t]).value, Needs(s.txs[u]).value)
  {
    assert !Holds(s.txs[u], Needs(s.txs[u]).value) by {
      assert Apart(s.txs[u].writes, s.txs[v].writes);
    }
    HeldComesFirst(s.committed, s.seqs, s.txs[u], Needs(s.txs[t]).value);
  }

  ghost predicate WaitPath(s: Db, p: seq<nat>) {
    forall i :: 0 <= i < |p| - 1 ==> WaitsFor(s, p[i], p[i + 1])
  }

  lemma {:induction false} PathClimbs(s: Db, p: seq<nat>, next: nat)
    requires Inv(s) && |p| >= 2 && WaitPath(s, p) && WaitsFor(s, p[|p| - 1], next)
    ensures WaitsFor(s, p[0], p[1])
    ensures Before(Needs(s.txs[p[0]]).value, Needs(s.txs[p[|p| - 1]]).value)
  {
    assert WaitsFor(s, p[0], p[1]);
    if |p| == 2 {
      WaitsClimb(s, p[0], p[1], next);
    } else {
      var rest := p[1..];
      forall i | 0 <= i < |rest| - 1 ensures WaitsFor(s, rest[i], rest[i + 1]) {
        var j := i + 1;
        assert WaitsFor(s, p[j], p[j + 1]);
      }
      PathClimbs(s, rest, next);
      WaitsClimb(s, p[0], p[1], p[2]);
    }
  }

  /** The waits-for graph of a reachable state has no cycle, of any length. */
  lemma NoWaitCycle(s: Db, schedule: seq<Action>, p: seq<nat>)
    requires Initial(s)
    requires |p| >= 2 && WaitPath(Exec(s, schedule), p)
    ensures p[0] != p[|p| - 1]
  {
    ExecInv(s, schedule);
    var m := Exec(s, schedule);
    assert WaitsFor(m, p[0], p[1]);
    if p[0] == p[|p| - 1] {
      PathClimbs(m, p, p[1]);
    }
  }

  // ---------- someone can always move ----------

  function AwaitedAfter(s: Db, t: nat): set<nat>
    requires t < |s.txs| && Needs(s.txs[t]).Some?
  {
    set u: nat | u < |s.txs| && Needs(s.txs[u]).Some? && Before(Needs(s.txs[t]).value, Needs(s.txs[u]).value)
  }

  lemma Smaller(a: set<nat>, b: set<nat>)
    requires a < b
    ensures |a| < |b|
  {
    assert |b| == |a| + |b - a| by {
      assert b == a + (b - a);
    }
    var x :| x in b && x !in a;
    assert x in b - a;
  }

  /** One step along the waits-for graph leaves fewer transactions further up. */
  lemma {:induction false} FewerFurtherUp(s: Db, t: nat, u: nat)
    requires t < |s.txs| && u < |s.txs| && Needs(s.txs[t]).Some? && Needs(s.txs[u]).Some?
    requires Before(Needs(s.txs[t]).value, Needs(s.txs[u]).value)
    ensures |AwaitedAfter(s, u)| < |AwaitedAfter(s, t)|
  {
    assert u in AwaitedAfter(s, t) && u !in AwaitedAfter(s, u);
    Smaller(AwaitedAfter(s, u), AwaitedAfter(s, t));
  }

  lemma HolderIsUnfinished(s: Db, t: nat, u: nat)
    requires Inv(s) && WaitsFor(s, t, u)
    ensures !s.txs[u].pc.Done? && s.txs[u].writes != NO_ROWS
  {
    assert Shape(s.committed, s.seqs, s.txs[u]);
  }

  /** Following who waits for whom ends at a transaction that waits for nobody. */
  lemma {:induction false} EndOfWaits(s: Db, t: nat) returns (r: nat)
    requires Inv(s) && t < |s.txs| && !s.txs[t].pc.Done?
    ensures r < |s.txs| && !s.txs[r].pc.Done? && !Blocked(s, r)
    ensures r == t || s.txs[r].writes != NO_ROWS
    decreases if Needs(s.txs[t]).Some? then 1 + |AwaitedAfter(s, t)| else 0
  {
    if !Blocked(s, t) {
      r := t;
    } else {
      var u: nat :| u < |s.txs| && WaitsFor(s, t, u);
      HolderIsUnfinished(s, t, u);
      if Blocked(s, u) {
        var v: nat :| v < |s.txs| && WaitsFor(s, u, v);
        WaitsClimb(s, t, u, v);
        FewerFurtherUp(s, t, u);
        r := EndOfWaits(s, u);
      } else {
        r := u;
      }
    }
  }

  ghost predicate AllDone(s: Db) {
    forall t :: 0 <= t < |s.txs| ==> s.txs[t].pc.Done?
  }

  // ---------- and every move counts ----------

  /** Statements a transaction may still run, at most. */
  function Remaining(pc: Pc): nat {
    match pc
    case Begin => 10
    case Claim => 9
    case InsertTransfer => 8
    case InsertFromEntry => 7
    case InsertToEntry => 6
    case AddFirst => 5
    case AddSecond => 4
    case Complete => 3
    case Commit => 2
    case RollBack(_) => 1
    case Done(_) => 0
  }

  function TotalRemaining(txs: seq<Tx>): nat {
    if txs == [] then 0 else TotalRemaining(txs[..|txs| - 1]) + Remaining(txs[|txs| - 1].pc)
  }

  lemma {:induction false} TotalUpdate(txs: seq<Tx>, t: nat, tx: Tx)
    requires t < |txs|
    ensures TotalRemaining(txs[t := tx]) == TotalRemaining(txs) - Remaining(txs[t].pc) + Remaining(tx.pc)
  {
    var n := |txs| - 1;
    if t == n {
      assert txs[t := tx][..n] == txs[..n];
    } else {
      assert txs[t := tx][..n] == txs[..n][t := tx];
      TotalUpdate(txs[..n], t, tx);
    }
  }

  /** A transaction's steps replace it alone, and move it on. */
  lemma StepReplaces(s: Db, t: nat, a: Action)
    requires t < |s.txs| && ActsOn(a, t)
    ensures |Step(s, a).txs| == |s.txs| && Step(s, a).txs == s.txs[t := Step(s, a).txs[t]]
    ensures Step(s, a) == s || Remaining(Step(s, a).txs[t].pc) < Remaining(s.txs[t].pc)
  {
    assert s.txs[t := s.txs[t]] == s.txs;
  }

  /** A statement that is not waiting moves its transaction on. */
  lemma {:induction false} StatementMoves(s: Db, t: nat)
    requires t < |s.txs| && !s.txs[t].pc.Done? && !Blocked(s, t)
    ensures TotalRemaining(StatementStep(s, t).txs) < TotalRemaining(s.txs)
  {
    assert StatementStep(s, t).txs[t].pc != s.txs[t].pc;
    StepReplaces(s, t, Statement(t));
    TotalUpdate(s.txs, t, StatementStep(s, t).txs[t]);
  }

  /** Every step a transaction takes, of its own or by interruption, uses up some of what remains. */
  lemma {:induction false} EveryStepCounts(s: Db, a: Action)
    ensures TotalRemaining(Step(s, a).txs) <= TotalRemaining(s.txs)
    ensures !a.OpenAccount? && Step(s, a) != s ==> TotalRemaining(Step(s, a).txs) < TotalRemaining(s.txs)
  {
    if !a.OpenAccount? && a.t < |s.txs| {
      StepReplaces(s, a.t, a);
      TotalUpdate(s.txs, a.t, Step(s, a).txs[a.t]);
    }
  }

  /** The steps of a run that transactions take. */
  function Moves(s: Db, schedule: seq<Action>): nat {
    if schedule == [] then 0 else
    var before, a := schedule[..|schedule| - 1], schedule[|schedule| - 1];
    Moves(s, before) + if !a.OpenAccount? && Step(Exec(s, before), a) != Exec(s, before) then 1 else 0
  }

  /** Termination: however a run is scheduled, its transactions take at most as many steps as
      they had statements left to run. */
  lemma {:induction false} RunsAreFinite(s: Db, schedule: seq<Action>)
    ensures Moves(s, schedule) + TotalRemaining(Exec(s, schedule).txs) <= TotalRemaining(s.txs)
  {
    if schedule != [] {
      RunsAreFinite(s, schedule[..|schedule| - 1]);
      EveryStepCounts(Exec(s, schedule[..|schedule| - 1]), schedule[|schedule| - 1]);
    }
  }

  /** Deadlock freedom: a reachable state in which no transaction's next statement changes
      anything is one in which every transaction has committed or rolled back. */
  lemma StuckMeansFinished(s: Db, schedule: seq<Action>)
    requires Initial(s)
    ensures AllDone(Exec(s, schedule)) <==>
      (forall t: nat :: t < |Exec(s, schedule).txs| ==> Step(Exec(s, schedule), Statement(t)) == Exec(s, schedule))
  {
    ExecInv(s, schedule);
    var m := Exec(s, schedule);
    if AllDone(m) {
      forall t: nat | t < |m.txs| ensures Step(m, Statement(t)) == m {
        assert m.txs[t := m.txs[t]] == m.txs;
      }
    } else {
      var t: nat :| t < |m.txs| && !m.txs[t].pc.Done?;
      var r := EndOfWaits(m, t);
      StatementMoves(m, r);
      assert Step(m, Statement(r)) != m;
    }
  }

  /** While some transaction is unfinished, one can move. */
  lemma {:induction false} SomeoneMoves(s: Db, schedule: seq<Action>) returns (r: nat)
    requires Initial(s) && !AllDone(Exec(s, schedule))
    ensures TotalRemaining(Exec(s, schedule + [Statement(r)]).txs) < TotalRemaining(Exec(s, schedule).txs)
  {
    ExecInv(s, schedule);
    var m := Exec(s, schedule);
    var t: nat :| t < |m.txs| && !m.txs[t].pc.Done?;
    r := EndOfWaits(m, t);
    StatementMoves(m, r);
    ExecSnoc(s, schedule, Statement(r));
  }

  lemma Regroup(x: seq<Action>, a: Action, y: seq<Action>)
    ensures x + ([a] + y) == x + [a] + y
  {}

  /** From every reachable state the transactions can all be run to their end, by their own
      statements and nothing else. */
  lemma {:induction false} EveryRunCanFinish(s: Db, schedule: seq<Action>) returns (rest: seq<Action>)
    requires Initial(s)
    ensures AllDone(Exec(s, schedule + rest))
    ensures forall i :: 0 <= i < |rest| ==> rest[i].Statement?
    decreases TotalRemaining(Exec(s, schedule).txs)
  {
    if AllDone(Exec(s, schedule)) {
      rest := [];
      assert schedule + rest == schedule;
    } else {
      var r := SomeoneMoves(s, schedule);
      var more := EveryRunCanFinish(s, schedule + [Statement(r)]);
      rest := [Statement(r)] + more;
      Regroup(schedule, Statement(r), more);
    }
  }
}
