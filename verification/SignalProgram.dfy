/** The engine run step by step: after every legal run its fields are what the runs of SignalRuns
    say, so what is proved of runs holds of them. */
module SignalProgram {
  import opened Options
  import opened SignalRedis
  import opened SignalSpec
  import opened SignalRuns
  import opened SignalEngine
  import opened SignalInvariants
  import opened SignalHistory
  import opened SignalTiming

  /** One step of the program where a run has led it is the run's next step. */
  method RunStep(e: Engine, step: Step, ghost r: Run)
    requires e.Valid() && LegalRun(r) && e.St() == Final(r) && Enabled(Final(r), step)
    modifies e, e.active
    ensures e.Valid() && LegalRun(Then(r, step)) && e.St() == Final(Then(r, step))
  {
    hide Final, LegalRun, Handle, Tick, Load, WithoutClosed, LoadedRules;
    Extends(r, step);
    match step {
      case Receive(payload, ids, now, nowText) =>
        e.ReadClock(now);
        e.ProcessMessage(payload, ids, nowText);
      case Monitor(now) =>
        e.ReadClock(now);
        e.UpdateSignalStates();
        MonitorLeavesNoneClosed(r, now);
      case Reload(rows) =>
        e.LoadSignalRules(rows);
      case Restart(order) =>
        e.LoadSignalRules(None);
        NoRules();
        e.LoadActiveSignals(order);
    }
  }

  lemma NoRules()
    ensures LoadedRules(None) == []
  {
  }

  lemma {:induction false} LegalSoFar(r: Run, k: nat)
    requires LegalRun(r) && k <= |r.steps|
    ensures LegalRun(Run(r.start, r.steps[..k]))
    ensures k < |r.steps| ==> Enabled(Final(Run(r.start, r.steps[..k])), r.steps[k])
    decreases |r.steps|
  {
    hide Enabled, Next;
    if k == |r.steps| {
      assert r.steps[..k] == r.steps;
    } else {
      var b := Before(r);
      LegalSoFar(b, k);
      assert b.steps[..k] == r.steps[..k];
      if k == |r.steps| - 1 {
        assert r.steps[..k] == b.steps;
      }
    }
  }

  /** A whole run: Redis holds exactly the ids of the table, and without restarts the documents sent
      show exactly the table. */
  method Execute(start: int, steps: seq<Step>) returns (e: Engine)
    requires LegalRun(Run(start, steps))
    ensures fresh(e) && fresh(e.active) && e.Valid() && e.St() == Final(Run(start, steps))
    ensures e.redisIds == e.redisRecords.Keys == Ids(e.active[..e.count])
    ensures RestartFree(Run(start, steps)) ==> OpenView(e.sent) == TableView(e.active[..e.count])
  {
    hide Final, LegalRun, Enabled, OpenView, TableView, Ids, Earlier, LastLive, Encode;
    ghost var r := Run(start, steps);
    e := new Engine(start);
    LegalSoFar(r, 0);
    AtStart(start, steps);
    var k := 0;
    while k < |steps|
      invariant 0 <= k <= |steps| && e.Valid() && fresh(e) && fresh(e.active)
      invariant LegalRun(Run(start, steps[..k])) && e.St() == Final(Run(start, steps[..k]))
    {
      LegalSoFar(r, k);
      assert steps[..k] + [steps[k]] == steps[..k + 1];
      RunStep(e, steps[k], Run(start, steps[..k]));
      k := k + 1;
    }
    assert steps[..k] == steps;
    RedisAgreesWithTable(r);
    if RestartFree(r) {
      IndexMirrorsTable(r);
    }
  }

  lemma AtStart(start: int, steps: seq<Step>)
    ensures LegalRun(Run(start, steps[..0])) && Final(Run(start, steps[..0])) == Init(start)
  {
  }
}
