/** The inductive invariant of the relay, and its preservation by every step. */
module RelayInvariant {
  import opened Wrappers
  import opened Decimal
  import opened Config
  import opened Wol
  import opened Relay

  function LogTarget(log: seq<string>, id: int): string {
    if 1 <= id <= |log| then NormalizeTarget(log[id - 1]) else ""
  }

  /** The server's slot is the end of its log. */
  ghost predicate SlotInv(s: State) {
    && s.logs != [] && (forall e | 0 <= e < |s.logs| :: |s.logs[e]| <= MAX_INT64)
    && s.server.commandID == |Current(s)|
    && s.server.target == LogTarget(Current(s), |Current(s)|)
  }

  /** An answer names the newest command of the moment it was served, with that command's target. */
  ghost predicate GoodStamp(logs: seq<seq<string>>, a: Stamped) {
    && a.epoch < |logs| && a.served <= |logs[a.epoch]|
    && (a.response.command == "wake" ==>
          a.response.commandID == a.served >= 1 && a.response.target == LogTarget(logs[a.epoch], a.served))
  }

  /** An execution is of a command that was queued, with the target queued under that id. */
  ghost predicate GoodRun(logs: seq<seq<string>>, x: Execution) {
    && x.epoch < |logs| && 1 <= x.served <= |logs[x.epoch]|
    && x.id == x.served && x.target == LogTarget(logs[x.epoch], x.id)
    && x.report.id == x.id
  }

  /** `y` may come later than `x`: no older command, and within one life a larger id. */
  predicate InOrder(x: Execution, y: Execution) {
    && x.life <= y.life && x.epoch <= y.epoch
    && (x.epoch == y.epoch ==> x.id <= y.id)
    && (x.life == y.life ==> x.id < y.id)
  }

  ghost predicate RunsInv(logs: seq<seq<string>>, runs: seq<Execution>) {
    && (forall a | 0 <= a < |runs| :: GoodRun(logs, runs[a]))
    && (forall a, b | 0 <= a < b < |runs| :: InOrder(runs[a], runs[b]))
  }

  /** The largest id this life has executed, 0 for none. */
  function Bound(s: State): int {
    if s.pc.Reporting? then s.pc.report.id else s.lastID
  }

  ghost predicate ClientInv(s: State) {
    && 0 <= s.lastID <= Bound(s) <= MAX_INT64
    && (forall a | 0 <= a < |s.runs| ::
          s.runs[a].life <= s.life && (s.runs[a].life == s.life ==> s.runs[a].id <= Bound(s)))
    && (if Bound(s) > 0
        then && s.runs != []
             && var x := s.runs[|s.runs| - 1];
                x.life == s.life && x.id == Bound(s) && x.cut.None? && s.lastWake == x.outcome.lastWake
        else s.lastWake == "")
    && (s.pc.Reporting? ==> s.lastID < s.pc.report.id && s.pc.report == s.runs[|s.runs| - 1].report)
  }

  /** A pending answer is no older than anything executed so far. */
  ghost predicate AnswerInv(s: State, a: Stamped) {
    && GoodStamp(s.logs, a)
    && (a.response.command == "wake" ==> a.response.commandID > s.lastID)
    && (forall k | 0 <= k < |s.runs| ::
          s.runs[k].epoch <= a.epoch && (s.runs[k].epoch == a.epoch ==> s.runs[k].id <= a.served))
  }

  ghost predicate PcInv(s: State) {
    match s.pc
    case Waiting(Some(a)) => AnswerInv(s, a)
    case Holding(a) => AnswerInv(s, a) && a.response.command == "wake"
    case _ => true
  }

  ghost predicate IsReportOf(runs: seq<Execution>, r: Report) {
    exists a | 0 <= a < |runs| :: runs[a].cut.None? && runs[a].report == r
  }

  ghost predicate ReportInv(runs: seq<Execution>, sent: set<Report>, lastReport: string) {
    && (forall r | r in sent :: IsReportOf(runs, r))
    && (lastReport == "" || exists r | r in sent :: lastReport == ReportLine(r))
  }

  function Emitted(runs: seq<Execution>): seq<Datagram> {
    if runs == [] then [] else Emitted(runs[..|runs| - 1]) + EmittedBy(runs[|runs| - 1])
  }

  ghost predicate Inv(s: State) {
    && SlotInv(s) && RunsInv(s.logs, s.runs) && ClientInv(s) && PcInv(s)
    && ReportInv(s.runs, s.sent, s.server.lastReport) && s.wire == Emitted(s.runs)
  }

  // ---------- preservation ----------

  lemma LogsGrow(logs: seq<seq<string>>, longer: seq<seq<string>>, x: Execution)
    requires GoodRun(logs, x) && Extends(logs, longer)
    ensures GoodRun(longer, x)
  {
    assert logs[x.epoch] <= longer[x.epoch];
  }

  /** Every log is a prefix of the log that stands in its place later. */
  ghost predicate Extends(logs: seq<seq<string>>, longer: seq<seq<string>>) {
    |logs| <= |longer| && forall e | 0 <= e < |logs| :: logs[e] <= longer[e]
  }

  lemma GrownLogsKeepRuns(logs: seq<seq<string>>, longer: seq<seq<string>>, runs: seq<Execution>)
    requires RunsInv(logs, runs) && Extends(logs, longer)
    ensures RunsInv(longer, runs)
  {
    forall a | 0 <= a < |runs| ensures GoodRun(longer, runs[a]) {
      LogsGrow(logs, longer, runs[a]);
    }
  }

  lemma GrownLogsKeepStamp(logs: seq<seq<string>>, longer: seq<seq<string>>, a: Stamped)
    requires GoodStamp(logs, a) && Extends(logs, longer)
    ensures GoodStamp(longer, a)
  {
    assert logs[a.epoch] <= longer[a.epoch];
  }

  lemma GrownLogsKeep(s: State, t: State)
    requires Inv(s) && Extends(s.logs, t.logs) && SlotInv(t)
    requires t == s.(server := t.server, logs := t.logs)
    requires t.server.lastReport == s.server.lastReport || t.server.lastReport == ""
    ensures Inv(t)
  {
    GrownLogsKeepRuns(s.logs, t.logs, s.runs);
    if s.pc.Holding? {
      GrownLogsKeepStamp(s.logs, t.logs, s.pc.held);
    } else if s.pc.Waiting? && s.pc.answer.Some? {
      GrownLogsKeepStamp(s.logs, t.logs, s.pc.answer.value);
    }
    assert ClientInv(t) && PcInv(t);
  }

  lemma QueueKeepsSlot(s: State, target: string)
    requires SlotInv(s) && s.server.commandID < MAX_INT64
    ensures SlotInv(AfterQueued(s, target)) && Extends(s.logs, AfterQueued(s, target).logs)
  {
    var t := AfterQueued(s, target);
    assert Current(t) == Current(s) + [target];
  }

  lemma QueueKeeps(s: State, target: string)
    requires Inv(s) && s.server.commandID < MAX_INT64
    ensures Inv(AfterQueued(s, target))
  {
    QueueKeepsSlot(s, target);
    GrownLogsKeep(s, AfterQueued(s, target));
  }

  /** An answer served now is no older than anything executed so far. */
  lemma ServedAnswerIsGood(s: State, r: PollResponse)
    requires Inv(s) && r == Answer(s.server, s.lastID)
    ensures AnswerInv(s, Stamped(|s.logs| - 1, |Current(s)|, r))
  {
    forall k | 0 <= k < |s.runs|
      ensures s.runs[k].epoch < |s.logs| && (s.runs[k].epoch == |s.logs| - 1 ==> s.runs[k].id <= |Current(s)|)
    {
      assert GoodRun(s.logs, s.runs[k]);
    }
  }

  lemma ServeKeeps(s: State, r: PollResponse)
    requires Inv(s) && s.pc == Waiting(None) && r == Answer(s.server, s.lastID)
    ensures Inv(AfterServe(s, r))
  {
    ServedAnswerIsGood(s, r);
    var t := AfterServe(s, r);
    assert SlotInv(t) && ClientInv(t) && PcInv(t);
  }

  /** `x` is of the answer the client holds. */
  ghost predicate RunsHeld(s: State, x: Execution) {
    && s.pc.Holding?
    && x.life == s.life && x.epoch == s.pc.held.epoch && x.served == s.pc.held.served
    && x.id == s.pc.held.response.commandID && x.target == s.pc.held.response.target
    && x.report.id == x.id
  }

  lemma HeldRunFollows(s: State, x: Execution)
    requires Inv(s) && RunsHeld(s, x)
    ensures GoodRun(s.logs, x) && x.id > s.lastID
    ensures forall a | 0 <= a < |s.runs| :: InOrder(s.runs[a], x)
    ensures RunsInv(s.logs, s.runs + [x])
  {
    forall a | 0 <= a < |s.runs| ensures InOrder(s.runs[a], x) {
      assert s.runs[a].life <= s.life;
    }
  }

  lemma ReportsStay(runs: seq<Execution>, x: Execution, sent: set<Report>, lastReport: string)
    requires ReportInv(runs, sent, lastReport)
    ensures ReportInv(runs + [x], sent, lastReport)
  {
    forall r | r in sent ensures IsReportOf(runs + [x], r) {
      var a :| 0 <= a < |runs| && runs[a].cut.None? && runs[a].report == r;
      assert (runs + [x])[a] == runs[a];
    }
  }

  lemma EmittedGrows(runs: seq<Execution>, x: Execution)
    ensures Emitted(runs + [x]) == Emitted(runs) + EmittedBy(x)
  {
    assert (runs + [x])[..|runs|] == runs;
  }

  lemma ExecuteKeepsClient(s: State, x: Execution)
    requires Inv(s) && RunsHeld(s, x) && x.cut.None?
    ensures ClientInv(AfterExecute(s, x))
  {
    HeldRunFollows(s, x);
    var t := AfterExecute(s, x);
    assert t.runs[|t.runs| - 1] == x;
    assert x.id <= |s.logs[x.epoch]|;
    forall a | 0 <= a < |t.runs|
      ensures t.runs[a].life <= t.life && (t.runs[a].life == t.life ==> t.runs[a].id <= Bound(t))
    {
      if a < |s.runs| {
        assert t.runs[a] == s.runs[a];
      }
    }
  }

  lemma ExecuteKeeps(s: State, x: Execution)
    requires Inv(s) && RunsHeld(s, x) && x.cut.None?
    ensures Inv(AfterExecute(s, x))
  {
    var t := AfterExecute(s, x);
    assert SlotInv(t);
    assert RunsInv(t.logs, t.runs) by { HeldRunFollows(s, x); }
    assert ClientInv(t) by { ExecuteKeepsClient(s, x); }
    assert ReportInv(t.runs, t.sent, t.server.lastReport) by { ReportsStay(s.runs, x, s.sent, s.server.lastReport); }
    EmittedGrows(s.runs, x);
  }

  lemma DeathKeepsClient(s: State, x: Execution)
    requires Inv(s) && RunsHeld(s, x)
    ensures ClientInv(AfterDeath(s, x))
  {
    var t := AfterDeath(s, x);
    forall a | 0 <= a < |t.runs| ensures t.runs[a].life < t.life {
      if a < |s.runs| {
        assert t.runs[a] == s.runs[a];
      }
    }
  }

  lemma DeathKeeps(s: State, x: Execution)
    requires Inv(s) && RunsHeld(s, x)
    ensures Inv(AfterDeath(s, x))
  {
    var t := AfterDeath(s, x);
    assert SlotInv(t);
    assert RunsInv(t.logs, t.runs) by { HeldRunFollows(s, x); }
    assert ClientInv(t) by { DeathKeepsClient(s, x); }
    assert ReportInv(t.runs, t.sent, t.server.lastReport) by { ReportsStay(s.runs, x, s.sent, s.server.lastReport); }
    EmittedGrows(s.runs, x);
  }

  lemma PostKeepsReports(runs: seq<Execution>, sent: set<Report>, lastReport: string, r: Report)
    requires ReportInv(runs, sent, lastReport)
    requires runs != [] && runs[|runs| - 1].report == r && runs[|runs| - 1].cut.None?
    ensures ReportInv(runs, sent + {r}, lastReport)
  {
    assert IsReportOf(runs, r);
  }

  lemma PostKeeps(s: State)
    requires Inv(s) && s.pc.Reporting?
    ensures Inv(s.(sent := s.sent + {s.pc.report}))
  {
    var t := s.(sent := s.sent + {s.pc.report});
    PostKeepsReports(s.runs, s.sent, s.server.lastReport, s.pc.report);
    assert SlotInv(t) && ClientInv(t) && PcInv(t);
  }

  lemma TakeKeeps(s: State, r: Report)
    requires Inv(s) && r in s.sent
    ensures Inv(s.(server := AfterReport(s.server, r)))
  {
    var t := s.(server := AfterReport(s.server, r));
    assert SlotInv(t) && ClientInv(t) && PcInv(t);
  }

  lemma RestartKeeps(s: State, devices: seq<Device>)
    requires Inv(s)
    ensures Inv(AfterClientRestart(s, devices))
  {
  }

  lemma DeliverKeeps(s: State)
    requires Inv(s) && s.pc.Waiting? && s.pc.answer.Some?
    ensures Inv(AfterDeliver(s))
  {
    var t := AfterDeliver(s);
    assert SlotInv(t) && ClientInv(t) && PcInv(t);
  }

  lemma PauseKeeps(s: State, pc: Pc)
    requires Inv(s) && !s.pc.Reporting? && (pc == Idle || pc == Waiting(None))
    ensures Inv(s.(pc := pc))
  {
    var t := s.(pc := pc);
    assert SlotInv(t) && ClientInv(t) && PcInv(t);
  }

  lemma FinishKeeps(s: State)
    requires Inv(s) && s.pc.Reporting?
    ensures Inv(s.(lastID := s.pc.report.id, pc := Idle))
  {
    var t := s.(lastID := s.pc.report.id, pc := Idle);
    assert SlotInv(t) && ClientInv(t) && PcInv(t);
  }

  lemma RestartServerKeeps(s: State)
    requires Inv(s)
    ensures Inv(s.(server := FRESH_SERVER, logs := s.logs + [[]]))
  {
    var t := s.(server := FRESH_SERVER, logs := s.logs + [[]]);
    assert SlotInv(t);
    GrownLogsKeep(s, t);
  }

  lemma StepKeepsInv(s: State, step: Step)
    requires Inv(s) && Enabled(s, step)
    ensures Inv(Apply(s, step))
  {
    match step
    case Queue(target) => QueueKeeps(s, target);
    case StartPoll => PauseKeeps(s, Waiting(None));
    case ServePoll =>
      PollComparesHeldID(s.server, s.lastID);
      ServeKeeps(s, Answer(s.server, s.lastID));
    case PollFails => PauseKeeps(s, Idle);
    case Deliver => DeliverKeeps(s);
    case Execute(link, now) => ExecuteKeeps(s, RunOf(s, link, now, None));
    case Die(link, now, n) => DeathKeeps(s, RunOf(s, link, now, Some(n)));
    case PostReport => PostKeeps(s);
    case TakeReport(r) => TakeKeeps(s, r);
    case FinishRound => FinishKeeps(s);
    case ClientRestart(devices) => RestartKeeps(s, devices);
    case ServerRestart => RestartServerKeeps(s);
  }

  lemma {:induction false} BehaviorInv(states: seq<State>, steps: seq<Step>, i: nat)
    requires Behavior(states, steps) && i < |states|
    ensures Inv(states[i])
  {
    if i > 0 {
      BehaviorInv(states, steps, i - 1);
      StepKeepsInv(states[i - 1], steps[i - 1]);
    }
  }
}
