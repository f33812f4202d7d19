/** How the relay comes to rest, and when a surviving client stays mute. */
module RelayProgress {
  import opened Wrappers
  import opened Decimal
  import opened Config
  import opened Wol
  import opened Relay
  import opened RelayInvariant

  /** Nothing is queued and nobody restarts. */
  predicate Quiet(step: Step) {
    !step.Queue? && !step.ServerRestart? && !step.ClientRestart? && !step.Die?
  }

  /** Some poll answer reaches the client between the two moments. */
  ghost predicate PollDelivered(steps: seq<Step>, i: nat, j: nat)
    requires j <= |steps|
  {
    exists k | i <= k < j :: steps[k].Deliver?
  }

  function Max(a: int, b: int): int {
    if a > b then a else b
  }

  /** The answer of the server as it was in `s`, to a client holding `last`. */
  predicate AnswersFrom(s: State, a: Stamped, last: int) {
    if s.server.commandID > last
    then a.epoch == |s.logs| - 1 && a.response == PollResponse(s.server.commandID, "wake", s.server.target)
    else a.response == NOTHING
  }

  /** Execution `x` is of the server's newest command, in the present life of either side, and ran to its end. */
  predicate IsOfNewest(s: State, x: Execution) {
    && x.life == s.life && x.epoch == |s.logs| - 1 && x.cut.None?
    && x.id == s.server.commandID && x.target == s.server.target
  }

  /** Since `s` one execution was added, and it is of the newest command. */
  ghost predicate NewestRanOnce(s: State, t: State) {
    && |t.runs| == |s.runs| + 1 && t.runs[..|s.runs|] == s.runs
    && IsOfNewest(t, t.runs[|s.runs|])
  }

  /**
   Where a quiet stretch that began idle in `s` has come to; `delivered` tells whether an answer
   has arrived.
   */
  ghost predicate Settling(s: State, t: State, delivered: bool) {
    var n, last := s.server.commandID, s.lastID;
    && t.logs == s.logs && t.life == s.life
    && t.server.commandID == n && t.server.target == s.server.target
    && match t.pc
       case Reporting(r) => delivered && n > last && t.lastID == last && r.id == n && NewestRanOnce(s, t)
       case Holding(a) => delivered && n > last && t.lastID == last && t.runs == s.runs && AnswersFrom(s, a, last)
       case _ =>
         && t.lastID == (if delivered then Max(last, n) else last)
         && (if delivered && n > last then NewestRanOnce(s, t) else t.runs == s.runs)
         && (t.pc.Waiting? && t.pc.answer.Some? ==> AnswersFrom(s, t.pc.answer.value, t.lastID))
  }

  lemma ExecutionSettles(s: State, t: State, link: Link, now: string)
    requires t.pc.Holding? && Settling(s, t, true)
    ensures Settling(s, AfterExecute(t, RunOf(t, link, now, None)), true)
  {
    var x := RunOf(t, link, now, None);
    assert x.id == s.server.commandID && x.report.id == x.id;
  }

  lemma QuietStepSettles(s: State, t: State, step: Step, delivered: bool)
    requires Enabled(t, step) && Quiet(step) && Settling(s, t, delivered)
    requires IsInt64(t.lastID)
    ensures Settling(s, Apply(t, step), delivered || step.Deliver?)
  {
    if step.ServePoll? {
      PollComparesHeldID(t.server, t.lastID);
    } else if step.Execute? {
      ExecutionSettles(s, t, step.link, step.now);
    }
  }

  lemma PollDeliveredGrows(steps: seq<Step>, i: nat, j: nat)
    requires i < j <= |steps|
    ensures PollDelivered(steps, i, j) <==> PollDelivered(steps, i, j - 1) || steps[j - 1].Deliver?
  {
  }

  lemma {:induction false} QuietStretch(states: seq<State>, steps: seq<Step>, i: nat, j: nat)
    requires Behavior(states, steps) && i <= j < |states| && states[i].pc == Idle
    requires forall k | i <= k < j :: Quiet(steps[k])
    ensures Settling(states[i], states[j], PollDelivered(steps, i, j))
    decreases j
  {
    if i < j {
      QuietStretch(states, steps, i, j - 1);
      PollDeliveredGrows(steps, i, j);
      BehaviorInv(states, steps, j - 1);
      QuietStepSettles(states[i], states[j - 1], steps[j - 1], PollDelivered(steps, i, j - 1));
    }
  }

  /** This client life has executed the newest command of this server life, with the target it was queued with. */
  ghost predicate NewestRan(s: State) {
    exists a | 0 <= a < |s.runs| :: IsOfNewest(s, s.runs[a])
  }

  /** The latest execution is of a command the present server life queued. */
  predicate LastRunIsOfThisServer(s: State) {
    s.runs != [] && s.runs[|s.runs| - 1].epoch == |s.logs| - 1
  }

  /** An idle client that holds an id has it from its latest execution. */
  lemma LatestRun(s: State)
    requires Inv(s) && s.pc == Idle && s.lastID >= 1
    ensures s.runs != []
    ensures var x := s.runs[|s.runs| - 1];
            && x.life == s.life && x.id == s.lastID && x.cut.None? && GoodRun(s.logs, x)
            && (x.epoch == |s.logs| - 1 ==>
                  x.id <= s.server.commandID && (x.id == s.server.commandID ==> x.target == s.server.target))
  {
    assert GoodRun(s.logs, s.runs[|s.runs| - 1]);
  }

  lemma NewestIsLatest(s: State, a: nat)
    requires Inv(s) && s.pc == Idle && 1 <= s.server.commandID <= s.lastID
    requires a < |s.runs| && IsOfNewest(s, s.runs[a])
    ensures s.lastID == s.server.commandID && LastRunIsOfThisServer(s)
  {
    LatestRun(s);
    if a < |s.runs| - 1 {
      assert InOrder(s.runs[a], s.runs[|s.runs| - 1]);
    }
  }

  /** A client that is not behind has executed the newest command exactly when it holds its id from this server life. */
  lemma NewestRanBefore(s: State)
    requires Inv(s) && s.pc == Idle && 1 <= s.server.commandID <= s.lastID
    ensures NewestRan(s) <==> s.lastID == s.server.commandID && LastRunIsOfThisServer(s)
  {
    var b := |s.runs| - 1;
    LatestRun(s);
    forall a | 0 <= a < |s.runs| && IsOfNewest(s, s.runs[a])
      ensures s.lastID == s.server.commandID && LastRunIsOfThisServer(s)
    {
      NewestIsLatest(s, a);
    }
    if s.lastID == s.server.commandID && LastRunIsOfThisServer(s) {
      assert IsOfNewest(s, s.runs[b]);
    }
  }

  /**
   Convergence, and when it fails.  Over a quiet stretch from one idle moment to another in which
   an answer arrived, the client ends at the larger of what it held and the newest id.  If the
   newest id is the larger one, exactly one execution took place, and it was of that command;
   otherwise there was none.  So this life has executed the newest command exactly when it was
   behind, or held its id already and had it from the present server life: ids are used again
   after a server restart, and then an equal id hides the command like a larger one.
   */
  lemma QuietRoundsConverge(states: seq<State>, steps: seq<Step>, i: nat, j: nat)
    requires Behavior(states, steps) && i <= j < |states|
    requires states[i].pc == Idle && states[j].pc == Idle
    requires forall k | i <= k < j :: Quiet(steps[k])
    requires PollDelivered(steps, i, j)
    ensures var s, t := states[i], states[j];
            var n, last := s.server.commandID, s.lastID;
            && t.server.commandID == n && t.lastID == Max(last, n)
            && (if n > last then NewestRanOnce(s, t) else t.runs == s.runs)
            && (n >= 1 ==> (NewestRan(t) <==> last < n || (last == n && LastRunIsOfThisServer(s))))
  {
    var s, t := states[i], states[j];
    QuietStretch(states, steps, i, j);
    BehaviorInv(states, steps, i);
    if s.server.commandID > s.lastID {
      assert IsOfNewest(t, t.runs[|s.runs|]);
    } else if s.server.commandID >= 1 {
      BehaviorInv(states, steps, j);
      NewestRanBefore(t);
    }
  }

  /** The client life has polled only the present server life. */
  ghost predicate OneServerLife(s: State) {
    s.logs != [] && forall a | 0 <= a < |s.runs| && s.runs[a].life == s.life :: s.runs[a].epoch == |s.logs| - 1
  }

  /** Within one server life the client is never ahead of the server. */
  lemma ClientNeverAhead(states: seq<State>, steps: seq<Step>, i: nat)
    requires Behavior(states, steps) && i < |states| && OneServerLife(states[i])
    ensures 0 <= states[i].lastID <= states[i].server.commandID
  {
    BehaviorInv(states, steps, i);
    var s := states[i];
    if s.lastID > 0 {
      var x := s.runs[|s.runs| - 1];
      assert x.life == s.life && GoodRun(s.logs, x);
      assert s.lastID <= x.id <= |Current(s)|;
    }
  }

  /** The distance left to the newest command never grows by a quiet step. */
  lemma GapNeverGrows(states: seq<State>, steps: seq<Step>, i: nat)
    requires Behavior(states, steps) && i < |steps| && Quiet(steps[i])
    ensures states[i + 1].server.commandID - states[i + 1].lastID <= states[i].server.commandID - states[i].lastID
  {
    BehaviorInv(states, steps, i);
  }

  // ---------- after a server restart ----------

  /** The wake command on its way to the client, or in its hands. */
  function PendingWake(s: State): Option<Stamped> {
    match s.pc
    case Waiting(Some(a)) => if IsWake(a.response, s.lastID) then Some(a) else None
    case Holding(a) => Some(a)
    case _ => None
  }

  /** Execution `x` is of the command answer `a` brought. */
  predicate IsOfAnswer(x: Execution, a: Stamped) {
    x.epoch == a.epoch && x.id == a.response.commandID && x.target == a.response.target
  }

  /** Since `s` nothing was executed but, possibly, the one command that was on its way then. */
  ghost predicate Muted(s: State, t: State) {
    && s.lastID <= t.lastID
    && (if t.runs == s.runs then PendingWake(t).None? || PendingWake(t) == PendingWake(s) else
        && PendingWake(s).Some? && PendingWake(t).None?
        && |t.runs| == |s.runs| + 1 && t.runs[..|s.runs|] == s.runs
        && IsOfAnswer(t.runs[|s.runs|], PendingWake(s).value))
  }

  lemma MutedExecution(s: State, t: State, x: Execution)
    requires Muted(s, t) && RunsHeld(t, x)
    ensures Muted(s, AfterExecute(t, x))
  {
    assert |t.runs| == |AfterExecute(t, x).runs| - 1;
    assert t.runs == s.runs && IsOfAnswer(x, t.pc.held);
  }

  lemma MutedOn(s: State, t: State, u: State)
    requires Muted(s, t) && u.runs == t.runs && u.lastID >= t.lastID
    requires PendingWake(u).None? || PendingWake(u) == PendingWake(t)
    ensures Muted(s, u)
  {
  }

  /** No new wake command sets out to a client that holds at least the server's counter. */
  lemma NoNewWake(t: State, step: Step)
    requires Inv(t) && Enabled(t, step) && !step.ClientRestart? && !step.Die? && !step.Execute?
    requires t.server.commandID <= t.lastID
    ensures var u := Apply(t, step);
            && u.runs == t.runs && u.lastID >= t.lastID
            && (PendingWake(u).None? || PendingWake(u) == PendingWake(t))
  {
    if step.ServePoll? {
      PollComparesHeldID(t.server, t.lastID);
    }
  }

  lemma MutedStep(s: State, t: State, step: Step)
    requires Inv(t) && Enabled(t, step) && !step.ClientRestart? && !step.Die?
    requires Muted(s, t) && t.server.commandID <= s.lastID
    ensures Muted(s, Apply(t, step))
  {
    if step.Execute? {
      MutedExecution(s, t, RunOf(t, step.link, step.now, None));
    } else {
      NoNewWake(t, step);
      MutedOn(s, t, Apply(t, step));
    }
  }

  /**
   A client that holds `k` executes nothing new while the server's counter has not passed `k`: after
   a server restart, the first commands of the new server life go by unheard.  Only a command that
   was on its way at the start may still be executed, and without one nothing is sent at all.
   */
  lemma {:induction false} MuteUntilCounterPasses(states: seq<State>, steps: seq<Step>, i: nat, j: nat)
    requires Behavior(states, steps) && i <= j < |states|
    requires forall m | i <= m < j :: !steps[m].ClientRestart? && !steps[m].Die?
    requires forall m | i <= m < j :: states[m].server.commandID <= states[i].lastID
    ensures Muted(states[i], states[j])
    ensures PendingWake(states[i]).None? ==> states[j].runs == states[i].runs && states[j].wire == states[i].wire
    decreases j
  {
    if i < j {
      MuteUntilCounterPasses(states, steps, i, j - 1);
      BehaviorInv(states, steps, j - 1);
      MutedStep(states[i], states[j - 1], steps[j - 1]);
      BehaviorInv(states, steps, i);
      BehaviorInv(states, steps, j);
    }
  }

  lemma BehaviorGrows(states: seq<State>, steps: seq<Step>, step: Step, t: State)
    requires Behavior(states, steps) && Enabled(states[|steps|], step) && t == Apply(states[|steps|], step)
    ensures Behavior(states + [t], steps + [step])
  {
    var ss, pp := states + [t], steps + [step];
    forall i | 0 <= i < |pp| ensures Enabled(ss[i], pp[i]) && ss[i + 1] == Apply(ss[i], pp[i]) {
      if i < |steps| {
        assert ss[i] == states[i] && ss[i + 1] == states[i + 1] && pp[i] == steps[i];
      } else {
        assert ss[i] == states[|steps|] && ss[i + 1] == t && pp[i] == step;
      }
    }
  }

  /** A first command is queued, polled and handed to the client. */
  lemma FirstCommandArrives(devices: seq<Device>) returns (states: seq<State>, steps: seq<Step>)
    ensures Behavior(states, steps)
    ensures var s := states[|steps|];
            s.pc.Holding? && s.pc.held.response.commandID == 1 && s.logs == [["1"]] && s.runs == []
  {
    var s := State(devices, FRESH_SERVER, [[]], 0, Idle, "", 0, [], {}, []);
    states, steps := [s], [];
    var t := AfterQueued(s, "1");
    assert Current(s) + ["1"] == ["1"];
    assert t.logs == [["1"]];
    BehaviorGrows(states, steps, Queue("1"), t);
    states, steps := states + [t], steps + [Queue("1")];
    var u := t.(pc := Waiting(None));
    BehaviorGrows(states, steps, StartPoll, u);
    states, steps := states + [u], steps + [StartPoll];
    PollComparesHeldID(u.server, 0);
    var v := AfterServe(u, Answer(u.server, 0));
    BehaviorGrows(states, steps, ServePoll, v);
    states, steps := states + [v], steps + [ServePoll];
    var w := AfterDeliver(v);
    BehaviorGrows(states, steps, Deliver, w);
    states, steps := states + [w], steps + [Deliver];
  }

  /** It is executed; the client holds its id. */
  lemma FirstCommandRuns(devices: seq<Device>, link: Link, now: string) returns (states: seq<State>, steps: seq<Step>)
    ensures Behavior(states, steps)
    ensures var s := states[|steps|]; s.pc == Idle && s.lastID == 1 && s.logs == [["1"]] && |s.runs| == 1
  {
    states, steps := FirstCommandArrives(devices);
    var w := states[|steps|];
    var x := RunOf(w, link, now, None);
    var executed := AfterExecute(w, x);
    BehaviorGrows(states, steps, Execute(link, now), executed);
    states, steps := states + [executed], steps + [Execute(link, now)];
    var y := executed.(lastID := x.report.id, pc := Idle);
    BehaviorGrows(states, steps, FinishRound, y);
    states, steps := states + [y], steps + [FinishRound];
  }

  /** A poll of a client that already holds as large an id brings nothing. */
  lemma FruitlessSteps(s: State)
    requires Inv(s) && s.pc == Idle && s.server.commandID <= s.lastID
    ensures var v := s.(pc := Waiting(None));
            && Enabled(s, StartPoll) && Apply(s, StartPoll) == v
            && Enabled(v, ServePoll) && Apply(v, ServePoll) == AfterServe(v, NOTHING)
            && Enabled(AfterServe(v, NOTHING), Deliver) && Apply(AfterServe(v, NOTHING), Deliver) == s
  {
    PollComparesHeldID(s.server, s.lastID);
  }

  lemma FruitlessPoll(states: seq<State>, steps: seq<Step>) returns (later: seq<State>, more: seq<Step>)
    requires Behavior(states, steps) && states[|steps|].pc == Idle
    requires states[|steps|].server.commandID <= states[|steps|].lastID
    ensures Behavior(later, more) && more == steps + [StartPoll, ServePoll, Deliver]
    ensures later[|more|] == states[|steps|]
  {
    var s := states[|steps|];
    BehaviorInv(states, steps, |steps|);
    FruitlessSteps(s);
    var v := s.(pc := Waiting(None));
    BehaviorGrows(states, steps, StartPoll, v);
    later, more := states + [v], steps + [StartPoll];
    BehaviorGrows(later, more, ServePoll, AfterServe(v, NOTHING));
    later, more := later + [AfterServe(v, NOTHING)], more + [ServePoll];
    BehaviorGrows(later, more, Deliver, s);
    later, more := later + [s], more + [Deliver];
  }

  /**
   The newest command is not always reached: whenever the server restarts under an idle client that
   has executed something, the first command of the new server life is answered with "nothing".
   */
  lemma ServerRestartHidesCommand(states: seq<State>, steps: seq<Step>, target: string)
    returns (later: seq<State>, more: seq<Step>)
    requires Behavior(states, steps) && states[|steps|].pc == Idle && states[|steps|].lastID >= 1
    ensures Behavior(later, more) && more == steps + [ServerRestart, Queue(target), StartPoll, ServePoll, Deliver]
    ensures var s, t := states[|steps|], later[|more|];
            && t.pc == Idle && t.logs == s.logs + [[target]] && t.server.commandID == 1
            && t.runs == s.runs && t.lastID == s.lastID
  {
    var s := states[|steps|];
    BehaviorInv(states, steps, |steps|);
    var t := s.(server := FRESH_SERVER, logs := s.logs + [[]]);
    BehaviorGrows(states, steps, ServerRestart, t);
    later, more := states + [t], steps + [ServerRestart];
    var u := AfterQueued(t, target);
    assert Current(t) + [target] == [target];
    assert u.logs == s.logs + [[target]];
    BehaviorGrows(later, more, Queue(target), u);
    later, more := later + [u], more + [Queue(target)];
    later, more := FruitlessPoll(later, more);
  }

  lemma {:induction false} EpochsBelow(states: seq<State>, steps: seq<Step>, a: nat)
    requires Behavior(states, steps) && a < |states[|steps|].runs|
    ensures states[|steps|].runs[a].epoch < |states[|steps|].logs|
  {
    BehaviorInv(states, steps, |steps|);
    assert GoodRun(states[|steps|].logs, states[|steps|].runs[a]);
  }

  /**
   A whole run in which holding the newest id is not having executed the newest command: the server
   restarts after its first command, and the quiet stretch from moment `i` on ends with equal ids
   while the second command is never executed.
   */
  lemma EqualIdHidesCommand(devices: seq<Device>, link: Link, now: string, target: string)
    returns (states: seq<State>, steps: seq<Step>, i: nat)
    ensures Behavior(states, steps) && i <= |steps| && states[i].pc == Idle && states[|steps|].pc == Idle
    ensures (forall k | i <= k < |steps| :: Quiet(steps[k])) && PollDelivered(steps, i, |steps|)
    ensures var t := states[|steps|];
            t.logs == [["1"], [target]] && t.lastID == t.server.commandID == 1 && !NewestRan(t)
  {
    var first, before := FirstCommandRuns(devices, link, now);
    var s := first[|before|];
    EpochsBelow(first, before, 0);
    states, steps := ServerRestartHidesCommand(first, before, target);
    i := |before| + 2;
    assert steps[i..] == [StartPoll, ServePoll, Deliver];
    assert steps[i + 2] == steps[i..][2] == Deliver;
  }
}
