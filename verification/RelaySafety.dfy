/** What holds in every state of every run of the relay. */
module RelaySafety {
  import opened Wrappers
  import opened GoStrings
  import opened Decimal
  import opened Config
  import opened Wol
  import opened Router
  import opened Commands
  import opened Relay
  import opened RelayInvariant

  // ---------- the server's slot ----------

  /** The id and the target the server shows always belong together: they are the newest command's. */
  lemma PageShowsNewestCommand(states: seq<State>, steps: seq<Step>, i: nat)
    requires Behavior(states, steps) && i < |states|
    ensures var s := states[i];
            && s.logs != [] && s.server.commandID == |Current(s)|
            && s.server.target == (if Current(s) == [] then "" else
                                   var raw := Current(s)[|Current(s)| - 1];
                                   if Fields(raw) == [] then "all" else TrimSpace(raw))
  {
    BehaviorInv(states, steps, i);
    if Current(states[i]) != [] {
      NormalizeTargetMeaning(Current(states[i])[|Current(states[i])| - 1]);
    }
  }

  // ---------- order of execution ----------

  /**
   Executions follow the queue.  Over all client and server lives no execution is of an older
   command than one before it, and within one client life the ids strictly increase, so that
   none runs twice.
   */
  lemma ExecutionsFollowTheQueue(states: seq<State>, steps: seq<Step>, i: nat)
    requires Behavior(states, steps) && i < |states|
    ensures forall a, b | 0 <= a < b < |states[i].runs| :: InOrder(states[i].runs[a], states[i].runs[b])
  {
    BehaviorInv(states, steps, i);
  }

  /** No mixing: every execution is of the target queued under its own id, the newest when its poll was served. */
  lemma ExecutedTargetIsTheQueuedOne(states: seq<State>, steps: seq<Step>, i: nat, a: nat)
    requires Behavior(states, steps) && i < |states| && a < |states[i].runs|
    ensures var x := states[i].runs[a];
            && x.epoch < |states[i].logs| && 1 <= x.id <= |states[i].logs[x.epoch]|
            && x.id == x.served
            && var raw := states[i].logs[x.epoch][x.id - 1];
               x.target == if Fields(raw) == [] then "all" else TrimSpace(raw)
  {
    BehaviorInv(states, steps, i);
    var x := states[i].runs[a];
    assert GoodRun(states[i].logs, x);
    NormalizeTargetMeaning(states[i].logs[x.epoch][x.id - 1]);
  }

  /**
   A command runs again only after a client restart, as the first execution of the new life,
   and only while it is the newest of its server life.
   */
  lemma OnlyTheNewestRunsAgain(states: seq<State>, steps: seq<Step>, i: nat, a: nat, b: nat)
    requires Behavior(states, steps) && i < |states| && a < b < |states[i].runs|
    requires states[i].runs[a].epoch == states[i].runs[b].epoch && states[i].runs[a].id == states[i].runs[b].id
    ensures states[i].runs[a].life < states[i].runs[b].life
    ensures forall c | 0 <= c < b :: states[i].runs[c].life != states[i].runs[b].life
    ensures states[i].runs[b].id == states[i].runs[b].served
  {
    BehaviorInv(states, steps, i);
    var runs := states[i].runs;
    assert InOrder(runs[a], runs[b]);
    assert GoodRun(states[i].logs, runs[b]);
    forall c | 0 <= c < b ensures runs[c].life != runs[b].life {
      assert InOrder(runs[c], runs[b]);
      if a < c {
        assert InOrder(runs[a], runs[c]);
        assert runs[c].id == runs[b].id;
      } else if c < a {
        assert InOrder(runs[c], runs[a]);
      }
    }
  }

  // ---------- how many executions there can be ----------

  function TotalQueued(logs: seq<seq<string>>): nat {
    if logs == [] then 0 else TotalQueued(logs[..|logs| - 1]) + |logs[|logs| - 1]|
  }

  lemma {:induction false} TotalOfPrefix(logs: seq<seq<string>>, e: nat, f: nat)
    requires e < f <= |logs|
    ensures TotalQueued(logs[..e]) + |logs[e]| <= TotalQueued(logs[..f])
  {
    assert logs[..f][..f - 1] == logs[..f - 1];
    if e < f - 1 {
      TotalOfPrefix(logs, e, f - 1);
    }
  }

  lemma {:induction false} RunsBounded(logs: seq<seq<string>>, runs: seq<Execution>)
    requires RunsInv(logs, runs) && runs != []
    ensures var x := runs[|runs| - 1]; |runs| <= TotalQueued(logs[..x.epoch]) + x.id + x.life
  {
    var n := |runs| - 1;
    var x := runs[n];
    assert GoodRun(logs, x);
    if n > 0 {
      var y := runs[n - 1];
      RunsBounded(logs, runs[..n]);
      assert InOrder(y, x) && GoodRun(logs, y);
      if y.epoch < x.epoch {
        TotalOfPrefix(logs, y.epoch, x.epoch);
      }
    }
  }

  /** There are never more executions than commands ever queued and client restarts together. */
  lemma ExecutionsAreBounded(states: seq<State>, steps: seq<Step>, i: nat)
    requires Behavior(states, steps) && i < |states|
    ensures |states[i].runs| <= TotalQueued(states[i].logs) + states[i].life
  {
    BehaviorInv(states, steps, i);
    var s := states[i];
    if s.runs != [] {
      RunsBounded(s.logs, s.runs);
      var x := s.runs[|s.runs| - 1];
      assert GoodRun(s.logs, x);
      TotalOfPrefix(s.logs, x.epoch, |s.logs|);
      assert s.logs[..|s.logs|] == s.logs;
    }
  }

  // ---------- nothing is lost silently ----------

  /** Run `b` belongs to the present client life. */
  predicate OfThisLife(s: State, b: nat) {
    b < |s.runs| && s.runs[b].life == s.life
  }

  /** The first run of this life with an id of at least `q`, given that run `from` is one. */
  function FirstReaching(s: State, q: int, from: nat): (b: nat)
    requires OfThisLife(s, from) && s.runs[from].id >= q
    ensures OfThisLife(s, b) && s.runs[b].id >= q
    ensures b > 0 && OfThisLife(s, b - 1) ==> s.runs[b - 1].id < q
    decreases from
  {
    if from > 0 && OfThisLife(s, from - 1) && s.runs[from - 1].id >= q then FirstReaching(s, q, from - 1) else from
  }

  /** Command `q` was not yet queued at any run of this life before run `b`. */
  ghost predicate QueuedAfterRunsBefore(s: State, q: int, b: nat) {
    forall c: nat | c < b && OfThisLife(s, c) :: s.runs[c].served < q
  }

  /** Run `b` executed `q`, or one that replaced it before the poll for `b` was served and after every earlier run. */
  ghost predicate AccountsFor(s: State, b: nat, q: int) {
    && OfThisLife(s, b)
    && (s.runs[b].id == q || (q < s.runs[b].id == s.runs[b].served && QueuedAfterRunsBefore(s, q, b)))
  }

  lemma EarlierRunsAreBelow(s: State, b: nat, q: int)
    requires Inv(s) && OfThisLife(s, b) && (b > 0 && OfThisLife(s, b - 1) ==> s.runs[b - 1].id < q)
    ensures QueuedAfterRunsBefore(s, q, b)
  {
    forall c: nat | c < b && OfThisLife(s, c) ensures s.runs[c].served < q {
      assert GoodRun(s.logs, s.runs[c]);
      assert InOrder(s.runs[b - 1], s.runs[b]) || b - 1 == c;
      if c < b - 1 {
        assert InOrder(s.runs[c], s.runs[b - 1]);
      }
    }
  }

  /**
   Latest wins, and nothing else is dropped: while the client life has seen one server life only,
   each queued id up to `lastID` was executed, or was already replaced by the larger executed one
   when the poll returning that one was served, and not yet queued at any earlier execution.
   */
  lemma NoSilentLoss(states: seq<State>, steps: seq<Step>, i: nat, q: int)
    requires Behavior(states, steps) && i < |states|
    requires forall b: nat | OfThisLife(states[i], b) :: states[i].runs[b].epoch == |states[i].logs| - 1
    requires 1 <= q <= states[i].lastID
    ensures exists b: nat :: AccountsFor(states[i], b, q)
  {
    BehaviorInv(states, steps, i);
    var s := states[i];
    var last := |s.runs| - 1;
    assert OfThisLife(s, last) && s.runs[last].id >= q;
    var b := FirstReaching(s, q, last);
    assert GoodRun(s.logs, s.runs[b]);
    EarlierRunsAreBelow(s, b, q);
    assert AccountsFor(s, b, q);
  }

  // ---------- end to end ----------

  /** The outcome is the command layer's, for a wake of the target's words. */
  ghost predicate Genuine(x: Execution) {
    && x.outcome == WakeOutcome(x.devices, x.lastWake, TargetWords(x.target), RELAY_SOURCE, x.link, x.now)
    && x.report == ReportOf(x.id, x.outcome.reply)
  }

  lemma HeldRunIsGenuine(s: State, link: Link, now: string, cut: Option<nat>)
    requires s.pc.Holding?
    ensures Genuine(RunOf(s, link, now, cut))
  {
    RelayOutcomeIsWake(s.devices, s.lastWake, s.pc.held.response.target, link, now);
  }

  ghost predicate AllGenuine(runs: seq<Execution>) {
    runs == [] || (AllGenuine(runs[..|runs| - 1]) && Genuine(runs[|runs| - 1]))
  }

  lemma GenuineSoFar(runs: seq<Execution>, x: Execution)
    requires AllGenuine(runs) && Genuine(x)
    ensures AllGenuine(runs + [x])
  {
    assert (runs + [x])[..|runs|] == runs;
  }

  lemma {:induction false} GenuineAt(runs: seq<Execution>, a: nat)
    requires AllGenuine(runs) && a < |runs|
    ensures Genuine(runs[a])
  {
    if a < |runs| - 1 {
      GenuineAt(runs[..|runs| - 1], a);
    }
  }

  lemma StepKeepsGenuine(s: State, step: Step)
    requires Enabled(s, step) && AllGenuine(s.runs)
    ensures AllGenuine(Apply(s, step).runs)
  {
    if step.Execute? {
      HeldRunIsGenuine(s, step.link, step.now, None);
      GenuineSoFar(s.runs, RunOf(s, step.link, step.now, None));
    } else if step.Die? {
      HeldRunIsGenuine(s, step.link, step.now, Some(step.sentCount));
      GenuineSoFar(s.runs, RunOf(s, step.link, step.now, Some(step.sentCount)));
    }
  }

  lemma {:induction false} BehaviorGenuine(states: seq<State>, steps: seq<Step>, i: nat)
    requires Behavior(states, steps) && i < |states|
    ensures AllGenuine(states[i].runs)
  {
    if i > 0 {
      BehaviorGenuine(states, steps, i - 1);
      StepKeepsGenuine(states[i - 1], steps[i - 1]);
    }
  }

  /** The target queued under the id an execution carries. */
  function QueuedTarget(logs: seq<seq<string>>, x: Execution): string {
    if x.epoch < |logs| && 1 <= x.id <= |logs[x.epoch]| then logs[x.epoch][x.id - 1] else ""
  }

  /**
   `frames` are what waking the words of a queued text should send: wake-up datagrams of the devices
   they resolve to, of all devices when the text is blank, up to the first failure.
   */
  ghost predicate IsDue(devices: seq<Device>, raw: string, link: Link, frames: seq<Datagram>) {
    if Fields(raw) == [] then SentUpToFirstFailure(devices, link, frames) else
    match Resolve(devices, Fields(raw))
    case Err(_) => frames == []
    case Ok(selected) =>
      SentUpToFirstFailure(seq(|selected|, a requires 0 <= a < |selected| => devices[selected[a]]), link, frames)
  }

  /** What left of an execution's datagrams: all of them, or as many as had left when the client died. */
  ghost predicate LeftOf(frames: seq<Datagram>, cut: Option<nat>, left: seq<Datagram>) {
    left <= frames && |left| == if cut.Some? && cut.value < |frames| then cut.value else |frames|
  }

  /** An execution put on the wire what was due for the text queued under its id. */
  ghost predicate EmitsDue(logs: seq<seq<string>>, x: Execution) {
    && IsDue(x.devices, QueuedTarget(logs, x), x.link, x.outcome.frames)
    && LeftOf(x.outcome.frames, x.cut, EmittedBy(x))
  }

  lemma BlankWakesAll(devices: seq<Device>, lastWake: string, source: Source, link: Link, now: string)
    ensures SentUpToFirstFailure(devices, link, WakeOutcome(devices, lastWake, ["all"], source, link, now).frames)
  {
    WakeMeaning(devices, lastWake, ["all"], source, link, now);
    var r := Resolve(devices, ["all"]);
    if devices != [] {
      ResolveFailsAtFirstBadTarget(devices, ["all"]);
      ResolveSelectsFirstOccurrences(devices, ["all"]);
      assert seq(|r.value|, a requires 0 <= a < |r.value| => devices[r.value[a]]) == devices;
    }
  }

  lemma WakeIsDue(devices: seq<Device>, lastWake: string, raw: string, source: Source, link: Link, now: string)
    ensures IsDue(devices, raw, link, WakeOutcome(devices, lastWake, TargetWords(raw), source, link, now).frames)
  {
    if Fields(raw) == [] {
      BlankWakesAll(devices, lastWake, source, link, now);
    } else {
      WakeMeaning(devices, lastWake, Fields(raw), source, link, now);
    }
  }

  lemma EmittedIsLeft(x: Execution)
    ensures LeftOf(x.outcome.frames, x.cut, EmittedBy(x))
  {
  }

  lemma QueuedWordsRun(logs: seq<seq<string>>, x: Execution)
    requires GoodRun(logs, x)
    ensures TargetWords(x.target) == TargetWords(QueuedTarget(logs, x))
  {
    NormalizeTargetMeaning(QueuedTarget(logs, x));
  }

  lemma RunEmitsDue(logs: seq<seq<string>>, x: Execution)
    requires Genuine(x) && GoodRun(logs, x)
    ensures EmitsDue(logs, x)
  {
    assert IsDue(x.devices, QueuedTarget(logs, x), x.link, x.outcome.frames) by {
      QueuedWordsRun(logs, x);
      WakeIsDue(x.devices, x.lastWake, QueuedTarget(logs, x), RELAY_SOURCE, x.link, x.now);
    }
    EmittedIsLeft(x);
  }

  /** What the executions put on the wire, one after the other. */
  function Emissions(runs: seq<Execution>): seq<seq<Datagram>> {
    seq(|runs|, a requires 0 <= a < |runs| => EmittedBy(runs[a]))
  }

  function Concat(parts: seq<seq<Datagram>>): seq<Datagram> {
    if parts == [] then [] else Concat(parts[..|parts| - 1]) + parts[|parts| - 1]
  }

  lemma {:induction false} WireOfRuns(runs: seq<Execution>)
    ensures Emitted(runs) == Concat(Emissions(runs))
  {
    if runs != [] {
      var n := |runs| - 1;
      WireOfRuns(runs[..n]);
      assert Emissions(runs)[..n] == Emissions(runs[..n]);
    }
  }

  /**
   End to end: the wire holds, in order of execution and nothing else, what was due for each executed
   command as it was queued, each up to its first failure or to the client's death.
   */
  lemma WireIsExecutedCommands(states: seq<State>, steps: seq<Step>, i: nat)
    requires Behavior(states, steps) && i < |states|
    ensures states[i].wire == Concat(Emissions(states[i].runs))
    ensures forall a | 0 <= a < |states[i].runs| :: EmitsDue(states[i].logs, states[i].runs[a])
  {
    BehaviorInv(states, steps, i);
    BehaviorGenuine(states, steps, i);
    var logs, runs := states[i].logs, states[i].runs;
    forall a | 0 <= a < |runs| ensures EmitsDue(logs, runs[a]) {
      GenuineAt(runs, a);
      RunEmitsDue(logs, runs[a]);
    }
    WireOfRuns(runs);
  }

  // ---------- report honesty ----------

  /** Every packet of the devices the target selects left, and the record of the wake was written. */
  ghost predicate Succeeded(x: Execution) {
    var words := TargetWords(x.target);
    match Resolve(x.devices, words)
    case Err(_) => false
    case Ok(selected) =>
      && |x.outcome.frames| == |selected|
      && x.outcome.lastWake == RecordText(x.now, Source("selfhost", "relay", "server"),
                                          RecordedAs(x.devices, selected, AsksForAll(words)))
  }

  /** A wake's reply carries the good mark exactly when every packet left, and then the record is written. */
  lemma WokeMeansSucceeded(x: Execution)
    requires Genuine(x)
    ensures (x.outcome.reply.Woke? <==> Succeeded(x)) && (x.outcome.reply.Failed? <==> !Succeeded(x))
  {
    WakeMeaning(x.devices, x.lastWake, TargetWords(x.target), RELAY_SOURCE, x.link, x.now);
  }

  lemma ReportTellsSuccess(x: Execution)
    requires Genuine(x)
    ensures x.report == Report(x.id, x.report.ok, Text(x.outcome.reply)) && (x.report.ok <==> Succeeded(x))
  {
    WokeMeansSucceeded(x);
    AcceptedMark(x.outcome.reply);
  }

  /** The text shows the execution's id, "ok" exactly when it succeeded, else "failed", and the reply it gave. */
  ghost predicate ShowsOutcome(shown: string, x: Execution) {
    var head := "command " + FormatInt(x.id);
    && shown == head + (if Succeeded(x) then " ok: " else " failed: ") + Text(x.outcome.reply)
    && (head + " ok: " <= shown <==> Succeeded(x))
    && (head + " failed: " <= shown <==> !Succeeded(x))
  }

  lemma ReportShowsOutcome(x: Execution)
    requires Genuine(x)
    ensures ShowsOutcome(ReportLine(x.report), x)
  {
    ReportTellsSuccess(x);
    ReportLineMeaning(x.report);
  }

  /** Whatever the server shows as last report tells the true outcome of a command the client ran to its end. */
  lemma LastReportIsHonest(states: seq<State>, steps: seq<Step>, i: nat)
    requires Behavior(states, steps) && i < |states| && states[i].server.lastReport != ""
    ensures exists a | 0 <= a < |states[i].runs| ::
              states[i].runs[a].cut.None? && ShowsOutcome(states[i].server.lastReport, states[i].runs[a])
  {
    BehaviorInv(states, steps, i);
    BehaviorGenuine(states, steps, i);
    var s := states[i];
    var r :| r in s.sent && s.server.lastReport == ReportLine(r);
    assert IsReportOf(s.runs, r);
    var a :| 0 <= a < |s.runs| && s.runs[a].cut.None? && s.runs[a].report == r;
    GenuineAt(s.runs, a);
    ReportShowsOutcome(s.runs[a]);
  }
}
