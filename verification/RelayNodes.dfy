/**
 The two programs of the relay as they run, and their place in the transition
 system: what the server's handlers do to its state, and what one round of the
 client's loop amounts to in steps.
 */
module RelayNodes {
  import opened Wrappers
  import opened GoStrings
  import opened Decimal
  import opened Config
  import opened Wol
  import opened Commands
  import opened Relay

  /** internal/selfhost/server.go: the state behind the mutex, one method per critical section. */
  class Server {
    var commandID: int
    var target: string
    var lastReport: string

    function View(): ServerState
      reads this
    {
      ServerState(commandID, target, lastReport)
    }

    constructor ()
      ensures View() == FRESH_SERVER
    {
      commandID, target, lastReport := 0, "", "";
    }

    /** Overwrites the slot; only at the top of the int64 range does the id not grow. */
    method QueueWake(raw: string) returns (id: int)
      requires IsInt64(commandID)
      modifies this`commandID, this`target
      ensures View() == AfterQueue(old(View()), raw) && id == commandID && IsInt64(commandID)
      ensures commandID == if old(commandID) == MAX_INT64 then MIN_INT64 else old(commandID) + 1
      ensures target == if Fields(raw) == [] then "all" else TrimSpace(raw)
    {
      NormalizeTargetMeaning(raw);
      commandID := if commandID == MAX_INT64 then MIN_INT64 else commandID + 1;
      var t := TrimSpace(raw);
      if t == "" {
        t := "all";
      }
      target := t;
      id := commandID;
    }

    method HandlePoll(lastIDText: string) returns (response: PollResponse)
      ensures response == PollAnswer(View(), lastIDText)
      ensures response == if commandID > ParseIntValue(lastIDText) then PollResponse(commandID, "wake", target)
                          else PollResponse(0, "", "")
    {
      var lastID := ParseIntValue(lastIDText);
      var id, t := commandID, target;
      if id > lastID {
        return PollResponse(id, "wake", t);
      }
      return PollResponse(0, "", "");
    }

    /** No check against the current command: the latest report to arrive is shown. */
    method HandleReport(report: Report)
      modifies this`lastReport
      ensures View() == AfterReport(old(View()), report)
      ensures lastReport
           == "command " + FormatInt(report.id) + (if report.ok then " ok: " else " failed: ") + report.message
    {
      ReportLineMeaning(report);
      var status := "failed";
      if report.ok {
        status := "ok";
      }
      lastReport := "command " + (FormatInt(report.id) + (" " + (status + (": " + report.message))));
    }

    method HandleIndex() returns (shown: ServerState)
      ensures shown == View()
    {
      shown := ServerState(commandID, target, lastReport);
    }
  }

  /** What the world does to one turn of the client's loop. */
  datatype Round =
    | PollFailed
    | Answered(response: PollResponse, link: Link, now: string, reportArrives: bool)

  /** What the client's loop carries or leaves behind. */
  datatype ClientState = ClientState(lastID: int, lastWake: string, wire: seq<Datagram>, posted: set<Report>)

  function AfterRound(devices: seq<Device>, c: ClientState, round: Round): ClientState {
    match round
    case PollFailed => c
    case Answered(r, link, now, arrives) =>
      if !IsWake(r, c.lastID) then c else
      var o := RelayOutcome(devices, c.lastWake, r.target, link, now);
      ClientState(r.commandID, o.lastWake, c.wire + o.frames,
                  if arrives then c.posted + {ReportOf(r.commandID, o.reply)} else c.posted)
  }

  function AfterRounds(devices: seq<Device>, c: ClientState, rounds: seq<Round>): ClientState {
    if rounds == [] then c else
    AfterRound(devices, AfterRounds(devices, c, rounds[..|rounds| - 1]), rounds[|rounds| - 1])
  }

  /** Rounds take effect one after the other, each on what the ones before it left. */
  lemma {:induction false} RoundsMeaning(devices: seq<Device>, c: ClientState, a: seq<Round>, b: seq<Round>)
    ensures AfterRounds(devices, c, a + b) == AfterRounds(devices, AfterRounds(devices, c, a), b)
    ensures |b| == 1 ==> AfterRounds(devices, c, b) == AfterRound(devices, c, b[0])
  {
    if b == [] {
      assert a + b == a;
    } else {
      var n := |b| - 1;
      assert (a + b)[..|a + b| - 1] == a + b[..n];
      RoundsMeaning(devices, c, a, b[..n]);
    }
  }

  /**
   What a turn does.  It executes exactly a wake command newer than the last, as a wake of its words
   in the relay's name, puts that wake's packets on the wire and its record in place, reports it as
   ok exactly when it went through, and moves on to its id whether or not the report arrives.
   */
  lemma RoundMeaning(devices: seq<Device>, c: ClientState, r: PollResponse, link: Link, now: string, arrives: bool)
    ensures var t := AfterRound(devices, c, Answered(r, link, now, arrives));
            if r.command != "wake" || r.commandID <= c.lastID then t == c else
            var words := if Fields(r.target) == [] then ["all"] else Fields(r.target);
            var o := WakeOutcome(devices, c.lastWake, words, Source("selfhost", "relay", "server"), link, now);
            && t.lastID == r.commandID && t.lastWake == o.lastWake && t.wire == c.wire + o.frames
            && t.posted == c.posted + if arrives then {Report(r.commandID, o.reply.Woke?, Text(o.reply))} else {}
  {
    RelayOutcomeIsWake(devices, c.lastWake, r.target, link, now);
    var o := RelayOutcome(devices, c.lastWake, r.target, link, now);
    AcceptedMark(o.reply);
  }

  /** internal/selfhost/client.go: the endless loop, over any finite stretch of rounds. */
  class Client {
    const handler: Handler
    const lan: Lan
    var posted: set<Report>

    constructor (handler: Handler, lan: Lan)
      ensures this.handler == handler && this.lan == lan && posted == {}
    {
      this.handler := handler;
      this.lan := lan;
      posted := {};
    }

    method Report(id: int, reply: Reply, arrives: bool)
      modifies this`posted
      ensures posted == if arrives then old(posted) + {ReportOf(id, reply)} else old(posted)
    {
      var message := Text(reply);
      var ok := !HasPrefix(message, "❌") && !HasPrefix(message, "未知");
      if arrives {
        posted := posted + {Relay.Report(id, ok, message)};
      }
    }

    /** One turn: `lastID` advances past an executed command whether or not its report arrives. */
    method Turn(lastID: int, round: Round) returns (next: int)
      modifies this`posted, handler`lastWake, lan
      ensures ClientState(next, handler.lastWake, lan.wire, posted)
           == AfterRound(handler.devices, ClientState(lastID, old(handler.lastWake), old(lan.wire), old(posted)), round)
    {
      next := lastID;
      if round.Answered? && round.response.command == "wake" && round.response.commandID > lastID {
        var target := TrimSpace(round.response.target);
        if target == "" {
          target := "all";
        }
        var reply := handler.Handle("/on " + target, Source("selfhost", "relay", "server"), lan, round.link, round.now);
        Report(round.response.commandID, reply, round.reportArrives);
        next := round.response.commandID;
      }
    }

    method Run(rounds: seq<Round>) returns (lastID: int)
      modifies this`posted, handler`lastWake, lan
      ensures ClientState(lastID, handler.lastWake, lan.wire, posted)
           == AfterRounds(handler.devices, ClientState(0, old(handler.lastWake), old(lan.wire), old(posted)), rounds)
    {
      lastID := 0;
      ghost var start := ClientState(0, handler.lastWake, lan.wire, posted);
      for i := 0 to |rounds|
        invariant ClientState(lastID, handler.lastWake, lan.wire, posted)
               == AfterRounds(handler.devices, start, rounds[..i])
      {
        assert rounds[..i + 1][..i] == rounds[..i];
        lastID := Turn(lastID, rounds[i]);
      }
      assert rounds[..|rounds|] == rounds;
    }
  }

  // ---------- a round of the loop, in steps of the system ----------

  function ClientOf(s: State): ClientState {
    ClientState(s.lastID, s.lastWake, s.wire, s.sent)
  }

  ghost predicate Next(s: State, step: Step, t: State) {
    Enabled(s, step) && t == Apply(s, step)
  }

  /** An answer that brings no new command ends the round as it found things. */
  lemma EmptyRoundIsStep(s: State, link: Link, now: string, arrives: bool)
    requires s.logs != [] && s.pc.Waiting? && s.pc.answer.Some? && !IsWake(s.pc.answer.value.response, s.lastID)
    ensures Next(s, Deliver, s.(pc := Idle))
    ensures AfterRound(s.devices, ClientOf(s), Answered(s.pc.answer.value.response, link, now, arrives)) == ClientOf(s)
  {
  }

  /** The state in which a round of execution `x` ends. */
  function RoundEnd(s: State, x: Execution, arrives: bool): State {
    var executed := AfterExecute(s, x);
    var posted := if arrives then executed.(sent := executed.sent + {x.report}) else executed;
    posted.(lastID := x.report.id, pc := Idle)
  }

  lemma DeliveringRoundIsStep(s: State)
    requires s.logs != [] && s.pc.Waiting? && s.pc.answer.Some? && IsWake(s.pc.answer.value.response, s.lastID)
    ensures Next(s, Deliver, AfterDeliver(s)) && AfterDeliver(s).pc == Holding(s.pc.answer.value)
  {
  }

  lemma ExecutingRoundIsStep(s: State, link: Link, now: string, x: Execution)
    requires s.logs != [] && s.pc.Holding? && x == RunOf(s, link, now, None)
    ensures Next(s, Execute(link, now), AfterExecute(s, x))
  {
    assert Enabled(s, Execute(link, now));
    assert Apply(s, Execute(link, now)) == AfterExecute(s, x);
  }

  lemma ReportedRoundIsSteps(s: State, x: Execution, arrives: bool)
    requires s.logs != [] && s.pc == Reporting(x.report)
    ensures arrives ==> Next(s, PostReport, s.(sent := s.sent + {x.report}))
    ensures var posted := if arrives then s.(sent := s.sent + {x.report}) else s;
            Next(posted, FinishRound, posted.(lastID := x.report.id, pc := Idle))
  {
  }

  /** The path of an executing round has the effect of the loop's turn: the loop refines the system. */
  lemma ExecutingRoundEffect(s: State, link: Link, now: string, arrives: bool)
    requires s.pc.Waiting? && s.pc.answer.Some? && IsWake(s.pc.answer.value.response, s.lastID)
    ensures ClientOf(RoundEnd(AfterDeliver(s), RunOf(AfterDeliver(s), link, now, None), arrives))
         == AfterRound(s.devices, ClientOf(s), Answered(s.pc.answer.value.response, link, now, arrives))
  {
    var r := s.pc.answer.value.response;
    var o := RelayOutcome(s.devices, s.lastWake, r.target, link, now);
    var x := RunOf(AfterDeliver(s), link, now, None);
    assert x.outcome == o && x.report == ReportOf(r.commandID, o.reply) && x.cut == None;
    RoundEndEffect(AfterDeliver(s), x, arrives);
  }

  lemma RoundEndEffect(s: State, x: Execution, arrives: bool)
    requires x.cut.None?
    ensures ClientOf(RoundEnd(s, x, arrives))
         == ClientState(x.report.id, x.outcome.lastWake, s.wire + x.outcome.frames,
                        if arrives then s.sent + {x.report} else s.sent)
  {
  }

  ghost predicate Path(states: seq<State>, steps: seq<Step>) {
    |states| == |steps| + 1 && forall i | 0 <= i < |steps| :: Next(states[i], steps[i], states[i + 1])
  }

  lemma PathGrows(states: seq<State>, steps: seq<Step>, step: Step, t: State)
    requires Path(states, steps) && Next(states[|steps|], step, t)
    ensures Path(states + [t], steps + [step])
  {
    var ss, pp := states + [t], steps + [step];
    forall i | 0 <= i < |pp| ensures Next(ss[i], pp[i], ss[i + 1]) {
      if i < |steps| {
        assert Next(states[i], steps[i], states[i + 1]);
      }
    }
  }

  /** From the moment an answer is on its way, the rest of a turn extends the path to an idle client. */
  lemma AnsweredTurnIsPath(states: seq<State>, steps: seq<Step>, link: Link, now: string, arrives: bool)
    returns (later: seq<State>, more: seq<Step>)
    requires Path(states, steps)
    requires var s := states[|steps|]; s.logs != [] && s.pc.Waiting? && s.pc.answer.Some?
    ensures Path(later, more) && later[0] == states[0] && later[|more|].pc == Idle
    ensures var s := states[|steps|];
            ClientOf(later[|more|])
            == AfterRound(s.devices, ClientOf(s), Answered(s.pc.answer.value.response, link, now, arrives))
  {
    var s := states[|steps|];
    later, more := states, steps;
    if IsWake(s.pc.answer.value.response, s.lastID) {
      DeliveringRoundIsStep(s);
      var held := AfterDeliver(s);
      PathGrows(later, more, Deliver, held);
      later, more := later + [held], more + [Deliver];
      var x := RunOf(held, link, now, None);
      ExecutingRoundIsStep(held, link, now, x);
      var executed := AfterExecute(held, x);
      PathGrows(later, more, Execute(link, now), executed);
      later, more := later + [executed], more + [Execute(link, now)];
      ReportedRoundIsSteps(executed, x, arrives);
      if arrives {
        var posted := executed.(sent := executed.sent + {x.report});
        PathGrows(later, more, PostReport, posted);
        later, more := later + [posted], more + [PostReport];
      }
      var end := RoundEnd(held, x, arrives);
      PathGrows(later, more, FinishRound, end);
      later, more := later + [end], more + [FinishRound];
      ExecutingRoundEffect(s, link, now, arrives);
    } else {
      EmptyRoundIsStep(s, link, now, arrives);
      PathGrows(later, more, Deliver, s.(pc := Idle));
      later, more := later + [s.(pc := Idle)], more + [Deliver];
    }
  }

  /**
   The loop refines the system: a turn of the loop, from sending the poll on and whatever becomes of
   it, is a path of steps from an idle client to an idle client, with the same effect on `lastID`,
   the record, the wire and the reports.
   */
  lemma TurnIsPath(s: State, round: Round) returns (states: seq<State>, steps: seq<Step>)
    requires s.logs != [] && s.pc == Idle
    requires round.Answered? ==> round.response == PollAnswer(s.server, FormatInt(s.lastID))
    ensures Path(states, steps) && states[0] == s && states[|steps|].pc == Idle
    ensures ClientOf(states[|steps|]) == AfterRound(s.devices, ClientOf(s), round)
  {
    var polled := s.(pc := Waiting(None));
    PathGrows([s], [], StartPoll, polled);
    states, steps := [s] + [polled], [] + [StartPoll];
    if round.PollFailed? {
      PathGrows(states, steps, PollFails, s);
      states, steps := states + [s], steps + [PollFails];
    } else {
      var served := AfterServe(polled, round.response);
      PathGrows(states, steps, ServePoll, served);
      states, steps := states + [served], steps + [ServePoll];
      states, steps := AnsweredTurnIsPath(states, steps, round.link, round.now, round.reportArrives);
    }
  }
}
