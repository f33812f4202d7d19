/**
 The self-hosted relay (internal/selfhost/server.go and client.go) as a
 transition system: one server, one client, and a network that loses requests
 and answers and hands over reports late, repeatedly or never.  Both sides may
 restart, and the client may die in the middle of a wake.
 */
module Relay {
  import opened Wrappers
  import opened GoStrings
  import opened Decimal
  import opened Config
  import opened Wol
  import opened Commands

  // ---------- the server's side ----------

  function NormalizeTarget(target: string): string {
    var t := TrimSpace(target);
    if t == "" then "all" else t
  }

  /** The client normalises what the server already normalised, to no effect. */
  lemma NormalizeTargetIdempotent(target: string)
    ensures NormalizeTarget(NormalizeTarget(target)) == NormalizeTarget(target)
    ensures NormalizeTarget(target) != ""
  {
    TrimSpaceIdempotent(target);
    assert !IsSpace("all"[0]) && !IsSpace("all"[2]);
  }

  /** The words a queued text stands for: its fields, or "all" when it has none. */
  function TargetWords(raw: string): seq<string> {
    if Fields(raw) == [] then ["all"] else Fields(raw)
  }

  /** What is kept of a queued text: the trimmed text, or "all" when it is blank; either has the same words. */
  lemma NormalizeTargetMeaning(raw: string)
    ensures NormalizeTarget(raw) == if Fields(raw) == [] then "all" else TrimSpace(raw)
    ensures Fields(NormalizeTarget(raw)) == TargetWords(raw) == TargetWords(NormalizeTarget(raw))
  {
    BlankHasNoFields(raw);
    FieldsTrimSpace(raw);
    FieldsOfWord("all");
  }

  datatype PollResponse = PollResponse(commandID: int, command: string, target: string)

  const NOTHING := PollResponse(0, "", "")

  datatype Report = Report(id: int, ok: bool, message: string)

  function ReportLine(r: Report): string {
    "command " + (FormatInt(r.id) + (" " + ((if r.ok then "ok" else "failed") + (": " + r.message))))
  }

  datatype ServerState = ServerState(commandID: int, target: string, lastReport: string)

  const FRESH_SERVER := ServerState(0, "", "")

  /** `commandID++` on an int64. */
  function NextID(id: int): int {
    if id == MAX_INT64 then MIN_INT64 else id + 1
  }

  function AfterQueue(sv: ServerState, target: string): ServerState {
    sv.(commandID := NextID(sv.commandID), target := NormalizeTarget(target))
  }

  /** The answer to a poll, which carries the client's last id as text. */
  function PollAnswer(sv: ServerState, lastIDText: string): PollResponse {
    if sv.commandID > ParseIntValue(lastIDText) then PollResponse(sv.commandID, "wake", sv.target) else NOTHING
  }

  /** The answer as if the server had been handed the number itself. */
  function Answer(sv: ServerState, lastID: int): PollResponse {
    if sv.commandID > lastID then PollResponse(sv.commandID, "wake", sv.target) else NOTHING
  }

  /** The id survives its trip as text: the server compares the very id the client held. */
  lemma PollComparesHeldID(sv: ServerState, lastID: int)
    requires IsInt64(lastID)
    ensures PollAnswer(sv, FormatInt(lastID)) == Answer(sv, lastID)
  {
    ParseOfFormat(lastID);
  }

  function AfterReport(sv: ServerState, r: Report): ServerState {
    sv.(lastReport := ReportLine(r))
  }

  /** A report line shows the id and the outcome it was made from. */
  lemma ReportLineShowsIdAndOutcome(a: Report, b: Report)
    requires ReportLine(a) == ReportLine(b)
    ensures a.id == b.id && a.ok == b.ok
  {
    var ra, rb := ReportRest(a), ReportRest(b);
    assert ReportLine(a)[8..] == FormatInt(a.id) + ([' '] + ra);
    assert ReportLine(b)[8..] == FormatInt(b.id) + ([' '] + rb);
    SplitAtFirstSpace(FormatInt(a.id), ra, FormatInt(b.id), rb);
    FormatIntInjective(a.id, b.id);
    assert ra[0] == (if a.ok then "ok" else "failed")[0];
    assert rb[0] == (if b.ok then "ok" else "failed")[0];
  }

  /** The page shows the id, the outcome and the message of a report, in this order. */
  lemma ReportLineMeaning(r: Report)
    ensures ReportLine(r) == "command " + FormatInt(r.id) + (if r.ok then " ok: " else " failed: ") + r.message
    ensures "command " + FormatInt(r.id) + " ok: " <= ReportLine(r) <==> r.ok
    ensures "command " + FormatInt(r.id) + " failed: " <= ReportLine(r) <==> !r.ok
  {
    var head := "command " + FormatInt(r.id);
    var ok, failed := head + " ok: ", head + " failed: ";
    var line := if r.ok then ok + r.message else failed + r.message;
    assert ReportLine(r) == line by {
      assert " " + ((if r.ok then "ok" else "failed") + (": " + r.message))
          == (if r.ok then " ok: " else " failed: ") + r.message;
    }
    assert ok[|head| + 1] == 'o' && failed[|head| + 1] == 'f';
  }

  function ReportRest(r: Report): string {
    (if r.ok then "ok" else "failed") + (": " + r.message)
  }

  lemma SplitAtFirstSpace(a: string, ra: string, b: string, rb: string)
    requires ' ' !in a && ' ' !in b && a + ([' '] + ra) == b + ([' '] + rb)
    ensures a == b && ra == rb
  {
    var s := a + ([' '] + ra);
    assert s[|a|] == ' ' && s[|b|] == ' ';
    assert forall i | 0 <= i < |a| :: s[i] == a[i];
    assert forall i | 0 <= i < |b| :: s[i] == b[i];
    assert s[..|a|] == a && s[..|b|] == b;
    assert s[|a| + 1..] == ra && s[|b| + 1..] == rb;
  }

  // ---------- the client's side ----------

  predicate IsWake(r: PollResponse, lastID: int) {
    r.command == "wake" && r.commandID > lastID
  }

  const RELAY_SOURCE := Source("selfhost", "relay", "server")

  function CommandText(target: string): string {
    "/on " + NormalizeTarget(target)
  }

  function RelayOutcome(devices: seq<Device>, lastWake: string, target: string, link: Link, now: string): Outcome {
    HandleOutcome(devices, lastWake, CommandText(target), RELAY_SOURCE, link, now)
  }

  /** Whatever the target, the client asks the handler to wake its words, in the relay's name. */
  lemma RelayOutcomeIsWake(devices: seq<Device>, lastWake: string, target: string, link: Link, now: string)
    ensures RelayOutcome(devices, lastWake, target, link, now)
         == WakeOutcome(devices, lastWake, TargetWords(target), Source("selfhost", "relay", "server"), link, now)
  {
    var text := NormalizeTarget(target);
    assert CommandText(target) == "/on" + [' '] + text;
    FieldsAcrossSpace("/on", ' ', text);
    FieldsOfWord("/on");
    NormalizeTargetMeaning(target);
    assert IsBeforeAt("/on", "/on");
    HandleMeaning(devices, lastWake, CommandText(target), RELAY_SOURCE, link, now, "/on");
  }

  function ReportOf(id: int, reply: Reply): Report {
    Report(id, Accepted(Text(reply)), Text(reply))
  }

  // ---------- the joint state ----------

  /**
   One execution of a command.  Stamps: the client life it ran in; the server life that served the
   poll, and how many commands had been queued in it by then.  `cut`: None when it ran to its end,
   otherwise how many datagrams had left when the client died.
   */
  datatype Execution = Execution(life: nat, epoch: nat, served: nat, id: int, target: string,
                                 devices: seq<Device>, lastWake: string, link: Link, now: string,
                                 outcome: Outcome, report: Report, cut: Option<nat>)

  /** An answer on its way, stamped with the server life and queue length it was served at. */
  datatype Stamped = Stamped(epoch: nat, served: nat, response: PollResponse)

  datatype Pc =
    | Idle
    | Waiting(answer: Option<Stamped>)
    | Holding(held: Stamped)
    | Reporting(report: Report)

  /**
   `logs`: the targets queued, one log per server life, in order.  `runs`: every execution so far.
   `sent`: the reports handed to the network.  `wire`: the datagrams on the LAN.
   */
  datatype State = State(
    devices: seq<Device>, server: ServerState, logs: seq<seq<string>>,
    lastID: int, pc: Pc, lastWake: string, life: nat,
    runs: seq<Execution>, sent: set<Report>, wire: seq<Datagram>)

  ghost predicate Init(s: State) {
    && s.server == FRESH_SERVER && s.logs == [[]]
    && s.lastID == 0 && s.pc == Idle && s.lastWake == "" && s.life == 0
    && s.runs == [] && s.sent == {} && s.wire == []
  }

  function Current(s: State): seq<string>
    requires s.logs != []
  {
    s.logs[|s.logs| - 1]
  }

  datatype Step =
    | Queue(target: string)
    | StartPoll
    | ServePoll
    | PollFails
    | Deliver
    | Execute(link: Link, now: string)
    | Die(link: Link, now: string, sentCount: nat)
    | PostReport
    | TakeReport(report: Report)
    | FinishRound
    | ClientRestart(devices: seq<Device>)
    | ServerRestart

  /** The counter's bound is out of reach; everything else is unrestricted. */
  ghost predicate Enabled(s: State, step: Step) {
    && s.logs != []
    && match step
       case Queue(_) => s.server.commandID < MAX_INT64
       case StartPoll => s.pc.Idle?
       case ServePoll => s.pc == Waiting(None)
       case PollFails => s.pc.Waiting?
       case Deliver => s.pc.Waiting? && s.pc.answer.Some?
       case Execute(_, _) => s.pc.Holding?
       case Die(_, _, _) => s.pc.Holding?
       case PostReport => s.pc.Reporting?
       case TakeReport(r) => r in s.sent
       case FinishRound => s.pc.Reporting?
       case ClientRestart(_) => true
       case ServerRestart => true
  }

  function AfterQueued(s: State, target: string): State
    requires s.logs != []
  {
    s.(server := AfterQueue(s.server, target),
       logs := s.logs[|s.logs| - 1 := Current(s) + [target]])
  }

  function AfterServe(s: State, response: PollResponse): State
    requires s.logs != []
  {
    s.(pc := Waiting(Some(Stamped(|s.logs| - 1, |Current(s)|, response))))
  }

  function AfterDeliver(s: State): State
    requires s.pc.Waiting? && s.pc.answer.Some?
  {
    var answer := s.pc.answer.value;
    s.(pc := if IsWake(answer.response, s.lastID) then Holding(answer) else Idle)
  }

  /** The execution a held answer leads to. */
  function RunOf(s: State, link: Link, now: string, cut: Option<nat>): Execution
    requires s.pc.Holding?
  {
    var answer := s.pc.held;
    var o := RelayOutcome(s.devices, s.lastWake, answer.response.target, link, now);
    Execution(s.life, answer.epoch, answer.served, answer.response.commandID, answer.response.target,
              s.devices, s.lastWake, link, now, o, ReportOf(answer.response.commandID, o.reply), cut)
  }

  /** All of them, or the first ones when the client died on the way. */
  function CutShort(frames: seq<Datagram>, cut: Option<nat>): seq<Datagram> {
    if cut.Some? && cut.value < |frames| then frames[..cut.value] else frames
  }

  function EmittedBy(x: Execution): seq<Datagram> {
    CutShort(x.outcome.frames, x.cut)
  }

  function AfterExecute(s: State, x: Execution): State {
    s.(pc := Reporting(x.report), lastWake := x.outcome.lastWake, runs := s.runs + [x], wire := s.wire + EmittedBy(x))
  }

  function AfterClientRestart(s: State, devices: seq<Device>): State {
    s.(devices := devices, lastID := 0, pc := Idle, lastWake := "", life := s.life + 1)
  }

  /** The client dies mid-wake: part of the datagrams left, the record and the report did not. */
  function AfterDeath(s: State, x: Execution): State {
    AfterClientRestart(s.(runs := s.runs + [x], wire := s.wire + EmittedBy(x)), s.devices)
  }

  ghost function Apply(s: State, step: Step): State
    requires Enabled(s, step)
  {
    match step
    case Queue(target) => AfterQueued(s, target)
    case StartPoll => s.(pc := Waiting(None))
    case ServePoll => AfterServe(s, PollAnswer(s.server, FormatInt(s.lastID)))
    case PollFails => s.(pc := Idle)
    case Deliver => AfterDeliver(s)
    case Execute(link, now) => AfterExecute(s, RunOf(s, link, now, None))
    case Die(link, now, n) => AfterDeath(s, RunOf(s, link, now, Some(n)))
    case PostReport => s.(sent := s.sent + {s.pc.report})
    case TakeReport(r) => s.(server := AfterReport(s.server, r))
    case FinishRound => s.(lastID := s.pc.report.id, pc := Idle)
    case ClientRestart(devices) => AfterClientRestart(s, devices)
    case ServerRestart => s.(server := FRESH_SERVER, logs := s.logs + [[]])
  }

  /** A run of the system: any steps, in any interleaving. */
  ghost predicate Behavior(states: seq<State>, steps: seq<Step>) {
    && |states| == |steps| + 1 && Init(states[0])
    && forall i | 0 <= i < |steps| :: Enabled(states[i], steps[i]) && states[i + 1] == Apply(states[i], steps[i])
  }
}
