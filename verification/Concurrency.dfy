/**
 Several front ends calling the one handler at the same time.  Sending is not
 under the lock, so packets of different calls interleave; writing the last-wake
 record and reading it each happen in one step under the lock.
 */
module Concurrency {
  import opened Wrappers
  import opened GoStrings
  import opened Config
  import opened Wol
  import opened Router
  import opened Commands

  datatype CallState =
    | Started(call: Call, source: Source)
    | Sending(args: seq<string>, source: Source, chosen: seq<Device>, next: nat)
    | Done(reply: Reply)

  /** What an observer of the handler sees: packets, records written, records read. */
  datatype Event =
    | Sent(caller: nat, frame: Datagram)
    | Recorded(caller: nat, args: seq<string>, source: Source, now: string, chosen: seq<Device>)
    | Read(caller: nat, record: string)

  datatype State = State(devices: seq<Device>, lastWake: string, calls: map<nat, CallState>, history: seq<Event>)

  ghost predicate Init(s: State) {
    s.lastWake == "" && s.calls == map[] && s.history == []
  }

  datatype Step =
    | Begin(caller: nat, text: string, source: Source)
    | Resolve(caller: nat)                              // a wake command: resolve its targets
    | ReadLast(caller: nat)                             // /last, under the lock
    | Reply(caller: nat)                                // any other command
    | Send(caller: nat, failure: Option<string>)        // the next packet
    | Record(caller: nat, now: string)                  // recordLast, under the lock

  predicate IsCommand(c: CallState, name: string) {
    c.Started? && c.call.Call? && ToLower(c.call.command) == name
  }

  ghost predicate Enabled(s: State, step: Step) {
    match step
    case Begin(k, _, _) => k !in s.calls
    case Resolve(k) => k in s.calls && IsCommand(s.calls[k], "/on")
    case ReadLast(k) => k in s.calls && IsCommand(s.calls[k], "/last")
    case Reply(k) =>
      k in s.calls && s.calls[k].Started? && !IsCommand(s.calls[k], "/on") && !IsCommand(s.calls[k], "/last")
    case Send(k, _) => k in s.calls && s.calls[k].Sending? && s.calls[k].next < |s.calls[k].chosen|
    case Record(k, _) => k in s.calls && s.calls[k].Sending? && s.calls[k].next == |s.calls[k].chosen|
  }

  function Moved(s: State, k: nat, c: CallState): State {
    s.(calls := s.calls[k := c])
  }

  function Logged(s: State, e: Event): State {
    s.(history := s.history + [e])
  }

  function Resolved(s: State, args: seq<string>, source: Source): CallState {
    match Commands.Resolve(s.devices, args)
    case Err(e) => Done(Failed(ResolveErrorText(s.devices, e)))
    case Ok(_) => Sending(args, source, Chosen(s.devices, args), 0)
  }

  ghost function Apply(s: State, step: Step): State
    requires Enabled(s, step)
  {
    match step
    case Begin(k, text, source) => Moved(s, k, Started(CallOf(text), source))
    case Resolve(k) => Moved(s, k, Resolved(s, s.calls[k].call.args, s.calls[k].source))
    case ReadLast(k) => Logged(Moved(s, k, Done(Last(s.lastWake))), Read(k, s.lastWake))
    case Reply(k) =>
      var c := s.calls[k];
      Moved(s, k, Done(Perform(s.devices, s.lastWake, c.call, c.source, _ => None, "").reply))
    case Send(k, failure) => AfterSend(s, k, s.calls[k], failure)
    case Record(k, now) => AfterRecord(s, k, s.calls[k], now)
  }

  function AfterSend(s: State, k: nat, c: CallState, failure: Option<string>): State
    requires c.Sending? && c.next < |c.chosen|
  {
    var d := c.chosen[c.next];
    if Delivers(d, failure) then Logged(Moved(s, k, c.(next := c.next + 1)), Sent(k, DeviceFrame(d)))
    else Moved(s, k, Done(Failed("发送开机指令失败：" + DeviceError(d, failure))))
  }

  function AfterRecord(s: State, k: nat, c: CallState, now: string): State
    requires c.Sending?
  {
    var t := Logged(Moved(s, k, Done(Woke(c.chosen))), Recorded(k, c.args, c.source, now, c.chosen));
    t.(lastWake := RecordOf(s.devices, c.args, c.source, now))
  }

  function RecordOf(devices: seq<Device>, args: seq<string>, source: Source, now: string): (r: string)
    ensures r != ""
  {
    RecordText(now, source, if Commands.Resolve(devices, args).Ok? then LabelOf(devices, args) else "")
  }

  ghost predicate Behavior(states: seq<State>, steps: seq<Step>) {
    && |states| == |steps| + 1 && Init(states[0])
    && forall i | 0 <= i < |steps| :: Enabled(states[i], steps[i]) && states[i + 1] == Apply(states[i], steps[i])
  }

  // ---------- what the history tells ----------

  /** The record of the latest writing, "" when there was none. */
  function LatestRecord(devices: seq<Device>, history: seq<Event>): string {
    if history == [] then "" else
    var e := history[|history| - 1];
    if e.Recorded? then RecordOf(devices, e.args, e.source, e.now) else LatestRecord(devices, history[..|history| - 1])
  }

  /** The packets one caller has put on the wire, in order. */
  function FramesBy(history: seq<Event>, k: nat): seq<Datagram> {
    if history == [] then [] else
    var e := history[|history| - 1];
    FramesBy(history[..|history| - 1], k) + if e.Sent? && e.caller == k then [e.frame] else []
  }

  function Frames(devices: seq<Device>): (r: seq<Datagram>)
    ensures |r| == |devices|
  {
    seq(|devices|, i requires 0 <= i < |devices| => DeviceFrame(devices[i]))
  }

  /** A record read was the latest one written before; a record written was of a wake all of whose packets had left. */
  ghost predicate Truthful(devices: seq<Device>, history: seq<Event>, p: nat)
    requires p < |history|
  {
    match history[p]
    case Sent(_, _) => true
    case Read(_, record) => record == LatestRecord(devices, history[..p])
    case Recorded(k, args, _, _, chosen) =>
      && Commands.Resolve(devices, args).Ok? && chosen == Chosen(devices, args)
      && FramesBy(history[..p], k) == Frames(chosen)
  }

  ghost predicate CallInv(s: State, k: nat, c: CallState) {
    match c
    case Started(_, _) => FramesBy(s.history, k) == []
    case Sending(args, _, chosen, next) =>
      && Commands.Resolve(s.devices, args).Ok? && chosen == Chosen(s.devices, args)
      && next <= |chosen| && FramesBy(s.history, k) == Frames(chosen)[..next]
    case Done(_) => true
  }

  ghost predicate Inv(s: State) {
    && s.lastWake == LatestRecord(s.devices, s.history)
    && (forall k | k in s.calls :: CallInv(s, k, s.calls[k]))
    && (forall k: nat | k !in s.calls :: FramesBy(s.history, k) == [])
    && (forall p | 0 <= p < |s.history| :: Truthful(s.devices, s.history, p))
  }

  lemma HistoryGrows(devices: seq<Device>, history: seq<Event>, e: Event)
    ensures LatestRecord(devices, history + [e])
         == if e.Recorded? then RecordOf(devices, e.args, e.source, e.now) else LatestRecord(devices, history)
    ensures forall k ::
              FramesBy(history + [e], k) == FramesBy(history, k) + if e.Sent? && e.caller == k then [e.frame] else []
  {
    assert (history + [e])[..|history|] == history;
  }

  lemma TruthStays(devices: seq<Device>, history: seq<Event>, e: Event)
    requires forall p | 0 <= p < |history| :: Truthful(devices, history, p)
    requires Truthful(devices, history + [e], |history|)
    ensures forall p | 0 <= p < |history + [e]| :: Truthful(devices, history + [e], p)
  {
    forall p | 0 <= p < |history| ensures Truthful(devices, history + [e], p) {
      assert (history + [e])[..p] == history[..p];
      assert Truthful(devices, history, p);
    }
  }

  lemma MoveKeepsInv(s: State, k: nat, c: CallState)
    requires Inv(s) && CallInv(s, k, c)
    ensures Inv(Moved(s, k, c))
  {
    var t := Moved(s, k, c);
    forall j | j in t.calls ensures CallInv(t, j, t.calls[j]) {
      assert j != k ==> CallInv(s, j, s.calls[j]);
    }
  }

  /** A step that logs an event other than a packet keeps every other call where it was. */
  lemma LogKeepsCalls(s: State, e: Event)
    requires Inv(s) && !e.Sent?
    ensures var t := Logged(s, e);
            && (forall k | k in t.calls :: CallInv(t, k, t.calls[k]))
            && (forall k: nat | k !in t.calls :: FramesBy(t.history, k) == [])
  {
    HistoryGrows(s.devices, s.history, e);
    var t := Logged(s, e);
    forall k | k in t.calls ensures CallInv(t, k, t.calls[k]) {
      assert CallInv(s, k, s.calls[k]);
    }
  }

  lemma ReadKeepsInv(s: State, k: nat)
    requires Inv(s) && k in s.calls
    ensures Inv(Logged(Moved(s, k, Done(Last(s.lastWake))), Read(k, s.lastWake)))
  {
    var m := Moved(s, k, Done(Last(s.lastWake)));
    MoveKeepsInv(s, k, Done(Last(s.lastWake)));
    var e := Read(k, s.lastWake);
    LogKeepsCalls(m, e);
    HistoryGrows(s.devices, s.history, e);
    assert (s.history + [e])[..|s.history|] == s.history;
    TruthStays(s.devices, s.history, e);
  }

  lemma RecordKeepsInv(s: State, k: nat, now: string)
    requires Inv(s) && k in s.calls && s.calls[k].Sending? && s.calls[k].next == |s.calls[k].chosen|
    ensures Inv(AfterRecord(s, k, s.calls[k], now))
  {
    var c := s.calls[k];
    assert CallInv(s, k, c);
    assert Frames(c.chosen)[..c.next] == Frames(c.chosen);
    var m := Moved(s, k, Done(Woke(c.chosen)));
    MoveKeepsInv(s, k, Done(Woke(c.chosen)));
    var e := Recorded(k, c.args, c.source, now, c.chosen);
    LogKeepsCalls(m, e);
    HistoryGrows(s.devices, s.history, e);
    assert (s.history + [e])[..|s.history|] == s.history;
    TruthStays(s.devices, s.history, e);
    var l := Logged(m, e);
    var t := AfterRecord(s, k, c, now);
    forall j | j in t.calls ensures CallInv(t, j, t.calls[j]) {
      assert CallInv(l, j, l.calls[j]);
    }
  }

  lemma FramesByGrows(history: seq<Event>, e: Event, k: nat)
    ensures FramesBy(history + [e], k) == FramesBy(history, k) + if e.Sent? && e.caller == k then [e.frame] else []
  {
    assert (history + [e])[..|history|] == history;
  }

  lemma FramesNext(chosen: seq<Device>, n: nat)
    requires n < |chosen|
    ensures Frames(chosen)[..n + 1] == Frames(chosen)[..n] + [DeviceFrame(chosen[n])]
  {
  }

  /** A packet of caller `k` leaves every other call where it was. */
  lemma SentPacketKeepsOther(s: State, k: nat, j: nat, c: CallState, frame: Datagram)
    requires CallInv(s, j, c) && j != k
    ensures CallInv(Logged(s, Sent(k, frame)), j, c)
  {
    FramesByGrows(s.history, Sent(k, frame), j);
  }

  /** It moves its own call on. */
  lemma SentPacketAdvances(s: State, k: nat, c: CallState)
    requires CallInv(s, k, c) && c.Sending? && c.next < |c.chosen|
    ensures CallInv(Logged(s, Sent(k, DeviceFrame(c.chosen[c.next]))), k, c.(next := c.next + 1))
  {
    FramesByGrows(s.history, Sent(k, DeviceFrame(c.chosen[c.next])), k);
    FramesNext(c.chosen, c.next);
  }

  lemma CallInvReadsHistory(s: State, t: State, j: nat, c: CallState)
    requires CallInv(s, j, c) && t.devices == s.devices && t.history == s.history
    ensures CallInv(t, j, c)
  {
  }

  lemma SentPacketKeepsCalls(s: State, t: State, k: nat)
    requires Inv(s) && k in s.calls && s.calls[k].Sending? && s.calls[k].next < |s.calls[k].chosen|
    requires t == Logged(Moved(s, k, s.calls[k].(next := s.calls[k].next + 1)),
                         Sent(k, DeviceFrame(s.calls[k].chosen[s.calls[k].next])))
    ensures forall j | j in t.calls :: CallInv(t, j, t.calls[j])
  {
    var frame := DeviceFrame(s.calls[k].chosen[s.calls[k].next]);
    forall j | j in t.calls ensures CallInv(t, j, t.calls[j]) {
      assert CallInv(s, j, s.calls[j]);
      if j == k {
        SentPacketAdvances(s, k, s.calls[k]);
      } else {
        SentPacketKeepsOther(s, k, j, s.calls[j], frame);
      }
      CallInvReadsHistory(Logged(s, Sent(k, frame)), t, j, t.calls[j]);
    }
  }

  lemma SentPacketKeepsOutsiders(s: State, t: State, k: nat, frame: Datagram)
    requires Inv(s) && k in s.calls && t.calls.Keys == s.calls.Keys && t.history == s.history + [Sent(k, frame)]
    ensures forall j: nat | j !in t.calls :: FramesBy(t.history, j) == []
  {
    forall j: nat | j !in t.calls ensures FramesBy(t.history, j) == [] {
      FramesByGrows(s.history, Sent(k, frame), j);
    }
  }

  lemma SentPacketKeepsInv(s: State, k: nat, frame: Datagram)
    requires Inv(s) && k in s.calls && s.calls[k].Sending? && s.calls[k].next < |s.calls[k].chosen|
    requires frame == DeviceFrame(s.calls[k].chosen[s.calls[k].next])
    ensures Inv(Logged(Moved(s, k, s.calls[k].(next := s.calls[k].next + 1)), Sent(k, frame)))
  {
    var e := Sent(k, frame);
    var t := Logged(Moved(s, k, s.calls[k].(next := s.calls[k].next + 1)), e);
    assert forall j | j in t.calls :: CallInv(t, j, t.calls[j]) by {
      SentPacketKeepsCalls(s, t, k);
    }
    assert forall j: nat | j !in t.calls :: FramesBy(t.history, j) == [] by {
      SentPacketKeepsOutsiders(s, t, k, frame);
    }
    assert forall p | 0 <= p < |t.history| :: Truthful(t.devices, t.history, p) by {
      TruthStays(s.devices, s.history, e);
    }
    assert t.lastWake == LatestRecord(t.devices, t.history) by {
      HistoryGrows(s.devices, s.history, e);
    }
  }

  lemma SendKeepsInv(s: State, k: nat, failure: Option<string>)
    requires Inv(s) && k in s.calls && s.calls[k].Sending? && s.calls[k].next < |s.calls[k].chosen|
    ensures Inv(AfterSend(s, k, s.calls[k], failure))
  {
    var c := s.calls[k];
    var d := c.chosen[c.next];
    if Delivers(d, failure) {
      SentPacketKeepsInv(s, k, DeviceFrame(d));
    } else {
      MoveKeepsInv(s, k, Done(Failed("发送开机指令失败：" + DeviceError(d, failure))));
    }
  }

  lemma BeginKeepsInv(s: State, k: nat, c: CallState)
    requires Inv(s) && k !in s.calls && c.Started?
    ensures Inv(Moved(s, k, c))
  {
    MoveKeepsInv(s, k, c);
  }

  lemma ResolveKeepsInv(s: State, k: nat, args: seq<string>, source: Source)
    requires Inv(s) && k in s.calls && s.calls[k].Started?
    ensures Inv(Moved(s, k, Resolved(s, args, source)))
  {
    assert CallInv(s, k, s.calls[k]);
    MoveKeepsInv(s, k, Resolved(s, args, source));
  }

  lemma StepKeepsInv(s: State, step: Step)
    requires Inv(s) && Enabled(s, step)
    ensures Inv(Apply(s, step))
  {
    match step
    case Begin(k, text, source) => BeginKeepsInv(s, k, Started(CallOf(text), source));
    case Resolve(k) => ResolveKeepsInv(s, k, s.calls[k].call.args, s.calls[k].source);
    case ReadLast(k) => ReadKeepsInv(s, k);
    case Reply(k) =>
      MoveKeepsInv(s, k, Done(Perform(s.devices, s.lastWake, s.calls[k].call, s.calls[k].source, _ => None, "").reply));
    case Send(k, failure) => SendKeepsInv(s, k, failure);
    case Record(k, now) => RecordKeepsInv(s, k, now);
  }

  lemma InitInv(s: State)
    requires Init(s)
    ensures Inv(s)
  {
  }

  lemma {:induction false} BehaviorInv(states: seq<State>, steps: seq<Step>, i: nat)
    requires Behavior(states, steps) && i < |states|
    ensures Inv(states[i])
  {
    if i == 0 {
      InitInv(states[0]);
    } else {
      BehaviorInv(states, steps, i - 1);
      StepKeepsInv(states[i - 1], steps[i - 1]);
    }
  }

  lemma {:induction false} NoRecordMeansNone(devices: seq<Device>, history: seq<Event>)
    ensures LatestRecord(devices, history) == "" <==> forall p | 0 <= p < |history| :: !history[p].Recorded?
  {
    if history != [] {
      var n := |history| - 1;
      NoRecordMeansNone(devices, history[..n]);
      assert forall p | 0 <= p < n :: history[..n][p] == history[p];
    }
  }

  /**
   /last tells the truth under any interleaving: it shows no record exactly when none had been
   written, and otherwise the latest one.
   */
  lemma LastShowsLatestRecord(states: seq<State>, steps: seq<Step>, i: nat, p: nat)
    requires Behavior(states, steps) && i < |states| && p < |states[i].history| && states[i].history[p].Read?
    ensures var h := states[i].history;
            && h[p].record == LatestRecord(states[i].devices, h[..p])
            && (h[p].record == "" <==> forall q | 0 <= q < p :: !h[q].Recorded?)
  {
    BehaviorInv(states, steps, i);
    var h := states[i].history;
    assert Truthful(states[i].devices, h, p);
    NoRecordMeansNone(states[i].devices, h[..p]);
    assert forall q | 0 <= q < p :: h[..p][q] == h[q];
  }

  /** A record is only ever written of a wake that put the packets of all its devices on the wire before. */
  lemma RecordsFollowCompleteWakes(states: seq<State>, steps: seq<Step>, i: nat, p: nat)
    requires Behavior(states, steps) && i < |states| && p < |states[i].history| && states[i].history[p].Recorded?
    ensures var e := states[i].history[p];
            && Commands.Resolve(states[i].devices, e.args).Ok? && e.chosen == Chosen(states[i].devices, e.args)
            && FramesBy(states[i].history[..p], e.caller) == Frames(e.chosen)
  {
    BehaviorInv(states, steps, i);
    assert Truthful(states[i].devices, states[i].history, p);
  }

  // ---------- one call, in steps of the system ----------

  ghost predicate Next(s: State, step: Step, t: State) {
    Enabled(s, step) && t == Apply(s, step)
  }

  ghost predicate Path(states: seq<State>, steps: seq<Step>) {
    |states| == |steps| + 1 && forall i | 0 <= i < |steps| :: Next(states[i], steps[i], states[i + 1])
  }

  lemma PathGrows(states: seq<State>, steps: seq<Step>, step: Step, t: State)
    requires Path(states, steps) && Next(states[|steps|], step, t)
    ensures Path(states + [t], steps + [step])
  {
    var ss, pp := states + [t], steps + [step];
    forall i | 0 <= i < |pp| ensures Next(ss[i], pp[i], ss[i + 1]) {
      if i < |steps| {
        assert Next(states[i], steps[i], states[i + 1]);
      }
    }
  }

  /** Caller `k` went from `s` to `t` alone: it is at `c`, has sent `frames`, and the record is `lastWake`. */
  ghost predicate Alone(s: State, t: State, k: nat, c: CallState, frames: seq<Datagram>, lastWake: string) {
    && t.devices == s.devices && t.calls == s.calls[k := c] && t.lastWake == lastWake
    && FramesBy(t.history, k) == FramesBy(s.history, k) + frames
  }

  lemma AloneAndOn(s: State, t: State, u: State, k: nat, c: CallState, d: CallState,
                   frames: seq<Datagram>, n: nat, lastWake: string)
    requires n < |frames|
    requires Alone(s, t, k, c, [frames[n]], lastWake) && Alone(t, u, k, d, frames[n + 1..], lastWake)
    ensures Alone(s, u, k, d, frames[n..], lastWake)
  {
    assert frames[n..] == [frames[n]] + frames[n + 1..];
  }

  /** Where sending leaves a call. */
  function SendingEnd(c: CallState, link: Link): CallState
    requires c.Sending?
  {
    match SendWoLError(c.chosen, link)
    case Some(e) => Done(Failed("发送开机指令失败：" + e))
    case None => c.(next := |c.chosen|)
  }

  /** Call `c` of caller `k` is sending, with no packet lost so far. */
  ghost predicate OnItsWay(s: State, k: nat, c: CallState, link: Link) {
    k in s.calls && s.calls[k] == c && c.Sending? && c.next <= FirstFailure(c.chosen, link, 0)
  }

  lemma DeliveredStep(s: State, k: nat, c: CallState, link: Link)
    requires OnItsWay(s, k, c, link) && c.next < FirstFailure(c.chosen, link, 0)
    ensures var t := AfterSend(s, k, c, link(c.next));
            && Next(s, Send(k, link(c.next)), t)
            && Alone(s, t, k, c.(next := c.next + 1), [FramesBeforeFailure(c.chosen, link)[c.next]], s.lastWake)
            && OnItsWay(t, k, c.(next := c.next + 1), link)
  {
    FirstFailureIsFirst(c.chosen, link, 0);
    FramesByGrows(s.history, Sent(k, DeviceFrame(c.chosen[c.next])), k);
  }

  lemma FailingStep(s: State, k: nat, c: CallState, link: Link)
    requires OnItsWay(s, k, c, link) && c.next == FirstFailure(c.chosen, link, 0) < |c.chosen|
    ensures var t := AfterSend(s, k, c, link(c.next));
            Next(s, Send(k, link(c.next)), t) && Alone(s, t, k, SendingEnd(c, link), [], s.lastWake)
  {
    FirstFailureIsFirst(c.chosen, link, 0);
  }

  /** One turn of the sending loop extends the path. */
  lemma SendNext(states: seq<State>, steps: seq<Step>, k: nat, c: CallState, link: Link)
    returns (later: seq<State>, more: seq<Step>)
    requires Path(states, steps) && OnItsWay(states[|steps|], k, c, link) && c.next < FirstFailure(c.chosen, link, 0)
    ensures Path(later, more) && later[0] == states[0] && OnItsWay(later[|more|], k, c.(next := c.next + 1), link)
    ensures Alone(states[|steps|], later[|more|], k, c.(next := c.next + 1),
                  [FramesBeforeFailure(c.chosen, link)[c.next]], states[|steps|].lastWake)
  {
    DeliveredStep(states[|steps|], k, c, link);
    var t := AfterSend(states[|steps|], k, c, link(c.next));
    PathGrows(states, steps, Send(k, link(c.next)), t);
    later, more := states + [t], steps + [Send(k, link(c.next))];
  }

  /** So does its last turn, if it fails. */
  lemma SendLast(states: seq<State>, steps: seq<Step>, k: nat, c: CallState, link: Link)
    returns (later: seq<State>, more: seq<Step>)
    requires Path(states, steps) && OnItsWay(states[|steps|], k, c, link) && c.next == FirstFailure(c.chosen, link, 0)
    ensures Path(later, more) && later[0] == states[0]
    ensures Alone(states[|steps|], later[|more|], k, SendingEnd(c, link), [], states[|steps|].lastWake)
  {
    later, more := states, steps;
    if c.next < |c.chosen| {
      FailingStep(states[|steps|], k, c, link);
      var t := AfterSend(states[|steps|], k, c, link(c.next));
      PathGrows(states, steps, Send(k, link(c.next)), t);
      later, more := states + [t], steps + [Send(k, link(c.next))];
    }
  }

  /** The sending loop is a path of Send steps. */
  lemma {:induction false} SendingIsPath(states: seq<State>, steps: seq<Step>, k: nat, c: CallState, link: Link)
    returns (later: seq<State>, more: seq<Step>)
    requires Path(states, steps) && OnItsWay(states[|steps|], k, c, link)
    ensures Path(later, more) && later[0] == states[0]
    ensures Alone(states[|steps|], later[|more|], k, SendingEnd(c, link),
                  FramesBeforeFailure(c.chosen, link)[c.next..], states[|steps|].lastWake)
    decreases FirstFailure(c.chosen, link, 0) - c.next
  {
    var s, n, frames := states[|steps|], c.next, FramesBeforeFailure(c.chosen, link);
    if n < |frames| {
      var on := c.(next := n + 1);
      later, more := SendNext(states, steps, k, c, link);
      var t := later[|more|];
      later, more := SendingIsPath(later, more, k, on, link);
      AloneAndOn(s, t, later[|more|], k, on, SendingEnd(on, link), frames, n, s.lastWake);
    } else {
      later, more := SendLast(states, steps, k, c, link);
    }
  }

  lemma RecordStep(s: State, k: nat, now: string)
    requires k in s.calls && s.calls[k].Sending? && s.calls[k].next == |s.calls[k].chosen|
    ensures var c := s.calls[k];
            var t := AfterRecord(s, k, c, now);
            Next(s, Record(k, now), t)
            && Alone(s, t, k, Done(Woke(c.chosen)), [], RecordOf(s.devices, c.args, c.source, now))
  {
    var c := s.calls[k];
    FramesByGrows(s.history, Recorded(k, c.args, c.source, now, c.chosen), k);
  }

  lemma ResolveStep(s: State, k: nat)
    requires k in s.calls && IsCommand(s.calls[k], "/on")
    ensures var c := Resolved(s, s.calls[k].call.args, s.calls[k].source);
            Next(s, Resolve(k), Moved(s, k, c)) && Alone(s, Moved(s, k, c), k, c, [], s.lastWake)
  {
  }

  /** A wake, from resolving its targets to writing the record, is a path with the outcome of the wake. */
  lemma WakeIsPath(states: seq<State>, steps: seq<Step>, k: nat, link: Link, now: string)
    returns (later: seq<State>, more: seq<Step>)
    requires Path(states, steps)
    requires k in states[|steps|].calls && IsCommand(states[|steps|].calls[k], "/on")
    ensures Path(later, more) && later[0] == states[0]
    ensures var s := states[|steps|];
            var o := WakeOutcome(s.devices, s.lastWake, s.calls[k].call.args, s.calls[k].source, link, now);
            Alone(s, later[|more|], k, Done(o.reply), o.frames, o.lastWake)
  {
    var s := states[|steps|];
    var args, source := s.calls[k].call.args, s.calls[k].source;
    ResolveStep(s, k);
    var t := Moved(s, k, Resolved(s, args, source));
    PathGrows(states, steps, Resolve(k), t);
    later, more := states + [t], steps + [Resolve(k)];
    if Commands.Resolve(s.devices, args).Ok? {
      var chosen := Chosen(s.devices, args);
      ResolveSelectsFirstOccurrences(s.devices, args);
      later, more := SendingIsPath(later, more, k, Sending(args, source, chosen, 0), link);
      assert FramesBeforeFailure(chosen, link)[0..] == FramesBeforeFailure(chosen, link);
      var u := later[|more|];
      if SendWoLError(chosen, link).None? {
        RecordStep(u, k, now);
        var v := AfterRecord(u, k, u.calls[k], now);
        PathGrows(later, more, Record(k, now), v);
        later, more := later + [v], more + [Record(k, now)];
      }
    }
  }

  /** /last and the commands that touch nothing take one step. */
  lemma OtherStep(s: State, k: nat, link: Link, now: string) returns (step: Step, t: State)
    requires k in s.calls && s.calls[k].Started? && !IsCommand(s.calls[k], "/on")
    ensures Next(s, step, t)
    ensures var o := Perform(s.devices, s.lastWake, s.calls[k].call, s.calls[k].source, link, now);
            Alone(s, t, k, Done(o.reply), o.frames, o.lastWake)
  {
    var c := s.calls[k];
    if IsCommand(c, "/last") {
      step, t := ReadLast(k), Logged(Moved(s, k, Done(Last(s.lastWake))), Read(k, s.lastWake));
      FramesByGrows(s.history, Read(k, s.lastWake), k);
    } else {
      step := Reply(k);
      t := Moved(s, k, Done(Perform(s.devices, s.lastWake, c.call, c.source, _ => None, "").reply));
    }
  }

  /**
   The steps are those of the handler: a call that nobody interrupts is a path from its beginning to
   its reply, with the reply, the packets and the record that `Handler.Handle` gives.
   */
  lemma HandleIsPath(s: State, k: nat, text: string, source: Source, link: Link, now: string)
    returns (states: seq<State>, steps: seq<Step>)
    requires k !in s.calls
    ensures Path(states, steps) && states[0] == s
    ensures var o := HandleOutcome(s.devices, s.lastWake, text, source, link, now);
            Alone(s, states[|steps|], k, Done(o.reply), o.frames, o.lastWake)
  {
    var begun := Moved(s, k, Started(CallOf(text), source));
    PathGrows([s], [], Begin(k, text, source), begun);
    states, steps := [s] + [begun], [] + [Begin(k, text, source)];
    if IsCommand(begun.calls[k], "/on") {
      states, steps := WakeIsPath(states, steps, k, link, now);
    } else {
      var step, t := OtherStep(begun, k, link, now);
      PathGrows(states, steps, step, t);
      states, steps := states + [t], steps + [step];
    }
  }
}
