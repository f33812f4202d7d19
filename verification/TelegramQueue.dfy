/**
 The bot against the remote queue of section "Getting updates" of the Telegram
 Bot API: a call confirms everything below its offset, and answers with an
 ascending batch, at most 100 long, of the pending updates from there on.  The
 bot may be restarted at any moment, also with a batch half dispatched.
 */
module TelegramQueue {
  import opened Telegram

  const BATCH_LIMIT: nat := 100

  // ---------- positions in an ascending sequence of updates ----------

  ghost predicate Ascending(updates: seq<Update>) {
    && (forall i | 0 <= i < |updates| :: updates[i].id >= 1)
    && (forall i, j | 0 <= i < j < |updates| :: updates[i].id < updates[j].id)
  }

  /** How many updates have an id below `bound`; they come first. */
  function Below(updates: seq<Update>, bound: int): (n: nat)
    ensures n <= |updates|
  {
    BelowAmong(updates, |updates|, bound)
  }

  function BelowAmong(updates: seq<Update>, n: nat, bound: int): (k: nat)
    requires n <= |updates|
    ensures k <= n
  {
    if n == 0 || updates[n - 1].id < bound then n else BelowAmong(updates, n - 1, bound)
  }

  lemma {:induction false} BelowAmongSplits(updates: seq<Update>, n: nat, bound: int)
    requires Ascending(updates) && n <= |updates|
    ensures forall i | 0 <= i < n :: i < BelowAmong(updates, n, bound) <==> updates[i].id < bound
  {
    if n > 0 {
      BelowAmongSplits(updates, n - 1, bound);
    }
  }

  lemma BelowSplits(updates: seq<Update>, bound: int)
    requires Ascending(updates)
    ensures forall i | 0 <= i < |updates| :: i < Below(updates, bound) <==> updates[i].id < bound
  {
    BelowAmongSplits(updates, |updates|, bound);
  }

  lemma BelowIs(updates: seq<Update>, bound: int, n: nat)
    requires Ascending(updates) && n <= |updates|
    requires n > 0 ==> updates[n - 1].id < bound
    requires n < |updates| ==> updates[n].id >= bound
    ensures Below(updates, bound) == n
  {
    BelowSplits(updates, bound);
    var k := Below(updates, bound);
    assert n > 0 ==> n - 1 < k;
    assert n < |updates| ==> !(n < k);
  }

  lemma BelowGrows(updates: seq<Update>, u: Update, bound: int)
    requires Ascending(updates + [u]) && u.id >= bound
    ensures Ascending(updates) && Below(updates + [u], bound) == Below(updates, bound)
  {
    var longer := updates + [u];
    assert forall i | 0 <= i < |updates| :: longer[i] == updates[i];
    assert longer[|updates|] == u;
    BelowSplits(updates, bound);
    BelowIs(longer, bound, Below(updates, bound));
  }

  lemma BelowMonotone(all: seq<Update>, a: int, b: int)
    requires Ascending(all) && a <= b
    ensures Below(all, a) <= Below(all, b)
  {
    BelowSplits(all, a);
    BelowSplits(all, b);
    assert Below(all, a) > 0 ==> all[Below(all, a) - 1].id < b;
  }

  /** Just past the update at a position. */
  lemma BelowNext(all: seq<Update>, p: nat)
    requires Ascending(all) && p < |all|
    ensures Below(all, all[p].id) == p && Below(all, all[p].id + 1) == p + 1
    ensures all[p].id + 1 <= Top(all)
  {
    BelowIs(all, all[p].id, p);
    BelowIs(all, all[p].id + 1, p + 1);
  }

  /** One past the newest id. */
  function Top(all: seq<Update>): int {
    if all == [] then 0 else all[|all| - 1].id + 1
  }

  /** The updates with ids in [from, to). */
  function Window(all: seq<Update>, from: int, to: int): seq<Update> {
    Slice(all, Below(all, from), Below(all, to))
  }

  function Slice<T>(all: seq<T>, a: nat, b: nat): seq<T>
    requires b <= |all|
  {
    if a <= b then all[a..b] else []
  }

  lemma WindowGrows(all: seq<Update>, u: Update, from: int, to: int)
    requires Ascending(all + [u]) && u.id >= from && u.id >= to
    ensures Window(all + [u], from, to) == Window(all, from, to)
  {
    BelowGrows(all, u, from);
    BelowGrows(all, u, to);
  }

  lemma WindowMeaning(all: seq<Update>, from: int, to: int)
    requires Ascending(all)
    ensures forall u :: u in Window(all, from, to) <==> u in all && from <= u.id < to
  {
    var a, b := Below(all, from), Below(all, to);
    BelowSplits(all, from);
    BelowSplits(all, to);
    forall u | u in all && from <= u.id < to ensures u in Window(all, from, to) {
      var k :| 0 <= k < |all| && all[k] == u;
      assert all[a..b][k - a] == u;
    }
  }

  // ---------- the joint state ----------

  /** `batch`: what is left to dispatch of the answer at hand. */
  datatype Phase = Dropping | Polling | Dispatching(batch: seq<Update>)

  /**
   `all`: every update that ever arrived.  `confirmed`: the remote bound below which nothing is
   served any more.  `start`: where the present life of the bot began to dispatch.
   `handled`, `ever`: the updates dispatched in this life, and in all lives.
   */
  datatype State = State(all: seq<Update>, confirmed: int, phase: Phase, offset: int, start: int,
                         handled: seq<Update>, ever: seq<Update>)

  ghost predicate Init(s: State) {
    s == State([], 0, Dropping, 0, 0, [], [])
  }

  function Max(a: int, b: int): int {
    if a > b then a else b
  }

  /** What the remote would answer from, for a call with this offset. */
  function Pending(s: State, offset: int): seq<Update> {
    s.all[Below(s.all, Max(offset, s.confirmed))..]
  }

  datatype Step =
    | Arrive(u: Update)
    | SkipDrop                   // dropping switched off, or its call failed
    | Drop(n: nat)               // the drop call returned n updates
    | Poll(n: nat)               // a poll returned n updates
    | PollFails(reached: bool)   // a failed poll; the remote may have seen it
    | Dispatch                   // the next update of the batch
    | Restart                    // the process dies and starts anew

  ghost predicate Enabled(s: State, step: Step) {
    match step
    case Arrive(u) => u.id >= 1 && forall i | 0 <= i < |s.all| :: s.all[i].id < u.id
    case SkipDrop => s.phase == Dropping
    case Drop(n) => s.phase == Dropping && n <= |Pending(s, 0)| && n <= BATCH_LIMIT
    case Poll(n) => s.phase == Polling && n <= |Pending(s, s.offset)| && n <= BATCH_LIMIT
    case PollFails(_) => s.phase == Polling
    case Dispatch => s.phase.Dispatching? && s.phase.batch != []
    case Restart => true
  }

  function AfterDrop(s: State, batch: seq<Update>): State {
    var offset := OffsetAfter(0, batch);
    s.(phase := Polling, offset := offset, start := Max(offset, s.confirmed))
  }

  function PhaseWith(batch: seq<Update>): Phase {
    if batch == [] then Polling else Dispatching(batch)
  }

  function AfterPoll(s: State, batch: seq<Update>): State {
    s.(confirmed := Max(s.offset, s.confirmed), phase := PhaseWith(batch))
  }

  function AfterDispatch(s: State): State
    requires s.phase.Dispatching? && s.phase.batch != []
  {
    var u := s.phase.batch[0];
    s.(phase := PhaseWith(s.phase.batch[1..]), offset := Bump(s.offset, u),
       handled := s.handled + [u], ever := s.ever + [u])
  }

  ghost function Apply(s: State, step: Step): State
    requires Enabled(s, step)
  {
    match step
    case Arrive(u) => s.(all := s.all + [u])
    case SkipDrop => s.(phase := Polling, start := Max(0, s.confirmed))
    case Drop(n) => AfterDrop(s, Pending(s, 0)[..n])
    case Poll(n) => AfterPoll(s, Pending(s, s.offset)[..n])
    case PollFails(reached) => if reached then s.(confirmed := Max(s.offset, s.confirmed)) else s
    case Dispatch => AfterDispatch(s)
    case Restart => s.(phase := Dropping, offset := 0, start := 0, handled := [])
  }

  /** A run: any steps, in any order. */
  ghost predicate Behavior(states: seq<State>, steps: seq<Step>) {
    && |states| == |steps| + 1 && Init(states[0])
    && forall i | 0 <= i < |steps| :: Enabled(states[i], steps[i]) && states[i + 1] == Apply(states[i], steps[i])
  }

  lemma BehaviorGrows(states: seq<State>, steps: seq<Step>, step: Step, t: State)
    requires Behavior(states, steps) && Enabled(states[|steps|], step) && t == Apply(states[|steps|], step)
    ensures Behavior(states + [t], steps + [step])
  {
  }

  // ---------- the invariant ----------

  /** The bound of what this life has dealt with. */
  function Cursor(s: State): int {
    Max(s.offset, s.start)
  }

  /** The batch at hand is what comes next. */
  ghost predicate BatchInv(s: State) {
    s.phase.Dispatching? ==>
      var batch, c := s.phase.batch, Below(s.all, Cursor(s));
      batch != [] && c + |batch| <= |s.all| && batch == s.all[c..c + |batch|]
  }

  ghost predicate Inv(s: State) {
    && Ascending(s.all)
    && 0 <= s.confirmed <= Top(s.all) && 0 <= s.offset <= Top(s.all) && 0 <= s.start <= Top(s.all)
    && (s.phase.Dropping? ==> s.offset == 0 && s.start == 0)
    && (!s.phase.Dropping? ==> s.confirmed <= Cursor(s) && (s.offset < s.start ==> s.confirmed == s.start))
    && s.handled == Window(s.all, s.start, s.offset)
    && BatchInv(s)
  }

  /** Dispatching stopped at the cursor. */
  lemma HandledEndsAtCursor(s: State)
    requires Inv(s) && !s.phase.Dropping?
    ensures Max(s.offset, s.confirmed) == Cursor(s)
    ensures Below(s.all, s.start) <= Below(s.all, Cursor(s))
    ensures s.handled == Slice(s.all, Below(s.all, s.start), Below(s.all, Cursor(s)))
  {
    BelowMonotone(s.all, s.start, Cursor(s));
    BelowMonotone(s.all, s.offset, Cursor(s));
  }

  lemma ArriveKeeps(s: State, u: Update)
    requires Inv(s) && Enabled(s, Arrive(u))
    ensures Inv(s.(all := s.all + [u]))
  {
    WindowGrows(s.all, u, s.start, s.offset);
    BelowGrows(s.all, u, Cursor(s));
  }

  /** A batch served from `bound` moves the offset just past its last element. */
  lemma OffsetAfterBatch(all: seq<Update>, bound: int, n: nat)
    requires Ascending(all) && 0 <= bound && Below(all, bound) + n <= |all|
    ensures var from := Below(all, bound);
            var o := OffsetAfter(0, all[from..from + n]);
            && (n == 0 ==> o == 0)
            && (n > 0 ==> bound < o <= Top(all) && Below(all, o) == from + n)
  {
    var from := Below(all, bound);
    var batch := all[from..from + n];
    OffsetAfterIsMax(0, batch);
    if n > 0 {
      var last := all[from + n - 1];
      BelowSplits(all, bound);
      assert batch[n - 1] == last;
      assert IsOffsetAfter(0, batch, last.id + 1);
      BelowNext(all, from + n - 1);
    }
  }

  /** After the drop call, dispatching starts just past the batch it brought. */
  lemma DropStarts(s: State, n: nat)
    requires Inv(s) && Enabled(s, Drop(n))
    ensures var t := Apply(s, Drop(n)); Inv(t) && Below(s.all, t.start) == Below(s.all, s.confirmed) + n
  {
    var t := Apply(s, Drop(n));
    OffsetAfterBatch(s.all, s.confirmed, n);
    assert Pending(s, 0)[..n] == s.all[Below(s.all, s.confirmed)..Below(s.all, s.confirmed) + n];
    BelowMonotone(s.all, t.offset, t.start);
  }

  lemma SkipDropStarts(s: State)
    requires Inv(s) && s.phase.Dropping?
    ensures var t := Apply(s, SkipDrop); Inv(t) && t.start == s.confirmed
  {
    BelowMonotone(s.all, 0, s.confirmed);
  }

  /** A poll is served from exactly where dispatching stopped. */
  lemma PollContinues(s: State, n: nat)
    requires Inv(s) && Enabled(s, Poll(n))
    ensures var t, c := Apply(s, Poll(n)), Below(s.all, Cursor(s));
            && Inv(t) && t.confirmed == Cursor(s) == Cursor(t)
            && c + n <= |s.all| && t.phase == PhaseWith(s.all[c..c + n])
  {
    HandledEndsAtCursor(s);
    var c := Below(s.all, Cursor(s));
    assert Pending(s, s.offset)[..n] == s.all[c..c + n];
  }

  lemma PollFailsKeeps(s: State, reached: bool)
    requires Inv(s) && s.phase.Polling?
    ensures Inv(Apply(s, PollFails(reached)))
  {
    HandledEndsAtCursor(s);
  }

  /** The dispatched update is the one at the cursor, and the cursor moves just past it. */
  lemma DispatchMoves(s: State)
    requires Inv(s) && Enabled(s, Dispatch)
    ensures var t, c := AfterDispatch(s), Below(s.all, Cursor(s));
            && s.phase.batch[0] == s.all[c] && s.all[c].id >= Cursor(s)
            && t.offset == s.all[c].id + 1 == Cursor(t) <= Top(s.all) && Below(s.all, Cursor(t)) == c + 1
  {
    BelowSplits(s.all, Cursor(s));
    BelowNext(s.all, Below(s.all, Cursor(s)));
  }

  lemma BatchAfterDispatch(s: State)
    requires Inv(s) && Enabled(s, Dispatch)
    ensures BatchInv(AfterDispatch(s))
  {
    var c := Below(s.all, Cursor(s));
    DispatchMoves(s);
    assert s.phase.batch[1..] == s.all[c + 1..c + |s.phase.batch|];
  }

  lemma DispatchKeeps(s: State)
    requires Inv(s) && Enabled(s, Dispatch)
    ensures Inv(AfterDispatch(s))
  {
    var t, a, c := AfterDispatch(s), Below(s.all, s.start), Below(s.all, Cursor(s));
    BatchAfterDispatch(s);
    DispatchMoves(s);
    assert t.handled == Window(t.all, t.start, t.offset) by {
      HandledEndsAtCursor(s);
      assert Slice(s.all, a, c) + [s.all[c]] == Slice(s.all, a, c + 1);
    }
  }

  lemma StepKeepsInv(s: State, step: Step)
    requires Inv(s) && Enabled(s, step)
    ensures Inv(Apply(s, step))
  {
    match step
    case Arrive(u) => ArriveKeeps(s, u);
    case SkipDrop => SkipDropStarts(s);
    case Drop(n) => DropStarts(s, n);
    case Poll(n) => PollContinues(s, n);
    case PollFails(reached) => PollFailsKeeps(s, reached);
    case Dispatch => DispatchKeeps(s);
    case Restart =>
  }

  lemma {:induction false} BehaviorInv(states: seq<State>, steps: seq<Step>, i: nat)
    requires Behavior(states, steps) && i < |states|
    ensures Inv(states[i])
  {
    if i > 0 {
      BehaviorInv(states, steps, i - 1);
      StepKeepsInv(states[i - 1], steps[i - 1]);
    }
  }

  // ---------- within one life ----------

  /**
   Exactly once: at every moment of every run, also inside a batch, the updates dispatched in the
   present life are, in order and without repetition, those whose ids lie in [start, offset).
   */
  lemma ExactlyOncePerLife(states: seq<State>, steps: seq<Step>, i: nat)
    requires Behavior(states, steps) && i < |states|
    ensures var s := states[i];
            && (forall u :: u in s.handled <==> u in s.all && s.start <= u.id < s.offset)
            && (forall a, b | 0 <= a < b < |s.handled| :: s.handled[a].id < s.handled[b].id)
  {
    BehaviorInv(states, steps, i);
    WindowMeaning(states[i].all, states[i].start, states[i].offset);
  }

  /** A failed poll loses nothing and repeats nothing: the next batch is what it would have been. */
  lemma FailedPollIsHarmless(s: State, reached: bool)
    requires Inv(s) && s.phase.Polling?
    ensures var t := Apply(s, PollFails(reached));
            && t.handled == s.handled && t.offset == s.offset
            && Pending(t, t.offset) == Pending(s, s.offset)
  {
  }

  /** The state once the batch at hand is dispatched, with the effect `Bot.Consume` has. */
  function Finished(s: State): State {
    if !s.phase.Dispatching? then s else
    var batch := s.phase.batch;
    s.(phase := Polling, offset := OffsetAfter(s.offset, batch), handled := s.handled + batch, ever := s.ever + batch)
  }

  lemma FinishedOneByOne(s: State)
    requires s.phase.Dispatching? && s.phase.batch != []
    ensures Finished(AfterDispatch(s)) == Finished(s)
  {
    var u, rest := s.phase.batch[0], s.phase.batch[1..];
    assert s.phase.batch == [u] + rest;
    assert s.handled + s.phase.batch == s.handled + [u] + rest;
    assert s.ever + s.phase.batch == s.ever + [u] + rest;
    OffsetAfterAppend(s.offset, [u], rest);
    assert [u][..0] == [];
  }

  /** The dispatching loop is a path of steps. */
  lemma {:induction false} BatchIsPath(states: seq<State>, steps: seq<Step>)
    returns (later: seq<State>, more: seq<Step>)
    requires Behavior(states, steps)
    ensures Behavior(later, more) && steps <= more
    ensures later[|more|] == Finished(states[|steps|])
    decreases if states[|steps|].phase.Dispatching? then |states[|steps|].phase.batch| else 0
  {
    var s := states[|steps|];
    later, more := states, steps;
    if s.phase.Dispatching? {
      BehaviorInv(states, steps, |steps|);
      BehaviorGrows(states, steps, Dispatch, AfterDispatch(s));
      FinishedOneByOne(s);
      later, more := BatchIsPath(states + [AfterDispatch(s)], steps + [Dispatch]);
    }
  }
}
