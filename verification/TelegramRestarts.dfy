/**
 What restarts of the Telegram bot repeat and what they lose: exact conditions,
 over all runs.
 */
module TelegramRestarts {
  import opened Wrappers
  import opened Telegram
  import opened TelegramQueue

  /** The bound every dispatched update is below, in whatever life. */
  function Reach(s: State): int {
    OffsetAfter(0, s.ever)
  }

  /** The updates dispatched in some life and still served by the remote. */
  function Unconfirmed(s: State): seq<Update> {
    Window(s.all, s.confirmed, Reach(s))
  }

  /** From position `from` up to position `to` everything was dispatched, in some life. */
  ghost predicate Dispatched(s: State, from: nat, to: nat)
    requires to <= |s.all|
  {
    forall p | from <= p < to :: s.all[p] in s.ever
  }

  /** Whatever the remote still serves was dispatched up to the reach, and at most one batch of it. */
  ghost predicate EverInv(s: State) {
    var c, m := Below(s.all, s.confirmed), Below(s.all, Reach(s));
    && 0 <= Reach(s) <= Top(s.all)
    && (forall a | 0 <= a < |s.ever| :: s.ever[a] in s.all)
    && Dispatched(s, c, m)
    && m <= c + BATCH_LIMIT
    && (s.phase.Dispatching? ==>
          var at := Below(s.all, Cursor(s)); at + |s.phase.batch| <= c + BATCH_LIMIT && at <= (if m > c then m else c))
  }

  lemma ReachOneMore(s: State)
    requires s.phase.Dispatching? && s.phase.batch != []
    ensures Reach(AfterDispatch(s)) == Bump(Reach(s), s.phase.batch[0])
  {
    assert (s.ever + [s.phase.batch[0]])[..|s.ever|] == s.ever;
  }

  /** Dispatching the update at position `at` moves the reach there, if it was not yet beyond. */
  lemma ReachMoves(s: State, at: nat)
    requires Inv(s) && EverInv(s) && Enabled(s, Dispatch) && at == Below(s.all, Cursor(s))
    ensures var t, m := AfterDispatch(s), Below(s.all, Reach(s));
            && 0 <= Reach(t) <= Top(s.all)
            && Below(s.all, Reach(t)) == if at < m then m else at + 1
  {
    DispatchMoves(s);
    ReachOneMore(s);
    BelowSplits(s.all, Reach(s));
    BelowNext(s.all, at);
  }

  /** With the update at position `at` everything up to the new reach is dispatched. */
  lemma DispatchedOneMore(s: State, t: State, at: nat, c: nat, m: nat)
    requires at < |s.all| && m <= |s.all| && t.all == s.all && t.ever == s.ever + [s.all[at]]
    requires Dispatched(s, c, m) && (at < m || at == m || at == c)
    ensures Dispatched(t, c, if at < m then m else at + 1)
  {
    assert t.ever[|s.ever|] == s.all[at];
    forall p | c <= p < (if at < m then m else at + 1) ensures t.all[p] in t.ever {
      if p < m {
        assert s.all[p] in s.ever;
      }
    }
  }

  lemma DispatchedStayArrived(s: State, t: State, at: nat)
    requires at < |s.all| && t.all == s.all && t.ever == s.ever + [s.all[at]]
    requires forall a | 0 <= a < |s.ever| :: s.ever[a] in s.all
    ensures forall a | 0 <= a < |t.ever| :: t.ever[a] in t.all
  {
  }

  lemma DispatchKeepsEver(s: State)
    requires Inv(s) && EverInv(s) && Enabled(s, Dispatch)
    ensures EverInv(AfterDispatch(s))
  {
    var t, at := AfterDispatch(s), Below(s.all, Cursor(s));
    var c, m := Below(s.all, s.confirmed), Below(s.all, Reach(s));
    DispatchMoves(s);
    ReachMoves(s, at);
    BelowMonotone(s.all, s.confirmed, Cursor(s));
    DispatchedOneMore(s, t, at, c, m);
    DispatchedStayArrived(s, t, at);
  }

  lemma ArriveKeepsEver(s: State, u: Update)
    requires Inv(s) && EverInv(s) && Enabled(s, Arrive(u))
    ensures EverInv(s.(all := s.all + [u]))
  {
    var t := s.(all := s.all + [u]);
    BelowGrows(s.all, u, s.confirmed);
    BelowGrows(s.all, u, Reach(s));
    BelowGrows(s.all, u, Cursor(s));
    forall a | 0 <= a < |s.ever| ensures s.ever[a] in t.all {
      assert s.ever[a] in s.all;
    }
  }

  /** Confirming more takes nothing away. */
  lemma ConfirmKeepsEver(s: State, t: State)
    requires Inv(s) && EverInv(s)
    requires t.all == s.all && t.ever == s.ever && t.confirmed >= s.confirmed
    requires t.phase.Dispatching? ==>
               Below(t.all, Cursor(t)) == Below(t.all, t.confirmed) && |t.phase.batch| <= BATCH_LIMIT
    ensures EverInv(t)
  {
    BelowMonotone(s.all, s.confirmed, t.confirmed);
  }

  lemma PollKeepsEver(s: State, n: nat)
    requires Inv(s) && EverInv(s) && Enabled(s, Poll(n))
    ensures EverInv(AfterPoll(s, Pending(s, s.offset)[..n]))
  {
    PollContinues(s, n);
    ConfirmKeepsEver(s, AfterPoll(s, Pending(s, s.offset)[..n]));
  }

  lemma StepKeepsEver(s: State, step: Step)
    requires Inv(s) && EverInv(s) && Enabled(s, step)
    ensures EverInv(Apply(s, step))
  {
    match step
    case Arrive(u) => ArriveKeepsEver(s, u);
    case SkipDrop => ConfirmKeepsEver(s, s.(phase := Polling, start := Max(0, s.confirmed)));
    case Drop(n) => ConfirmKeepsEver(s, AfterDrop(s, Pending(s, 0)[..n]));
    case Poll(n) => PollKeepsEver(s, n);
    case PollFails(_) => ConfirmKeepsEver(s, s.(confirmed := Max(s.offset, s.confirmed)));
    case Dispatch => DispatchKeepsEver(s);
    case Restart => ConfirmKeepsEver(s, s.(phase := Dropping, offset := 0, start := 0, handled := []));
  }

  lemma {:induction false} BehaviorEver(states: seq<State>, steps: seq<Step>, i: nat)
    requires Behavior(states, steps) && i < |states|
    ensures Inv(states[i]) && EverInv(states[i])
  {
    BehaviorInv(states, steps, i);
    if i > 0 {
      BehaviorEver(states, steps, i - 1);
      StepKeepsEver(states[i - 1], steps[i - 1]);
    }
  }

  // ---------- what the drop call should skip ----------

  lemma EverBelowReach(s: State, u: Update)
    requires u in s.ever
    ensures u.id < Reach(s)
  {
    OffsetAfterIsMax(0, s.ever);
  }

  /** Of what the remote serves, exactly the updates up to the reach were dispatched before. */
  lemma ServedAgain(s: State, p: nat)
    requires Inv(s) && EverInv(s) && Below(s.all, s.confirmed) <= p < |s.all|
    ensures s.all[p] in s.ever <==> p < Below(s.all, Reach(s))
  {
    BelowSplits(s.all, Reach(s));
    if s.all[p] in s.ever {
      EverBelowReach(s, s.all[p]);
    }
  }

  /** `Unconfirmed` is what its name says, and fits in one answer of the remote. */
  lemma UnconfirmedMeaning(states: seq<State>, steps: seq<Step>, i: nat)
    requires Behavior(states, steps) && i < |states|
    ensures var s := states[i];
            && (forall u :: u in Unconfirmed(s) <==> u in s.ever && u.id >= s.confirmed)
            && |Unconfirmed(s)| <= BATCH_LIMIT && |Unconfirmed(s)| <= |Pending(s, 0)|
  {
    BehaviorEver(states, steps, i);
    var s := states[i];
    WindowMeaning(s.all, s.confirmed, Reach(s));
    BelowSplits(s.all, s.confirmed);
    forall u ensures u in Unconfirmed(s) <==> u in s.ever && u.id >= s.confirmed {
      if u in s.all && u.id >= s.confirmed {
        var p :| 0 <= p < |s.all| && s.all[p] == u;
        ServedAgain(s, p);
        BelowSplits(s.all, Reach(s));
      }
    }
  }

  /** Where the updates of `waiting` that are in `ever` are its first `n`. */
  lemma CutAt(waiting: seq<Update>, ever: seq<Update>, n: nat, d: nat)
    requires n <= |waiting| && d <= |waiting| && forall k | 0 <= k < |waiting| :: waiting[k] in ever <==> k < n
    ensures (exists u :: u in waiting[d..] && u in ever) <==> d < n
    ensures (exists u :: u in waiting[..d] && u !in ever) <==> d > n
  {
    if d < n {
      assert waiting[d..][0] == waiting[d];
    }
    if d > n {
      assert waiting[..d][n] == waiting[n];
    }
  }

  /**
   What a drop call may skip.  The updates the remote still serves begin with those dispatched
   before, and no other of them was: a drop call that brings `d` leaves some to be dispatched again
   exactly when `d` is smaller than their number, and discards some unseen exactly when it is larger.
   */
  lemma DropRepeatsOrLoses(states: seq<State>, steps: seq<Step>, i: nat)
    requires Behavior(states, steps) && i < |states|
    ensures var s, waiting := states[i], Pending(states[i], 0);
            && (forall k | 0 <= k < |waiting| :: waiting[k] in s.ever <==> k < |Unconfirmed(s)|)
            && (forall d | 0 <= d <= |waiting| ::
                  && ((exists u :: u in waiting[d..] && u in s.ever) <==> d < |Unconfirmed(s)|)
                  && ((exists u :: u in waiting[..d] && u !in s.ever) <==> d > |Unconfirmed(s)|))
  {
    BehaviorEver(states, steps, i);
    UnconfirmedMeaning(states, steps, i);
    var s, waiting, n := states[i], Pending(states[i], 0), |Unconfirmed(states[i])|;
    forall k | 0 <= k < |waiting| ensures waiting[k] in s.ever <==> k < n {
      ServedAgain(s, Below(s.all, s.confirmed) + k);
    }
    forall d | 0 <= d <= |waiting|
      ensures (exists u :: u in waiting[d..] && u in s.ever) <==> d < n
      ensures (exists u :: u in waiting[..d] && u !in s.ever) <==> d > n
    {
      CutAt(waiting, s.ever, n, d);
    }
  }

  /**
   The drop call skips one batch.  When it brought as much as one answer holds, everything that was
   waiting is skipped exactly when no more than that was waiting; otherwise the rest is dispatched.
   */
  lemma DropSkipsOneBatch(s: State, n: nat)
    requires Inv(s) && Enabled(s, Drop(n))
    ensures var t := Apply(s, Drop(n));
            && Pending(t, t.offset) == Pending(s, 0)[n..]
            && (FullAnswer(s, n) ==> (Pending(t, t.offset) == [] <==> |Pending(s, 0)| <= BATCH_LIMIT))
  {
    var t := Apply(s, Drop(n));
    DropStarts(s, n);
    HandledEndsAtCursor(t);
    var from := Below(s.all, s.confirmed);
    assert s.all[from..][n..] == s.all[from + n..];
  }

  /** As many updates as were waiting, or as one answer holds. */
  predicate FullAnswer(s: State, n: nat) {
    n == BATCH_LIMIT || n == |Pending(s, 0)|
  }

  lemma {:induction false} ManyArrive(k: nat) returns (states: seq<State>, steps: seq<Step>)
    ensures Behavior(states, steps)
    ensures var s := states[|steps|]; s == State(s.all, 0, Dropping, 0, 0, [], []) && |s.all| == k
    ensures forall i | 0 <= i < k :: states[|steps|].all[i].id == i + 1
  {
    if k == 0 {
      states, steps := [State([], 0, Dropping, 0, 0, [], [])], [];
    } else {
      states, steps := ManyArrive(k - 1);
      var s, u := states[|steps|], Update(k, None);
      BehaviorGrows(states, steps, Arrive(u), s.(all := s.all + [u]));
      states, steps := states + [s.(all := s.all + [u])], steps + [Arrive(u)];
    }
  }

  /** With more than 100 updates waiting, a drop call that succeeds in full leaves the rest to be dispatched. */
  lemma FullDropLeavesSome(k: nat) returns (states: seq<State>, steps: seq<Step>)
    requires k > BATCH_LIMIT
    ensures Behavior(states, steps) && |steps| > 0 && steps[|steps| - 1] == Drop(BATCH_LIMIT)
    ensures var t := states[|steps|]; |Pending(t, t.offset)| == k - BATCH_LIMIT
  {
    states, steps := ManyArrive(k);
    var s := states[|steps|];
    BehaviorInv(states, steps, |steps|);
    BelowIs(s.all, 0, 0);
    BehaviorGrows(states, steps, Drop(BATCH_LIMIT), Apply(s, Drop(BATCH_LIMIT)));
    DropSkipsOneBatch(s, BATCH_LIMIT);
    states, steps := states + [Apply(s, Drop(BATCH_LIMIT))], steps + [Drop(BATCH_LIMIT)];
  }

  // ---------- one life after its drop call ----------

  predicate EndsDropping(step: Step) {
    step.Drop? || step.SkipDrop?
  }

  /** How many updates a life skips before it begins to poll. */
  function Skipped(step: Step): nat {
    if step.Drop? then step.n else 0
  }

  /** No restart between step `m` and state `k`. */
  predicate SameLife(steps: seq<Step>, m: nat, k: nat)
    requires k <= |steps|
  {
    forall x | m < x < k :: !steps[x].Restart?
  }

  /** State `t` belongs to the life that began to poll `d` updates past what was confirmed in `s`. */
  ghost predicate LifeSince(s: State, t: State, d: nat) {
    && !t.phase.Dropping? && s.all <= t.all && t.ever == s.ever + t.handled
    && t.start <= Top(t.all) && Below(t.all, t.start) == Below(s.all, s.confirmed) + d
  }

  lemma LifeBegins(s: State, step: Step)
    requires Inv(s) && Enabled(s, step) && EndsDropping(step)
    ensures LifeSince(s, Apply(s, step), Skipped(step))
  {
    assert s.handled == [];
    if step.Drop? {
      DropStarts(s, step.n);
    } else {
      SkipDropStarts(s);
    }
  }

  lemma LifeGoesOn(s: State, t: State, d: nat, step: Step)
    requires Inv(t) && LifeSince(s, t, d) && Enabled(t, step) && !step.Restart?
    ensures LifeSince(s, Apply(t, step), d)
  {
    if step.Arrive? {
      ArriveKeeps(t, step.u);
      BelowGrows(t.all, step.u, t.start);
    }
  }

  lemma {:induction false} LifeSinceDrop(states: seq<State>, steps: seq<Step>, m: nat, i: nat)
    requires Behavior(states, steps) && m < i < |states| && EndsDropping(steps[m]) && SameLife(steps, m, i)
    ensures LifeSince(states[m], states[i], Skipped(steps[m]))
    decreases i
  {
    BehaviorInv(states, steps, i - 1);
    if i == m + 1 {
      LifeBegins(states[m], steps[m]);
    } else {
      LifeSinceDrop(states, steps, m, i - 1);
      LifeGoesOn(states[m], states[i - 1], Skipped(steps[m]), steps[i - 1]);
    }
  }

  /** What arrived later was not dispatched before. */
  lemma NewIsNotDispatched(s: State, t: State, p: nat)
    requires EverInv(s) && Inv(t) && s.all <= t.all && |s.all| <= p < |t.all|
    ensures t.all[p] !in s.ever
  {
    forall a | 0 <= a < |s.ever| ensures s.ever[a] != t.all[p] {
      var q :| 0 <= q < |s.all| && s.all[q] == s.ever[a];
      assert t.all[q] == s.all[q];
    }
  }

  lemma HandledAt(s: State, t: State, d: nat, k: nat)
    requires Inv(t) && LifeSince(s, t, d) && k < |t.handled|
    ensures Below(s.all, s.confirmed) + d + k < |t.all|
    ensures t.handled[k] == t.all[Below(s.all, s.confirmed) + d + k]
  {
    HandledEndsAtCursor(t);
  }

  /** The k-th update of a life was dispatched before exactly when it lies below the reach of the earlier lives. */
  lemma HandledBefore(s: State, t: State, d: nat, k: nat)
    requires Inv(s) && EverInv(s) && Inv(t) && LifeSince(s, t, d) && k < |t.handled|
    ensures t.handled[k] in s.ever <==> d + k < |Unconfirmed(s)|
  {
    var p := Below(s.all, s.confirmed) + d + k;
    HandledAt(s, t, d, k);
    if p < |s.all| {
      ServedAgain(s, p);
    } else {
      NewIsNotDispatched(s, t, p);
    }
  }

  /**
   A life repeats something exactly when its drop call skipped fewer updates than had been dispatched
   and not confirmed; then the very first update it dispatches is one of them.
   */
  lemma LifeRepeatsIffDropFellShort(states: seq<State>, steps: seq<Step>, m: nat, i: nat)
    requires Behavior(states, steps) && m < i < |states| && EndsDropping(steps[m]) && SameLife(steps, m, i)
    requires states[i].handled != []
    ensures var s, t := states[m], states[i];
            && t.ever == s.ever + t.handled
            && ((exists u :: u in t.handled && u in s.ever) <==> Skipped(steps[m]) < |Unconfirmed(s)|)
            && (t.handled[0] in s.ever <==> Skipped(steps[m]) < |Unconfirmed(s)|)
  {
    var s, t, d := states[m], states[i], Skipped(steps[m]);
    BehaviorEver(states, steps, m);
    BehaviorInv(states, steps, i);
    LifeSinceDrop(states, steps, m, i);
    forall k | 0 <= k < |t.handled| ensures t.handled[k] in s.ever <==> d + k < |Unconfirmed(s)| {
      HandledBefore(s, t, d, k);
    }
    assert t.handled[0] in t.handled;
  }

  // ---------- over whole runs ----------

  ghost predicate Repeats(updates: seq<Update>) {
    exists a, b :: 0 <= a < b < |updates| && updates[a].id == updates[b].id
  }

  /** A life whose drop call at step `m` fell short of what was dispatched and not confirmed dispatches at step `k`. */
  ghost predicate RepeatingLife(states: seq<State>, steps: seq<Step>, m: nat, k: nat)
    requires |states| == |steps| + 1
  {
    && m < k < |steps| && EndsDropping(steps[m]) && SameLife(steps, m, k) && steps[k].Dispatch?
    && Skipped(steps[m]) < |Unconfirmed(states[m])|
  }

  /** A state that is past its drop call has one behind it in the same life. */
  lemma {:induction false} DropBefore(states: seq<State>, steps: seq<Step>, i: nat) returns (m: nat)
    requires Behavior(states, steps) && i < |states| && !states[i].phase.Dropping?
    ensures m < i && EndsDropping(steps[m]) && SameLife(steps, m, i)
  {
    if EndsDropping(steps[i - 1]) {
      m := i - 1;
    } else {
      m := DropBefore(states, steps, i - 1);
    }
  }

  /** `t` goes on from `s` without dispatching anything the remote had confirmed in `s`. */
  ghost predicate GoesOn(s: State, t: State) {
    && s.confirmed <= t.confirmed && s.ever <= t.ever
    && forall a | |s.ever| <= a < |t.ever| :: t.ever[a].id >= s.confirmed
  }

  lemma StepGoesOn(s: State, t: State, step: Step)
    requires GoesOn(s, t) && Inv(t) && Enabled(t, step)
    ensures GoesOn(s, Apply(t, step))
  {
    if step.Dispatch? {
      DispatchMoves(t);
    }
  }

  /** What the remote no longer serves is never dispatched again. */
  lemma {:induction false} ConfirmedIsFinal(states: seq<State>, steps: seq<Step>, i: nat, j: nat)
    requires Behavior(states, steps) && i <= j < |states|
    ensures GoesOn(states[i], states[j])
    decreases j
  {
    if i < j {
      ConfirmedIsFinal(states, steps, i, j - 1);
      BehaviorInv(states, steps, j - 1);
      StepGoesOn(states[i], states[j - 1], steps[j - 1]);
    }
  }

  lemma RepeatingLifeRepeats(states: seq<State>, steps: seq<Step>, m: nat, k: nat)
    requires Behavior(states, steps) && RepeatingLife(states, steps, m, k)
    ensures Repeats(states[k + 1].ever)
  {
    var s, t := states[m], states[k + 1];
    LifeRepeatsIffDropFellShort(states, steps, m, k + 1);
    var a :| 0 <= a < |s.ever| && s.ever[a] == t.handled[0];
    assert t.ever[a] == t.ever[|s.ever|];
  }

  lemma SameIdSameUpdate(s: State, u: Update, v: Update)
    requires Inv(s) && u in s.all && v in s.all && u.id == v.id
    ensures u == v
  {
  }

  /** When the last of a life's updates makes the first repetition, an earlier life dispatched one with its id. */
  lemma RepetitionIsOld(old_: seq<Update>, handled: seq<Update>) returns (a: nat)
    requires handled != [] && forall x, y | 0 <= x < y < |handled| :: handled[x].id < handled[y].id
    requires !Repeats(old_ + handled[..|handled| - 1]) && Repeats(old_ + handled)
    ensures a < |old_| && old_[a].id == handled[|handled| - 1].id
  {
    var ever, shorter, n := old_ + handled, old_ + handled[..|handled| - 1], |old_| + |handled| - 1;
    var i, j :| 0 <= i < j < |ever| && ever[i].id == ever[j].id;
    assert forall x | 0 <= x < n :: shorter[x] == ever[x];
    assert j == n;
    assert forall x | |old_| <= x <= n :: ever[x] == handled[x - |old_|];
    a := i;
  }

  /** The first repetition comes of a life whose drop call fell short. */
  lemma FirstRepetition(states: seq<State>, steps: seq<Step>, k: nat) returns (m: nat)
    requires Behavior(states, steps) && k < |steps| && !Repeats(states[k].ever) && Repeats(states[k + 1].ever)
    ensures RepeatingLife(states, steps, m, k)
  {
    assert steps[k].Dispatch?;
    m := DropBefore(states, steps, k);
    RepeatedHere(states, steps, m, k);
  }

  lemma RepeatedHere(states: seq<State>, steps: seq<Step>, m: nat, k: nat)
    requires Behavior(states, steps) && m < k < |steps| && EndsDropping(steps[m]) && SameLife(steps, m, k)
    requires steps[k].Dispatch? && !Repeats(states[k].ever) && Repeats(states[k + 1].ever)
    ensures Skipped(steps[m]) < |Unconfirmed(states[m])|
  {
    var s, t := states[m], states[k + 1];
    LifeRepeatsIffDropFellShort(states, steps, m, k + 1);
    ExactlyOncePerLife(states, steps, k + 1);
    LifeSinceDrop(states, steps, m, k);
    var last := |t.handled| - 1;
    assert states[k].ever == s.ever + t.handled[..last];
    var a := RepetitionIsOld(s.ever, t.handled);
    DispatchedArrived(states, steps, k + 1);
    assert t.ever[a] == s.ever[a] && t.ever[|s.ever| + last] == t.handled[last];
    SameIdSameUpdate(t, s.ever[a], t.handled[last]);
    assert t.handled[last] in t.handled && t.handled[last] in s.ever;
  }

  lemma DispatchedArrived(states: seq<State>, steps: seq<Step>, i: nat)
    requires Behavior(states, steps) && i < |states|
    ensures Inv(states[i]) && forall a | 0 <= a < |states[i].ever| :: states[i].ever[a] in states[i].all
  {
    BehaviorEver(states, steps, i);
  }

  /**
   At most once across restarts, exactly: some update has been dispatched twice if and only if some
   life went on to dispatch although its drop call had skipped fewer updates than had been
   dispatched and not confirmed.
   */
  lemma {:induction false} RepeatsIffDropFellShort(states: seq<State>, steps: seq<Step>, i: nat)
    requires Behavior(states, steps) && i < |states|
    ensures Repeats(states[i].ever) <==> exists m: nat, k: nat :: k < i && RepeatingLife(states, steps, m, k)
  {
    if i > 0 {
      RepeatsIffDropFellShort(states, steps, i - 1);
      if Repeats(states[i].ever) && !Repeats(states[i - 1].ever) {
        var m := FirstRepetition(states, steps, i - 1);
      }
    }
    if m: nat, k: nat :| k < i && RepeatingLife(states, steps, m, k) {
      RepeatingLifeRepeats(states, steps, m, k);
      ConfirmedIsFinal(states, steps, k + 1, i);
      var a, b :| 0 <= a < b < |states[k + 1].ever| && states[k + 1].ever[a].id == states[k + 1].ever[b].id;
      assert states[i].ever[a].id == states[i].ever[b].id;
    }
  }

  /** The drop call of every life succeeded, and brought as much as one answer can hold. */
  ghost predicate DropsAreFull(states: seq<State>, steps: seq<Step>)
    requires |states| == |steps| + 1
  {
    forall i | 0 <= i < |steps| :: !steps[i].SkipDrop? && (steps[i].Drop? ==> FullAnswer(states[i], steps[i].n))
  }

  /** When every life's drop call succeeds in full, no update is ever dispatched twice. */
  lemma NeverTwiceAcrossRestarts(states: seq<State>, steps: seq<Step>, i: nat)
    requires Behavior(states, steps) && DropsAreFull(states, steps) && i < |states|
    ensures forall a, b | 0 <= a < b < |states[i].ever| :: states[i].ever[a].id != states[i].ever[b].id
  {
    RepeatsIffDropFellShort(states, steps, i);
    forall m: nat, k: nat | k < i ensures !RepeatingLife(states, steps, m, k) {
      if RepeatingLife(states, steps, m, k) {
        UnconfirmedMeaning(states, steps, m);
      }
    }
  }

  // ---------- what is lost ----------

  /** A poll that brings one update, and its dispatch. */
  lemma PollOne(states: seq<State>, steps: seq<Step>) returns (later: seq<State>, more: seq<Step>)
    requires Behavior(states, steps) && states[|steps|].phase.Polling?
    requires Below(states[|steps|].all, Cursor(states[|steps|])) < |states[|steps|].all|
    ensures Behavior(later, more) && steps <= more
    ensures var s, t := states[|steps|], later[|more|];
            var c := Below(s.all, Cursor(s));
            && t.phase.Polling? && t.all == s.all && Below(t.all, Cursor(t)) == c + 1
            && t.ever == s.ever + [s.all[c]]
  {
    var s := states[|steps|];
    var c := Below(s.all, Cursor(s));
    BehaviorInv(states, steps, |steps|);
    HandledEndsAtCursor(s);
    PollContinues(s, 1);
    var polled := Apply(s, Poll(1));
    assert polled.phase == Dispatching([s.all[c]]);
    DispatchMoves(polled);
    BehaviorGrows(states, steps, Poll(1), polled);
    BehaviorGrows(states + [polled], steps + [Poll(1)], Dispatch, AfterDispatch(polled));
    later, more := states + [polled] + [AfterDispatch(polled)], steps + [Poll(1)] + [Dispatch];
  }

  /** Polling on, one update at a time, reaches the update at position `p`. */
  lemma {:induction false} PollUpTo(states: seq<State>, steps: seq<Step>, p: nat)
    returns (later: seq<State>, more: seq<Step>)
    requires Behavior(states, steps) && states[|steps|].phase.Polling?
    requires Below(states[|steps|].all, Cursor(states[|steps|])) <= p < |states[|steps|].all|
    ensures Behavior(later, more) && steps <= more
    ensures var t := later[|more|]; t.ever != [] && t.ever[|t.ever| - 1] == states[|steps|].all[p]
    decreases p - Below(states[|steps|].all, Cursor(states[|steps|]))
  {
    later, more := PollOne(states, steps);
    if Below(states[|steps|].all, Cursor(states[|steps|])) < p {
      later, more := PollUpTo(later, more, p);
    }
  }

  /** What the remote still serves can still be dispatched, whatever became of it before. */
  lemma UnconfirmedCanStillRun(states: seq<State>, steps: seq<Step>, p: nat)
    returns (later: seq<State>, more: seq<Step>)
    requires Behavior(states, steps)
    requires p < |states[|steps|].all| && states[|steps|].all[p].id >= states[|steps|].confirmed
    ensures Behavior(later, more) && steps <= more
    ensures var t := later[|more|]; t.ever != [] && t.ever[|t.ever| - 1] == states[|steps|].all[p]
  {
    var s := states[|steps|];
    BehaviorInv(states, steps, |steps|);
    BelowSplits(s.all, s.confirmed);
    later, more := Reborn(states, steps);
    later, more := PollUpTo(later, more, p);
  }

  /** A restart whose drop call is skipped or fails. */
  lemma Reborn(states: seq<State>, steps: seq<Step>) returns (later: seq<State>, more: seq<Step>)
    requires Behavior(states, steps)
    ensures Behavior(later, more) && more == steps + [Restart] + [SkipDrop]
    ensures var s := states[|steps|];
            later[|more|] == s.(phase := Polling, offset := 0, start := s.confirmed, handled := [])
  {
    var s := states[|steps|];
    BehaviorInv(states, steps, |steps|);
    var dead := s.(phase := Dropping, offset := 0, start := 0, handled := []);
    BehaviorGrows(states, steps, Restart, dead);
    BehaviorGrows(states + [dead], steps + [Restart], SkipDrop, dead.(phase := Polling, start := s.confirmed));
    later := states + [dead] + [dead.(phase := Polling, start := s.confirmed)];
    more := steps + [Restart] + [SkipDrop];
  }

  // ---------- runs that repeat ----------

  /** A life that starts at what is confirmed is served what is not. */
  lemma ServesUnconfirmed(s: State, t: State, n: nat)
    requires Inv(t) && t == s.(phase := Polling, offset := 0, start := s.confirmed, handled := [])
    requires n == |Unconfirmed(s)| && n <= |Pending(s, 0)| && n <= BATCH_LIMIT
    ensures Enabled(t, Poll(n)) && Apply(t, Poll(n)) == t.(phase := PhaseWith(Unconfirmed(s)))
  {
    PollContinues(t, n);
    var c := Below(s.all, s.confirmed);
    assert Unconfirmed(s) == s.all[c..c + n];
  }

  /** From any reachable state a restart without a drop call, and one poll, dispatch all the unconfirmed again. */
  lemma SkippedDropRepeats(states: seq<State>, steps: seq<Step>) returns (later: seq<State>, more: seq<Step>)
    requires Behavior(states, steps)
    ensures Behavior(later, more) && steps <= more
    ensures later[|more|].handled == Unconfirmed(states[|steps|])
    ensures later[|more|].ever == states[|steps|].ever + Unconfirmed(states[|steps|])
  {
    var again := Unconfirmed(states[|steps|]);
    UnconfirmedMeaning(states, steps, |steps|);
    later, more := Reborn(states, steps);
    var t := later[|more|];
    BehaviorInv(later, more, |more|);
    ServesUnconfirmed(states[|steps|], t, |again|);
    var polled := t.(phase := PhaseWith(again));
    BehaviorGrows(later, more, Poll(|again|), polled);
    later, more := BatchIsPath(later + [polled], more + [Poll(|again|)]);
    assert Finished(polled).handled == [] + again && Finished(polled).ever == t.ever + again;
  }

  /** One such run from the start: a single update is dispatched in two lives. */
  lemma OneUpdateTwice(u: Update) returns (states: seq<State>, steps: seq<Step>)
    requires u.id >= 1
    ensures Behavior(states, steps) && states[|steps|].ever == [u, u]
  {
    states, steps := [State([], 0, Dropping, 0, 0, [], [])], [];
    BehaviorGrows(states, steps, Arrive(u), State([u], 0, Dropping, 0, 0, [], []));
    states, steps := states + [State([u], 0, Dropping, 0, 0, [], [])], steps + [Arrive(u)];
    BehaviorGrows(states, steps, SkipDrop, State([u], 0, Polling, 0, 0, [], []));
    states, steps := states + [State([u], 0, Polling, 0, 0, [], [])], steps + [SkipDrop];
    BelowIs([u], 0, 0);
    assert [u][0..][..1] == [u];
    BehaviorGrows(states, steps, Poll(1), State([u], 0, Dispatching([u]), 0, 0, [], []));
    states, steps := states + [State([u], 0, Dispatching([u]), 0, 0, [], [])], steps + [Poll(1)];
    states, steps := BatchIsPath(states, steps);
    assert OffsetAfter(0, [u]) == u.id + 1 by { assert [u][..0] == []; }
    BelowIs([u], u.id + 1, 1);
    assert [u][0..1] == [u];
    states, steps := SkippedDropRepeats(states, steps);
  }
}
