/** The main results about remote calls, for every run of the state machine. */
module RpcTheorems {
  import opened Collections
  import opened CallSpec
  import opened RpcMachine
  import opened RpcSafety

  ghost predicate Run(states: seq<State>, steps: seq<Step>) {
    && |states| == |steps| + 1 && states[0] == Init()
    && forall i :: 0 <= i < |steps| ==> Enabled(states[i], steps[i]) && states[i + 1] == Apply(states[i], steps[i])
  }

  lemma {:induction false} RunKeepsInv(states: seq<State>, steps: seq<Step>, i: nat)
    requires Run(states, steps) && i < |states|
    ensures Inv(states[i])
  {
    hide Apply, Enabled;
    if i > 0 {
      RunKeepsInv(states, steps, i - 1);
      assert Enabled(states[i - 1], steps[i - 1]) && states[i] == Apply(states[i - 1], steps[i - 1]);
      StepKeepsInv(states[i - 1], steps[i - 1]);
    }
  }

  // Part 1: No step of the code panics or blocks.

  predicate Taking(step: Step) {
    step.Refuse? || step.Post? || step.Register?
  }

  /** The step puts call `c` back into the pool. */
  ghost predicate PutsBack(s: State, step: Step, c: CallId)
    requires Enabled(s, step)
  {
    match step
    case FailWrite(d) => c == d && RecOf(s, c).callback.Some?
    case Look(d) => c == d && RecOf(s, c).err.Some?
    case Collect(d) => c == d
    case Dismiss(d) => c == d
    case RunCallback(at, finishes) => c == s.queue[at] && finishes
    case _ => false
  }

  /** `Get` finds an unused object, `Put` a used one, the done channel of capacity one has room when a
      completion is sent (in the timeout handler under `pendingLock`), a removal removes the number that was
      looked up, a handler finds a callback and a waiting caller receives its own call. */
  ghost predicate Safe(s: State, step: Step)
    requires Enabled(s, step)
  {
    && (Taking(step) ==> !RecOf(s, step.call).ref && step.call !in s.hold)
    && (forall c :: PutsBack(s, step, c) ==> RecOf(s, c).ref && c in s.hold)
    && (step.Respond? && Key(step.client, step.answer.number) in s.pending ==>
          RecOf(s, s.pending[Key(step.client, step.answer.number)]).done == [])
    && (step.Expire? && step.key in s.pending ==>
          RecOf(s, s.pending[step.key]).done == [] && RecOf(s, s.pending[step.key]).number == step.key.number)
    && (step.FailWrite? ==> Key(s.hold[step.call].key.client, RecOf(s, step.call).number) in s.pending)
    && (step.RunCallback? ==> RecOf(s, s.queue[step.at]).callback.Some?)
    && (step.Collect? ==> RecOf(s, step.call).done == [step.call])
  }

  lemma HeldIsUsed(s: State, c: CallId)
    requires Inv(s) && c in s.hold
    ensures RecOf(s, c).ref && HoldOk(s, c)
  {
    HeldIsNotPooled(s, c);
  }

  lemma TakenIsUnused(s: State, c: CallId)
    requires Inv(s) && s.pool.Gives(c, c in s.recs)
    ensures !RecOf(s, c).ref && c !in s.hold
  {
    assert c in s.recs ==> Idle(s, c);
  }

  lemma StepIsSafe(s: State, step: Step)
    requires Inv(s) && Enabled(s, step)
    ensures Safe(s, step)
  {
    hide Inv, PoolOk, QueueOk, KeyOk;
    forall c | PutsBack(s, step, c) ensures RecOf(s, c).ref && c in s.hold {
      if step.RunCallback? { CallbackIsThere(s, step.at); }
      HeldIsUsed(s, c);
    }
    match step
    case Refuse(c, _) => TakenIsUnused(s, c);
    case Post(_, c, _) => TakenIsUnused(s, c);
    case Register(_, c, _) => TakenIsUnused(s, c);
    case Respond(client, a, _) => if Key(client, a.number) in s.pending { PendingIsOpen(s, Key(client, a.number)); }
    case Expire(k, _) => if k in s.pending { PendingIsOpen(s, k); }
    case FailWrite(c) => HeldIsUsed(s, c);
    case Collect(c) => HeldIsUsed(s, c);
    case RunCallback(at, _) => CallbackIsThere(s, at);
    case _ =>
  }

  lemma CallbackIsThere(s: State, at: nat)
    requires Inv(s) && at < |s.queue|
    ensures s.queue[at] in s.hold && s.hold[s.queue[at]].Queued? && RecOf(s, s.queue[at]).callback.Some?
  {
    QueuedIsHeld(s, at);
    assert HoldOk(s, s.queue[at]);
  }

  /** No step of any run panics in the pool, blocks on a done channel or gets hold of a foreign call. */
  lemma RunsAreSafe(states: seq<State>, steps: seq<Step>, i: nat)
    requires Run(states, steps) && i < |steps|
    ensures Safe(states[i], steps[i])
  {
    hide Apply, Safe;
    RunKeepsInv(states, steps, i);
    StepIsSafe(states[i], steps[i]);
  }

  /** `Put` panics about a call that is not in use. */
  predicate PutPanics(s: State, c: CallId) {
    !RecOf(s, c).ref
  }

  /** Without the promise that a peer answers only what was written the pool does panic: for every reachable call whose
      `WriteMsg` is under way, every answer with its number lets the handler release the call, and `AsyncCall`, once
      the write fails, finds the number gone and releases the call again. */
  lemma EarlyAnswerFreesTwice(s: State, c: CallId, k: Key, a: Answer)
    requires Inv(s) && c in s.hold && s.hold[c] == Registered(k) && RecOf(s, c).callback.Some? && a.number == k.number
    ensures k in s.pending
    ensures var t := Answered(s, k, a, true);
            && |t.queue| > 0 && t.queue[|t.queue| - 1] == c
            && var u := CalledBack(t, |t.queue| - 1, true);
               k !in u.pending && !PutPanics(s, c) && PutPanics(u, c)
  {
    hide PoolOk, QueueOk, KeyOk;
    HeldIsUsed(s, c);
  }

  /** A synchronous call is completed twice in that case: by the answer and by the failed write. */
  lemma EarlyAnswerEndsTwice(s: State, c: CallId, k: Key, a: Answer)
    requires Inv(s) && c in s.hold && s.hold[c] == Registered(k) && RecOf(s, c).callback.None? && a.number == k.number
    ensures k in s.pending && k in WriteFailed(Answered(s, k, a, true), c, k).past
    ensures |WriteFailed(Answered(s, k, a, true), c, k).past[k].ends| == 2
  {
    hide PoolOk, QueueOk;
    assert HoldOk(s, c) && KeyOk(s, k);
  }

  /** A completion of a synchronous call before its signal, with all of its other effects. */
  function Unsignalled(s: State, c: CallId): (r: State) {
    s.(recs := s.recs[c := RecOf(s, c).(done := [])])
  }

  function Signalled(s: State, c: CallId): (r: State) {
    s.(recs := s.recs[c := RecOf(s, c).(done := RecOf(s, c).done + [c])])
  }

  /** What the caller does when it tests `Err` now. */
  function Looked(s: State, c: CallId, k: Key): (r: State) {
    if RecOf(s, c).err.Some? then Released(s, c, k, c) else s.(hold := s.hold[c := Blocked(k)])
  }

  /** That a completion sets the error and signals in one step matters to a synchronous caller that is about to test
      the error: between the two it releases the call exactly when there is an error, and the late signal then fills
      the done channel of a call that is in the pool. Without an error the order makes no difference. */
  lemma EarlyReadFillsPooledCall(s: State, c: CallId, k: Key, a: Answer)
    requires Inv(s) && c in s.hold && s.hold[c] == Returned(k) && k in s.pending && a.number == k.number
    ensures LateSignal(Answered(s, k, a, true), c, k, ErrOf(a))
    ensures LateSignal(Expired(s, k, true), c, k, Some(TookTooLong))
  {
    hide PoolOk, QueueOk, KeyOk, GiveBack, PastOf;
    assert HoldOk(s, c);
    SignalIsLast(Answered(s, k, a, true), c, k);
    SignalIsLast(Expired(s, k, true), c, k);
  }

  ghost predicate LateSignal(t: State, c: CallId, k: Key, err: Option<Failure>) {
    && Signalled(Unsignalled(t, c), c) == t
    && var late := Signalled(Looked(Unsignalled(t, c), c, k), c);
       if err.Some? then late.pool.Holds(c) && RecOf(late, c).done == [c] else late == Looked(t, c, k)
  }

  lemma SignalIsLast(t: State, c: CallId, k: Key)
    requires c in t.recs && RecOf(t, c).done == [c]
    ensures LateSignal(t, c, k, RecOf(t, c).err)
  {
    hide Told;
    var between := Unsignalled(t, c);
    assert t.recs[c].(done := []).(done := [] + [c]) == t.recs[c];
    assert Signalled(between, c).recs == t.recs;
  }

  // Part 2: Exactly one completion.

  /** In every state of every run a registered call is either pending, with no completion so far and a live
      timer, or not pending with exactly one completion; its caller is told that one or nothing yet. */
  lemma ExactlyOneCompletion(states: seq<State>, steps: seq<Step>, i: nat, k: Key)
    requires Run(states, steps) && i < |states| && k in states[i].past
    ensures var s := states[i];
            && |s.past[k].ends| == (if k in s.pending then 0 else 1)
            && (k in s.pending ==> k in s.timers && RecOf(s, s.pending[k]).done == [])
            && (s.past[k].told == [] || s.past[k].told == s.past[k].ends)
  {
    hide Run;
    RunKeepsInv(states, steps, i);
    assert KeyOk(states[i], k);
    if k in states[i].pending { PendingIsOpen(states[i], k); }
  }

  /** Histories only grow, numbers are never used twice. */
  ghost predicate Grows(s: State, t: State, k: Key) {
    k in s.past ==>
      && k in t.past && t.past[k].owner == s.past[k].owner
      && s.past[k].ends <= t.past[k].ends && s.past[k].told <= t.past[k].told
      && (k in t.pending ==> k in s.pending && t.pending[k] == s.pending[k])
  }

  lemma AnsweredGrows(s: State, k0: Key, a: Answer, pushed: bool, k: Key)
    requires k0 in s.pending
    ensures Grows(s, Answered(s, k0, a, pushed), k)
  {
    hide HandOver, RecOf;
  }

  lemma ExpiredGrows(s: State, k0: Key, pushed: bool, k: Key)
    requires k0 in s.pending
    ensures Grows(s, Expired(s, k0, pushed), k)
  {
    hide HandOver, RecOf;
  }

  lemma ReleasedGrows(s: State, c: CallId, k0: Key, seen: CallId, k: Key)
    ensures Grows(s, Released(s, c, k0, seen), k)
  {
    hide GiveBack, RecOf;
  }

  lemma WriteFailedGrows(s: State, c: CallId, k0: Key, k: Key)
    ensures Grows(s, WriteFailed(s, c, k0), k)
  {
    hide GiveBack, RecOf, Lookup;
  }

  lemma CalledBackGrows(s: State, at: nat, finishes: bool, k: Key)
    requires at < |s.queue|
    ensures Grows(s, CalledBack(s, at, finishes), k)
  {
    hide GiveBack, RecOf, Lookup;
  }

  lemma StepGrows(s: State, step: Step, k: Key)
    requires Inv(s) && Enabled(s, step)
    ensures Grows(s, Apply(s, step), k)
  {
    hide Inv, LastNumber, Answered, Expired, Released, WriteFailed, CalledBack, RecOf, GiveBack, BeingWritten, Take, Lookup;
    if k in s.past { OldNumber(s, k); }
    match step
    case Respond(client, a, pushed) =>
      if Key(client, a.number) in s.pending { AnsweredGrows(s, Key(client, a.number), a, pushed, k); }
    case Expire(k0, pushed) =>
      if k0 in s.pending { ExpiredGrows(s.(timers := s.timers - {k0}), k0, pushed, k); }
    case FailWrite(c) => WriteFailedGrows(s, c, s.hold[c].key, k);
    case RunCallback(at, finishes) => CalledBackGrows(s, at, finishes, k);
    case Look(c) => ReleasedGrows(s, c, s.hold[c].key, c, k);
    case Collect(c) =>
      var out := s.(recs := s.recs[c := RecOf(s, c).(done := RecOf(s, c).done[1..])]);
      ReleasedGrows(out, c, s.hold[c].key, RecOf(s, c).done[0], k);
    case Dismiss(c) =>
      if s.hold[c].Refused? && s.hold[c].refused.Some? { ReleasedGrows(s, c, s.hold[c].refused.value, c, k); }
    case _ =>
  }

  lemma OldNumber(s: State, k: Key)
    requires Inv(s) && k in s.past
    ensures k.number <= LastNumber(s, k.client)
  {
    assert KeyOk(s, k);
  }

  lemma {:induction false} HistoryGrows(states: seq<State>, steps: seq<Step>, i: nat, j: nat, k: Key)
    requires Run(states, steps) && i <= j < |states|
    ensures Grows(states[i], states[j], k)
    decreases j
  {
    hide Apply, Enabled;
    if i < j {
      HistoryGrows(states, steps, i, j - 1, k);
      RunKeepsInv(states, steps, j - 1);
      assert Enabled(states[j - 1], steps[j - 1]) && states[j] == Apply(states[j - 1], steps[j - 1]);
      StepGrows(states[j - 1], steps[j - 1], k);
    }
  }

  // Part 3: Recycled calls are never confused.

  /** An answer or a timer for a call that finished earlier changes nothing later, whatever call the object
      serves by then; the timer is merely used up. */
  lemma LateEventsAreIgnored(states: seq<State>, steps: seq<Step>, i: nat, j: nat, k: Key)
    requires Run(states, steps) && i <= j < |steps|
    requires k in states[i].past && k !in states[i].pending
    ensures steps[j].Respond? && Key(steps[j].client, steps[j].answer.number) == k ==> states[j + 1] == states[j]
    ensures steps[j].Expire? && steps[j].key == k ==>
              states[j + 1] == states[j].(timers := states[j].timers - {k})
  {
    HistoryGrows(states, steps, i, j, k);
    assert Enabled(states[j], steps[j]) && states[j + 1] == Apply(states[j], steps[j]);
  }

  /** Only the object that was handed out for `k` may differ, only the reply variable and history of `k`. */
  ghost predicate TouchesOnlyOwn(s: State, t: State, k: Key)
    requires k in s.past
  {
    && (forall c :: c != s.past[k].owner ==> SameCall(s, t, c))
    && (forall other :: other != k ==>
          Lookup(t.cells, other) == Lookup(s.cells, other) && Lookup(t.past, other) == Lookup(s.past, other)
          && Lookup(t.pending, other) == Lookup(s.pending, other))
  }

  ghost predicate CompletionOf(step: Step, k: Key) {
    (step.Respond? && Key(step.client, step.answer.number) == k) || (step.Expire? && step.key == k)
  }

  lemma CompletionTouchesOnlyOwn(states: seq<State>, steps: seq<Step>, i: nat, k: Key)
    requires Run(states, steps) && i < |steps| && CompletionOf(steps[i], k) && k in states[i].pending
    ensures k in states[i].past && TouchesOnlyOwn(states[i], states[i + 1], k)
    ensures states[i].past[k].owner == states[i].pending[k] && Holder(states[i], k, states[i].pending[k])
    ensures |states[i + 1].past[k].ends| == 1 && k !in states[i + 1].pending
  {
    hide Inv, Apply, Enabled, Holder;
    RunKeepsInv(states, steps, i);
    var s := states[i];
    assert Enabled(s, steps[i]) && states[i + 1] == Apply(s, steps[i]);
    PendingIsOpen(s, k);
    match steps[i]
    case Respond(client, a, pushed) => RespondCompletes(s, client, a, pushed);
    case Expire(_, pushed) => ExpireCompletes(s, k, pushed);
  }

  /** What a completion by an answer records: the value the answer carried, in full, in part or not at all, and its
      error: the peer's, else one of decoding, else none. */
  lemma AnswerIsRecorded(states: seq<State>, steps: seq<Step>, i: nat, client: nat, a: Answer, pushed: bool)
    requires Run(states, steps) && i < |steps| && steps[i] == Respond(client, a, pushed)
    requires Key(client, a.number) in states[i].pending
    ensures var k := Key(client, a.number);
            && k in states[i + 1].past
            && |states[i + 1].past[k].ends| == 1
            && var o := states[i + 1].past[k].ends[0];
               && (a.err.Some? ==> o.err == Some(Remote(a.err.value)))
               && (a.err.None? ==> o.err == if a.body.Malformed? then Some(Undecodable) else None)
               && match a.body {
                    case Empty => o.value == None
                    case Decoded(v) => o.value == Some(v)
                    case Malformed(partial) => o.value == partial
                  }
  {
    hide Inv;
    RunKeepsInv(states, steps, i);
    assert Enabled(states[i], steps[i]) && states[i + 1] == Apply(states[i], steps[i]);
    PendingIsOpen(states[i], Key(client, a.number));
  }

  /** A timeout records its error, a failed write its own, and neither touches the reply variable; nothing else but
      an answer ends a call. */
  lemma FailureIsRecorded(states: seq<State>, steps: seq<Step>, i: nat, k: Key)
    requires Run(states, steps) && i < |steps| && k in states[i].pending && k !in states[i + 1].pending
    ensures k in states[i + 1].past && |states[i + 1].past[k].ends| == 1
    ensures steps[i].Expire? || steps[i].FailWrite? || steps[i].Respond?
    ensures steps[i].Expire? ==> states[i + 1].past[k].ends[0] == Outcome(Some(TookTooLong), None)
    ensures steps[i].FailWrite? ==> states[i + 1].past[k].ends[0] == Outcome(Some(Unsent), None)
  {
    hide Inv, Enabled, Apply;
    RunKeepsInv(states, steps, i);
    RunKeepsInv(states, steps, i + 1);
    assert Enabled(states[i], steps[i]) && states[i + 1] == Apply(states[i], steps[i]);
    OpenIsFresh(states[i], k);
    EndsOnce(states[i + 1], k);
    StepRecords(states[i], steps[i], k);
    StepGrows(states[i], steps[i], k);
  }

  lemma EndsOnce(s: State, k: Key)
    requires Inv(s)
    ensures k in s.past && k !in s.pending ==> |s.past[k].ends| == 1
  {
    assert KeyOk(s, k);
  }

  lemma ExpiredRecords(s: State, k: Key, pushed: bool)
    requires k in s.pending && RecOf(s, s.pending[k]).number == k.number
    ensures var t := Expired(s.(timers := s.timers - {k}), k, pushed);
            && t.pending == s.pending - {k}
            && PastOf(t, k).ends == PastOf(s, k).ends + [Outcome(Some(TookTooLong), Lookup(s.cells, k))]
  {
    hide Lookup;
  }

  lemma WriteFailedRecords(s: State, c: CallId, k: Key)
    requires RecOf(s, c).number == k.number
    ensures var t := WriteFailed(s, c, k);
            && t.pending == s.pending - {k}
            && PastOf(t, k).ends == PastOf(s, k).ends + [Outcome(Some(Unsent), Lookup(s.cells, k))]
  {
    hide Lookup, GiveBack;
  }

  lemma ReleasedPending(s: State, c: CallId, k: Key, seen: CallId)
    ensures Released(s, c, k, seen).pending == s.pending && Released(s, c, k, seen).hold == s.hold - {c}
  {
    hide Lookup, GiveBack, RecOf, Told;
  }

  lemma CalledBackPending(s: State, at: nat, finishes: bool)
    requires at < |s.queue|
    ensures CalledBack(s, at, finishes).pending == s.pending
    ensures s.hold.Keys - {s.queue[at]} <= CalledBack(s, at, finishes).hold.Keys
  {
    hide Lookup, GiveBack, RecOf, Told;
  }

  lemma StepRecords(s: State, step: Step, k: Key)
    requires Inv(s) && Enabled(s, step) && k in s.pending && k !in Apply(s, step).pending
    ensures step.Expire? || step.FailWrite? || step.Respond?
    ensures step.Expire? ==> PastOf(Apply(s, step), k).ends == [Outcome(Some(TookTooLong), None)]
    ensures step.FailWrite? ==> PastOf(Apply(s, step), k).ends == [Outcome(Some(Unsent), None)]
  {
    hide Inv, LastNumber, Answered, Expired, Released, WriteFailed, CalledBack, RecOf, GiveBack, BeingWritten, Take;
    OpenIsFresh(s, k);
    match step
    case Expire(k0, pushed) =>
      OpenIsFresh(s, k0);
      if k0 in s.pending { ExpiredRecords(s, k0, pushed); }
    case FailWrite(c) =>
      WriterIsOpen(s, c);
      WriteFailedRecords(s, c, s.hold[c].key);
    case RunCallback(at, finishes) => CalledBackPending(s, at, finishes);
    case Look(c) => ReleasedPending(s, c, s.hold[c].key, c);
    case Collect(c) =>
      var out := s.(recs := s.recs[c := RecOf(s, c).(done := RecOf(s, c).done[1..])]);
      ReleasedPending(out, c, s.hold[c].key, RecOf(s, c).done[0]);
    case Dismiss(c) =>
      if s.hold[c].Refused? && s.hold[c].refused.Some? { ReleasedPending(s, c, s.hold[c].refused.value, c); }
    case _ =>
  }

  lemma OpenIsFresh(s: State, k: Key)
    requires Inv(s)
    ensures k in s.pending ==> Open(s, k, s.pending[k]) && k in s.past && s.past[k].ends == [] && k !in s.cells
  {
    if k in s.pending {
      PendingIsOpen(s, k);
      assert KeyOk(s, k);
    }
  }

  lemma WriterIsOpen(s: State, c: CallId)
    requires Inv(s) && c in s.hold && s.hold[c].Registered?
    ensures Open(s, s.hold[c].key, c) && s.hold[c].key in s.past && s.past[s.hold[c].key].ends == []
    ensures s.hold[c].key !in s.cells && s.past[s.hold[c].key].told == []
  {
    assert HoldOk(s, c) && KeyOk(s, s.hold[c].key);
  }

  /** No call is released before its caller was told its one outcome. */
  lemma ReleasedIsTold(states: seq<State>, steps: seq<Step>, i: nat, c: CallId, k: Key)
    requires Run(states, steps) && i < |steps| && c in states[i].hold && KeyOf(states[i].hold[c]) == Some(k)
    requires c !in states[i + 1].hold && !states[i].hold[c].Lost?
    ensures k in states[i + 1].past && |states[i + 1].past[k].ends| == 1
    ensures states[i + 1].past[k].told == states[i + 1].past[k].ends
  {
    hide Inv, Enabled, Apply;
    RunKeepsInv(states, steps, i);
    assert Enabled(states[i], steps[i]) && states[i + 1] == Apply(states[i], steps[i]);
    StepTells(states[i], steps[i], c, k);
  }

  ghost predicate ToldOnce(s: State, k: Key) {
    k in s.past && |s.past[k].ends| == 1 && s.past[k].told == s.past[k].ends
  }

  lemma StepTells(s: State, step: Step, c: CallId, k: Key)
    requires Inv(s) && Enabled(s, step) && c in s.hold && KeyOf(s.hold[c]) == Some(k) && !s.hold[c].Lost?
    requires c !in Apply(s, step).hold
    ensures ToldOnce(Apply(s, step), k)
  {
    hide Inv, Apply, Enabled, RecOf, ToldOnce;
    StillHeld(s, step, c);
    match step
    case Look(_) => LookTells(s, c, k);
    case Collect(_) => CollectTells(s, c, k);
    case Dismiss(_) => DismissTells(s, c, k);
    case FailWrite(_) => FailWriteTells(s, c, k);
    case RunCallback(at, finishes) => CallbackTells(s, at, finishes, k);
    case _ =>
  }

  /** The steps that release a call, and which call they release. */
  lemma StillHeld(s: State, step: Step, c: CallId)
    requires Enabled(s, step) && c in s.hold && c !in Apply(s, step).hold
    ensures match step
            case Look(d) => d == c && s.hold[c].Returned? && RecOf(s, c).err.Some?
            case Collect(d) => d == c && s.hold[c].Blocked?
            case Dismiss(d) => d == c && (s.hold[c].Refused? || s.hold[c].Posted?)
            case FailWrite(d) => d == c && s.hold[c].Registered? && RecOf(s, c).callback.Some?
            case RunCallback(at, _) => at < |s.queue| && s.queue[at] == c
            case _ => false
  {
    hide Inv, LastNumber, Answered, Expired, Released, WriteFailed, CalledBack, RecOf, GiveBack, BeingWritten, Take;
    match step
    case Respond(client, a, pushed) =>
      if Key(client, a.number) in s.pending { CompletionHolds(s, Key(client, a.number), a, pushed); }
    case Expire(k, pushed) =>
      if k in s.pending {
        CompletionHolds(s.(timers := s.timers - {k}), k, Answer(0, Empty, None), pushed);
      }
    case FailWrite(d) => WriteFailedHolds(s, d, s.hold[d].key);
    case RunCallback(at, finishes) => CalledBackPending(s, at, finishes);
    case Look(d) => ReleasedPending(s, d, s.hold[d].key, d);
    case Collect(d) =>
      var out := s.(recs := s.recs[d := RecOf(s, d).(done := RecOf(s, d).done[1..])]);
      ReleasedPending(out, d, s.hold[d].key, RecOf(s, d).done[0]);
    case Dismiss(d) =>
      if s.hold[d].Refused? && s.hold[d].refused.Some? { ReleasedPending(s, d, s.hold[d].refused.value, d); }
    case _ =>
  }

  lemma WriteFailedHolds(s: State, c: CallId, k: Key)
    ensures var t := WriteFailed(s, c, k);
            s.hold.Keys - {c} <= t.hold.Keys && (RecOf(s, c).callback.None? ==> c in t.hold)
  {
    hide RecOf, PastOf, Lookup;
  }

  lemma CompletionHolds(s: State, k: Key, a: Answer, pushed: bool)
    requires k in s.pending
    ensures s.hold.Keys <= Answered(s, k, a, pushed).hold.Keys && s.hold.Keys <= Expired(s, k, pushed).hold.Keys
  {
    hide RecOf, PastOf, Lookup;
  }

  lemma LookTells(s: State, c: CallId, k: Key)
    requires Inv(s) && c in s.hold && s.hold[c].Returned? && s.hold[c].key == k && RecOf(s, c).err.Some?
    ensures ToldOnce(Apply(s, Look(c)), k)
  {
    hide PoolOk, QueueOk, KeyOk, Lookup;
    assert HoldOk(s, c);
  }

  lemma CollectTells(s: State, c: CallId, k: Key)
    requires Inv(s) && Enabled(s, Collect(c)) && s.hold[c].key == k
    ensures ToldOnce(Apply(s, Collect(c)), k)
  {
    hide PoolOk, QueueOk, KeyOk, Lookup;
    assert HoldOk(s, c);
  }

  lemma DismissTells(s: State, c: CallId, k: Key)
    requires Inv(s) && c in s.hold && s.hold[c] == Refused(Some(k))
    ensures ToldOnce(Apply(s, Dismiss(c)), k)
  {
    hide PoolOk, QueueOk, KeyOk, Lookup;
    assert HoldOk(s, c);
  }

  lemma FailWriteTells(s: State, c: CallId, k: Key)
    requires Inv(s) && c in s.hold && s.hold[c] == Registered(k) && RecOf(s, c).callback.Some?
    ensures ToldOnce(Apply(s, FailWrite(c)), k)
  {
    WriterIsOpen(s, c);
    hide Inv, Lookup;
  }

  lemma CallbackTells(s: State, at: nat, finishes: bool, k: Key)
    requires Inv(s) && at < |s.queue| && s.queue[at] in s.hold && KeyOf(s.hold[s.queue[at]]) == Some(k)
    ensures ToldOnce(Apply(s, RunCallback(at, finishes)), k)
  {
    QueuedIsHeld(s, at);
    hide PoolOk, QueueOk, KeyOk, Lookup;
    assert HoldOk(s, s.queue[at]);
  }

  /** A caller that waits for a call that is over finds it in its done channel, and is told its one outcome. */
  lemma NoLostWakeup(states: seq<State>, steps: seq<Step>, i: nat, c: CallId, k: Key)
    requires Run(states, steps) && i < |states|
    requires c in states[i].hold && states[i].hold[c] == Blocked(k) && k !in states[i].pending
    ensures Enabled(states[i], Collect(c))
    ensures k in states[i].past
    ensures var t := Apply(states[i], Collect(c));
            k in t.past && t.past[k].told == states[i].past[k].ends && c !in t.hold
  {
    hide Run, PoolOk, QueueOk;
    RunKeepsInv(states, steps, i);
    assert HoldOk(states[i], c);
    assert KeyOk(states[i], k);
  }

  // Part 4: Single ownership.

  /** An object known to the process is in exactly one place. */
  ghost predicate OnePlace(s: State, c: CallId) {
    && (c in s.hold <==> RecOf(s, c).ref)
    && (c in s.hold ==> !s.pool.Holds(c))
    && !(c in s.pool.free && c in s.pool.spare)
    && (forall i, j :: 0 <= i < j < |s.pool.free| && s.pool.free[i] == c ==> s.pool.free[j] != c)
    && (s.pool.Holds(c) ==> RecOf(s, c) == Blank())
    && (forall other, k :: Holder(s, k, c) && Holder(s, k, other) ==> other == c)
  }

  lemma SingleOwnership(states: seq<State>, steps: seq<Step>, i: nat, c: CallId)
    requires Run(states, steps) && i < |states|
    ensures OnePlace(states[i], c)
  {
    hide Run, HoldOk, KeyOk;
    RunKeepsInv(states, steps, i);
    var s := states[i];
    if c in s.hold { HeldIsNotPooled(s, c); }
    forall other, k | Holder(s, k, c) && Holder(s, k, other) ensures other == c {
      assert HoldOk(s, c) && HoldOk(s, other) && KeyOk(s, k);
      HeldKeyIsOwned(s, c);
      HeldKeyIsOwned(s, other);
    }
  }

  /** The handler's channel had room and the callback returned. */
  predicate Smooth(step: Step) {
    match step
    case Respond(_, _, pushed) => pushed
    case Expire(_, pushed) => pushed
    case RunCallback(_, finishes) => finishes
    case _ => true
  }

  /** A call object leaks only when its handler's channel was full or its callback panicked. */
  lemma {:induction false} OnlyRoughStepsLose(states: seq<State>, steps: seq<Step>, i: nat, c: CallId)
    requires Run(states, steps) && i < |states| && c in states[i].hold && states[i].hold[c].Lost?
    ensures exists j :: 0 <= j < i && !Smooth(steps[j])
  {
    hide Apply, Enabled, Smooth;
    if i > 0 {
      assert Enabled(states[i - 1], steps[i - 1]) && states[i] == Apply(states[i - 1], steps[i - 1]);
      if Smooth(steps[i - 1]) {
        SmoothStepLosesNothing(states[i - 1], steps[i - 1], c);
        OnlyRoughStepsLose(states, steps, i - 1, c);
      }
    }
  }

  /** The step completes a call whose handler has no room, or runs a callback that panics. */
  ghost predicate Loses(s: State, step: Step, c: CallId)
    requires Enabled(s, step)
  {
    match step
    case Respond(client, a, pushed) =>
      var k := Key(client, a.number);
      !pushed && k in s.pending && c == s.pending[k] && RecOf(s, c).callback.Some?
    case Expire(k, pushed) => !pushed && k in s.pending && c == s.pending[k] && RecOf(s, c).callback.Some?
    case RunCallback(at, finishes) => !finishes && c == s.queue[at]
    case _ => false
  }

  /** Conversely every such step loses its call, and a lost call is never released. */
  lemma {:induction false} RoughStepsLose(states: seq<State>, steps: seq<Step>, i: nat, j: nat, c: CallId)
    requires Run(states, steps) && i < j < |states| && Loses(states[i], steps[i], c)
    ensures c in states[j].hold && states[j].hold[c].Lost? && RecOf(states[j], c).ref && !states[j].pool.Holds(c)
    decreases j
  {
    hide Inv, Apply, Enabled, Loses, PoolOk;
    RunKeepsInv(states, steps, j - 1);
    RunKeepsInv(states, steps, j);
    assert Enabled(states[j - 1], steps[j - 1]) && states[j] == Apply(states[j - 1], steps[j - 1]);
    if i == j - 1 {
      RoughStepLoses(states[i], steps[i], c);
    } else {
      RoughStepsLose(states, steps, i, j - 1, c);
      LostStaysLost(states[j - 1], steps[j - 1], c);
    }
    LostIsUsed(states[j], c);
  }

  lemma LostIsUsed(s: State, c: CallId)
    requires Inv(s) && c in s.hold
    ensures RecOf(s, c).ref && !s.pool.Holds(c)
  {
    HeldIsNotPooled(s, c);
  }

  lemma RoughStepLoses(s: State, step: Step, c: CallId)
    requires Inv(s) && Enabled(s, step) && Loses(s, step, c)
    ensures c in Apply(s, step).hold && Apply(s, step).hold[c].Lost?
  {
    hide Inv, GiveBack, Ended, Told, PastOf;
    if step.RunCallback? {
      CallbackHasReply(s, step.at);
    }
  }

  lemma CallbackHasReply(s: State, at: nat)
    requires Inv(s) && at < |s.queue|
    ensures RecOf(s, s.queue[at]).callback.Some? && RecOf(s, s.queue[at]).reply.Some?
  {
    QueuedIsHeld(s, at);
    assert HoldOk(s, s.queue[at]);
  }

  lemma CompletionKeepsHold(s: State, k: Key, a: Answer, pushed: bool, c: CallId)
    requires k in s.pending && s.pending[k] != c
    ensures Lookup(Answered(s, k, a, pushed).hold, c) == Lookup(s.hold, c) == Lookup(Expired(s, k, pushed).hold, c)
  {
    hide RecOf, Ended, PastOf;
  }

  lemma WriteFailedKeepsHold(s: State, d: CallId, k: Key, c: CallId)
    requires d != c
    ensures Lookup(WriteFailed(s, d, k).hold, c) == Lookup(s.hold, c)
  {
    hide RecOf, Ended, PastOf, Told, GiveBack;
  }

  lemma CalledBackKeepsHold(s: State, at: nat, finishes: bool, c: CallId)
    requires at < |s.queue| && s.queue[at] != c
    ensures Lookup(CalledBack(s, at, finishes).hold, c) == Lookup(s.hold, c)
  {
    hide RecOf, Ended, PastOf, Told, GiveBack;
  }

  lemma ReleasedKeepsHold(s: State, d: CallId, k: Key, seen: CallId, c: CallId)
    requires d != c
    ensures Lookup(Released(s, d, k, seen).hold, c) == Lookup(s.hold, c)
  {
    hide RecOf, Ended, PastOf, Told, GiveBack;
  }

  lemma LostStaysLost(s: State, step: Step, c: CallId)
    requires Inv(s) && Enabled(s, step) && c in s.hold && s.hold[c].Lost?
    ensures c in Apply(s, step).hold && Apply(s, step).hold[c].Lost?
  {
    hide Inv, BeingWritten, RecOf, PastOf, LastNumber, Ended, Told, GiveBack, Take;
    hide Answered, Expired, WriteFailed, CalledBack, Released;
    assert Lookup(s.hold, c) == Some(s.hold[c]);
    match step
    case Respond(client, a, pushed) =>
      var k := Key(client, a.number);
      if k in s.pending {
        LostIsNotPending(s, c, k);
        CompletionKeepsHold(s, k, a, pushed, c);
      }
    case Expire(k, pushed) =>
      if k in s.pending {
        LostIsNotPending(s, c, k);
        CompletionKeepsHold(s.(timers := s.timers - {k}), k, Answer(0, Empty, None), pushed, c);
      }
    case RunCallback(at, finishes) =>
      CallbackIsThere(s, at);
      CalledBackKeepsHold(s, at, finishes, c);
    case FailWrite(d) => WriteFailedKeepsHold(s, d, s.hold[d].key, c);
    case Look(d) => ReleasedKeepsHold(s, d, s.hold[d].key, d, c);
    case Collect(d) =>
      var out := s.(recs := s.recs[d := RecOf(s, d).(done := RecOf(s, d).done[1..])]);
      ReleasedKeepsHold(out, d, s.hold[d].key, RecOf(s, d).done[0], c);
    case Dismiss(d) =>
      if s.hold[d].Refused? && s.hold[d].refused.Some? { ReleasedKeepsHold(s, d, s.hold[d].refused.value, d, c); }
    case Refuse(d, _) => TakenIsUnused(s, d);
    case Post(_, d, _) => TakenIsUnused(s, d);
    case Register(_, d, _) => TakenIsUnused(s, d);
    case _ =>
  }

  lemma LostIsNotPending(s: State, c: CallId, k: Key)
    requires Inv(s) && c in s.hold && s.hold[c].Lost? && k in s.pending
    ensures s.pending[k] != c
  {
    hide PoolOk, QueueOk, HoldOk;
    assert KeyOk(s, k);
  }

  lemma SmoothStepLosesNothing(s: State, step: Step, c: CallId)
    requires Enabled(s, step) && Smooth(step) && c in Apply(s, step).hold && Apply(s, step).hold[c].Lost?
    ensures c in s.hold && s.hold[c].Lost?
  {
    hide BeingWritten, RecOf, GiveBack, HandOver, Take, Ended, Told, PastOf, LastNumber;
    hide Answered, Expired, Lookup, CalledBack, WriteFailed;
    match step
    case Respond(client, a, pushed) =>
      if Key(client, a.number) in s.pending { AnsweredLosesNothing(s, Key(client, a.number), a, c); }
    case Expire(k, pushed) =>
      if k in s.pending { ExpiredLosesNothing(s.(timers := s.timers - {k}), k, c); }
    case RunCallback(at, _) => CalledBackLosesNothing(s, at, c);
    case FailWrite(d) => WriteFailedLosesNothing(s, d, s.hold[d].key, c);
    case _ =>
  }

  lemma CalledBackLosesNothing(s: State, at: nat, c: CallId)
    requires at < |s.queue| && c in CalledBack(s, at, true).hold && CalledBack(s, at, true).hold[c].Lost?
    ensures c in s.hold && s.hold[c].Lost?
  {
    hide GiveBack, RecOf, Lookup, Told;
  }

  lemma WriteFailedLosesNothing(s: State, d: CallId, k: Key, c: CallId)
    requires c in WriteFailed(s, d, k).hold && WriteFailed(s, d, k).hold[c].Lost?
    ensures c in s.hold && s.hold[c].Lost?
  {
    hide GiveBack, RecOf, Lookup, Told, Ended;
  }

  lemma AnsweredLosesNothing(s: State, k: Key, a: Answer, c: CallId)
    requires k in s.pending && c in Answered(s, k, a, true).hold && Answered(s, k, a, true).hold[c].Lost?
    ensures c in s.hold && s.hold[c].Lost?
  {
    hide HandOver, RecOf, Ended;
  }

  lemma ExpiredLosesNothing(s: State, k: Key, c: CallId)
    requires k in s.pending && c in Expired(s, k, true).hold && Expired(s, k, true).hold[c].Lost?
    ensures c in s.hold && s.hold[c].Lost?
  {
    hide HandOver, RecOf, Ended;
  }
}
