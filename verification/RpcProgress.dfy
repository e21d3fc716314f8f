/** That remote calls get somewhere (jrpc/rpcclient.go): whatever state a process is in, a call can be made, and the
    answer to one that is pending can reach its caller. */
module RpcProgress {
  import opened Collections
  import opened CallSpec
  import opened RpcMachine
  import opened RpcSafety
  import opened RpcTheorems

  /** The steps lead from one state to another. */
  ghost predicate Leads(s: State, steps: seq<Step>, t: State)
    decreases |steps|
  {
    if steps == [] then t == s else Enabled(s, steps[0]) && Leads(Apply(s, steps[0]), steps[1..], t)
  }

  lemma {:induction false} LeadsOn(s: State, first: seq<Step>, t: State, last: seq<Step>, u: State)
    requires Leads(s, first, t) && Leads(t, last, u)
    ensures Leads(s, first + last, u)
    decreases |first|
  {
    hide Enabled, Apply;
    if first == [] {
      assert first + last == last;
    } else {
      LeadsOn(Apply(s, first[0]), first[1..], t, last, u);
      assert (first + last)[1..] == first[1..] + last;
    }
  }

  lemma OneLeads(s: State, step: Step)
    requires Enabled(s, step)
    ensures Leads(s, [step], Apply(s, step))
  {
    hide Enabled, Apply;
    assert Leads(Apply(s, step), [step][1..], Apply(s, step));
  }

  /** The call pending under `k` is written, and its caller waits, or will be called back. */
  ghost predicate Waiting(s: State, k: Key) {
    && Inv(s) && k in s.pending && s.pending[k] in s.hold
    && (s.hold[s.pending[k]] == Blocked(k) || s.hold[s.pending[k]] == Outstanding(k))
  }

  lemma CanBeWritten(s: State, k: Key) returns (steps: seq<Step>, t: State)
    requires Inv(s) && k in s.pending
    ensures Leads(s, steps, t) && |steps| <= 1 && Inv(t) && k in t.pending && t.pending[k] == s.pending[k]
    ensures t.pending[k] in t.hold && !t.hold[t.pending[k]].Registered? && Holder(t, k, t.pending[k])
  {
    hide Inv, Apply;
    PendingIsOpen(s, k);
    var c := s.pending[k];
    steps, t := [], s;
    if s.hold[c].Registered? {
      var step := Write(c);
      WriteGoesOn(s, c, k);
      OneLeads(s, step);
      StepKeepsInv(s, step);
      steps, t := [step], Apply(s, step);
    }
  }

  lemma WriteGoesOn(s: State, c: CallId, k: Key)
    requires c in s.hold && s.hold[c] == Registered(k) && k in s.pending && s.pending[k] == c
    ensures Enabled(s, Write(c))
    ensures var t := Apply(s, Write(c));
            && k in t.pending && t.pending[k] == c && c in t.hold
            && (t.hold[c] == Outstanding(k) || t.hold[c] == Returned(k))
  {
  }

  lemma LookGoesOn(s: State, c: CallId, k: Key)
    requires c in s.hold && s.hold[c] == Returned(k) && Open(s, k, c)
    ensures Enabled(s, Look(c))
    ensures var t := Apply(s, Look(c)); k in t.pending && t.pending[k] == c && c in t.hold && t.hold[c] == Blocked(k)
  {
  }

  lemma CanWait(s: State, k: Key) returns (steps: seq<Step>, t: State)
    requires Inv(s) && k in s.pending
    ensures Leads(s, steps, t) && |steps| <= 2 && Waiting(t, k) && t.pending[k] == s.pending[k]
  {
    hide Inv, Apply, Leads, Enabled;
    steps, t := CanBeWritten(s, k);
    PendingIsOpen(t, k);
    var c := t.pending[k];
    if t.hold[c].Returned? {
      var look := Look(c);
      LookGoesOn(t, c, k);
      OneLeads(t, look);
      StepKeepsInv(t, look);
      LeadsOn(s, steps, t, [look], Apply(t, look));
      assert Waiting(Apply(t, look), k);
      steps, t := steps + [look], Apply(t, look);
    }
  }

  /** The answer has come, and is on its way to the caller. */
  ghost predicate Arrived(s: State, k: Key, c: CallId, value: nat) {
    && Inv(s) && k !in s.pending && k in s.past && s.past[k].ends == [Outcome(None, Some(value))] && c in s.hold
    && (s.hold[c] == Blocked(k) || s.hold[c] == Queued(k))
  }

  lemma CanBeAnswered(s: State, k: Key, value: nat) returns (step: Step)
    requires Waiting(s, k)
    ensures step == Respond(k.client, Answer(k.number, Decoded(value), None), true)
    ensures Enabled(s, step) && Arrived(Apply(s, step), k, s.pending[k], value)
  {
    hide Inv;
    step := Respond(k.client, Answer(k.number, Decoded(value), None), true);
    NotBeingWritten(s, k);
    PendingIsOpen(s, k);
    StepKeepsInv(s, step);
    AnsweredWith(s, k, value);
  }

  lemma NotBeingWritten(s: State, k: Key)
    requires Waiting(s, k)
    ensures !BeingWritten(s, k)
    ensures s.hold[s.pending[k]].Outstanding? ==> RecOf(s, s.pending[k]).callback.Some?
  {
    hide PoolOk, QueueOk, KeyOk;
    assert HoldOk(s, s.pending[k]);
    forall d | d in s.hold ensures s.hold[d] != Registered(k) {
      assert HoldOk(s, d);
    }
  }

  lemma AnsweredWith(s: State, k: Key, value: nat)
    requires k in s.pending && s.pending[k] in s.hold && Open(s, k, s.pending[k]) && PastOf(s, k).ends == []
    ensures var c, t := s.pending[k], Answered(s, k, Answer(k.number, Decoded(value), None), true);
            && k !in t.pending && k in t.past && t.past[k].ends == [Outcome(None, Some(value))] && c in t.hold
            && t.hold[c] == if RecOf(s, c).callback.Some? then Queued(k) else s.hold[c]
  {
  }

  lemma CanBeTold(s: State, k: Key, c: CallId, value: nat) returns (step: Step)
    requires Arrived(s, k, c, value)
    ensures Enabled(s, step) && k in Apply(s, step).past
    ensures Apply(s, step).past[k].told == Apply(s, step).past[k].ends == [Outcome(None, Some(value))]
    ensures c !in Apply(s, step).hold
  {
    hide PoolOk, KeyOk;
    assert HoldOk(s, c);
    if s.hold[c].Blocked? {
      step := Collect(c);
    } else {
      assert c in s.queue;
      var at: nat :| at < |s.queue| && s.queue[at] == c;
      step := RunCallback(at, true);
    }
  }

  /** Whatever state a process has come to, a call that is pending can be answered with any value, and the very next
      thing its caller learns is that value and no error; its call object is released then. */
  lemma AnyAnswerCanReachItsCaller(states: seq<State>, steps: seq<Step>, i: nat, k: Key, value: nat)
    returns (more: seq<Step>, t: State)
    requires Run(states, steps) && i < |states| && k in states[i].pending
    ensures Leads(states[i], more, t) && |more| <= 4 && k in t.past
    ensures t.past[k].told == t.past[k].ends == [Outcome(None, Some(value))] && states[i].pending[k] !in t.hold
  {
    hide Inv, Run, Apply, Enabled, Leads, Waiting, Arrived;
    RunKeepsInv(states, steps, i);
    more, t := CanWait(states[i], k);
    var answer := CanBeAnswered(t, k, value);
    OneLeads(t, answer);
    LeadsOn(states[i], more, t, [answer], Apply(t, answer));
    more, t := more + [answer], Apply(t, answer);
    var told := CanBeTold(t, k, states[i].pending[k], value);
    OneLeads(t, told);
    LeadsOn(states[i], more, t, [told], Apply(t, told));
    more, t := more + [told], Apply(t, told);
  }

  /** Any client can make a call at any time, in either way. */
  lemma CallsCanBeMade(s: State, client: nat, wantsCallback: bool) returns (c: CallId)
    ensures Enabled(s, Register(client, c, wantsCallback))
    ensures var k := Key(client, LastNumber(s, client) + 1);
            k in Apply(s, Register(client, c, wantsCallback)).pending
  {
    c := if s.pool.free != [] then s.pool.free[0] else Above(s.recs.Keys);
  }
}
