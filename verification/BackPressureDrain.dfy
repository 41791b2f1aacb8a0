/** The other side of the limit of module BackPressure: what each function does when it is not disturbed, that a closed
    connection takes nothing in, and that from every state the outstanding bytes can drain to nothing. */
module BackPressureDrains {

  import opened BackPressure

  /** Undisturbed, a reservation holds room for its frame at the end of the queue, a send and a write change the buffer
      by what they append and take, and the first reserved frame moves into the buffer, or nowhere once the connection
      is closed, giving its reservation back either way. The estimate is the buffered bytes after each of them. */
  lemma CallsTakeEffect(s: State, limit: nat, call: Call)
    requires CallInv(s, limit) && CanCall(s, limit, call)
    ensures var r := Called(s, limit, call);
            && r.base.Idle? && r.io.Free? && r.estimate == r.buffered
            && match call
               case Reserve(frame) =>
                 r == s.(queued := s.queued + frame, inflight := s.inflight + [frame])
               case Send(frame) =>
                 r.buffered == s.buffered + frame && r == s.(buffered := r.buffered, estimate := r.buffered)
               case Write(n) => r.buffered == s.buffered - n && r == s.(buffered := r.buffered, estimate := r.buffered)
               case Reserved =>
                 && s.queued >= s.inflight[0] && r.queued == s.queued - s.inflight[0] && r.inflight == s.inflight[1..]
                 && r.connected == s.connected
                 && r.buffered == s.buffered + if s.connected then s.inflight[0] else 0
               case Shut => r == s.(connected := false)
  {
  }

  // ---------------------------------------------------------------------------------------------
  // A closed connection

  lemma ClosedStep(s: State, limit: nat, step: Step)
    requires Enabled(s, limit, step)
    ensures step.Close? ==> !Apply(s, limit, step).connected
    ensures !s.connected ==> !Apply(s, limit, step).connected && Apply(s, limit, step).buffered <= s.buffered
  {
  }

  ghost predicate ClosedAt(states: seq<State>, k: nat)
    requires k + 1 < |states|
  {
    !states[k].connected ==> !states[k + 1].connected && states[k + 1].buffered <= states[k].buffered
  }

  lemma NextIsClosed(states: seq<State>, limit: nat, k: nat)
    requires IsRun(states, limit) && k + 1 < |states|
    ensures ClosedAt(states, k)
  {
    var s, r := states[k], states[k + 1];
    assert Next(s, limit, r);
    var step :| Enabled(s, limit, step) && Apply(s, limit, step) == r;
    ClosedStep(s, limit, step);
  }

  lemma {:induction false} ClosedFrom(states: seq<State>, i: nat, j: nat)
    requires forall k: nat :: k + 1 < |states| ==> ClosedAt(states, k)
    requires i <= j < |states| && !states[i].connected
    ensures !states[j].connected && states[j].buffered <= states[i].buffered
    decreases j
  {
    if i < j {
      ClosedFrom(states, i, j - 1);
      assert ClosedAt(states, j - 1);
    }
  }

  /** A close is final, and from then on nothing goes into the buffer, whatever was reserved before. */
  lemma ClosedTakesNothing(states: seq<State>, limit: nat, i: nat, j: nat)
    requires IsRun(states, limit) && i <= j < |states| && !states[i].connected
    ensures !states[j].connected && states[j].buffered <= states[i].buffered
  {
    forall k: nat | k + 1 < |states| ensures ClosedAt(states, k) {
      NextIsClosed(states, limit, k);
    }
    ClosedFrom(states, i, j);
  }

  // ---------------------------------------------------------------------------------------------
  // Everything drains

  ghost predicate Leads(s: State, limit: nat, r: State) {
    exists states: seq<State> :: IsRun(states, limit) && states[0] == s && states[|states| - 1] == r
  }

  lemma LeadsNowhere(s: State, limit: nat)
    ensures Leads(s, limit, s)
  {
    assert IsRun([s], limit) && [s][0] == s;
  }

  lemma LeadsAfter(s: State, limit: nat, step: Step, r: State)
    requires Enabled(s, limit, step) && Leads(Apply(s, limit, step), limit, r)
    ensures Leads(s, limit, r)
  {
    var rest: seq<State> :| IsRun(rest, limit) && rest[0] == Apply(s, limit, step) && rest[|rest| - 1] == r;
    var states := [s] + rest;
    assert Next(s, limit, rest[0]);
    forall i | 0 <= i < |states| - 1 ensures Next(states[i], limit, states[i + 1]) {
      assert i > 0 ==> states[i] == rest[i - 1] && Next(rest[i - 1], limit, rest[i - 1 + 1]);
    }
    assert IsRun(states, limit) && states[0] == s && states[|states| - 1] == r;
  }

  /** What the base thread still has to do in tryReserveFrame when nobody interferes. */
  function BaseRank(s: State): nat {
    match s.base
    case Idle => 0
    case LoadedBoth(_, _, queued) => if queued == s.queued then 1 else 5
    case LoadedPending(_, _) => 2
    case Trying(_) => 3
  }

  function IoRank(io: Io): nat {
    match io
    case Free => 0
    case Appended => 1
    case Flushed => 1
    case ReservedStored(_) => 1
    case ReservedAppended(_) => 2
  }

  /** What the io thread still has to do: its present function, the reserved frames, and the buffer. */
  function IoWork(s: State): nat {
    8 * |s.inflight| + (if s.buffered > 0 then 4 else 0) + IoRank(s.io)
  }

  lemma BaseStep(s: State, limit: nat) returns (step: Step)
    requires !s.base.Idle?
    ensures Enabled(s, limit, step) && BaseRank(Apply(s, limit, step)) < BaseRank(s)
  {
    match s.base
    case Trying(_) => step := LoadPending;
    case LoadedPending(_, _) => step := LoadQueued;
    case LoadedBoth(_, _, queued) => step := if queued == s.queued then Swap else FailSwap;
  }

  lemma IoStep(s: State, limit: nat) returns (step: Step)
    requires IoWork(s) > 0 && s.base.Idle?
    ensures Enabled(s, limit, step) && Apply(s, limit, step).base.Idle? && IoWork(Apply(s, limit, step)) < IoWork(s)
  {
    match s.io
    case Appended => step := StoreEstimate;
    case Flushed => step := StoreEstimate;
    case ReservedAppended(_) => step := StoreEstimate;
    case ReservedStored(_) => step := Release;
    case Free => step := if s.inflight != [] then TakeReserved else Flush(s.buffered);
  }

  lemma {:induction false} Drains(s: State, limit: nat) returns (r: State)
    requires Inv(s, limit)
    ensures Leads(s, limit, r) && Inv(r, limit) && r.base.Idle? && IoWork(r) == 0
    decreases BaseRank(s), IoWork(s)
  {
    if s.base.Idle? && IoWork(s) == 0 {
      r := s;
      LeadsNowhere(s, limit);
    } else {
      var step: Step;
      if s.base.Idle? {
        step := IoStep(s, limit);
      } else {
        step := BaseStep(s, limit);
      }
      StepKeepsInv(s, limit, step);
      r := Drains(Apply(s, limit, step), limit);
      LeadsAfter(s, limit, step, r);
    }
  }

  predicate Drained(s: State, limit: nat) {
    && Outstanding(s) == 0 && s.queued == 0 && s.estimate == 0
    && (s.connected ==> CanCall(s, limit, Reserve(limit)) && CanCall(s, limit, Send(limit)))
  }

  lemma NoWorkIsDrained(s: State, limit: nat)
    requires Inv(s, limit) && s.base.Idle? && IoWork(s) == 0
    ensures Drained(s, limit)
  {
  }

  /** From every reachable state, with the threads anywhere inside their functions, a run leads to one in which nothing
      is buffered or reserved, both counters are zero, and the connection takes a whole limit's worth again. */
  lemma EverythingDrains(s: State, limit: nat) returns (r: State)
    requires Reachable(s, limit)
    ensures Leads(s, limit, r) && Drained(r, limit)
  {
    ReachableIsGood(s, limit);
    r := Drains(s, limit);
    NoWorkIsDrained(r, limit);
  }
}
