/** The output limit of one connection, shared by two threads. The base loop reserves room for a frame in
    tryReserveFrame: a look at connected_, then two loads, a comparison and a compare-and-swap, again from the first of
    the two loads when the swap fails. The io loop sends, flushes, and turns
    reservations into buffered bytes, storing its estimate and releasing the reservation in separate steps. Every
    atomic access is one step; the order is sequentially consistent. */
module BackPressure {

  /** Where the base thread is inside tryReserveFrame. */
  datatype Base =
    | Idle
    | Trying(frame: nat)            // at the head of the loop
    | LoadedPending(frame: nat, pending: nat)
    | LoadedBoth(frame: nat, pending: nat, queued: nat)

  /** Where the io thread is inside sendInLoop, handleWrite or sendReservedFrameInLoop. */
  datatype Io = Free | Appended | Flushed | ReservedAppended(frame: nat) | ReservedStored(frame: nat)

  datatype State = State(
    connected: bool,
    buffered: nat,                  // readable bytes of outputBuffer_
    estimate: nat,                  // pendingBytesEstimate_
    queued: nat,                    // queuedFrameBytes_
    inflight: seq<nat>,             // reserved frames on their way to the io loop
    base: Base,
    io: Io)

  datatype Step =
    | CheckConnected(frame: nat)
    | LoadPending
    | LoadQueued
    | Swap
    | FailSwap                      // a weak compare-and-swap may fail at any time
    | SendInLoop(frame: nat)
    | Flush(n: nat)
    | StoreEstimate
    | TakeReserved
    | Release
    | Close

  const INIT := State(true, 0, 0, 0, [], Idle, Free)

  function Sum(frames: seq<nat>): nat {
    if frames == [] then 0 else frames[0] + Sum(frames[1..])
  }

  /** Bytes already appended whose reservation is not yet released. */
  function InHand(io: Io): nat {
    if io.ReservedAppended? || io.ReservedStored? then io.frame else 0
  }

  /** Buffered bytes and bytes that are reserved but not yet in the buffer. */
  function Outstanding(s: State): nat {
    s.buffered + Sum(s.inflight)
  }

  function Released(queued: nat, frame: nat): nat {
    if queued < frame then 0 else queued - frame
  }

  predicate Enabled(s: State, limit: nat, step: Step) {
    match step
    case CheckConnected(_) => s.base.Idle? && s.connected
    case LoadPending => s.base.Trying?
    case LoadQueued => s.base.LoadedPending?
    case Swap => s.base.LoadedBoth? && s.queued == s.base.queued
    case FailSwap => s.base.LoadedBoth?
    case SendInLoop(frame) => s.io.Free? && s.connected && s.buffered + frame <= limit
    case Flush(n) => s.io.Free? && 0 < n <= s.buffered
    case StoreEstimate => s.io.Appended? || s.io.Flushed? || s.io.ReservedAppended?
    case TakeReserved => s.io.Free? && s.inflight != []
    case Release => s.io.ReservedStored?
    case Close => true
  }

  function Apply(s: State, limit: nat, step: Step): State
    requires Enabled(s, limit, step)
  {
    match step
    case CheckConnected(frame) => s.(base := Trying(frame))
    case LoadPending => s.(base := LoadedPending(s.base.frame, s.estimate))
    case LoadQueued =>
      if s.base.pending + s.queued + s.base.frame > limit then s.(base := Idle)
      else s.(base := LoadedBoth(s.base.frame, s.base.pending, s.queued))
    case Swap => s.(queued := s.queued + s.base.frame, inflight := s.inflight + [s.base.frame], base := Idle)
    case FailSwap => s.(base := Trying(s.base.frame))
    case SendInLoop(frame) => s.(buffered := s.buffered + frame, io := Appended)
    case Flush(n) => s.(buffered := s.buffered - n, io := Flushed)
    case StoreEstimate =>
      s.(estimate := s.buffered, io := if s.io.ReservedAppended? then ReservedStored(s.io.frame) else Free)
    case TakeReserved =>
      var frame, rest := s.inflight[0], s.inflight[1..];
      if s.connected then s.(buffered := s.buffered + frame, inflight := rest, io := ReservedAppended(frame))
      else s.(queued := Released(s.queued, frame), inflight := rest)
    case Release => s.(queued := Released(s.queued, s.io.frame), io := Free)
    case Close => s.(connected := false)
  }

  // ---------------------------------------------------------------------------------------------
  // What every step keeps

  /** How the estimate and the counter relate to the truth while the io thread is between two stores. */
  ghost predicate CountersOk(s: State, limit: nat) {
    && s.queued == Sum(s.inflight) + InHand(s.io) <= limit
    && (s.io.Free? || s.io.ReservedStored? ==> s.estimate == s.buffered)
    && (s.io.Appended? ==> s.buffered <= limit)
    && (s.io.Flushed? ==> s.buffered <= s.estimate)
    && (s.io.ReservedAppended? ==> s.buffered == s.estimate + s.io.frame)
  }

  /** A base thread whose load still fits the limit has at most twice the limit outstanding behind it. */
  ghost predicate BoundOk(s: State, limit: nat) {
    && Outstanding(s) <= 3 * limit
    && (s.base.LoadedPending? && s.base.pending <= limit ==> Outstanding(s) <= 2 * limit)
    && (s.base.LoadedBoth? ==> Outstanding(s) <= 2 * limit)
    && (s.base.LoadedBoth? ==> s.base.pending + s.base.queued + s.base.frame <= limit)
  }

  ghost predicate Inv(s: State, limit: nat) {
    CountersOk(s, limit) && BoundOk(s, limit)
  }

  lemma {:induction false} SumAppends(frames: seq<nat>, frame: nat)
    ensures Sum(frames + [frame]) == Sum(frames) + frame
  {
    if frames != [] {
      assert (frames + [frame])[1..] == frames[1..] + [frame];
      SumAppends(frames[1..], frame);
    } else {
      assert [frame][1..] == [];
    }
  }

  lemma SwapKeepsInv(s: State, limit: nat)
    requires Inv(s, limit) && Enabled(s, limit, Swap)
    ensures Inv(Apply(s, limit, Swap), limit)
  {
    SumAppends(s.inflight, s.base.frame);
  }

  /** The other steps of the base thread change only where it is. */
  lemma BaseKeepsInv(s: State, limit: nat, step: Step)
    requires Inv(s, limit) && Enabled(s, limit, step)
    requires step.CheckConnected? || step.LoadPending? || step.LoadQueued? || step.FailSwap?
    ensures Inv(Apply(s, limit, step), limit)
  {
    var r := Apply(s, limit, step);
    assert r == s.(base := r.base);
  }

  lemma SendKeepsInv(s: State, limit: nat, frame: nat)
    requires Inv(s, limit) && Enabled(s, limit, SendInLoop(frame))
    ensures Inv(Apply(s, limit, SendInLoop(frame)), limit)
  {
  }

  lemma FlushKeepsInv(s: State, limit: nat, n: nat)
    requires Inv(s, limit) && Enabled(s, limit, Flush(n))
    ensures Inv(Apply(s, limit, Flush(n)), limit)
  {
  }

  lemma StoreKeepsInv(s: State, limit: nat)
    requires Inv(s, limit) && Enabled(s, limit, StoreEstimate)
    ensures Inv(Apply(s, limit, StoreEstimate), limit)
  {
  }

  lemma TakeKeepsInv(s: State, limit: nat)
    requires Inv(s, limit) && Enabled(s, limit, TakeReserved)
    ensures Inv(Apply(s, limit, TakeReserved), limit)
  {
    assert Sum(s.inflight) == s.inflight[0] + Sum(s.inflight[1..]);
  }

  lemma ReleaseKeepsInv(s: State, limit: nat)
    requires Inv(s, limit) && Enabled(s, limit, Release)
    ensures Inv(Apply(s, limit, Release), limit)
  {
  }

  lemma StepKeepsInv(s: State, limit: nat, step: Step)
    requires Inv(s, limit) && Enabled(s, limit, step)
    ensures Inv(Apply(s, limit, step), limit)
  {
    match step
    case Swap => SwapKeepsInv(s, limit);
    case SendInLoop(frame) => SendKeepsInv(s, limit, frame);
    case Flush(n) => FlushKeepsInv(s, limit, n);
    case StoreEstimate => StoreKeepsInv(s, limit);
    case TakeReserved => TakeKeepsInv(s, limit);
    case Release => ReleaseKeepsInv(s, limit);
    case Close =>
    case _ => BaseKeepsInv(s, limit, step);
  }

  // ---------------------------------------------------------------------------------------------
  // Every run

  ghost predicate Next(s: State, limit: nat, r: State) {
    exists step :: Enabled(s, limit, step) && Apply(s, limit, step) == r
  }

  ghost predicate IsRun(states: seq<State>, limit: nat) {
    |states| > 0 && forall i :: 0 <= i < |states| - 1 ==> Next(states[i], limit, states[i + 1])
  }

  ghost predicate Reachable(s: State, limit: nat) {
    exists states: seq<State> :: IsRun(states, limit) && states[0] == INIT && states[|states| - 1] == s
  }

  lemma {:induction false} RunKeepsInv(states: seq<State>, limit: nat, n: nat)
    requires IsRun(states, limit) && states[0] == INIT && n < |states|
    ensures Inv(states[n], limit)
  {
    if n > 0 {
      RunKeepsInv(states, limit, n - 1);
      assert Next(states[n - 1], limit, states[n - 1 + 1]);
      var step :| Enabled(states[n - 1], limit, step) && Apply(states[n - 1], limit, step) == states[n];
      StepKeepsInv(states[n - 1], limit, step);
    }
  }

  lemma ReachableIsGood(s: State, limit: nat)
    requires Reachable(s, limit)
    ensures Inv(s, limit)
  {
    var states: seq<State> :| IsRun(states, limit) && states[0] == INIT && states[|states| - 1] == s;
    RunKeepsInv(states, limit, |states| - 1);
  }

  lemma ReachableStep(s: State, limit: nat, step: Step)
    requires Reachable(s, limit) && Enabled(s, limit, step)
    ensures Reachable(Apply(s, limit, step), limit)
  {
    var states: seq<State> :| IsRun(states, limit) && states[0] == INIT && states[|states| - 1] == s;
    var r := Apply(s, limit, step);
    var more := states + [r];
    forall i | 0 <= i < |more| - 1 ensures Next(more[i], limit, more[i + 1]) {
      if i < |states| - 1 {
        assert more[i] == states[i] && more[i + 1] == states[i + 1];
      } else {
        assert more[i] == s && more[i + 1] == r;
      }
    }
    assert IsRun(more, limit) && more[0] == INIT && more[|more| - 1] == r;
  }

  /** The reservation counter is the sum of the frames reserved and not yet released, it stays within the limit, and
      no release ever finds less than its frame there. */
  lemma ReservationsBalance(s: State, limit: nat)
    requires Reachable(s, limit)
    ensures s.queued == Sum(s.inflight) + InHand(s.io) <= limit
    ensures s.inflight != [] ==> s.queued >= s.inflight[0]
    ensures Enabled(s, limit, Release) ==> s.queued >= s.io.frame
  {
    ReachableIsGood(s, limit);
  }

  /** However the loads and the swap interleave with the io loop, the outstanding bytes stay within three times the
      limit. The two counters together exceed that only by the frame that is in the buffer and not yet released. */
  lemma OutstandingIsBounded(s: State, limit: nat)
    requires Reachable(s, limit)
    ensures Outstanding(s) <= 3 * limit
    ensures s.buffered + s.queued == Outstanding(s) + InHand(s.io)
    ensures InHand(s.io) == 0 ==> s.buffered + s.queued <= 3 * limit
  {
    ReachableIsGood(s, limit);
  }

  /** The bound is reached: a stale load of the estimate lets a third full limit through. */
  lemma ThreeTimesIsReached(limit: nat)
    requires limit > 0
    ensures exists s :: Reachable(s, limit) && Outstanding(s) == 3 * limit
  {
    var s0 := INIT;
    assert Reachable(s0, limit) by {
      assert IsRun([s0], limit);
    }
    var s3 := ReserveWhole(s0, limit);
    ReachableStep(s3, limit, CheckConnected(limit));
    var t3 := Apply(s3, limit, CheckConnected(limit));
    ReachableStep(t3, limit, LoadPending);
    var s4 := Apply(t3, limit, LoadPending);
    var s9 := FillBehindLoad(s4, limit);
    ReachableStep(s9, limit, LoadQueued);
    var s10 := Apply(s9, limit, LoadQueued);
    ReachableStep(s10, limit, Swap);
    var s11 := Apply(s10, limit, Swap);
    SumAppends([], limit);
    assert Outstanding(s11) == 3 * limit;
  }

  lemma ReserveWhole(s: State, limit: nat) returns (r: State)
    requires Reachable(s, limit) && s == INIT
    ensures Reachable(r, limit) && r == State(true, 0, 0, limit, [limit], Idle, Free)
  {
    ReachableStep(s, limit, CheckConnected(limit));
    var s0 := Apply(s, limit, CheckConnected(limit));
    ReachableStep(s0, limit, LoadPending);
    var s1 := Apply(s0, limit, LoadPending);
    ReachableStep(s1, limit, LoadQueued);
    var s2 := Apply(s1, limit, LoadQueued);
    ReachableStep(s2, limit, Swap);
    r := Apply(s2, limit, Swap);
  }

  /** The io loop fills the buffer twice over behind a base thread that has already loaded the estimate. */
  lemma FillBehindLoad(s: State, limit: nat) returns (r: State)
    requires Reachable(s, limit) && s == State(true, 0, 0, limit, [limit], LoadedPending(limit, 0), Free)
    ensures Reachable(r, limit) && r == State(true, 2 * limit, 2 * limit, 0, [], LoadedPending(limit, 0), Free)
  {
    ReachableStep(s, limit, SendInLoop(limit));
    var s1 := Apply(s, limit, SendInLoop(limit));
    ReachableStep(s1, limit, StoreEstimate);
    var s2 := Apply(s1, limit, StoreEstimate);
    ReachableStep(s2, limit, TakeReserved);
    var s3 := Apply(s2, limit, TakeReserved);
    ReachableStep(s3, limit, StoreEstimate);
    var s4 := Apply(s3, limit, StoreEstimate);
    ReachableStep(s4, limit, Release);
    r := Apply(s4, limit, Release);
  }

  // ---------------------------------------------------------------------------------------------
  // Each function as one step

  datatype Call = Reserve(frame: nat) | Send(frame: nat) | Write(n: nat) | Reserved | Shut

  predicate CanCall(s: State, limit: nat, call: Call) {
    s.base.Idle? && s.io.Free? &&
    match call
    case Reserve(frame) => s.connected && s.estimate + s.queued + frame <= limit
    case Send(frame) => s.connected && s.buffered + frame <= limit
    case Write(n) => 0 < n <= s.buffered
    case Reserved => s.inflight != []
    case Shut => true
  }

  /** Every call is the fine steps of its function, one after the other. */
  function Called(s: State, limit: nat, call: Call): State
    requires CanCall(s, limit, call)
  {
    match call
    case Reserve(frame) =>
      var loaded := Apply(Apply(s, limit, CheckConnected(frame)), limit, LoadPending);
      Apply(Apply(loaded, limit, LoadQueued), limit, Swap)
    case Send(frame) => Apply(Apply(s, limit, SendInLoop(frame)), limit, StoreEstimate)
    case Write(n) => Apply(Apply(s, limit, Flush(n)), limit, StoreEstimate)
    case Reserved =>
      var t := Apply(s, limit, TakeReserved);
      if t.io.Free? then t else Apply(Apply(t, limit, StoreEstimate), limit, Release)
    case Shut => Apply(s, limit, Close)
  }

  ghost predicate CallInv(s: State, limit: nat) {
    && s.base.Idle? && s.io.Free? && s.estimate == s.buffered
    && s.queued == Sum(s.inflight) <= limit
    && Outstanding(s) <= 2 * limit
  }

  lemma CallKeepsInv(s: State, limit: nat, call: Call)
    requires CallInv(s, limit) && CanCall(s, limit, call)
    ensures CallInv(Called(s, limit, call), limit)
  {
    match call
    case Reserve(frame) => SumAppends(s.inflight, frame);
    case _ =>
  }

  ghost predicate IsCallRun(states: seq<State>, limit: nat) {
    |states| > 0 && states[0] == INIT &&
    forall i :: 0 <= i < |states| - 1 ==> NextCall(states[i], limit, states[i + 1])
  }

  ghost predicate NextCall(s: State, limit: nat, r: State) {
    exists call :: CanCall(s, limit, call) && Called(s, limit, call) == r
  }

  /** When each function runs as one step, twice the limit is never exceeded. */
  lemma {:induction false} CallsStayWithinTwice(states: seq<State>, limit: nat, n: nat)
    requires IsCallRun(states, limit) && n < |states|
    ensures CallInv(states[n], limit) && states[n].buffered + states[n].queued <= 2 * limit
  {
    if n > 0 {
      CallsStayWithinTwice(states, limit, n - 1);
      assert NextCall(states[n - 1], limit, states[n - 1 + 1]);
      var call :| CanCall(states[n - 1], limit, call) && Called(states[n - 1], limit, call) == states[n];
      CallKeepsInv(states[n - 1], limit, call);
    }
  }

  /** And twice the limit is reached: a full reservation, then a full send. */
  lemma TwiceIsReached(limit: nat)
    ensures exists states: seq<State> :: IsCallRun(states, limit) && Outstanding(states[|states| - 1]) == 2 * limit
  {
    var s1 := Called(INIT, limit, Reserve(limit));
    var s2 := Called(s1, limit, Send(limit));
    var states := [INIT, s1, s2];
    assert NextCall(INIT, limit, s1) && NextCall(s1, limit, s2);
    assert IsCallRun(states, limit);
    SumAppends([], limit);
    assert Outstanding(states[|states| - 1]) == 2 * limit;
  }
}
