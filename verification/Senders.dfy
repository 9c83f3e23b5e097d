/**
How much one socket may hold when several threads send on it at once. A thread whose frame overflowed the queue closes
the socket only in its next step, so others may still put theirs in between.
*/
module Senders {
  import opened Frames
  import opened Outbound
  import opened Wrappers

  /** A thread that may send, or one whose frame just overflowed and that closes the socket next. */
  datatype Phase = Idle | Overflowed

  datatype Socket<F> = Socket(items: seq<Item<F>>, closed: bool, threads: seq<Phase>)

  datatype Step<F> =
    | Send(thread: nat, item: Item<F>)
    | End(thread: nat)
    | EndElsewhere
    | Write

  predicate Enabled<F>(s: Socket<F>, step: Step<F>) {
    match step
    case Send(thread, item) => thread < |s.threads| && s.threads[thread].Idle? && item.size <= MAX_OUTBOUND_BYTES
    case End(thread) => thread < |s.threads| && s.threads[thread].Overflowed?
    case EndElsewhere => true
    case Write => s.items != []
  }

  function After<F>(s: Socket<F>, step: Step<F>): Socket<F>
    requires Enabled(s, step)
  {
    match step
    case Send(thread, item) =>
      if s.closed then s
      else
        var items := PutItem(s.items, item);
        var phase := if Bytes(items) > MAX_QUEUED_BYTES then Overflowed else Idle;
        s.(items := items, threads := s.threads[thread := phase])
    case End(thread) => s.(closed := true, threads := s.threads[thread := Idle])
    case EndElsewhere => s.(closed := true)
    case Write => s.(items := s.items[1..])
  }

  ghost predicate IsRun<F>(states: seq<Socket<F>>, steps: seq<Step<F>>, threads: nat) {
    && |states| == |steps| + 1
    && states[0] == Socket([], false, seq(threads, _ => Idle))
    && forall i | 0 <= i < |steps| :: Enabled(states[i], steps[i]) && states[i + 1] == After(states[i], steps[i])
  }

  function Overflows(threads: seq<Phase>): (n: nat)
    ensures n <= |threads|
  {
    if threads == [] then 0 else (if threads[0].Overflowed? then 1 else 0) + Overflows(threads[1..])
  }

  lemma {:induction false} OverflowsUpdate(threads: seq<Phase>, k: nat, phase: Phase)
    requires k < |threads|
    ensures Overflows(threads[k := phase]) ==
            Overflows(threads) - (if threads[k].Overflowed? then 1 else 0) + (if phase.Overflowed? then 1 else 0)
  {
    if k > 0 {
      assert threads[k := phase][1..] == threads[1..][k - 1 := phase];
      OverflowsUpdate(threads[1..], k - 1, phase);
    }
  }

  /** While the socket is open, each overflow not yet followed by its close accounts for at most one frame. */
  predicate Inv<F>(s: Socket<F>, threads: nat) {
    && |s.threads| == threads
    && Bounded(Bytes(s.items), threads)
    && (!s.closed ==> Bounded(Bytes(s.items), Overflows(s.threads)))
  }

  predicate Bounded(bytes: nat, frames: nat) {
    bytes <= MAX_QUEUED_BYTES + MAX_OUTBOUND_BYTES * frames
  }

  /** What overflows now exceeds what was there by one frame at most; what does not is within the limit alone. */
  lemma OneFrameMore(bytes: nat, more: nat, frames: nat)
    requires Bounded(bytes, frames) && more <= bytes + MAX_OUTBOUND_BYTES
    ensures Bounded(more, frames + if more > MAX_QUEUED_BYTES then 1 else 0)
  {
    Scaled(0, frames);
  }

  lemma StepKeepsInv<F>(s: Socket<F>, step: Step<F>, threads: nat)
    requires Inv(s, threads) && Enabled(s, step)
    ensures Inv(After(s, step), threads)
  {
    if step.Send? {
      SendKeepsInv(s, step, threads);
    } else if step.End? {
      Scaled(Overflows(s.threads), threads);
    }
  }

  lemma Scaled(few: nat, many: nat)
    requires few <= many
    ensures MAX_OUTBOUND_BYTES * few <= MAX_OUTBOUND_BYTES * many
  {
  }

  /** A send that overflows an open queue adds one frame at most, and one thread that will close the socket. */
  lemma SendAddsOneFrame<F>(s: Socket<F>, step: Step<F>)
    requires !s.closed && step.Send? && Enabled(s, step)
    ensures var next := After(s, step);
      && |next.threads| == |s.threads|
      && Bytes(next.items) <= Bytes(s.items) + MAX_OUTBOUND_BYTES
      && Overflows(next.threads) == Overflows(s.threads) + if Bytes(next.items) > MAX_QUEUED_BYTES then 1 else 0
  {
    var next := After(s, step);
    PutBytes(s.items, step.item);
    OverflowsUpdate(s.threads, step.thread, next.threads[step.thread]);
  }

  lemma SendKeepsInv<F>(s: Socket<F>, step: Step<F>, threads: nat)
    requires Inv(s, threads) && step.Send? && Enabled(s, step)
    ensures Inv(After(s, step), threads)
  {
    if !s.closed {
      SendAddsOneFrame(s, step);
      OneFrameMore(Bytes(s.items), Bytes(After(s, step).items), Overflows(s.threads));
      Scaled(Overflows(After(s, step).threads), threads);
    }
  }

  lemma {:induction false} RunKeepsInv<F>(states: seq<Socket<F>>, steps: seq<Step<F>>, threads: nat, n: nat)
    requires IsRun(states, steps, threads) && n < |states|
    ensures Inv(states[n], threads)
  {
    if n > 0 {
      RunKeepsInv(states, steps, threads, n - 1);
      StepKeepsInv(states[n - 1], steps[n - 1], threads);
    }
  }

  /** With `threads` concurrent senders a socket never holds more than its limit and one frame for each of them. */
  lemma HeldBytesAreBounded<F>(states: seq<Socket<F>>, steps: seq<Step<F>>, threads: nat)
    requires IsRun(states, steps, threads)
    ensures forall n | 0 <= n < |states| ::
      Bytes(states[n].items) <= MAX_QUEUED_BYTES + MAX_OUTBOUND_BYTES * threads
  {
    forall n | 0 <= n < |states|
      ensures Bytes(states[n].items) <= MAX_QUEUED_BYTES + MAX_OUTBOUND_BYTES * threads
    {
      RunKeepsInv(states, steps, threads, n);
    }
  }

  /** With one sender the bound is the limit and one frame. */
  lemma OneSenderHoldsOneFrameMore<F>(states: seq<Socket<F>>, steps: seq<Step<F>>)
    requires IsRun(states, steps, 1)
    ensures forall n | 0 <= n < |states| :: Bytes(states[n].items) <= MAX_QUEUED_BYTES + MAX_OUTBOUND_BYTES
  {
    HeldBytesAreBounded(states, steps, 1);
  }

  /** The socket still open whose first `k` threads overflowed it with a largest frame each. */
  ghost predicate FilledBy(run: (seq<Socket<nat>>, seq<Step<nat>>), threads: nat, k: nat) {
    && IsRun(run.0, run.1, threads) && k <= threads
    && var s := run.0[|run.0| - 1];
      && !s.closed && |s.threads| == threads
      && Bytes(s.items) == MAX_QUEUED_BYTES + MAX_OUTBOUND_BYTES * k
      && forall i | k <= i < threads :: s.threads[i].Idle?
  }

  lemma FirstFills(threads: nat) returns (run: (seq<Socket<nat>>, seq<Step<nat>>))
    requires 0 < threads
    ensures FilledBy(run, threads, 0)
  {
    var s: Socket<nat> := Socket([], false, seq(threads, _ => Idle));
    var first: Step<nat> := Send(0, Item(0, MAX_QUEUED_BYTES, None));
    assert PutItem(s.items, first.item) == [first.item];
    assert Bytes([first.item]) == MAX_QUEUED_BYTES;
    assert After(s, first).threads == s.threads;
    run := ([s, After(s, first)], [first]);
  }

  lemma OneMoreFills(shorter: (seq<Socket<nat>>, seq<Step<nat>>), threads: nat, k: nat)
    returns (run: (seq<Socket<nat>>, seq<Step<nat>>))
    requires FilledBy(shorter, threads, k) && k < threads
    ensures FilledBy(run, threads, k + 1)
  {
    var s := shorter.0[|shorter.0| - 1];
    var step: Step<nat> := Send(k, Item(0, MAX_OUTBOUND_BYTES, None));
    PutBytes(s.items, step.item);
    run := (shorter.0 + [After(s, step)], shorter.1 + [step]);
  }

  /** The bound is reached: any number of senders may each leave one largest frame past the limit. */
  lemma {:induction false} BoundIsReached(threads: nat, k: nat) returns (run: (seq<Socket<nat>>, seq<Step<nat>>))
    requires 0 < threads && k <= threads
    ensures FilledBy(run, threads, k)
  {
    if k == 0 {
      run := FirstFills(threads);
    } else {
      var shorter := BoundIsReached(threads, k - 1);
      run := OneMoreFills(shorter, threads, k - 1);
    }
  }
}
