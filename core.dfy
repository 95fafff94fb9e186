/**
 * The core: a stack of states over one window. Input, updates and drawing
 * go to every state below the top whose background flag for them is
 * raised, from the bottom up, and then to the top state; a fixed timeslice
 * of updates catches the simulation up with the clock. The states' own
 * update and draw are left to the concrete states, so the core records
 * the calls it makes, in order, in `calls`.
 */
module Core {
  import opened Common
  import opened State

  /** Which background flag a dispatch reads. */
  datatype Kind = InputFlag | UpdateFlag | DrawFlag

  /** What a state is given. */
  datatype Msg = InputMsg(e: Event) | UpdateMsg(timeslice: int) | DrawMsg | SwitchMsg

  /** A call into the state at `index` of the stack, or the window's display after drawing. */
  datatype Call = Call(index: nat, msg: Msg) | Display

  function Flag(s: State, k: Kind): bool
    reads s
  {
    match k
    case InputFlag => s.pollInBackground
    case UpdateFlag => s.updateInBackground
    case DrawFlag => s.drawInBackground
  }

  /** The flags of kind `k` of the states, bottom first. */
  function Flags(states: seq<State>, k: Kind): (r: seq<bool>)
    reads states
    ensures |r| == |states|
  {
    if states == [] then [] else Flags(states[..|states| - 1], k) + [Flag(states[|states| - 1], k)]
  }

  /** Entry `i` of the flags is the flag of kind `k` of the state at `i`. */
  lemma {:induction false} FlagsAt(states: seq<State>, k: Kind, i: nat)
    requires i < |states|
    ensures Flags(states, k)[i] == Flag(states[i], k)
    decreases |states|
  {
    if i < |states| - 1 {
      assert states[..|states| - 1][i] == states[i];
      FlagsAt(states[..|states| - 1], k, i);
    }
  }

  /** The indices below `n` whose flag is raised, in ascending order. */
  function Flagged(flags: seq<bool>, n: nat): seq<nat>
    requires n <= |flags|
  {
    if n == 0 then [] else Flagged(flags, n - 1) + (if flags[n - 1] then [n - 1] else [])
  }

  /** `Flagged` holds exactly the flagged indices below `n`, each below `n`, in strictly ascending order. */
  lemma {:induction false} FlaggedExactly(flags: seq<bool>, n: nat)
    requires n <= |flags|
    ensures var r := Flagged(flags, n);
      (forall k: nat :: k in r <==> k < n && flags[k])
      && (forall i :: 0 <= i < |r| ==> r[i] < n)
      && (forall i, j :: 0 <= i < j < |r| ==> r[i] < r[j])
  {
    if n > 0 {
      FlaggedExactly(flags, n - 1);
    }
  }

  /**
   * The states a dispatch reaches, in the order it reaches them: each
   * flagged state below the top, bottom first, then the top.
   */
  function Receivers(flags: seq<bool>): seq<nat>
    requires |flags| > 0
  {
    Flagged(flags, |flags| - 1) + [|flags| - 1]
  }

  /**
   * A dispatch reaches the top state and exactly the flagged states below
   * it, in strictly ascending order, so the top is reached once, and last.
   */
  lemma ReceiversInOrder(flags: seq<bool>)
    requires |flags| > 0
    ensures var r := Receivers(flags);
      r != [] && r[|r| - 1] == |flags| - 1
      && (forall k: nat :: k in r <==> k == |flags| - 1 || (k < |flags| - 1 && flags[k]))
      && (forall i, j :: 0 <= i < j < |r| ==> r[i] < r[j])
  {
    FlaggedExactly(flags, |flags| - 1);
  }

  /** The top state is reached exactly once, and last. */
  lemma TopReachedOnce(flags: seq<bool>, i: nat)
    requires |flags| > 0 && i < |Receivers(flags)| && Receivers(flags)[i] == |flags| - 1
    ensures i == |Receivers(flags)| - 1
  {
    ReceiversInOrder(flags);
  }

  /** The same message to each index of `idx`, in order. */
  function Dispatch(idx: seq<nat>, m: Msg): (r: seq<Call>)
    ensures |r| == |idx| && forall i :: 0 <= i < |idx| ==> r[i] == Call(idx[i], m)
  {
    seq(|idx|, i requires 0 <= i < |idx| => Call(idx[i], m))
  }

  lemma DispatchAppend(idx: seq<nat>, k: nat, m: Msg)
    ensures Dispatch(idx + [k], m) == Dispatch(idx, m) + [Call(k, m)]
  {
  }

  /** The calls for a run of events, each given to the receivers in turn. */
  function InputCalls(events: seq<Event>, idx: seq<nat>): seq<Call>
  {
    if events == [] then [] else Dispatch(idx, InputMsg(events[0])) + InputCalls(events[1..], idx)
  }

  lemma {:induction false} InputCallsAppend(events: seq<Event>, e: Event, idx: seq<nat>)
    ensures InputCalls(events + [e], idx) == InputCalls(events, idx) + Dispatch(idx, InputMsg(e))
  {
    if events == [] {
      assert [e][1..] == [];
    } else {
      assert (events + [e])[1..] == events[1..] + [e];
      InputCallsAppend(events[1..], e, idx);
    }
  }

  /** The events pollEvent hands out: the queue up to and including the first Closed, which destroys the window. */
  function Delivered(events: seq<Event>): (r: seq<Event>)
    ensures |r| <= |events| && r == events[..|r|]
    ensures forall k :: 0 <= k < |r| - 1 ==> r[k] != Closed
    ensures |r| < |events| ==> r != [] && r[|r| - 1] == Closed
    ensures Closed !in events ==> r == events
  {
    if events == [] then []
    else if events[0] == Closed then [Closed]
    else [events[0]] + Delivered(events[1..])
  }

  /** After handing out the Closed event at `j`, with none before it, pollEvent has handed out exactly `Delivered`. */
  lemma {:induction false} DeliveredUpToClose(events: seq<Event>, j: nat)
    requires j < |events| && events[j] == Closed && Closed !in events[..j]
    ensures Delivered(events) == events[..j + 1]
  {
    if j > 0 {
      assert events[1..][..j - 1] == events[..j][1..];
      DeliveredUpToClose(events[1..], j - 1);
      assert events[..j + 1] == [events[0]] + events[1..][..j];
    }
  }

  /** The window size after the states have reacted to `events`: the clamp of the last resize, if any. */
  function SizeAfter(events: seq<Event>, size: (nat, nat)): (r: (nat, nat))
    ensures (forall k :: 0 <= k < |events| ==> !events[k].Resized?) ==> r == size
  {
    if events == [] then size
    else if events[|events| - 1].Resized? then ClampSize(events[|events| - 1].width, events[|events| - 1].height)
    else SizeAfter(events[..|events| - 1], size)
  }

  /** Taking one more event from the queue extends the calls and the size by that event alone. */
  lemma PollStep(events: seq<Event>, j: nat, got: seq<Event>, idx: seq<nat>, size: (nat, nat))
    requires j < |events| && got == events[..j] && Closed !in got
    ensures got + [events[j]] == events[..j + 1]
    ensures InputCalls(got + [events[j]], idx) == InputCalls(got, idx) + Dispatch(idx, InputMsg(events[j]))
    ensures SizeAfter(got + [events[j]], size)
      == if events[j].Resized? then ClampSize(events[j].width, events[j].height) else SizeAfter(got, size)
    ensures events[j] != Closed ==> Closed !in got + [events[j]]
    ensures events[j] == Closed ==> Delivered(events) == got + [events[j]] && Closed in events
  {
    if events[j] == Closed {
      DeliveredUpToClose(events, j);
    }
    assert got + [events[j]] == events[..j + 1];
    InputCallsAppend(got, events[j], idx);
    assert (got + [events[j]])[..j] == got;
  }

  /** The number of updates the catch-up loop runs to bring the simulation time up to the real time. */
  function Steps(simulationTime: int, realTime: int, timeslice: int): (n: nat)
    requires timeslice > 0 || simulationTime >= realTime
    decreases realTime - simulationTime
  {
    if simulationTime >= realTime then 0 else 1 + Steps(simulationTime + timeslice, realTime, timeslice)
  }

  /** The catch-up count is the ceiling of the time behind over the timeslice. */
  lemma {:induction false} StepsIsCeiling(simulationTime: int, realTime: int, timeslice: int)
    requires timeslice > 0
    ensures var n := Steps(simulationTime, realTime, timeslice);
      (simulationTime >= realTime ==> n == 0)
      && (simulationTime < realTime ==> (n - 1) * timeslice < realTime - simulationTime <= n * timeslice)
    decreases realTime - simulationTime
  {
    if simulationTime < realTime {
      var n' := Steps(simulationTime + timeslice, realTime, timeslice);
      StepsIsCeiling(simulationTime + timeslice, realTime, timeslice);
      assert (n' + 1) * timeslice == n' * timeslice + timeslice;
      if simulationTime + timeslice < realTime {
        assert (n' - 1) * timeslice == n' * timeslice - timeslice;
      }
    }
  }

  /**
   * With a timeslice of 0 or less the catch-up loop, once behind, never
   * ends: after any number of rounds the simulation time is still behind.
   */
  lemma {:induction false} StalledCatchUp(simulationTime: int, realTime: int, timeslice: int, k: nat)
    requires timeslice <= 0 && simulationTime < realTime
    ensures simulationTime + k * timeslice < realTime
  {
    if k > 0 {
      StalledCatchUp(simulationTime, realTime, timeslice, k - 1);
      assert k * timeslice == (k - 1) * timeslice + timeslice;
    }
  }

  /** One more round of the catch-up loop: the time moves on by one timeslice and one step is used up. */
  lemma CatchUpStep(simulationTime: int, realTime: int, timeslice: int, k: nat, sim: int)
    requires timeslice > 0 && sim < realTime && sim == simulationTime + k * timeslice
    requires Steps(simulationTime, realTime, timeslice) == k + Steps(sim, realTime, timeslice)
    ensures sim + timeslice == simulationTime + (k + 1) * timeslice
    ensures Steps(simulationTime, realTime, timeslice) == (k + 1) + Steps(sim + timeslice, realTime, timeslice)
  {
    assert (k + 1) * timeslice == k * timeslice + timeslice;
  }

  /** `s` repeated `n` times. */
  function Repeat(s: seq<Call>, n: nat): (r: seq<Call>)
    ensures |r| == n * |s|
  {
    if n == 0 then [] else Repeat(s, n - 1) + s
  }

  class Core {
    const window: Window
    const timeslice: int
    var stack: seq<State>
    /** The calls made into the states, in order. */
    var calls: seq<Call>

    /** Every state on the stack draws to the core's window. */
    predicate Valid()
      reads this`stack, stack
    {
      forall i :: 0 <= i < |stack| ==> stack[i].window == window
    }

    constructor (w: Window, ts: int)
      ensures window == w && timeslice == ts && stack == [] && calls == []
    {
      window, timeslice := w, ts;
      stack, calls := [], [];
    }

    /** getTopState: the last state pushed, or nothing for an empty stack. */
    function GetTopState(): (r: Option<State>)
      reads this
      ensures r.None? <==> stack == []
      ensures r.Some? ==> r.value == stack[|stack| - 1]
    {
      if stack == [] then None else Some(stack[|stack| - 1])
    }

    /** pushState: the state becomes the new top. */
    method PushState(s: State)
      modifies this`stack
      ensures stack == old(stack) + [s] && GetTopState() == Some(s)
      ensures old(Valid()) && s.window == window ==> Valid()
    {
      stack := stack + [s];
    }

    /**
     * popState: the top goes; if a state is left, the new top is told of
     * the switch once. Popping an empty stack is undefined behaviour.
     */
    method PopState()
      requires stack != [] && Valid()
      modifies this`stack, this`calls, window`size
      ensures stack == old(stack)[..|old(stack)| - 1] && Valid()
      ensures GetTopState() == if |old(stack)| > 1 then Some(old(stack)[|old(stack)| - 2]) else None
      ensures calls == old(calls) + if stack != [] then [Call(|stack| - 1, SwitchMsg)] else []
      ensures window.size == old(window.size)
    {
      stack := stack[..|stack| - 1];
      if stack != [] {
        calls := calls + [Call(|stack| - 1, SwitchMsg)];
        stack[|stack| - 1].OnStateSwitch();
      }
    }

    /** exit: close the window. */
    method Exit()
      modifies window`open
      ensures !window.open
    {
      window.Close();
    }

    /** The dispatch loop over the states below the top: each whose flag of kind `k` is raised gets `m`. */
    method DispatchBackground(k: Kind, m: Msg)
      requires stack != []
      modifies this`calls
      ensures calls == old(calls) + Dispatch(Flagged(Flags(stack, k), |stack| - 1), m)
    {
      var flags := Flags(stack, k);
      var maxIndex := |stack| - 2;
      var currIndex := 0;
      while currIndex <= maxIndex
        invariant 0 <= currIndex <= |stack| - 1
        invariant calls == old(calls) + Dispatch(Flagged(flags, currIndex), m)
      {
        FlagsAt(stack, k, currIndex);
        if Flag(stack[currIndex], k) {
          DispatchAppend(Flagged(flags, currIndex), currIndex, m);
          calls := calls + [Call(currIndex, m)];
        }
        currIndex := currIndex + 1;
      }
    }

    /** update: the flagged states below the top, bottom first, then the top, each given the timeslice. */
    method Update(ts: int)
      requires stack != []
      modifies this`calls
      ensures calls == old(calls) + Dispatch(Receivers(Flags(stack, UpdateFlag)), UpdateMsg(ts))
    {
      DispatchBackground(UpdateFlag, UpdateMsg(ts));
      DispatchAppend(Flagged(Flags(stack, UpdateFlag), |stack| - 1), |stack| - 1, UpdateMsg(ts));
      calls := calls + [Call(|stack| - 1, UpdateMsg(ts))];
    }

    /** draw: the flagged states below the top, bottom first, then the top, then the window is displayed. */
    method Draw()
      requires stack != []
      modifies this`calls
      ensures calls == old(calls) + Dispatch(Receivers(Flags(stack, DrawFlag)), DrawMsg) + [Display]
    {
      DispatchBackground(DrawFlag, DrawMsg);
      DispatchAppend(Flagged(Flags(stack, DrawFlag), |stack| - 1), |stack| - 1, DrawMsg);
      calls := calls + [Call(|stack| - 1, DrawMsg)];
      calls := calls + [Display];
    }

    /** The loop of getInput over the states below the top, for one event. */
    method DeliverBackground(e: Event)
      requires stack != [] && Valid()
      modifies this`calls, window`size
      ensures calls == old(calls) + Dispatch(Flagged(old(Flags(stack, InputFlag)), |stack| - 1), InputMsg(e))
      ensures window.size == old(window.size) || (e.Resized? && window.size == ClampSize(e.width, e.height))
    {
      ghost var flags := Flags(stack, InputFlag);
      var maxIndex := |stack| - 2;
      var currIndex := 0;
      while currIndex <= maxIndex
        invariant 0 <= currIndex <= |stack| - 1 && Valid()
        invariant calls == old(calls) + Dispatch(Flagged(flags, currIndex), InputMsg(e))
        invariant window.size == old(window.size) || (e.Resized? && window.size == ClampSize(e.width, e.height))
      {
        var st := stack[currIndex];
        FlagsAt(stack, InputFlag, currIndex);
        if st.PreviousStatePolled() {
          DispatchAppend(Flagged(flags, currIndex), currIndex, InputMsg(e));
          calls := calls + [Call(currIndex, InputMsg(e))];
          assert st.window == window;
          st.GetInput(e);
        }
        currIndex := currIndex + 1;
      }
    }

    /** One event of getInput given to the flagged states below the top and then to the top. */
    method DeliverEvent(e: Event)
      requires stack != [] && Valid()
      modifies this`calls, window`size
      ensures calls == old(calls) + Dispatch(Receivers(old(Flags(stack, InputFlag))), InputMsg(e))
      ensures window.size == if e.Resized? then ClampSize(e.width, e.height) else old(window.size)
    {
      ghost var flags := Flags(stack, InputFlag);
      if |stack| > 1 {
        DeliverBackground(e);
      } else {
        assert Flagged(flags, 0) == [];
      }
      DispatchAppend(Flagged(flags, |stack| - 1), |stack| - 1, InputMsg(e));
      calls := calls + [Call(|stack| - 1, InputMsg(e))];
      stack[|stack| - 1].GetInput(e);
    }

    /** One event taken from the queue: a Closed event closes the window; then the event is delivered. */
    method HandleEvent(e: Event, ghost r: seq<nat>)
      requires stack != [] && Valid() && r == Receivers(Flags(stack, InputFlag))
      modifies this`calls, window`size, window`open
      ensures r == Receivers(Flags(stack, InputFlag))
      ensures calls == old(calls) + Dispatch(r, InputMsg(e))
      ensures window.size == if e.Resized? then ClampSize(e.width, e.height) else old(window.size)
      ensures window.open == (old(window.open) && e != Closed)
    {
      if e == Closed {
        window.Close();
      }
      DeliverEvent(e);
    }

    /**
     * getInput over the queue `events`: while the window is open and an
     * event is waiting, a Closed event closes the window, and the event
     * goes to the flagged states below the top and then to the top.
     */
    method GetInput(events: seq<Event>)
      requires stack != [] && Valid()
      modifies this`calls, window`size, window`open
      ensures var got := if old(window.open) then Delivered(events) else [];
        calls == old(calls) + InputCalls(got, Receivers(Flags(stack, InputFlag)))
        && window.size == SizeAfter(got, old(window.size))
        && window.open == (old(window.open) && Closed !in events)
    {
      var j := PollEvents(events);
    }

    /** The polling loop of getInput; `j` counts the events taken from the queue. */
    method PollEvents(events: seq<Event>) returns (ghost j: nat)
      requires stack != [] && Valid()
      modifies this`calls, window`size, window`open
      ensures j <= |events|
      ensures !old(window.open) ==> j == 0 && !window.open
      ensures window.open ==> old(window.open) && events[..j] == events && Closed !in events
      ensures old(window.open) && !window.open ==> events[..j] == Delivered(events) && Closed in events
      ensures calls == old(calls) + InputCalls(events[..j], Receivers(Flags(stack, InputFlag)))
      ensures window.size == SizeAfter(events[..j], old(window.size))
    {
      j := 0;
      var k := 0;
      ghost var got: seq<Event> := [];
      ghost var r := Receivers(Flags(stack, InputFlag));
      while window.open && k < |events|
        invariant j == k <= |events| && got == events[..j] && Valid()
        invariant window.open ==> old(window.open) && Closed !in got
        invariant old(window.open) && !window.open ==> got == Delivered(events) && Closed in events
        invariant !old(window.open) ==> j == 0 && !window.open
        invariant calls == old(calls) + InputCalls(got, r)
        invariant window.size == SizeAfter(got, old(window.size))
      {
        PollOne(events, k, got, r, old(window.size), old(calls));
        got := got + [events[k]];
        k := k + 1;
        j := j + 1;
      }
    }

    /** One turn of the polling loop: the event at `j` is taken from the queue and handled. */
    method PollOne(events: seq<Event>, j: nat, ghost got: seq<Event>, ghost r: seq<nat>,
                   ghost size0: (nat, nat), ghost calls0: seq<Call>)
      requires stack != [] && Valid() && r == Receivers(Flags(stack, InputFlag))
      requires j < |events| && got == events[..j] && window.open && Closed !in got
      requires calls == calls0 + InputCalls(got, r) && window.size == SizeAfter(got, size0)
      modifies this`calls, window`size, window`open
      ensures got + [events[j]] == events[..j + 1]
      ensures window.open ==> Closed !in got + [events[j]]
      ensures !window.open ==> got + [events[j]] == Delivered(events) && Closed in events
      ensures calls == calls0 + InputCalls(got + [events[j]], r)
      ensures window.size == SizeAfter(got + [events[j]], size0)
    {
      PollStep(events, j, got, r, size0);
      HandleEvent(events[j], r);
    }

    /**
     * The catch-up loop of run: while the simulation time is behind the
     * real time, advance it by one timeslice and update. It stops only
     * when the timeslice is positive or nothing is behind.
     */
    method CatchUp(simulationTime: int, realTime: int) returns (sim: int)
      requires stack != [] && (timeslice > 0 || simulationTime >= realTime)
      modifies this`calls
      ensures var n := Steps(simulationTime, realTime, timeslice);
        sim == simulationTime + n * timeslice
        && calls == old(calls) + Repeat(Dispatch(Receivers(Flags(stack, UpdateFlag)), UpdateMsg(timeslice)), n)
    {
      ghost var round := Dispatch(Receivers(Flags(stack, UpdateFlag)), UpdateMsg(timeslice));
      ghost var k: nat := 0;
      sim := simulationTime;
      while sim < realTime
        invariant sim == simulationTime + k * timeslice && (sim < realTime ==> timeslice > 0)
        invariant Steps(simulationTime, realTime, timeslice) == k + Steps(sim, realTime, timeslice)
        invariant calls == old(calls) + Repeat(round, k)
        decreases realTime - sim
      {
        CatchUpStep(simulationTime, realTime, timeslice, k, sim);
        sim := sim + timeslice;
        Update(timeslice);
        k := k + 1;
      }
    }
  }
}
