/**
 * The game-state lifecycle of `myst.State` and `myst.Game` (src/myst.js): a state runs its
 * `init` hook once, on its first activation or through `initStates`; `setState` exits the
 * current state and enters the next, so that exactly one state is active. Also the view
 * modes `setViewMode` selects.
 */
module Games {
  import opened Wrappers
  import opened Strings

  /** The user hooks a state's lifecycle calls. */
  datatype Hook = Init | Enter | Exit

  /** How many times hook h appears in a log. */
  function Occurrences(calls: seq<Hook>, h: Hook): nat
    decreases |calls|
  {
    if calls == [] then 0
    else Occurrences(calls[..|calls| - 1], h) + (if calls[|calls| - 1] == h then 1 else 0)
  }

  /** Whether the last `enter`/`exit` of a log is an `enter`. */
  function Entered(calls: seq<Hook>): bool
    decreases |calls|
  {
    if calls == [] then false
    else if calls[|calls| - 1] == Enter then true
    else if calls[|calls| - 1] == Exit then false
    else Entered(calls[..|calls| - 1])
  }

  /** Appending one hook to a log. */
  lemma AppendHook(calls: seq<Hook>, h: Hook)
    ensures forall x :: Occurrences(calls + [h], x) == Occurrences(calls, x) + (if h == x then 1 else 0)
    ensures Entered(calls + [h]) == (if h == Enter then true else if h == Exit then false else Entered(calls))
  {
    assert (calls + [h])[..|calls|] == calls;
  }

  class State {
    var initialized: bool
    var active: bool
    /** The hooks called on this state so far, in order. */
    var calls: seq<Hook>

    /** `init` ran exactly once if the state is initialized and never otherwise, and the
        state is active exactly when its last `enter`/`exit` was an `enter`. */
    ghost predicate Valid()
      reads this
    {
      Occurrences(calls, Init) == (if initialized then 1 else 0) &&
      (active <==> Entered(calls))
    }

    /** `new myst.State(options)` */
    constructor ()
      ensures Valid() && !initialized && !active && calls == []
    {
      initialized := false;
      active := false;
      calls := [];
    }

    /** `_initState(surface)`: runs `init` the first time only. */
    method InitState()
      requires Valid()
      modifies this
      ensures Valid() && initialized && active == old(active)
      ensures calls == old(calls) + (if old(initialized) then [] else [Init])
    {
      if !initialized {
        AppendHook(calls, Init);
        initialized := true;
        calls := calls + [Init];
      }
    }

    /** `_active = false` followed by the `exit` hook. */
    method Leave()
      requires Valid()
      modifies this
      ensures Valid() && !active && initialized == old(initialized) && calls == old(calls) + [Exit]
    {
      AppendHook(calls, Exit);
      active := false;
      calls := calls + [Exit];
    }

    /** `_active = true` followed by the `enter` hook. */
    method Join()
      requires Valid()
      modifies this
      ensures Valid() && active && initialized == old(initialized) && calls == old(calls) + [Enter]
    {
      AppendHook(calls, Enter);
      active := true;
      calls := calls + [Enter];
    }
  }

  /** `setViewMode`'s argument: a name, or a mode number used as is. */
  datatype Mode = Name(name: string) | Number(n: int)

  const Center := 1
  const ScaleFit := 2
  const ScaleStretch := 3
  const Expand := 4

  /** The mode a name selects, compared trimmed and lower-cased: any unknown name centers. */
  function ViewModeOf(mode: Mode): (r: int)
    ensures mode.Number? ==> r == mode.n
    ensures mode.Name? ==> Center <= r <= Expand
    ensures mode.Name? ==> (r == ScaleFit <==> Lower(Trim(mode.name)) in {"scale-fit", "scale_fit"})
    ensures mode.Name? ==> (r == ScaleStretch <==> Lower(Trim(mode.name)) in {"scale-stretch", "scale_stretch"})
    ensures mode.Name? ==> (r == Expand <==> Lower(Trim(mode.name)) == "expand")
  {
    match mode
    case Number(n) => n
    case Name(name) =>
      var key := Lower(Trim(name));
      if key == "scale-fit" || key == "scale_fit" then ScaleFit
      else if key == "scale-stretch" || key == "scale_stretch" then ScaleStretch
      else if key == "expand" then Expand
      else Center
  }

  const NoViewHandler := "TypeError: viewHandlers.init[view_mode] is not a function"

  class Game {
    /** The current state, `undefined` before the first `setState`. */
    var state: Option<State>
    /** The states this game has entered. */
    ghost var states: set<State>
    var viewMode: int
    /** Whether the resize listener is attached: the mode has an update handler. */
    var listening: bool

    /** Every state the game knows keeps its own invariant, and exactly the current one is
        active. */
    ghost predicate Valid()
      reads this, states
    {
      (state.Some? ==> state.value in states) &&
      forall s :: s in states ==> s.Valid() && (s.active <==> state == Some(s))
    }

    constructor ()
      ensures Valid() && state.None? && states == {} && viewMode == 0 && !listening
    {
      state := None;
      states := {};
      viewMode := 0;
      listening := false;
    }

    /** `setState(next)`: the current state is deactivated and exited, the next one is
        initialized if it never was, then activated and entered. */
    method SetState(next: State)
      requires Valid() && next.Valid()
      requires next !in states ==> !next.active
      modifies this, next, if state.Some? then {state.value} else {}
      ensures Valid() && state == Some(next) && states == old(states) + {next}
      ensures next.active && next.initialized
      ensures next.calls == old(next.calls) + (if old(state) == Some(next) then [Exit] else []) +
        (if old(next.initialized) then [] else [Init]) + [Enter]
      ensures old(state).Some? && old(state).value != next ==>
        !old(state).value.active && old(state).value.calls == old(state.value.calls) + [Exit]
      ensures viewMode == old(viewMode) && listening == old(listening)
    {
      ExitCurrent();
      Activate(next);
    }

    /** The second half of `setState`: with no known state active, the next one becomes the
        current state, is initialized if it never was, and is entered. */
    method Activate(next: State)
      requires Quiet() && next.Valid() && !next.active
      modifies this, next
      ensures Valid() && state == Some(next) && states == old(states) + {next}
      ensures next.active && next.initialized
      ensures next.calls == old(next.calls) + (if old(next.initialized) then [] else [Init]) + [Enter]
      ensures viewMode == old(viewMode) && listening == old(listening)
    {
      state := Some(next);
      states := states + {next};
      if !next.initialized {
        next.InitState();
      }
      next.Join();
      assert forall s :: s in old(states) && s != next ==> s.Valid() && !s.active;
    }

    /** No known state is active. */
    ghost predicate Quiet()
      reads this, states
    {
      forall s :: s in states ==> s.Valid() && !s.active
    }

    /** The first half of `setState`: the current state, if any, is deactivated and
        exited. */
    method ExitCurrent()
      requires Valid()
      modifies if state.Some? then {state.value} else {}
      ensures Quiet()
      ensures state.Some? ==> state.value.initialized == old(state.value.initialized) && state.value.calls == old(state.value.calls) + [Exit]
    {
      if state.Some? {
        state.value.Leave();
      }
    }

    /** `initStates(states)`: initializes, in order, each listed state that is not yet
        initialized; a state listed twice is initialized once. */
    method InitStates(list: seq<State>)
      requires Valid()
      requires forall s :: s in list ==> s.Valid()
      modifies set s | s in list
      ensures Valid()
      ensures forall s :: s in list ==> s.Valid() && s.initialized && s.active == old(s.active)
      ensures forall s :: s in list ==> s.calls == old(s.calls) + (if old(s.initialized) then [] else [Init])
    {
      ghost var done: set<State> := {};
      for i := 0 to |list|
        invariant Valid()
        invariant forall s :: s in list ==> s.Valid() && s.active == old(s.active)
        invariant forall j :: 0 <= j < i ==> list[j] in done
        invariant forall s :: s in done ==> (s in list && s.initialized &&
          s.calls == old(s.calls) + (if old(s.initialized) then [] else [Init]))
        invariant forall s :: s in list && s !in done ==> s.initialized == old(s.initialized) && s.calls == old(s.calls)
      {
        InitListed(list[i]);
        done := done + {list[i]};
      }
    }

    /** One listed state: initialized unless it already is. */
    method InitListed(s: State)
      requires Valid() && s.Valid()
      modifies s
      ensures Valid() && s.Valid() && s.initialized && s.active == old(s.active)
      ensures s.calls == old(s.calls) + (if old(s.initialized) then [] else [Init])
    {
      if !s.initialized {
        s.InitState();
      }
    }

    /** `setViewMode(mode)`: the mode is set first; the resize listener stays attached
        exactly when the mode has an update handler (scale-fit and expand); a mode without
        an init handler (anything but 1 to 4) then fails. */
    method SetViewMode(mode: Mode) returns (r: Result<()>)
      modifies this
      ensures viewMode == ViewModeOf(mode)
      ensures listening <==> viewMode == ScaleFit || viewMode == Expand
      ensures r.Ok? <==> Center <= viewMode <= Expand
      ensures mode.Name? ==> r.Ok?
      ensures state == old(state) && states == old(states)
    {
      viewMode := ViewModeOf(mode);
      listening := viewMode == ScaleFit || viewMode == Expand;
      if viewMode < Center || viewMode > Expand {
        return Err(NoViewHandler);
      }
      return Ok(());
    }
  }

  /** Over any sequence of `setState` calls, a state's `init` runs at most once. */
  lemma InitAtMostOnce(s: State)
    requires s.Valid()
    ensures Occurrences(s.calls, Init) <= 1
    ensures s.initialized <==> Init in s.calls
  {
    OccursIn(s.calls, Init);
  }

  /** A hook is in a log exactly when it occurs a positive number of times. */
  lemma {:induction false} OccursIn(calls: seq<Hook>, h: Hook)
    ensures h in calls <==> Occurrences(calls, h) > 0
    decreases |calls|
  {
    if calls != [] {
      var init := calls[..|calls| - 1];
      OccursIn(init, h);
      assert calls == init + [calls[|calls| - 1]];
    }
  }
}
