/**
 * `myst.Input` (src/myst.js): the registry of pointer callbacks. Each of the three event
 * types keeps a list of `[callback, state, id]` registrations; an event runs the list from
 * the newest registration to the oldest, skipping those bound to a state that is not
 * active. Callbacks and states are identified by references; the object `on` returns is
 * represented by the registration's token.
 */
module Inputs {
  import opened Wrappers

  datatype EventType = Press | Move | Release

  /** The event type a name stands for in `cb[eventType]`. */
  function EventTypeOf(name: string): (r: Option<EventType>)
    ensures r == Some(Press) <==> name == "press"
    ensures r == Some(Move) <==> name == "move"
    ensures r == Some(Release) <==> name == "release"
  {
    if name == "press" then Some(Press)
    else if name == "move" then Some(Move)
    else if name == "release" then Some(Release)
    else None
  }

  type Callback = nat
  type StateRef = nat

  /** One registration, `[callback, state, id]`. */
  datatype Entry = Entry(token: nat, callback: Callback, state: Option<StateRef>, id: Option<string>)

  /** The pointer event behind a dispatch: a mouse event with its button, the value of
      `e.which || e.button`, or a touch event with the number of touches. */
  datatype Pointer = Mouse(button: int) | Touch(touches: nat)

  /** JavaScript truthiness of an optional string argument. */
  predicate Truthy(s: Option<string>) {
    s.Some? && s.value != ""
  }

  /** Whether a handler goes on to dispatch: mouse presses and releases only for the first
      button, touches only when a single finger is down. */
  predicate Accepted(t: EventType, p: Pointer) {
    match p
    case Mouse(button) => t == Move || button == 1
    case Touch(touches) => touches <= 1
  }

  /** A registration runs when it is not bound to a state, or its state is active. */
  predicate Eligible(e: Entry, active: set<StateRef>) {
    e.state.None? || e.state.value in active
  }

  /** The callbacks a list runs, newest registration first. */
  function Calls(list: seq<Entry>, active: set<StateRef>): (r: seq<Callback>)
    ensures |r| <= |list|
  {
    if list == [] then []
    else Calls(list[1..], active) + if Eligible(list[0], active) then [list[0].callback] else []
  }

  /** The list without the registrations carrying `id`, in the same order. */
  function Without(list: seq<Entry>, id: string): (r: seq<Entry>)
    ensures |r| <= |list|
  {
    if list == [] then []
    else (if list[0].id == Some(id) then [] else [list[0]]) + Without(list[1..], id)
  }

  /** `off(type, id)` keeps exactly the registrations with another id. */
  lemma {:induction false} WithoutKeeps(list: seq<Entry>, id: string)
    ensures forall e :: e in Without(list, id) <==> e in list && e.id != Some(id)
  {
    if list != [] {
      WithoutKeeps(list[1..], id);
      assert list == [list[0]] + list[1..];
    }
  }

  /** Dispatch runs a callback exactly when it has an eligible registration, and the newest
      registration runs first. */
  lemma {:induction false} CallsOf(list: seq<Entry>, active: set<StateRef>, e: Entry)
    ensures forall c :: c in Calls(list, active) <==> exists i :: 0 <= i < |list| && Eligible(list[i], active) && list[i].callback == c
    ensures Calls(list + [e], active) == (if Eligible(e, active) then [e.callback] else []) + Calls(list, active)
  {
    if list != [] {
      CallsOf(list[1..], active, e);
      assert (list + [e])[1..] == list[1..] + [e];
      forall c | c in Calls(list, active)
        ensures exists i :: 0 <= i < |list| && Eligible(list[i], active) && list[i].callback == c
      {
        if c in Calls(list[1..], active) {
          var i :| 0 <= i < |list[1..]| && Eligible(list[1..][i], active) && list[1..][i].callback == c;
          assert list[i + 1] == list[1..][i];
        }
      }
      forall c | exists i :: 0 <= i < |list| && Eligible(list[i], active) && list[i].callback == c
        ensures c in Calls(list, active)
      {
        var i :| 0 <= i < |list| && Eligible(list[i], active) && list[i].callback == c;
        if i > 0 {
          assert list[1..][i - 1] == list[i];
        }
      }
    } else {
      assert [] + [e] == [e];
    }
  }

  /** `bindTo(state)` on the object `on` returned: a truthy state is recorded in the
      registration, wherever it still is. */
  function Bound(list: seq<Entry>, token: nat, state: StateRef): (r: seq<Entry>)
    ensures |r| == |list|
    ensures forall i :: 0 <= i < |list| ==> r[i] == if list[i].token == token then list[i].(state := Some(state)) else list[i]
  {
    seq(|list|, i requires 0 <= i < |list| => if list[i].token == token then list[i].(state := Some(state)) else list[i])
  }

  class Input {
    var cb: map<EventType, seq<Entry>>
    var nextToken: nat

    ghost predicate Valid()
      reads this
    {
      Press in cb && Move in cb && Release in cb &&
      forall t, i :: t in cb && 0 <= i < |cb[t]| ==> cb[t][i].token < nextToken
    }

    constructor ()
      ensures Valid() && cb == map[Press := [], Move := [], Release := []]
    {
      cb := map[Press := [], Move := [], Release := []];
      nextToken := 0;
    }

    /** `on(eventType, callback, id)`: appends an unbound registration to the type's list;
        an unknown type has no list, and pushing onto it is a TypeError. */
    method On(eventType: string, callback: Callback, id: Option<string>) returns (r: Result<nat>)
      requires Valid()
      modifies this
      ensures Valid()
      ensures EventTypeOf(eventType).None? ==> r.Err? && cb == old(cb)
      ensures EventTypeOf(eventType).Some? ==> (r.Ok? &&
        var t := EventTypeOf(eventType).value;
        cb == old(cb)[t := old(cb)[t] + [Entry(r.value, callback, None, id)]] &&
        forall u, i :: u in old(cb) && 0 <= i < |old(cb)[u]| ==> old(cb)[u][i].token != r.value)
    {
      var t := EventTypeOf(eventType);
      if t.None? {
        return Err("TypeError: Cannot read properties of undefined (reading 'push')");
      }
      var token := nextToken;
      cb := cb[t.value := cb[t.value] + [Entry(token, callback, None, id)]];
      nextToken := nextToken + 1;
      return Ok(token);
    }

    /** `bindTo(state)` on the registration `token`; a falsy state changes nothing. */
    method BindTo(token: nat, state: Option<StateRef>)
      requires Valid()
      modifies this
      ensures Valid()
      ensures state.None? ==> cb == old(cb)
      ensures state.Some? ==> cb == map t | t in old(cb) :: Bound(old(cb)[t], token, state.value)
    {
      if state.Some? {
        cb := map t | t in cb :: Bound(cb[t], token, state.value);
      }
    }

    /** The backward walk over one list, splicing out each registration carrying the id. */
    static method RemoveId(entries: seq<Entry>, id: string) returns (list: seq<Entry>)
      ensures list == Without(entries, id)
    {
      list := entries;
      var i := |list|;
      while i > 0
        invariant 0 <= i <= |entries|
        invariant list == entries[..i] + Without(entries[i..], id)
      {
        i := i - 1;
        assert entries[i..] == [entries[i]] + entries[i + 1..];
        if list[i].id == Some(id) {
          list := list[..i] + list[i + 1..];
        }
      }
      assert entries[..0] + Without(entries[0..], id) == Without(entries, id);
    }

    /** `off(eventType, id)`: with neither, every list is emptied; with a type alone, that
        list; with an id, the registrations of that type carrying the id are removed and the
        rest keep their order. */
    method Off(eventType: Option<string>, id: Option<string>)
      requires Valid()
      modifies this
      ensures Valid()
      ensures !Truthy(eventType) && !Truthy(id) ==> cb == map[Press := [], Move := [], Release := []]
      ensures Truthy(eventType) && !Truthy(id) ==>
        cb == match EventTypeOf(eventType.value) case None => old(cb) case Some(t) => old(cb)[t := []]
      ensures Truthy(id) ==>
        cb == if eventType.None? || EventTypeOf(eventType.value).None? then old(cb)
              else old(cb)[EventTypeOf(eventType.value).value := Without(old(cb)[EventTypeOf(eventType.value).value], id.value)]
    {
      if !Truthy(eventType) && !Truthy(id) {
        cb := map[Press := [], Move := [], Release := []];
      } else if !Truthy(id) {
        var t := EventTypeOf(eventType.value);
        if t.Some? {
          cb := cb[t.value := []];
        }
      } else {
        if eventType.None? || EventTypeOf(eventType.value).None? {
          return;
        }
        var t := EventTypeOf(eventType.value).value;
        var list := RemoveId(cb[t], id.value);
        WithoutKeeps(cb[t], id.value);
        cb := cb[t := list];
      }
    }

    /** A mouse or touch handler: when the event is accepted, runs the type's list from the
        newest registration to the oldest and returns the callbacks it called. */
    method Dispatch(t: EventType, pointer: Pointer, active: set<StateRef>) returns (called: seq<Callback>)
      requires Valid()
      ensures called == if Accepted(t, pointer) then Calls(cb[t], active) else []
    {
      called := [];
      if !Accepted(t, pointer) {
        return;
      }
      var list := cb[t];
      var i := |list|;
      while i > 0
        invariant 0 <= i <= |list|
        invariant called == Calls(list[i..], active)
      {
        i := i - 1;
        assert list[i..][1..] == list[i + 1..];
        if Eligible(list[i], active) {
          called := called + [list[i].callback];
        }
      }
    }
  }
}
