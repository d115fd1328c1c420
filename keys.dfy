/**
 * `myst.KeyInput` (src/myst.js): the set of keys held down and the queue of key events.
 * A key-down event is queued only for a key that is not already down and a key-up event
 * only for a key that is, so the events of any one key alternate.
 */
module Keys {
  import opened Wrappers

  /** `KEYDOWN` (0) and `KEYUP` (1). */
  datatype EventType = KeyDown | KeyUp

  datatype KeyEvent = KeyEvent(kind: EventType, keycode: int)

  /** `isAlphanumeric(keycode)`: the codes of the digits, the capitals and the small letters. */
  function IsAlphanumeric(keycode: int): (r: bool)
    ensures r <==> 48 <= keycode <= 57 || 65 <= keycode <= 90 || 97 <= keycode <= 122
  {
    !(!(keycode > 47 && keycode < 58) && !(keycode > 64 && keycode < 91) && !(keycode > 96 && keycode < 123))
  }

  /** The kinds of the events for one key, in order. */
  function KindsFor(events: seq<KeyEvent>, key: int): seq<EventType>
    decreases |events|
  {
    if events == [] then []
    else
      var last := events[|events| - 1];
      KindsFor(events[..|events| - 1], key) + if last.keycode == key then [last.kind] else []
  }

  /** Down, up, down, up, ... */
  predicate Alternating(kinds: seq<EventType>) {
    forall i :: 0 <= i < |kinds| ==> kinds[i] == if i % 2 == 0 then KeyDown else KeyUp
  }

  /** Alternation survives one more event of the expected kind. */
  lemma AlternatingExtend(kinds: seq<EventType>, kind: EventType)
    requires Alternating(kinds)
    requires kind == if |kinds| % 2 == 0 then KeyDown else KeyUp
    ensures Alternating(kinds + [kind])
  {
  }

  /** The events of one key, queued or already polled, alternate down and up, starting
      down; the key is held exactly when its last event was a key-down. */
  lemma {:induction false} HistoryOfOneKey(events: seq<KeyEvent>, key: int, down: bool, e: KeyEvent)
    requires Alternating(KindsFor(events, key)) && (down <==> |KindsFor(events, key)| % 2 == 1)
    requires e.keycode == key && e.kind == (if down then KeyUp else KeyDown)
    ensures Alternating(KindsFor(events + [e], key))
    ensures !down <==> |KindsFor(events + [e], key)| % 2 == 1
  {
    assert (events + [e])[..|events|] == events;
    AlternatingExtend(KindsFor(events, key), e.kind);
  }

  class KeyInput {
    var eventQueue: seq<KeyEvent>
    var keyBuffer: set<int>
    /** Every event queued since construction or the last clear, polled or not. */
    ghost var history: seq<KeyEvent>
    ghost var polled: nat

    ghost predicate Valid()
      reads this
    {
      polled <= |history| && eventQueue == history[polled..] &&
      forall key :: Alternating(KindsFor(history, key)) && (key in keyBuffer <==> |KindsFor(history, key)| % 2 == 1)
    }

    constructor ()
      ensures Valid() && eventQueue == [] && keyBuffer == {}
    {
      eventQueue := [];
      keyBuffer := {};
      history := [];
      polled := 0;
    }

    /** The `keydown` listener: a key not yet down goes down and queues a key-down event. */
    method KeyPressed(key: int)
      requires Valid()
      modifies this
      ensures Valid()
      ensures keyBuffer == old(keyBuffer) + {key}
      ensures eventQueue == old(eventQueue) + if key in old(keyBuffer) then [] else [KeyEvent(KeyDown, key)]
    {
      if key !in keyBuffer {
        var e := KeyEvent(KeyDown, key);
        forall k ensures Alternating(KindsFor(history + [e], k)) && (k in keyBuffer + {key} <==> |KindsFor(history + [e], k)| % 2 == 1) {
          if k == key {
            HistoryOfOneKey(history, key, false, e);
          } else {
            assert (history + [e])[..|history|] == history;
          }
        }
        keyBuffer := keyBuffer + {key};
        eventQueue := eventQueue + [e];
        history := history + [e];
      }
    }

    /** The `keyup` listener: a key that is down comes up and queues a key-up event. */
    method KeyReleased(key: int)
      requires Valid()
      modifies this
      ensures Valid()
      ensures keyBuffer == old(keyBuffer) - {key}
      ensures eventQueue == old(eventQueue) + if key in old(keyBuffer) then [KeyEvent(KeyUp, key)] else []
    {
      if key in keyBuffer {
        var e := KeyEvent(KeyUp, key);
        forall k ensures Alternating(KindsFor(history + [e], k)) && (k in keyBuffer - {key} <==> |KindsFor(history + [e], k)| % 2 == 1) {
          if k == key {
            HistoryOfOneKey(history, key, true, e);
          } else {
            assert (history + [e])[..|history|] == history;
          }
        }
        keyBuffer := keyBuffer - {key};
        eventQueue := eventQueue + [e];
        history := history + [e];
      }
    }

    /** `clear()`, and the window's blur handler: no event queued, no key down. */
    method Clear()
      modifies this
      ensures Valid() && eventQueue == [] && keyBuffer == {}
    {
      eventQueue := [];
      keyBuffer := {};
      history := [];
      polled := 0;
    }

    /** `pollEvent()`: the oldest queued event, or `undefined` when there is none. */
    method PollEvent() returns (e: Option<KeyEvent>)
      requires Valid()
      modifies this
      ensures Valid() && keyBuffer == old(keyBuffer)
      ensures old(eventQueue) == [] ==> e.None? && eventQueue == []
      ensures old(eventQueue) != [] ==> e == Some(old(eventQueue)[0]) && eventQueue == old(eventQueue)[1..]
    {
      if eventQueue == [] {
        return None;
      }
      e := Some(eventQueue[0]);
      eventQueue := eventQueue[1..];
      polled := polled + 1;
    }

    /** `isKeyDown(keycode)` */
    function IsKeyDown(keycode: int): bool
      reads this
    {
      keycode in keyBuffer
    }
  }
}
