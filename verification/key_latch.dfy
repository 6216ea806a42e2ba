/** The keyboard latch shared by the 2D engine and both 3D cats: a table
    from lower-cased key name to "currently held". A keydown stores true
    under `key.toLowerCase()`, a keyup stores false; a name never seen
    reads as not held (`undefined` is falsy). */
module KeyLatch {
  import opened Text

  type KeyMap = map<string, bool>

  /** The latch before any event. */
  const Empty: KeyMap := map[]

  /** A keyboard event as delivered by the browser, with `e.key` as is. */
  datatype KeyEvent = Down(key: string) | Up(key: string)

  /** `keys[name]` read as a boolean. */
  predicate Held(keys: KeyMap, name: string) {
    name in keys && keys[name]
  }

  /** No key is held. */
  predicate Idle(keys: KeyMap) {
    forall k :: k in keys ==> !keys[k]
  }

  /** The keydown handler. */
  function KeyDown(keys: KeyMap, key: string): (r: KeyMap)
    ensures Held(r, ToLower(key))
    ensures forall k :: k != ToLower(key) ==> (k in r <==> k in keys)
    ensures forall k :: k != ToLower(key) && k in keys ==> r[k] == keys[k]
  {
    keys[ToLower(key) := true]
  }

  /** The keyup handler. */
  function KeyUp(keys: KeyMap, key: string): (r: KeyMap)
    ensures ToLower(key) in r && !Held(r, ToLower(key))
    ensures forall k :: k != ToLower(key) ==> (k in r <==> k in keys)
    ensures forall k :: k != ToLower(key) && k in keys ==> r[k] == keys[k]
  {
    keys[ToLower(key) := false]
  }

  function Step(keys: KeyMap, e: KeyEvent): KeyMap {
    match e
    case Down(k) => KeyDown(keys, k)
    case Up(k) => KeyUp(keys, k)
  }

  /** The latch after a sequence of events, applied in order. */
  function Apply(keys: KeyMap, events: seq<KeyEvent>): KeyMap
    decreases |events|
  {
    if |events| == 0 then keys
    else Step(Apply(keys, events[..|events| - 1]), events[|events| - 1])
  }

  /** Every name the latch stores is lower-case. */
  predicate LowerKeys(keys: KeyMap) {
    forall k :: k in keys ==> IsLower(k)
  }

  /** Starting from a latch whose names are lower-case, every name stays
      lower-case; so a name with an upper-case letter (such as
      "ArrowLeft") is never held, whatever events arrive. */
  lemma {:induction false} ApplyKeepsLowerKeys(keys: KeyMap, events: seq<KeyEvent>)
    requires LowerKeys(keys)
    ensures LowerKeys(Apply(keys, events))
    ensures forall name :: !IsLower(name) ==> !Held(Apply(keys, events), name)
    decreases |events|
  {
    if |events| > 0 {
      ApplyKeepsLowerKeys(keys, events[..|events| - 1]);
      var e := events[|events| - 1];
      ToLowerIsLowerAndFixesLower(e.key);
    }
  }

  /** Events about other names leave a name's held state alone. */
  lemma {:induction false} ApplyOtherKeys(keys: KeyMap, events: seq<KeyEvent>, name: string)
    requires forall i :: 0 <= i < |events| ==> ToLower(events[i].key) != name
    ensures Held(Apply(keys, events), name) == Held(keys, name)
    decreases |events|
  {
    if |events| > 0 {
      ApplyOtherKeys(keys, events[..|events| - 1], name);
    }
  }

  /** The latest event about a name decides whether it is held: down means
      held, up means released. Upper and lower case press the same key. */
  lemma LatestEventWins(keys: KeyMap, events: seq<KeyEvent>, e: KeyEvent)
    ensures Held(Apply(keys, events + [e]), ToLower(e.key)) <==> e.Down?
    ensures Apply(keys, events + [e]) == Step(Apply(keys, events), e)
  {
    assert (events + [e])[..|events|] == events;
  }
}
