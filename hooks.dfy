/**
 * What the three lifecycle closures of the injector do to a model's
 * attribute map, as functions of the map on hook entry. The methods of
 * `Injection.InjectModelAttribute` are proved against these, and the
 * lemmas here state what the hooks promise.
 */
module Hooks {
  import opened Values

  /** A declared default: a literal value, or a callable evaluated on the model. */
  datatype Default = Literal(value: Value) | Computed(f: Attributes -> Value)

  /**
   * A save callback `fn ($model, $name, $value)`, abstracted to the attribute
   * map it leaves in the model.
   */
  type SaveCallback = (Attributes, string, Value) -> Attributes

  /** The result of the bookkeeping of the saving hook: the live map and the captured record. */
  datatype Capture = Capture(live: Attributes, record: Attributes)

  /** `$defaultValue !== null`: a literal null is no default at all. */
  predicate IsNull(d: Default)
  {
    d.Literal? && d.value == Null
  }

  /** The value a default assigns when evaluated on the attributes `a`. */
  function Resolve(d: Default, a: Attributes): Value
  {
    match d
    case Literal(v) => v
    case Computed(f) => f(a)
  }

  // ---------------------------------------------------------------------
  // Retrieved / created hook
  // ---------------------------------------------------------------------

  /**
   * The attributes after the retrieved/created hook assigned the defaults of
   * `keys`, in order; a computed default sees the defaults assigned before it.
   */
  function Defaulted(a: Attributes, keys: seq<string>, defaults: map<string, Default>): Attributes
    decreases |keys|
  {
    if keys == [] then a
    else
      var prev := Defaulted(a, keys[..|keys| - 1], defaults);
      var k := keys[|keys| - 1];
      if k in defaults then prev[k := Resolve(defaults[k], prev)] else prev
  }

  /**
   * Every key with a default ends up set; a key without one, declared or
   * not, is left exactly as it was.
   */
  lemma {:induction false} DefaultedKeeps(a: Attributes, keys: seq<string>, defaults: map<string, Default>)
    ensures forall k :: k in keys && k in defaults ==> k in Defaulted(a, keys, defaults)
    ensures forall k :: k !in keys ==> (k in Defaulted(a, keys, defaults) <==> k in a)
    ensures forall k :: k !in keys && k in a ==> Defaulted(a, keys, defaults)[k] == a[k]
    decreases |keys|
  {
    if keys != [] {
      var init := keys[..|keys| - 1];
      assert keys == init + [keys[|keys| - 1]];
      DefaultedKeeps(a, init, defaults);
    }
  }

  /**
   * The i-th default is assigned its literal, or its callable evaluated on the
   * model as the earlier defaults left it; later defaults do not touch it.
   */
  lemma {:induction false} DefaultAssigned(a: Attributes, keys: seq<string>, defaults: map<string, Default>, i: nat)
    requires Distinct(keys) && i < |keys| && keys[i] in defaults
    ensures keys[i] in Defaulted(a, keys, defaults)
    ensures Defaulted(a, keys, defaults)[keys[i]] == Resolve(defaults[keys[i]], Defaulted(a, keys[..i], defaults))
    ensures defaults[keys[i]].Literal? ==> Defaulted(a, keys, defaults)[keys[i]] == defaults[keys[i]].value
    decreases |keys|
  {
    var init := keys[..|keys| - 1];
    if i == |keys| - 1 {
      assert init == keys[..i];
    } else {
      assert init[..i] == keys[..i];
      assert init[i] == keys[i];
      DefaultAssigned(a, init, defaults, i);
      assert keys[|keys| - 1] != keys[i];
    }
  }

  /** One more key assigned by the retrieved/created hook. */
  lemma DefaultedStep(a: Attributes, keys: seq<string>, defaults: map<string, Default>, i: nat)
    requires i < |keys| && keys[i] in defaults
    ensures var prev := Defaulted(a, keys[..i], defaults);
      Defaulted(a, keys[..i + 1], defaults) == prev[keys[i] := Resolve(defaults[keys[i]], prev)]
  {
    assert keys[..i + 1][..i] == keys[..i];
  }

  /**
   * How `original` stands once the keys in `done` went through the hook:
   * each holds the model's current value of that key, and every other
   * entry is as it was in `original0`.
   */
  ghost predicate OriginalPinned(original: Attributes, original0: Attributes, a: Attributes, done: seq<string>)
  {
    && (forall k :: k in done ==> k in original && original[k] == Lookup(a, k))
    && (forall k :: k !in done ==> (k in original <==> k in original0))
    && (forall k :: k !in done && k in original0 ==> original[k] == original0[k])
  }

  /** Assigning a fresh key and merging it into `original` keeps the others pinned. */
  lemma OriginalPinnedStep(original: Attributes, original0: Attributes, a: Attributes, done: seq<string>, name: string, v: Value)
    requires OriginalPinned(original, original0, a, done) && name !in done
    ensures OriginalPinned(original + map[name := v], original0, a[name := v], done + [name])
  {
  }

  // ---------------------------------------------------------------------
  // Saving hook
  // ---------------------------------------------------------------------

  /** The live map once the save callback of `n`, if there is one, has run on it. */
  function AfterCallback(callbacks: map<string, SaveCallback>, n: string, live: Attributes): Attributes
  {
    if n in callbacks then callbacks[n](live, n, Lookup(live, n)) else live
  }

  /**
   * The saving hook's walk over the declared `names`: for each, the save
   * callback (if any) runs on the live map, then the live value is captured.
   */
  function Captured(a: Attributes, names: seq<string>, callbacks: map<string, SaveCallback>): Capture
    decreases |names|
  {
    if names == [] then Capture(a, map[])
    else
      var init, n := names[..|names| - 1], names[|names| - 1];
      assert names == init + [n];
      var prev := Captured(a, init, callbacks);
      var live := AfterCallback(callbacks, n, prev.live);
      Capture(live, prev.record[n := Lookup(live, n)])
  }

  /** The raw map after `Arr::pull` removed each of `names` from it. */
  function Stripped(a: Attributes, names: seq<string>): Attributes
    decreases |names|
  {
    if names == [] then a
    else
      var init, n := names[..|names| - 1], names[|names| - 1];
      assert names == init + [n];
      Stripped(a, init) - {n}
  }

  /** The record holds exactly the declared names. */
  lemma {:induction false} CapturedNames(a: Attributes, names: seq<string>, callbacks: map<string, SaveCallback>)
    ensures forall n :: n in Captured(a, names, callbacks).record <==> n in names
    decreases |names|
  {
    if names != [] {
      var init := names[..|names| - 1];
      assert names == init + [names[|names| - 1]];
      CapturedNames(a, init, callbacks);
    }
  }

  /**
   * The raw map after the saving hook holds none of the declared names and
   * keeps every other key with its value.
   */
  lemma {:induction false} StrippedKeeps(a: Attributes, names: seq<string>)
    ensures forall k :: k in Stripped(a, names) <==> k in a && k !in names
    ensures forall k :: k in Stripped(a, names) ==> Stripped(a, names)[k] == a[k]
    decreases |names|
  {
    if names != [] {
      var init := names[..|names| - 1];
      assert names == init + [names[|names| - 1]];
      StrippedKeeps(a, init);
    }
  }

  /** One more declared name walked by the saving hook. */
  lemma CapturedStep(a: Attributes, names: seq<string>, callbacks: map<string, SaveCallback>, i: nat)
    requires i < |names|
    ensures var prev, n := Captured(a, names[..i], callbacks), names[i];
      var live := AfterCallback(callbacks, n, prev.live);
      Captured(a, names[..i + 1], callbacks) == Capture(live, prev.record[n := Lookup(live, n)])
  {
    assert names[..i + 1][..i] == names[..i];
  }

  /** One more declared name pulled from the raw map. */
  lemma StrippedStep(a: Attributes, names: seq<string>, i: nat)
    requires i < |names|
    ensures Stripped(a, names[..i + 1]) == Stripped(a, names[..i]) - {names[i]}
  {
    assert names[..i + 1][..i] == names[..i];
  }

  /**
   * The save callbacks of `names`, if any, only observe: each hands back the
   * attribute map it was given (a callback that logs, say).
   */
  ghost predicate OnlyObserving(names: seq<string>, callbacks: map<string, SaveCallback>)
  {
    forall n, live: Attributes, x: Value :: n in names && n in callbacks ==> callbacks[n](live, n, x) == live
  }

  /**
   * With only observing save callbacks, the live map is left alone and each
   * declared name captures the value it had on hook entry.
   */
  lemma {:induction false} CaptureWithObservingCallbacks(a: Attributes, names: seq<string>, callbacks: map<string, SaveCallback>)
    requires OnlyObserving(names, callbacks)
    ensures Captured(a, names, callbacks).live == a
    ensures forall n :: n in names ==> Lookup(Captured(a, names, callbacks).record, n) == Lookup(a, n)
    decreases |names|
  {
    if names != [] {
      var init := names[..|names| - 1];
      assert names == init + [names[|names| - 1]];
      CaptureWithObservingCallbacks(a, init, callbacks);
    }
  }

  /**
   * The value captured for `names[i]`, where `i` is its last occurrence, is
   * the live value right after its own callback ran: the callback's write to
   * its own attribute wins over the value it was handed.
   */
  lemma {:induction false} CallbackWriteWins(a: Attributes, names: seq<string>, callbacks: map<string, SaveCallback>, i: nat)
    requires i < |names| && names[i] !in names[i + 1..]
    ensures var n, before := names[i], Captured(a, names[..i], callbacks).live;
      Lookup(Captured(a, names, callbacks).record, n)
      == Lookup(AfterCallback(callbacks, n, before), n)
    decreases |names|
  {
    var init := names[..|names| - 1];
    if i == |names| - 1 {
      assert init == names[..i];
    } else {
      assert init[..i] == names[..i];
      assert init[i] == names[i];
      assert init[i + 1..] == names[i + 1..|names| - 1];
      assert names[|names| - 1] in names[i + 1..];
      CallbackWriteWins(a, init, callbacks, i);
    }
  }

  /** The last position of `n` in `names`. */
  function LastIndex(names: seq<string>, n: string): (i: nat)
    requires n in names
    ensures i < |names| && names[i] == n && n !in names[i + 1..]
    decreases |names|
  {
    if names[|names| - 1] == n then |names| - 1
    else
      var init := names[..|names| - 1];
      assert names == init + [names[|names| - 1]];
      var i := LastIndex(init, n);
      assert names[i + 1..] == init[i + 1..] + [names[|names| - 1]];
      i
  }

  // ---------------------------------------------------------------------
  // Saved hook
  // ---------------------------------------------------------------------

  /** The attributes after the saved hook reassigned each of `names` from `record`. */
  function Restored(a: Attributes, names: seq<string>, record: Attributes): Attributes
    decreases |names|
  {
    if names == [] then a
    else
      var init, n := names[..|names| - 1], names[|names| - 1];
      assert names == init + [n];
      Restored(a, init, record)[n := Lookup(record, n)]
  }

  /**
   * After the saved hook each declared name holds its recorded value (null
   * when the record lacks it) and every other key is as it was.
   */
  lemma {:induction false} RestoredFrom(a: Attributes, names: seq<string>, record: Attributes)
    ensures forall k :: k in Restored(a, names, record) <==> k in a || k in names
    ensures forall n :: n in names ==> Restored(a, names, record)[n] == Lookup(record, n)
    ensures forall k :: k in a && k !in names ==> Restored(a, names, record)[k] == a[k]
    decreases |names|
  {
    if names != [] {
      var init := names[..|names| - 1];
      assert names == init + [names[|names| - 1]];
      RestoredFrom(a, init, record);
    }
  }

  /** The raw map a model is left with after a whole saving-then-saved cycle. */
  function SaveCycle(a: Attributes, names: seq<string>, callbacks: map<string, SaveCallback>): Attributes
  {
    Restored(Stripped(a, names), names, Captured(a, names, callbacks).record)
  }

  /**
   * After a whole save cycle every declared attribute holds its captured
   * value, and every other key holds exactly its value on entry to the
   * saving hook: what a callback wrote to a non-declared key is gone.
   */
  lemma SaveCycleOutcome(a: Attributes, names: seq<string>, callbacks: map<string, SaveCallback>)
    ensures var r := SaveCycle(a, names, callbacks);
      && (forall n :: n in names ==> n in r && r[n] == Lookup(Captured(a, names, callbacks).record, n))
      && (forall k :: k !in names ==> (k in r <==> k in a))
      && (forall k :: k !in names && k in a ==> r[k] == a[k])
  {
    CapturedNames(a, names, callbacks);
    StrippedKeeps(a, names);
    RestoredFrom(Stripped(a, names), names, Captured(a, names, callbacks).record);
  }

  /**
   * A save callback that always leaves `v` in its own attribute makes `v`
   * what the attribute holds after the save cycle, whatever it held before.
   */
  lemma CallbackOverwriteSurvivesCycle(a: Attributes, names: seq<string>, callbacks: map<string, SaveCallback>, n: string, v: Value)
    requires n in names && n in callbacks
    requires forall live: Attributes, x: Value :: Lookup(callbacks[n](live, n, x), n) == v
    ensures n in SaveCycle(a, names, callbacks) && SaveCycle(a, names, callbacks)[n] == v
  {
    var i := LastIndex(names, n);
    CallbackWriteWins(a, names, callbacks, i);
    SaveCycleOutcome(a, names, callbacks);
  }

  /**
   * The save round trip: with no save callback that changes the model,
   * saving then saved gives
   * every declared attribute back the value it had before, and leaves the
   * rest of the map as it was.
   */
  lemma SaveRoundTrip(a: Attributes, names: seq<string>, callbacks: map<string, SaveCallback>)
    requires OnlyObserving(names, callbacks)
    ensures forall k :: Lookup(SaveCycle(a, names, callbacks), k) == Lookup(a, k)
    ensures (forall n :: n in names ==> n in a) ==> SaveCycle(a, names, callbacks) == a
  {
    CaptureWithObservingCallbacks(a, names, callbacks);
    SaveCycleOutcome(a, names, callbacks);
    var r := SaveCycle(a, names, callbacks);
    assert forall k :: Lookup(r, k) == Lookup(a, k) by {
      forall k ensures Lookup(r, k) == Lookup(a, k) {
        if k in names {
          assert r[k] == Lookup(a, k);
        }
      }
    }
  }

  /**
   * Declaring a name twice makes the hooks visit it twice; with only
   * observing save callbacks the cycle's outcome depends only on which names
   * are declared.
   */
  lemma DuplicatesHarmlessWithObservingCallbacks(a: Attributes, names: seq<string>, names': seq<string>, callbacks: map<string, SaveCallback>)
    requires forall n :: n in names <==> n in names'
    requires OnlyObserving(names, callbacks)
    ensures SaveCycle(a, names, callbacks) == SaveCycle(a, names', callbacks)
  {
    SaveRoundTrip(a, names, callbacks);
    SaveRoundTrip(a, names', callbacks);
    SaveCycleOutcome(a, names, callbacks);
    SaveCycleOutcome(a, names', callbacks);
    var r, r' := SaveCycle(a, names, callbacks), SaveCycle(a, names', callbacks);
    assert forall k :: k in r <==> k in r';
    forall k | k in r ensures r[k] == r'[k] {
      assert Lookup(r, k) == Lookup(r', k);
    }
  }
}
