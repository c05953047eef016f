# eloquent-attribute-inject, modelled in Dafny

The repository is one PHP class, `InjectModelAttribute`. It attaches "virtual" attributes to an Eloquent model class. Each one may have a default, which is assigned when a model is retrieved or created and merged into the model's `original` snapshot, so it does not count as a change. Each one is also stripped from the raw attribute map just before the model is persisted and put back just after. An optional save callback runs on each save, before the value is captured.

The model has four modules:

- `Values` (`values.dfy`): the PHP values a model holds, the attribute map type, and `Lookup`, a plain map read where a missing key reads as null.
- `Hooks` (`hooks.dfy`): the three lifecycle closures written as functions of the attribute map on hook entry. These are `Defaulted` (retrieved/created), `Captured` and `Stripped` (saving), `Restored` (saved) and `SaveCycle` (saving then saved). The lemmas state what the closures promise.
- `Injection` (`injection.dfy`): the injector as a class. Its fields `attributes`, `defaultValues`, `saveCallbacks` and `valuesBeforeSaving` are updated in place, as in the source. PHP's ordered `defaultValues` array is the pair `defaultKeys` (keys in first-insertion order) and `defaultValues`. The WeakMap becomes a map keyed by `Model` object identity. `Model` is a class with the raw `attributes` map and the `original` map. The closures are the methods `OnRetrievedOrCreated`, `OnSaving` and `OnSaved`, each proved against the functions in `Hooks`.
- `Scenarios` (`scenarios.dfy`): concrete scenarios, proved by the verifier. An order whose computed total is 30, saved later and inserted new. A flag that its save callback resets. A name declared three times. A class that is not a model.

Assumptions:

- Reading `$model->{$name}` is a map lookup where a missing key reads as null, and writing it is a map update.
- A default callable is a pure function of the model's attribute map.
- A save callback is a pure function from (attribute map, name, current value) to the attribute map it leaves behind. Its return value is ignored, as in the source.

## Behaviour worth noting

- The retrieved/created closure walks the names that have a default (`defaultValues`), not every declared name. A declared name without a default is left untouched.
- The constructor throws `InvalidArgumentException` with the message `Class [<name>] does not extend Eloquent class.`.
- A save cycle does not always give back the value from before the save. A save callback's write to its own attribute is what gets restored (`CallbackWriteWins`, `CallbackOverwriteSurvivesCycle`). When every save callback only observes, the values come back (`SaveRoundTrip`). A declared attribute that was missing then comes back present with the value null, which still reads the same.
- When a new model is inserted, Eloquent fires saving, then created, then saved. Saving captures a declared attribute before its default exists, so saved overwrites the default that created assigned with null. A later save captures that null and restores it, so a created model keeps null until it is retrieved again (`InsertOrderLosesTotal`, `NewOrderInsert`). A default survives a save only on the retrieved path (`OrderLifecycle`).
- A name declared twice is visited twice by the saving and saved closures, so its save callback runs twice (`DuplicatedCallbackRunsTwice`). With only observing callbacks, duplicates make no difference (`DuplicatesHarmlessWithObservingCallbacks`).

## Model

| member | source | states |
|---|---|---|
| `Injection.InjectModelAttribute.constructor` | src/InjectModelAttribute.php:32-35 | for a class that extends the Eloquent model, the injector starts with no declarations and no captured records |
| `Injection.InjectModelAttribute.Create` | src/InjectModelAttribute.php:32-36 | construction fails with InvalidArgument and the "does not extend Eloquent class" message exactly when the model base class is not a proper ancestor; otherwise it yields a fresh, empty, valid injector |
| `Injection.InjectModelAttribute.Attribute` | src/InjectModelAttribute.php:88-97 | the name is appended even if already declared; a non-null default is recorded, overwriting an earlier one and keeping its position in iteration order; a null default leaves the defaults alone; a given callback is recorded, overwriting an earlier one; the injector itself is returned |
| `Injection.InjectModelAttribute.OnRetrievedOrCreated` | src/InjectModelAttribute.php:42-54 | the model's attributes become `Defaulted` of the old ones, over the default keys in insertion order; `original` then pins each defaulted key to the model's current value and keeps every other entry (merge, not replace) |
| `Injection.InjectModelAttribute.AssignDefault` | src/InjectModelAttribute.php:44-52 | one default: the literal, or the callable evaluated on the current attributes, is assigned, and then merged into `original` as read back from the model |
| `Injection.InjectModelAttribute.OnSaving` | src/InjectModelAttribute.php:56-69 | the raw map becomes the snapshot taken on entry minus every declared name, whatever the callbacks wrote; the model's record in the WeakMap is replaced by the fresh `Captured` record; other models' records are unchanged |
| `Injection.InjectModelAttribute.CaptureOne` | src/InjectModelAttribute.php:61-65 | one declared name: its callback, if any, runs on the live map, and then the live value (after the callback) is stored in the record |
| `Injection.InjectModelAttribute.OnSaved` | src/InjectModelAttribute.php:71-76 | with a record, each declared name is reassigned from it and the record is dropped; without one, and with at least one declared name, PHP's WeakMap error is raised and nothing changes |
| `Hooks.DefaultedKeeps` | src/InjectModelAttribute.php:43-48 | after the retrieved/created closure every key with a default is present; every key without one, declared or not, has the same presence and value as before |
| `Hooks.DefaultAssigned` | src/InjectModelAttribute.php:43-48 | the i-th default key holds its literal, or its callable applied to the attributes as the earlier defaults left them; later defaults do not overwrite it |
| `Hooks.OriginalPinnedStep` | src/InjectModelAttribute.php:49-52 | merging one newly assigned key into `original` keeps the keys merged so far equal to the model's values, and every other `original` entry as it was |
| `Hooks.CapturedNames` | src/InjectModelAttribute.php:57-65 | the record created by the saving closure holds exactly the declared names |
| `Hooks.StrippedKeeps` | src/InjectModelAttribute.php:59-68 | the map written back holds no declared name, and every other key of the snapshot with its value |
| `Hooks.CaptureWithObservingCallbacks` | src/InjectModelAttribute.php:60-65 | when every save callback of a declared name hands back the map it was given, the live map is untouched and each name captures its value on hook entry |
| `Hooks.CallbackWriteWins` | src/InjectModelAttribute.php:60-65 | the value captured for a name is its live value right after its own callback ran, at its last declaration, so a callback's write to its own attribute wins |
| `Hooks.RestoredFrom` | src/InjectModelAttribute.php:72-74 | after the saved closure each declared name holds its recorded value (null if missing from the record), and every other key is unchanged |
| `Hooks.SaveCycleOutcome` | src/InjectModelAttribute.php:57-75 | after saving then saved, each declared name holds its captured value, and every other key has exactly its value on entry to the saving hook, so callback writes to other keys are discarded |
| `Hooks.CallbackOverwriteSurvivesCycle` | src/InjectModelAttribute.php:62-74 | a save callback that always leaves v in its own attribute makes v the attribute's value after the save cycle |
| `Hooks.SaveRoundTrip` | src/InjectModelAttribute.php:57-75 | when no save callback changes the model, every key reads the same after saving then saved as before; when all declared names were present, the map is identical |
| `Hooks.DuplicatesHarmlessWithObservingCallbacks` | src/InjectModelAttribute.php:60-74 | when no save callback changes the model, the outcome of a save cycle depends only on which names are declared, not on repeats or order |
| `Scenarios.DefaultedOrderHasTotal` | src/InjectModelAttribute.php:43-45 | an order with price 10 and quantity 3 gets the computed total 30 from the retrieved/created hook |
| `Scenarios.OrderWithTotalSaveCycle` | src/InjectModelAttribute.php:57-75 | for an order holding its total (as after retrieved), the row written while saving is the order without its total, and after saved the total is back |
| `Scenarios.DuplicatedCallbackRunsTwice` | src/InjectModelAttribute.php:60-65 | a counting callback on a name declared twice runs twice: the captured value is 2 |
| `Scenarios.SaveExisting` | src/InjectModelAttribute.php:56-76 | the saving hook then the saved hook on one model: the row written is the model without the declared names, the model ends as `SaveCycle` of its attributes, and its record is dropped |
| `Scenarios.OrderLifecycle` | src/InjectModelAttribute.php:42-76 | on the class itself, for an order retrieved first and saved later: the total is 30 after retrieval, absent from the persisted row, and 30 after saved |
| `Scenarios.InsertOrderLosesTotal` | src/InjectModelAttribute.php:43-75 | hooks in insert order (saving, created, saved): the row written lacks the total, saved restores the null captured before created assigned 30, and a later save cycle keeps that null |
| `Scenarios.NewOrderInsert` | src/InjectModelAttribute.php:42-76 | on the class itself, for a new order inserted: the total is 30 right after created, null after saved, and still null after a later save |
| `Scenarios.FlagResetOnSave` | src/InjectModelAttribute.php:42-76 | a flag defaulting to true whose callback sets it to false is true before the save and false after |
| `Scenarios.RedeclareOverwrites` | src/InjectModelAttribute.php:88-96 | declaring a name three times lists it three times; the second non-null default replaces the first; a null third leaves it |
| `Scenarios.NonModelRejected` | src/InjectModelAttribute.php:35 | a class without the Eloquent model among its ancestors is refused with the exception's message |

## Left out

- Reflection and hook registration are not modelled. This covers `ReflectionClass`, the walk over static methods that picks which events to wire, and the `call_user_func` into Eloquent's event registrars. The three closures are methods the caller invokes directly.
- The `ReflectionException` for a class name that does not exist is not modelled. A class is given by its name and its set of ancestors.
- The WeakMap's weakness and garbage collection are not modelled. It is a map keyed by model object identity, and an entry lives until the saved hook removes it.
- Eloquent's magic `__get`/`__set` are reduced to plain map reads and writes. Not modelled: accessors, mutators, casts, relations, dirty tracking, the missing-attribute exception mode, and `getAttribute` returning null for a falsy key such as `"0"`.
- User callables are pure functions of the attribute map. A save callback cannot touch `original`, other models or the injector. The `is_callable` quirk, where a string default naming a global function counts as callable, is not modelled.
- Values are null, booleans, integers and strings only. Floats, arrays and objects are not modelled. As a result, `Arr::pull`'s dot-notation descent into nested arrays never applies, and removal is plain key removal.
- `array_merge` renumbering integer-like keys in `original` is not modelled. Attribute names are opaque strings.
- A null `original` (the `?: []` fallback) is not modelled. `original` is always a map.
- The order in which the hooks fire is the framework's and is not modelled: the caller invokes the three methods in any order. The scenarios use two orders. One is retrieved first and saved later. The other is Eloquent's insert order for a new model: saving, then created, then saved.
- Persistence between the saving and saved hooks is outside the class, and so is a failed save after which saved never runs. The model does cover calling saved without a record: it fails with the WeakMap error.
- PHP warnings for reading a missing key are not modelled. The model assumes plain PHP, where the read gives null. Under an error handler that turns warnings into exceptions, as Laravel's default handler does, the read of `$this->saveCallbacks[$attr]` throws for every declared name without a save callback. The saving hook then fails partway, after the record was started. The saved hook's read of a name missing from the record throws too. Neither failure is modelled.
