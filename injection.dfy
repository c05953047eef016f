/**
 * The injector object and the part of an Eloquent model it touches. The
 * lifecycle closures the constructor registers are the methods
 * `OnRetrievedOrCreated`, `OnSaving` and `OnSaved`, called directly.
 */
module Injection {
  import opened Values
  import opened Hooks

  const EloquentModel: string := "Illuminate\\Database\\Eloquent\\Model"

  /** What reflection reports about the class handed to the constructor. */
  datatype ClassInfo = ClassInfo(name: string, ancestors: set<string>)

  /** `isSubclassOf(Model::class)`: the model base class is a proper ancestor. */
  predicate ExtendsModel(c: ClassInfo)
  {
    EloquentModel in c.ancestors
  }

  datatype Error =
    | InvalidArgument(message: string)  // InvalidArgumentException from the constructor
    | NotContainedInWeakMap             // PHP's Error on reading a WeakMap entry that is not there

  datatype Result<T> = Ok(value: T) | Err(error: Error)

  datatype Outcome = Pass | Fail(error: Error)

  /** The message of the exception the constructor throws. */
  function NotAModelMessage(c: ClassInfo): string
  {
    "Class [" + c.name + "] does not extend Eloquent class."
  }

  /** An Eloquent model instance: its raw attribute storage and its `original` snapshot. */
  class Model {
    var attributes: Attributes
    var original: Attributes

    constructor (attributes: Attributes, original: Attributes)
      ensures this.attributes == attributes && this.original == original
    {
      this.attributes := attributes;
      this.original := original;
    }

    /** `$model->{$name}` */
    function Get(name: string): Value
      reads this
    {
      Lookup(attributes, name)
    }

    /** `$model->{$name} = $value` */
    method Set(name: string, value: Value)
      modifies this`attributes
      ensures attributes == old(attributes)[name := value]
    {
      attributes := attributes[name := value];
    }
  }

  class InjectModelAttribute {
    const modelClass: ClassInfo
    /** Declared names, in declaration order, duplicates kept. */
    var attributes: seq<string>
    /** `defaultValues` is a PHP ordered array: its keys in insertion order, and its entries. */
    var defaultKeys: seq<string>
    var defaultValues: map<string, Default>
    var saveCallbacks: map<string, SaveCallback>
    /** The WeakMap from a model being saved to the values captured from it. */
    var valuesBeforeSaving: map<Model, Attributes>

    ghost predicate Valid()
      reads this
    {
      && Distinct(defaultKeys)
      && (forall k :: k in defaultKeys <==> k in defaultValues)
    }

    /** The constructor once the class check has passed. */
    constructor (modelClass: ClassInfo)
      requires ExtendsModel(modelClass)
      ensures Valid() && this.modelClass == modelClass
      ensures attributes == [] && defaultKeys == [] && defaultValues == map[]
      ensures saveCallbacks == map[] && valuesBeforeSaving == map[]
    {
      this.modelClass := modelClass;
      attributes, defaultKeys, defaultValues := [], [], map[];
      saveCallbacks, valuesBeforeSaving := map[], map[];
    }

    /** `new InjectModelAttribute($modelClass)`, which throws for a class that is not a model. */
    static method Create(modelClass: ClassInfo) returns (r: Result<InjectModelAttribute>)
      ensures r.Err? <==> !ExtendsModel(modelClass)
      ensures r.Err? ==> r.error == InvalidArgument(NotAModelMessage(modelClass))
      ensures r.Ok? ==> fresh(r.value) && r.value.Valid() && r.value.modelClass == modelClass
      ensures r.Ok? ==> r.value.attributes == [] && r.value.defaultValues == map[]
      ensures r.Ok? ==> r.value.saveCallbacks == map[] && r.value.valuesBeforeSaving == map[]
    {
      if !ExtendsModel(modelClass) {
        return Err(InvalidArgument(NotAModelMessage(modelClass)));
      }
      var injector := new InjectModelAttribute(modelClass);
      return Ok(injector);
    }

    /**
     * `attribute($name, $defaultValue, $onSave)`: appends the name, records a
     * non-null default and a given callback (overwriting earlier ones of the
     * same name) and returns the injector itself for chaining.
     */
    method Attribute(name: string, defaultValue: Default, onSave: Option<SaveCallback>) returns (self: InjectModelAttribute)
      requires Valid()
      modifies this`attributes, this`defaultKeys, this`defaultValues, this`saveCallbacks
      ensures Valid() && self == this
      ensures attributes == old(attributes) + [name]
      ensures IsNull(defaultValue) ==> defaultKeys == old(defaultKeys) && defaultValues == old(defaultValues)
      ensures !IsNull(defaultValue) ==> defaultValues == old(defaultValues)[name := defaultValue]
      ensures !IsNull(defaultValue) ==>
        defaultKeys == if name in old(defaultValues) then old(defaultKeys) else old(defaultKeys) + [name]
      ensures onSave.None? ==> saveCallbacks == old(saveCallbacks)
      ensures onSave.Some? ==> saveCallbacks == old(saveCallbacks)[name := onSave.value]
    {
      attributes := attributes + [name];
      if !IsNull(defaultValue) {
        if name !in defaultValues {
          defaultKeys := defaultKeys + [name];
        }
        defaultValues := defaultValues[name := defaultValue];
      }
      if onSave.Some? {
        saveCallbacks := saveCallbacks[name := onSave.value];
      }
      self := this;
    }

    /**
     * The retrieved/created closure: each default, in order, is assigned to
     * the model and merged into `original`, so it does not read as a change.
     */
    method OnRetrievedOrCreated(m: Model)
      requires Valid()
      modifies m
      ensures m.attributes == Defaulted(old(m.attributes), defaultKeys, defaultValues)
      ensures OriginalPinned(m.original, old(m.original), m.attributes, defaultKeys)
    {
      var i := 0;
      while i < |defaultKeys|
        invariant 0 <= i <= |defaultKeys|
        invariant m.attributes == Defaulted(old(m.attributes), defaultKeys[..i], defaultValues)
        invariant OriginalPinned(m.original, old(m.original), m.attributes, defaultKeys[..i])
      {
        ghost var before, originalBefore := m.attributes, m.original;
        AssignDefault(m, defaultKeys[i]);
        DefaultedStep(old(m.attributes), defaultKeys, defaultValues, i);
        assert defaultKeys[i] !in defaultKeys[..i];
        OriginalPinnedStep(originalBefore, old(m.original), before, defaultKeys[..i], defaultKeys[i], m.Get(defaultKeys[i]));
        assert defaultKeys[..i + 1] == defaultKeys[..i] + [defaultKeys[i]];
        i := i + 1;
      }
      assert defaultKeys[..i] == defaultKeys;
    }

    /** One pass of the retrieved/created loop: assign the default of `name`, then merge it into `original`. */
    method AssignDefault(m: Model, name: string)
      requires name in defaultValues
      modifies m
      ensures m.attributes == old(m.attributes)[name := Resolve(defaultValues[name], old(m.attributes))]
      ensures m.original == old(m.original) + map[name := m.Get(name)]
    {
      // a callable default is evaluated on the model as it stands now
      m.Set(name, Resolve(defaultValues[name], m.attributes));
      m.original := m.original + map[name := m.Get(name)];
    }

    /**
     * The saving closure: starts a fresh record for the model; for each
     * declared name runs its save callback and captures the live value; then
     * writes back the raw map as it was on entry, minus the declared names.
     */
    method OnSaving(m: Model)
      modifies this`valuesBeforeSaving, m`attributes
      ensures m.attributes == Stripped(old(m.attributes), attributes)
      ensures valuesBeforeSaving == old(valuesBeforeSaving)[m := Captured(old(m.attributes), attributes, saveCallbacks).record]
    {
      valuesBeforeSaving := valuesBeforeSaving[m := map[]];
      var attrs := m.attributes;
      ghost var entry, others, names, callbacks := attrs, old(valuesBeforeSaving), attributes, saveCallbacks;
      var i := 0;
      while i < |attributes|
        invariant 0 <= i <= |names| && names == attributes && callbacks == saveCallbacks
        invariant valuesBeforeSaving == others[m := Captured(entry, names[..i], callbacks).record]
        invariant m.attributes == Captured(entry, names[..i], callbacks).live
        invariant attrs == Stripped(entry, names[..i])
      {
        CapturedStep(entry, names, callbacks, i);
        StrippedStep(entry, names, i);
        CaptureOne(m, attributes[i]);
        attrs := attrs - {attributes[i]};  // Arr::pull on the snapshot, not on the model
        i := i + 1;
      }
      assert names[..i] == names;
      m.attributes := attrs;
    }

    /** One pass of the saving loop: run the save callback of `attr`, if any, then capture its live value. */
    method CaptureOne(m: Model, attr: string)
      requires m in valuesBeforeSaving
      modifies this`valuesBeforeSaving, m`attributes
      ensures m.attributes == AfterCallback(saveCallbacks, attr, old(m.attributes))
      ensures valuesBeforeSaving == old(valuesBeforeSaving)[m := old(valuesBeforeSaving)[m][attr := Lookup(m.attributes, attr)]]
    {
      if attr in saveCallbacks {
        var callback := saveCallbacks[attr];
        m.attributes := callback(m.attributes, attr, m.Get(attr));
      }
      valuesBeforeSaving := valuesBeforeSaving[m := valuesBeforeSaving[m][attr := m.Get(attr)]];
    }

    /**
     * The saved closure: reassigns each declared name from the model's
     * record, then drops the record. Reading the record of a model that has
     * none is PHP's WeakMap error, raised before anything changes.
     */
    method OnSaved(m: Model) returns (r: Outcome)
      modifies this`valuesBeforeSaving, m`attributes
      ensures r.Fail? <==> attributes != [] && m !in old(valuesBeforeSaving)
      ensures r.Fail? ==> r.error == NotContainedInWeakMap
      ensures r.Fail? ==> m.attributes == old(m.attributes) && valuesBeforeSaving == old(valuesBeforeSaving)
      ensures r.Pass? ==> valuesBeforeSaving == old(valuesBeforeSaving) - {m}
      ensures r.Pass? && m in old(valuesBeforeSaving) ==>
        m.attributes == Restored(old(m.attributes), attributes, old(valuesBeforeSaving)[m])
      ensures r.Pass? && m !in old(valuesBeforeSaving) ==> m.attributes == old(m.attributes)
    {
      if attributes != [] && m !in valuesBeforeSaving {
        return Fail(NotContainedInWeakMap);
      }
      var i := 0;
      while i < |attributes|
        invariant 0 <= i <= |attributes|
        invariant valuesBeforeSaving == old(valuesBeforeSaving)
        invariant m in valuesBeforeSaving ==> m.attributes == Restored(old(m.attributes), attributes[..i], valuesBeforeSaving[m])
        invariant i == 0 ==> m.attributes == old(m.attributes)
      {
        var attr := attributes[i];
        assert attributes[..i + 1] == attributes[..i] + [attr];
        m.Set(attr, Lookup(valuesBeforeSaving[m], attr));
        i := i + 1;
      }
      assert attributes[..i] == attributes;
      valuesBeforeSaving := valuesBeforeSaving - {m};
      r := Pass;
    }
  }
}
