/**
 * The behaviour the injector is meant to have on concrete models: an order
 * with a computed total, a flag reset by its save callback, a name declared
 * twice, and a class that is not a model.
 */
module Scenarios {
  import opened Values
  import opened Hooks
  import opened Injection

  /** `fn ($m) => $m->price * $m->qty`; a missing operand counts as 0, as PHP's null does. */
  function OrderTotal(a: Attributes): Value
  {
    var price := if Lookup(a, "price").Int? then Lookup(a, "price").i else 0;
    var qty := if Lookup(a, "qty").Int? then Lookup(a, "qty").i else 0;
    Int(price * qty)
  }

  /** `fn ($m, $n, $v) => $m->{$n} = false` */
  function ResetFlag(live: Attributes, name: string, current: Value): Attributes
  {
    live[name := Bool(false)]
  }

  /** A callback that increments its attribute each time it runs. */
  function Bump(live: Attributes, name: string, current: Value): Attributes
  {
    live[name := Int(if current.Int? then current.i + 1 else 1)]
  }

  const OrderRow: Attributes := map["price" := Int(10), "qty" := Int(3)]

  /** The order holding its computed total, as the retrieved or created hook leaves it. */
  const OrderWithTotal: Attributes := OrderRow["computedTotal" := Int(30)]

  /** A computed default is evaluated on the order as it is loaded or created. */
  lemma DefaultedOrderHasTotal()
    ensures Defaulted(OrderRow, ["computedTotal"], map["computedTotal" := Computed(OrderTotal)]) == OrderWithTotal
  {
    assert ["computedTotal"][..0] == [];
  }

  /** Saving an order that holds its total writes the row without it, and saved puts the total back. */
  lemma OrderWithTotalSaveCycle()
    ensures Stripped(OrderWithTotal, ["computedTotal"]) == OrderRow
    ensures SaveCycle(OrderWithTotal, ["computedTotal"], map[]) == OrderWithTotal
  {
    StrippedKeeps(OrderWithTotal, ["computedTotal"]);
    SaveRoundTrip(OrderWithTotal, ["computedTotal"], map[]);
  }

  /** A callback that runs on each visit of a name declared twice runs twice. */
  lemma DuplicatedCallbackRunsTwice()
    ensures Captured(map["hits" := Int(0)], ["hits", "hits"], map["hits" := Bump]).record["hits"] == Int(2)
  {
    var a, names, callbacks := map["hits" := Int(0)], ["hits", "hits"], map["hits" := Bump];
    CapturedStep(a, names, callbacks, 0);
    CapturedStep(a, names, callbacks, 1);
    assert names[..2] == names;
  }

  /** How Eloquent saves a model that is already stored: saving, the write, then saved. */
  method SaveExisting(injector: InjectModelAttribute, m: Model) returns (persisted: Attributes)
    modifies injector`valuesBeforeSaving, m`attributes
    ensures persisted == Stripped(old(m.attributes), injector.attributes)
    ensures m.attributes == SaveCycle(old(m.attributes), injector.attributes, injector.saveCallbacks)
    ensures injector.valuesBeforeSaving == old(injector.valuesBeforeSaving) - {m}
  {
    injector.OnSaving(m);
    persisted := m.attributes;
    var outcome := injector.OnSaved(m);
  }

  /**
   * An order with price 10 and quantity 3, retrieved first and saved later:
   * the computed total is 30 once retrieved, is absent from the row written
   * while saving, and is 30 again once saved.
   */
  method OrderLifecycle() returns (retrieved: Value, persisted: Attributes, saved: Value)
    ensures retrieved == Int(30)
    ensures persisted == OrderRow
    ensures saved == Int(30)
  {
    var injector := new InjectModelAttribute(ClassInfo("App\\Models\\Order", {EloquentModel}));
    var _ := injector.Attribute("computedTotal", Computed(OrderTotal), None);
    var order := new Model(OrderRow, OrderRow);
    injector.OnRetrievedOrCreated(order);
    DefaultedOrderHasTotal();
    OrderWithTotalSaveCycle();
    retrieved := order.Get("computedTotal");
    injector.OnSaving(order);
    persisted := order.attributes;
    var outcome := injector.OnSaved(order);
    saved := order.Get("computedTotal");
  }

  /** The order once inserted: its total restored to the null captured before created ran. */
  const InsertedOrder: Attributes := OrderRow["computedTotal" := Null]

  /**
   * Inserting a new order fires saving, then created, then saved: saving
   * captures the total before any default was assigned, so saved overwrites
   * the total that created computed with null; a later save keeps that null.
   */
  lemma InsertOrderLosesTotal()
    ensures Stripped(OrderRow, ["computedTotal"]) == OrderRow
    ensures Restored(OrderWithTotal, ["computedTotal"], Captured(OrderRow, ["computedTotal"], map[]).record) == InsertedOrder
    ensures SaveCycle(InsertedOrder, ["computedTotal"], map[]) == InsertedOrder
  {
    StrippedKeeps(OrderRow, ["computedTotal"]);
    CaptureWithObservingCallbacks(OrderRow, ["computedTotal"], map[]);
    RestoredFrom(OrderWithTotal, ["computedTotal"], Captured(OrderRow, ["computedTotal"], map[]).record);
    SaveRoundTrip(InsertedOrder, ["computedTotal"], map[]);
  }

  /**
   * The same order inserted as a new model, its hooks called in insert
   * order: the total is 30 right after created, null once saved, and still
   * null after a later save, which captures and restores that null.
   */
  method NewOrderInsert() returns (created: Value, saved: Value, savedAgain: Value)
    ensures created == Int(30)
    ensures saved == Null
    ensures savedAgain == Null
  {
    var injector := new InjectModelAttribute(ClassInfo("App\\Models\\Order", {EloquentModel}));
    var _ := injector.Attribute("computedTotal", Computed(OrderTotal), None);
    var order := new Model(OrderRow, map[]);
    InsertOrderLosesTotal();
    DefaultedOrderHasTotal();
    injector.OnSaving(order);
    injector.OnRetrievedOrCreated(order);
    created := order.Get("computedTotal");
    var outcome := injector.OnSaved(order);
    saved := order.Get("computedTotal");
    var _ := SaveExisting(injector, order);
    savedAgain := order.Get("computedTotal");
  }

  /**
   * A flag defaulting to true whose save callback sets it to false: it is
   * true before saving and false after, the callback's write winning.
   */
  method FlagResetOnSave() returns (before: Value, after: Value)
    ensures before == Bool(true)
    ensures after == Bool(false)
  {
    var injector := new InjectModelAttribute(ClassInfo("App\\Models\\Order", {EloquentModel}));
    var _ := injector.Attribute("tempFlag", Literal(Bool(true)), Some(ResetFlag));
    var order := new Model(OrderRow, map[]);
    injector.OnRetrievedOrCreated(order);
    DefaultAssigned(OrderRow, ["tempFlag"], injector.defaultValues, 0);
    before := order.Get("tempFlag");
    ghost var row := order.attributes;
    injector.OnSaving(order);
    var outcome := injector.OnSaved(order);
    CallbackOverwriteSurvivesCycle(row, ["tempFlag"], injector.saveCallbacks, "tempFlag", Bool(false));
    after := order.Get("tempFlag");
  }

  /**
   * Declaring `note` three times: every declaration is appended, a later
   * non-null default replaces the earlier one without moving its position,
   * and a null default leaves the recorded one alone.
   */
  method RedeclareOverwrites() returns (declared: seq<string>, keys: seq<string>, default: Value)
    ensures declared == ["note", "note", "note"]
    ensures keys == ["note"]
    ensures default == Str("second")
  {
    var injector := new InjectModelAttribute(ClassInfo("App\\Models\\Order", {EloquentModel}));
    var self := injector.Attribute("note", Literal(Str("first")), None);
    self := self.Attribute("note", Literal(Str("second")), None);
    self := self.Attribute("note", Literal(Null), None);
    declared, keys := injector.attributes, injector.defaultKeys;
    default := Resolve(injector.defaultValues["note"], map[]);
  }

  /** Constructing an injector for a class that is not a model fails with the exception's message. */
  method NonModelRejected() returns (r: Result<InjectModelAttribute>)
    ensures r == Err(InvalidArgument(NotAModelMessage(ClassInfo("App\\Support\\Money", {}))))
  {
    r := InjectModelAttribute.Create(ClassInfo("App\\Support\\Money", {}));
  }
}
