/** The `check_fields_based_on_type` root validators of the transaction schemas. They run before field
    parsing (`pre=True`) on the raw request values, and either raise a `ValueError` naming a missing
    field or return the values unchanged. */
module Schemas {
  import opened Entities

  /** The raw request values the validators read; `None` stands for a key that is absent or null
      (`values.get` does not tell them apart). */
  datatype RawTransaction = RawTransaction(
    kind: Option<string>,
    horseId: Option<int>,
    userId: Option<int>,
    concept: Option<string>,
    fechaDePago: Option<string>,
    fechaDeEfectividad: Option<string>,
    pagado: Option<bool>)

  /** Python truthiness of an optional integer and of an optional string. */
  predicate TruthyInt(x: Option<int>) { x.Some? && x.value != 0 }
  predicate TruthyText(x: Option<string>) { x.Some? && x.value != [] }

  /** Whether the named field is supplied in the sense the validators test it: `pagado` only has to
      be non-null, every other field has to be truthy. */
  predicate Supplied(v: RawTransaction, field: string) {
    match field
    case "horse_id" => TruthyInt(v.horseId)
    case "user_id" => TruthyInt(v.userId)
    case "concept" => TruthyText(v.concept)
    case "fecha_de_pago" => TruthyText(v.fechaDePago)
    case "fecha_de_efectividad" => TruthyText(v.fechaDeEfectividad)
    case "pagado" => v.pagado.Some?
    case _ => false
  }

  /** The fields the newest create schema demands for each transaction type; any other type, or no
      type, still needs a concept. */
  function ProdCreateRequired(kind: Option<string>): set<string> {
    if kind == Some("EGRESO") then {"horse_id", "pagado", "concept", "fecha_de_pago"}
    else if kind == Some("PREMIO") then {"horse_id", "fecha_de_efectividad", "concept"}
    else if kind == Some("INGRESO") then {"horse_id", "fecha_de_pago", "concept"}
    else if kind == Some("PAGO") then {"user_id", "concept"}
    else {"concept"}
  }

  /** `TransactionCreateSchema.check_fields_based_on_type` of the newest copy, check by check in the
      source's order. INGRESO takes the first branch, so the `elif` never checks its `user_id`. */
  function ProdCreateCheck(v: RawTransaction): (r: Result<RawTransaction>)
    ensures r.Ok? ==> r.value == v
    ensures r.Err? ==> r.error.MissingField? && r.error.field in ProdCreateRequired(v.kind) && !Supplied(v, r.error.field)
  {
    var t := v.kind;
    if (t == Some("EGRESO") || t == Some("PREMIO") || t == Some("INGRESO")) && !TruthyInt(v.horseId) then Err(MissingField("horse_id"))
    else if !(t == Some("EGRESO") || t == Some("PREMIO") || t == Some("INGRESO")) && (t == Some("INGRESO") || t == Some("PAGO"))
            && !TruthyInt(v.userId) then Err(MissingField("user_id"))
    else if t == Some("INGRESO") && !TruthyText(v.fechaDePago) then Err(MissingField("fecha_de_pago"))
    else if t == Some("EGRESO") && v.pagado.None? then Err(MissingField("pagado"))
    else if t != Some("PREMIO") && !TruthyText(v.concept) then Err(MissingField("concept"))
    else if t == Some("PREMIO") && !TruthyText(v.fechaDeEfectividad) then Err(MissingField("fecha_de_efectividad"))
    else if t == Some("EGRESO") && !TruthyText(v.fechaDePago) then Err(MissingField("fecha_de_pago"))
    else if t == Some("PREMIO") && !TruthyText(v.concept) then Err(MissingField("concept"))
    else Ok(v)
  }

  /** The newest create schema accepts exactly the values that supply every field their type demands. */
  lemma ProdCreateAcceptsIffComplete(v: RawTransaction)
    ensures ProdCreateCheck(v).Ok? <==> forall f :: f in ProdCreateRequired(v.kind) ==> Supplied(v, f)
  {
    if ProdCreateCheck(v).Ok? {
      forall f | f in ProdCreateRequired(v.kind) ensures Supplied(v, f) {
      }
    }
  }

  /** `TransactionUpdateSchema.check_fields_based_on_type`, the same in the oldest and newest copies:
      only a truthy type is checked; INGRESO, EGRESO and PREMIO need a `horse_id`, PAGO a `user_id`. */
  function UpdateCheck(v: RawTransaction): (r: Result<RawTransaction>)
    ensures r.Ok? ==> r.value == v
    ensures r.Err? ==> r.error == MissingField("horse_id") || r.error == MissingField("user_id")
  {
    var t := v.kind;
    if TruthyText(t) then
      if (t == Some("INGRESO") || t == Some("EGRESO") || t == Some("PREMIO")) && !TruthyInt(v.horseId) then Err(MissingField("horse_id"))
      else if t == Some("PAGO") && !TruthyInt(v.userId) then Err(MissingField("user_id"))
      else Ok(v)
    else Ok(v)
  }

  /** The fields the update schema demands: none without a type. */
  function UpdateRequired(kind: Option<string>): set<string> {
    if kind == Some("INGRESO") || kind == Some("EGRESO") || kind == Some("PREMIO") then {"horse_id"}
    else if kind == Some("PAGO") then {"user_id"}
    else {}
  }

  /** The update schema accepts exactly the values that supply what their type demands; in
      particular a value with no type is always accepted. */
  lemma UpdateAcceptsIffComplete(v: RawTransaction)
    ensures UpdateCheck(v).Ok? <==> forall f :: f in UpdateRequired(v.kind) ==> Supplied(v, f)
    ensures UpdateCheck(v).Err? ==> UpdateCheck(v).error.field in UpdateRequired(v.kind)
  {
    if UpdateCheck(v).Ok? {
      forall f | f in UpdateRequired(v.kind) ensures Supplied(v, f) {
      }
    } else {
      var f := UpdateCheck(v).error.field;
      assert f in UpdateRequired(v.kind) && !Supplied(v, f);
    }
  }

  /** Every value the newest create schema accepts would also pass the update schema. */
  lemma ProdCreateImpliesUpdate(v: RawTransaction)
    requires ProdCreateCheck(v).Ok?
    ensures UpdateCheck(v).Ok?
  {
    ProdCreateAcceptsIffComplete(v);
    UpdateAcceptsIffComplete(v);
    forall f | f in UpdateRequired(v.kind) ensures f in ProdCreateRequired(v.kind) {
    }
  }

  /** `TransactionCreateSchema.check_fields_based_on_type` of the oldest copy: EGRESO and PREMIO fail
      only when `horse_id` is falsy and `user_id` is null; INGRESO and PAGO need a truthy `user_id`;
      nothing else is checked. */
  function ApiCreateCheck(v: RawTransaction): (r: Result<RawTransaction>)
    ensures r.Ok? ==> r.value == v
    ensures r.Err? ==> r.error == MissingField("horse_id") || r.error == MissingField("user_id")
  {
    var t := v.kind;
    if t == Some("EGRESO") || t == Some("PREMIO") then
      if !TruthyInt(v.horseId) && v.userId.None? then Err(MissingField("horse_id")) else Ok(v)
    else if t == Some("INGRESO") || t == Some("PAGO") then
      if !TruthyInt(v.userId) then Err(MissingField("user_id")) else Ok(v)
    else Ok(v)
  }

  /** The two create schemas disagree in both directions on INGRESO: the newest demands a horse and
      never a user, the oldest demands a user and never a horse. On every other type the newest one is
      the stricter. */
  lemma CreateSchemasCompared(v: RawTransaction)
    ensures v.kind != Some("INGRESO") && ProdCreateCheck(v).Ok? ==> ApiCreateCheck(v).Ok?
    ensures v.kind == Some("INGRESO") ==>
              (ProdCreateCheck(v).Ok? <==> TruthyInt(v.horseId) && TruthyText(v.fechaDePago) && TruthyText(v.concept))
              && (ApiCreateCheck(v).Ok? <==> TruthyInt(v.userId))
  {
  }

  /** The oldest create schema lets an EGRESO or PREMIO through with a null `horse_id` as long as some
      `user_id` is given, even 0. */
  lemma ApiCreateAcceptsHorselessExpense()
    ensures ApiCreateCheck(RawTransaction(Some("EGRESO"), None, Some(0), None, None, None, None)).Ok?
    ensures ProdCreateCheck(RawTransaction(Some("EGRESO"), None, Some(0), None, None, None, None)).Err?
  {
  }
}
