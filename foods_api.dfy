/**
 * The create, update and delete handlers of `/api/foods`, without the database: payload
 * validation and normalisation (shared by create and update), the path-id check, and the
 * reply each handler gives.
 *
 * JavaScript's `Number()` on a string is the parameter `numberOfText` (`None` stands for
 * `NaN`, infinities are not modelled). The row count an UPDATE or DELETE reports
 * (`result.affectedRows`) is the parameter `affectedRows`, given what the statement binds.
 */
module FoodsApi {
  import opened Wrappers
  import opened JsStrings
  import opened JsValues
  import opened ApiErrors
  import opened FoodTypes

  /** The fields of `req.body || {}` the handlers read; a missing body has all four `undefined`. */
  datatype FoodBody = FoodBody(name: JsValue, description: JsValue, calories: JsValue, kind: JsValue)

  const MissingBody: FoodBody := FoodBody(Undefined, Undefined, Undefined, Undefined)

  /** The values bound to the INSERT or UPDATE: name, description, calories, type. */
  datatype FoodFields = FoodFields(name: string, description: JsValue, calories: Option<real>, kind: FoodType)

  /** What a handler answers: an error, or the success status with what was written. */
  datatype Reply =
    | Rejected(error: ApiError)
    | Created(fields: FoodFields)            // 201 with the inserted row
    | Updated(id: nat, fields: FoodFields)   // 200 with the updated row
    | Deleted(id: nat)                       // 204 with an empty body
  {
    function Status(): (s: int)
      ensures Rejected? ==> s == error.Status()
      ensures s == 200 <==> Updated?
      ensures s == 201 <==> Created?
      ensures s == 204 <==> Deleted?
    {
      match this
      case Rejected(e) => e.Status()
      case Created(_) => 201
      case Updated(_, _) => 200
      case Deleted(_) => 204
    }
  }

  /** `Number(v)` on a body value; `None` is `NaN`. */
  function NumberOf(v: JsValue, numberOfText: string -> Option<real>): Option<real> {
    match v
    case Undefined => None
    case Null => Some(0.0)
    case Bool(b) => Some(if b then 1.0 else 0.0)
    case Num(n) => Some(n as real)
    case Str(s) => numberOfText(s)
  }

  /**
   * The calories value stored: SQL NULL when the field is absent, null, the empty string or
   * a string `Number()` cannot read; otherwise the number.
   */
  function StoredCalories(v: JsValue, numberOfText: string -> Option<real>): (r: Option<real>)
    ensures r.None? <==> v.Undefined? || v.Null? || v == Str("") || (v.Str? && numberOfText(v.s).None?)
    ensures v.Num? ==> r == Some(v.n as real)
    ensures v.Str? && v.s != "" ==> r == numberOfText(v.s)
    ensures v.Bool? ==> r == Some(if v.b then 1.0 else 0.0)
  {
    var cal := if v.Undefined? || v.Null? || v == Str("") then None else NumberOf(v, numberOfText);
    if cal.Some? then cal else None
  }

  /** The description stored: `description || null`, the value itself when truthy, else SQL NULL. */
  function StoredDescription(v: JsValue): (r: JsValue)
    ensures r.Null? <==> !Truthy(v)
    ensures Truthy(v) ==> r == v
  {
    OrElse(v, Null)
  }

  /** The payload check the create and update handlers share, then the values they bind. */
  function ValidatePayload(body: FoodBody, numberOfText: string -> Option<real>): (r: Result<FoodFields, ApiError>)
    ensures r.Failure? <==> !Truthy(body.name) || !Truthy(body.kind) || ToText(body.kind) !in AllowedTypes
    ensures r.Failure? ==> r.error == InvalidPayload
    ensures r.Success? ==> && r.value.name == ToText(body.name)
                           && r.value.kind.Name() == ToText(body.kind)
                           && r.value.calories == StoredCalories(body.calories, numberOfText)
    ensures r.Success? ==> (r.value.description == Null <==> !Truthy(body.description))
    ensures r.Success? && Truthy(body.description) ==> r.value.description == body.description
  {
    if !Truthy(body.name) || !Truthy(body.kind) || ToText(OrElse(body.kind, Str(""))) !in AllowedTypes then
      Failure(InvalidPayload)
    else
      var kind := ParseFoodType(ToText(body.kind)).value;
      Success(FoodFields(ToText(body.name), StoredDescription(body.description), StoredCalories(body.calories, numberOfText), kind))
  }

  /** Only a string `type` passes: no number and no boolean renders as a type name. */
  lemma OnlyStringTypesPass(body: FoodBody, numberOfText: string -> Option<real>)
    requires ValidatePayload(body, numberOfText).Success?
    ensures body.kind.Str? && body.kind.s in AllowedTypes
  {
    NumberIsNoTypeName(body.kind);
  }

  lemma NumberIsNoTypeName(v: JsValue)
    ensures v.Num? ==> ToText(v) !in AllowedTypes
  {
    if v.Num? {
      var s := IntToString(v.n);
      assert s[0] == '-' || IsDigit(s[0]);
    }
  }

  /**
   * The type name is compared as sent: unlike the list filter, the payload's type is not
   * trimmed, so a type with whitespace at either end (`" plat"`) is an invalid payload.
   */
  lemma PayloadTypeNotTrimmed(body: FoodBody, numberOfText: string -> Option<real>)
    requires body.kind.Str? && |body.kind.s| > 0
    requires IsJsWhitespace(body.kind.s[0]) || IsJsWhitespace(body.kind.s[|body.kind.s| - 1])
    ensures ValidatePayload(body, numberOfText) == Failure(InvalidPayload)
  {
    var s := body.kind.s;
    assert ToText(body.kind) == s;
    assert s !in AllowedTypes by {
      if s in AllowedTypes {
        assert false;
      }
    }
  }

  /** A missing body is an invalid payload. */
  lemma MissingBodyRejected(numberOfText: string -> Option<real>)
    ensures ValidatePayload(MissingBody, numberOfText) == Failure(InvalidPayload)
  {
  }

  /** `Number.isInteger(x) && x > 0`. */
  predicate IsPositiveInteger(x: real) {
    x.Floor as real == x && x > 0.0
  }

  /** The path id: `Number(req.params.id)` when it is a positive integer. */
  function ParseId(pathId: string, numberOfText: string -> Option<real>): (r: Option<nat>)
    ensures r.Some? <==> numberOfText(pathId).Some? && IsPositiveInteger(numberOfText(pathId).value)
    ensures r.Some? ==> r.value > 0 && r.value as real == numberOfText(pathId).value
  {
    match numberOfText(pathId)
    case Some(x) => if IsPositiveInteger(x) then Some(x.Floor) else None
    case None => None
  }

  /** `POST /api/foods`: the payload check, then 201 with the inserted values. */
  function HandleCreate(body: FoodBody, numberOfText: string -> Option<real>): (r: Reply)
    ensures r.Rejected? || r.Created?
    ensures r.Rejected? <==> ValidatePayload(body, numberOfText).Failure?
    ensures r.Rejected? ==> r.error == InvalidPayload
    ensures r.Created? ==> Success(r.fields) == ValidatePayload(body, numberOfText)
  {
    match ValidatePayload(body, numberOfText)
    case Failure(e) => Rejected(e)
    case Success(fields) => Created(fields)
  }

  /** `PUT /api/foods/:id`: the id check, the payload check, the UPDATE, then 404 or 200. */
  function HandleUpdate(
    pathId: string, body: FoodBody, numberOfText: string -> Option<real>,
    affectedRows: (nat, FoodFields) -> nat
  ): (r: Reply)
    ensures r.Rejected? || r.Updated?
    ensures r == Rejected(InvalidId) <==> ParseId(pathId, numberOfText).None?
    ensures r == Rejected(InvalidPayload) <==>
      ParseId(pathId, numberOfText).Some? && ValidatePayload(body, numberOfText).Failure?
    ensures r == Rejected(NotFound) <==>
      && ParseId(pathId, numberOfText).Some? && ValidatePayload(body, numberOfText).Success?
      && affectedRows(ParseId(pathId, numberOfText).value, ValidatePayload(body, numberOfText).value) == 0
    ensures r.Updated? ==>
      && Some(r.id) == ParseId(pathId, numberOfText)
      && Success(r.fields) == ValidatePayload(body, numberOfText)
      && affectedRows(r.id, r.fields) > 0
  {
    match ParseId(pathId, numberOfText)
    case None => Rejected(InvalidId)
    case Some(id) =>
      match ValidatePayload(body, numberOfText)
      case Failure(e) => Rejected(e)
      case Success(fields) =>
        if affectedRows(id, fields) == 0 then Rejected(NotFound) else Updated(id, fields)
  }

  /** `DELETE /api/foods/:id`: the id check, the DELETE, then 404 or 204. */
  function HandleDelete(pathId: string, numberOfText: string -> Option<real>, affectedRows: nat -> nat): (r: Reply)
    ensures r.Rejected? || r.Deleted?
    ensures r == Rejected(InvalidId) <==> ParseId(pathId, numberOfText).None?
    ensures r == Rejected(NotFound) <==>
      ParseId(pathId, numberOfText).Some? && affectedRows(ParseId(pathId, numberOfText).value) == 0
    ensures r.Deleted? ==> Some(r.id) == ParseId(pathId, numberOfText) && affectedRows(r.id) > 0
  {
    match ParseId(pathId, numberOfText)
    case None => Rejected(InvalidId)
    case Some(id) => if affectedRows(id) == 0 then Rejected(NotFound) else Deleted(id)
  }

  /**
   * A bad path id is refused before anything else: the reply is `invalid_id` whatever the
   * body holds and whatever the database would report, so neither is consulted.
   */
  lemma IdCheckedFirst(
    pathId: string, body1: FoodBody, body2: FoodBody, numberOfText: string -> Option<real>,
    update1: (nat, FoodFields) -> nat, update2: (nat, FoodFields) -> nat,
    delete1: nat -> nat, delete2: nat -> nat
  )
    requires ParseId(pathId, numberOfText).None?
    ensures HandleUpdate(pathId, body1, numberOfText, update1) == HandleUpdate(pathId, body2, numberOfText, update2)
    ensures HandleDelete(pathId, numberOfText, delete1) == HandleDelete(pathId, numberOfText, delete2)
    ensures HandleUpdate(pathId, body1, numberOfText, update1).Status() == 400
  {
  }

  /** An invalid payload is refused before the UPDATE runs, whatever it would report. */
  lemma PayloadCheckedBeforeWrite(
    pathId: string, body: FoodBody, numberOfText: string -> Option<real>,
    update1: (nat, FoodFields) -> nat, update2: (nat, FoodFields) -> nat
  )
    requires ValidatePayload(body, numberOfText).Failure?
    ensures HandleUpdate(pathId, body, numberOfText, update1) == HandleUpdate(pathId, body, numberOfText, update2)
  {
  }

  /** Create and update validate a payload the same way and bind the same values. */
  lemma CreateAndUpdateAgree(
    pathId: string, body: FoodBody, numberOfText: string -> Option<real>, affectedRows: (nat, FoodFields) -> nat
  )
    requires ParseId(pathId, numberOfText).Some?
    ensures HandleCreate(body, numberOfText) == Rejected(InvalidPayload)
      <==> HandleUpdate(pathId, body, numberOfText, affectedRows) == Rejected(InvalidPayload)
    ensures HandleUpdate(pathId, body, numberOfText, affectedRows).Updated? ==>
      HandleCreate(body, numberOfText) == Created(HandleUpdate(pathId, body, numberOfText, affectedRows).fields)
  {
  }
}
