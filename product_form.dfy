/** The product editor of frontend/src/components/ProductForm.jsx: the single-field change
    handler and the numeric check that runs before the form is handed to `onSave`.
    The form holds the strings the inputs produce. JavaScript's number coercion (`isNaN`, and
    the `< 0` comparison, both coerce the same way) is a parameter: `number(s)` is the value
    `Number(s)` gives, or `None` for `NaN`. */
module ProductForm {

  import opened Common

  type FormData = map<string, string>

  /** `Number(s)`: `None` stands for `NaN`. */
  type Coercion = string -> Option<real>

  /** The form's state before any product is loaded: every field empty. */
  const InitialForm: FormData := map[
    "name" := "", "sku" := "", "category" := "", "price" := "", "cost" := "",
    "stockQuantity" := "", "minStockLevel" := "", "description" := "", "barcode" := ""]

  /** The fields checked on submit, in the order they are checked. */
  const NumericFields: seq<string> := ["price", "cost", "stockQuantity", "minStockLevel"]

  /** A change event on an input: the field it names takes the typed value, the rest stay. */
  function HandleChange(form: FormData, name: string, value: string): (r: FormData)
    ensures name in r && r[name] == value
    ensures r.Keys == form.Keys + {name}
    ensures forall k :: k in form && k != name ==> r[k] == form[k]
  {
    form[name := value]
  }

  /** A field passes unless its value is `NaN` or below zero. A field the form does not hold
      reads as `undefined`, which is `NaN`. */
  predicate FieldValid(form: FormData, number: Coercion, field: string) {
    field in form && number(form[field]).Some? && number(form[field]).value >= 0.0
  }

  /** The field whose check throws first, if any. */
  function FirstInvalid(form: FormData, number: Coercion, fields: seq<string>): (r: Option<string>)
    ensures r.None? <==> forall i :: 0 <= i < |fields| ==> FieldValid(form, number, fields[i])
    ensures r.Some? ==>
              exists i :: 0 <= i < |fields| && fields[i] == r.value && !FieldValid(form, number, fields[i])
                          && forall j :: 0 <= j < i ==> FieldValid(form, number, fields[j])
  {
    if fields == [] then None
    else if !FieldValid(form, number, fields[0]) then Some(fields[0])
    else
      var r := FirstInvalid(form, number, fields[1..]);
      assert r.Some? ==> exists i :: 1 <= i < |fields| && fields[i] == r.value && !FieldValid(form, number, fields[i])
                                     && forall j :: 0 <= j < i ==> FieldValid(form, number, fields[j]) by {
        if r.Some? {
          var i :| 0 <= i < |fields[1..]| && fields[1..][i] == r.value && !FieldValid(form, number, fields[1..][i])
                   && forall j :: 0 <= j < i ==> FieldValid(form, number, fields[1..][j]);
          assert forall j :: 1 <= j < i + 1 ==> fields[j] == fields[1..][j - 1];
        }
      }
      r
  }

  /** What submitting does: the form goes to `onSave` unchanged, or a message is shown. */
  datatype Outcome = Saved(data: FormData) | Rejected(message: string)

  function InvalidMessage(field: string): string {
    "Invalid " + field + " value"
  }

  /** `handleSubmit` up to the `onSave` call: the four fields are checked in order and the
      first failure is reported; the form is saved only when all four pass. */
  function Submit(form: FormData, number: Coercion): (r: Outcome)
    ensures r.Saved? <==> forall i :: 0 <= i < |NumericFields| ==> FieldValid(form, number, NumericFields[i])
    ensures r.Saved? ==> r.data == form
    ensures r.Rejected? ==>
              exists i :: 0 <= i < |NumericFields| && r.message == InvalidMessage(NumericFields[i])
                          && !FieldValid(form, number, NumericFields[i])
                          && forall j :: 0 <= j < i ==> FieldValid(form, number, NumericFields[j])
  {
    match FirstInvalid(form, number, NumericFields)
    case None => Saved(form)
    case Some(field) => Rejected(InvalidMessage(field))
  }

  /** Two forms that agree on whether each field passes are treated alike. */
  lemma {:induction false} FirstInvalidAgrees(f: FormData, g: FormData, number: Coercion, fields: seq<string>)
    requires forall i :: 0 <= i < |fields| ==> (FieldValid(f, number, fields[i]) <==> FieldValid(g, number, fields[i]))
    ensures FirstInvalid(f, number, fields) == FirstInvalid(g, number, fields)
  {
    if fields != [] {
      FirstInvalidAgrees(f, g, number, fields[1..]);
    }
  }

  /** Editing a text field (name, SKU, ...) never changes whether, or why, submitting fails. */
  lemma ChangeTextKeepsVerdict(form: FormData, number: Coercion, name: string, value: string)
    requires name !in NumericFields
    ensures Submit(HandleChange(form, name, value), number) == if Submit(form, number).Saved?
                                                             then Saved(HandleChange(form, name, value))
                                                             else Submit(form, number)
  {
    var g := HandleChange(form, name, value);
    forall i | 0 <= i < |NumericFields|
      ensures FieldValid(form, number, NumericFields[i]) <==> FieldValid(g, number, NumericFields[i])
    {
      assert NumericFields[i] != name;
    }
    FirstInvalidAgrees(form, g, number, NumericFields);
  }

  /** Under JavaScript's coercion the empty string is 0, so the untouched form passes the
      check: empty numeric fields are accepted and left for the server to judge. */
  lemma EmptyFormPasses(number: Coercion)
    requires number("") == Some(0.0)
    ensures Submit(InitialForm, number) == Saved(InitialForm)
  {
    assert forall i :: 0 <= i < |NumericFields| ==> NumericFields[i] in InitialForm && InitialForm[NumericFields[i]] == "";
  }

  /** A negative price is reported first even when later fields are also wrong; a zero price
      passes. */
  lemma NegativePriceFirst(form: FormData, number: Coercion)
    requires "price" in form && number(form["price"]).Some? && number(form["price"]).value < 0.0
    ensures Submit(form, number) == Rejected("Invalid price value")
  {
  }
}
