/** The movement form's schema (src/lib/validations/inventory.ts), as a
    validator that lists the failed checks and a parser that yields the
    request handed to the movement recorder. */
module InventoryValidation {
  import opened Prelude
  import InventoryApi

  /** The form's values before validation; `kind` is the raw type string. */
  datatype MovementForm = MovementForm(
    kind: string,
    productId: string,
    branchId: string,
    quantity: real,
    notes: Option<string>,
    reference: Option<string>)

  /** The schema's fields, in declaration order. */
  datatype Field = Type | ProductId | BranchId | Quantity | Notes | Reference

  const Fields: seq<Field> := [Type, ProductId, BranchId, Quantity, Notes, Reference]

  const Kinds: seq<string> := ["INGRESS", "EGRESS", "ADJUSTMENT", "LOSS"]

  function KindOf(s: string): (r: Option<InventoryApi.MovementType>)
    ensures r.Some? <==> s in Kinds
    ensures r == Some(InventoryApi.Ingress) <==> s == "INGRESS"
    ensures r == Some(InventoryApi.Egress) <==> s == "EGRESS"
    ensures r == Some(InventoryApi.Adjustment) <==> s == "ADJUSTMENT"
    ensures r == Some(InventoryApi.Loss) <==> s == "LOSS"
  {
    if s == "INGRESS" then Some(InventoryApi.Ingress)
    else if s == "EGRESS" then Some(InventoryApi.Egress)
    else if s == "ADJUSTMENT" then Some(InventoryApi.Adjustment)
    else if s == "LOSS" then Some(InventoryApi.Loss)
    else None
  }

  /** The checks of one field; `notes` and `reference` are optional strings. */
  function Check(f: MovementForm, g: Field): seq<Issue<Field>>
  {
    match g
    case Type => Need(KindOf(f.kind).Some?, Type,
      "Invalid enum value. Expected 'INGRESS' | 'EGRESS' | 'ADJUSTMENT' | 'LOSS', received '" + f.kind + "'")
    case ProductId => Need(|f.productId| >= 1, ProductId, "Debe seleccionar un producto")
    case BranchId => Need(|f.branchId| >= 1, BranchId, "Debe seleccionar una sucursal")
    case Quantity => Need(f.quantity >= 0.01, Quantity, "La cantidad debe ser mayor a 0")
    case Notes => []
    case Reference => []
  }

  /** Every issue, field by field. */
  function Validate(f: MovementForm): seq<Issue<Field>>
  {
    Collect(Fields, g => Check(f, g))
  }

  /** The schema's bound on one field, stated on its own. */
  predicate FieldOk(f: MovementForm, g: Field)
  {
    match g
    case Type => f.kind in Kinds
    case ProductId => f.productId != ""
    case BranchId => f.branchId != ""
    case Quantity => f.quantity >= 0.01
    case Notes => true
    case Reference => true
  }

  predicate ValidForm(f: MovementForm)
  {
    forall g :: FieldOk(f, g)
  }

  /** A field's checks report that field, and only when its bound fails. */
  lemma CheckFlagsOwnField(f: MovementForm, g: Field)
    ensures forall k :: Flags(Check(f, g), k) <==> k == g && !FieldOk(f, g)
  {
  }

  /** Each field is flagged exactly when its own bound fails, and the form is
      accepted exactly when every bound holds. */
  lemma ValidateFlagsFailedFields(f: MovementForm)
    ensures forall g :: Flags(Validate(f), g) <==> !FieldOk(f, g)
    ensures Validate(f) == [] <==> ValidForm(f)
  {
    var check := g => Check(f, g);
    forall h ensures forall k :: Flags(check(h), k) ==> k == h {
      CheckFlagsOwnField(f, h);
    }
    forall g ensures Flags(Validate(f), g) <==> !FieldOk(f, g) {
      CollectFlags(Fields, check, g);
      CheckFlagsOwnField(f, g);
      assert g in Fields by { AllFieldsListed(g); }
    }
    EmptyIffNoFlags(Validate(f));
  }

  lemma AllFieldsListed(g: Field)
    ensures g in Fields
  {
    match g
    case Type => assert Fields[0] == g;
    case ProductId => assert Fields[1] == g;
    case BranchId => assert Fields[2] == g;
    case Quantity => assert Fields[3] == g;
    case Notes => assert Fields[4] == g;
    case Reference => assert Fields[5] == g;
  }

  /** `inventoryMovementSchema.safeParse`: the typed request, or every issue. */
  function Parse(f: MovementForm): (r: Result<InventoryApi.MovementInput, seq<Issue<Field>>>)
    ensures r.Ok? <==> ValidForm(f)
    ensures r.Ok? <==> f.kind in Kinds && f.productId != "" && f.branchId != "" && f.quantity >= 0.01
    ensures r.Err? ==> r.error == Validate(f) && r.error != []
    ensures r.Ok? ==>
      r.value.productId == f.productId && r.value.branchId == f.branchId &&
      r.value.quantity == f.quantity && r.value.notes == f.notes && r.value.reference == f.reference &&
      Some(r.value.kind) == KindOf(f.kind)
  {
    ValidateFlagsFailedFields(f);
    assert ValidForm(f) <==> FieldOk(f, Type) && FieldOk(f, ProductId) && FieldOk(f, BranchId) && FieldOk(f, Quantity);
    var issues := Validate(f);
    if issues != [] then Err(issues)
    else Ok(InventoryApi.MovementInput(KindOf(f.kind).value, f.productId, f.quantity, f.branchId, f.notes, f.reference))
  }

  /** Zero and negative quantities are refused, whatever the other fields
      hold, and the refusal names the quantity. */
  lemma NonPositiveQuantityRefused(f: MovementForm)
    requires f.quantity <= 0.0
    ensures Parse(f).Err? && Flags(Parse(f).error, Quantity)
  {
    ValidateFlagsFailedFields(f);
    assert !FieldOk(f, Quantity);
  }
}
