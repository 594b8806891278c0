/** The employee form's schema (src/lib/validations/employee.ts): length and
    range bounds per field, an optional phone, and `isActive` defaulting to
    true. Whether a string is an e-mail address is decided by the schema
    library; here it is the `isEmail` parameter. */
module EmployeeValidation {
  import opened Prelude

  datatype EmployeeForm = EmployeeForm(
    name: string,
    email: string,
    phone: Option<string>,
    position: string,
    salary: real,
    branchId: string,
    hiredDate: string,
    isActive: Option<bool>)

  /** What a successful parse yields: `isActive` is always present. */
  datatype EmployeeValues = EmployeeValues(
    name: string,
    email: string,
    phone: Option<string>,
    position: string,
    salary: real,
    branchId: string,
    hiredDate: string,
    isActive: bool)

  datatype Field = Name | Email | Phone | Position | Salary | BranchId | HiredDate | IsActive

  const Fields: seq<Field> := [Name, Email, Phone, Position, Salary, BranchId, HiredDate, IsActive]

  const MaxSalary: real := 999999999.0

  /** The checks of one field, in the order the schema chains them; both
      checks of a field run, so one field can report two issues. */
  function Check(f: EmployeeForm, isEmail: string -> bool, g: Field): seq<Issue<Field>>
  {
    match g
    case Name =>
      Need(|f.name| >= 2, Name, "El nombre debe tener al menos 2 caracteres") +
      Need(|f.name| <= 100, Name, "El nombre no puede exceder 100 caracteres")
    case Email =>
      Need(isEmail(f.email), Email, "Debe ser un email válido") +
      Need(|f.email| <= 100, Email, "El email no puede exceder 100 caracteres")
    case Phone =>
      (match f.phone
       case None => []
       case Some(p) => Need(|p| <= 20, Phone, "El teléfono no puede exceder 20 caracteres"))
    case Position =>
      Need(|f.position| >= 2, Position, "El cargo debe tener al menos 2 caracteres") +
      Need(|f.position| <= 100, Position, "El cargo no puede exceder 100 caracteres")
    case Salary =>
      Need(f.salary >= 0.0, Salary, "El salario no puede ser negativo") +
      Need(f.salary <= MaxSalary, Salary, "El salario no puede exceder 999,999,999")
    case BranchId => Need(|f.branchId| >= 1, BranchId, "Debe seleccionar una sucursal")
    case HiredDate => Need(|f.hiredDate| >= 1, HiredDate, "La fecha de contratación es requerida")
    case IsActive => []
  }

  function Validate(f: EmployeeForm, isEmail: string -> bool): seq<Issue<Field>>
  {
    Collect(Fields, g => Check(f, isEmail, g))
  }

  /** The schema's bound on one field, stated on its own. */
  predicate FieldOk(f: EmployeeForm, isEmail: string -> bool, g: Field)
  {
    match g
    case Name => 2 <= |f.name| <= 100
    case Email => isEmail(f.email) && |f.email| <= 100
    case Phone => f.phone.None? || |f.phone.value| <= 20
    case Position => 2 <= |f.position| <= 100
    case Salary => 0.0 <= f.salary <= MaxSalary
    case BranchId => f.branchId != ""
    case HiredDate => f.hiredDate != ""
    case IsActive => true
  }

  predicate ValidForm(f: EmployeeForm, isEmail: string -> bool)
  {
    forall g :: FieldOk(f, isEmail, g)
  }

  lemma CheckFlagsOwnField(f: EmployeeForm, isEmail: string -> bool, g: Field)
    ensures forall k :: Flags(Check(f, isEmail, g), k) <==> k == g && !FieldOk(f, isEmail, g)
  {
    match g
    case Name =>
      FlagsConcat(Need(|f.name| >= 2, Name, "El nombre debe tener al menos 2 caracteres"),
                  Need(|f.name| <= 100, Name, "El nombre no puede exceder 100 caracteres"), Name);
    case Email =>
      FlagsConcat(Need(isEmail(f.email), Email, "Debe ser un email válido"),
                  Need(|f.email| <= 100, Email, "El email no puede exceder 100 caracteres"), Email);
    case Position =>
      FlagsConcat(Need(|f.position| >= 2, Position, "El cargo debe tener al menos 2 caracteres"),
                  Need(|f.position| <= 100, Position, "El cargo no puede exceder 100 caracteres"), Position);
    case Salary =>
      FlagsConcat(Need(f.salary >= 0.0, Salary, "El salario no puede ser negativo"),
                  Need(f.salary <= MaxSalary, Salary, "El salario no puede exceder 999,999,999"), Salary);
    case _ =>
  }

  lemma AllFieldsListed(g: Field)
    ensures g in Fields
  {
    match g
    case Name => assert Fields[0] == g;
    case Email => assert Fields[1] == g;
    case Phone => assert Fields[2] == g;
    case Position => assert Fields[3] == g;
    case Salary => assert Fields[4] == g;
    case BranchId => assert Fields[5] == g;
    case HiredDate => assert Fields[6] == g;
    case IsActive => assert Fields[7] == g;
  }

  /** Each field is flagged exactly when its own bound fails, and the form is
      accepted exactly when every bound holds. */
  lemma ValidateFlagsFailedFields(f: EmployeeForm, isEmail: string -> bool)
    ensures forall g :: Flags(Validate(f, isEmail), g) <==> !FieldOk(f, isEmail, g)
    ensures Validate(f, isEmail) == [] <==> ValidForm(f, isEmail)
  {
    var check := g => Check(f, isEmail, g);
    forall h ensures forall k :: Flags(check(h), k) ==> k == h {
      CheckFlagsOwnField(f, isEmail, h);
    }
    forall g ensures Flags(Validate(f, isEmail), g) <==> !FieldOk(f, isEmail, g) {
      CollectFlags(Fields, check, g);
      CheckFlagsOwnField(f, isEmail, g);
      AllFieldsListed(g);
    }
    EmptyIffNoFlags(Validate(f, isEmail));
  }

  /** The form is valid exactly when each field's bound holds. */
  lemma ValidFormExplicit(f: EmployeeForm, isEmail: string -> bool)
    ensures ValidForm(f, isEmail) <==>
      2 <= |f.name| <= 100 && isEmail(f.email) && |f.email| <= 100 &&
      (f.phone.None? || |f.phone.value| <= 20) && 2 <= |f.position| <= 100 &&
      0.0 <= f.salary <= MaxSalary && f.branchId != "" && f.hiredDate != ""
  {
    assert ValidForm(f, isEmail) <==>
      FieldOk(f, isEmail, Name) && FieldOk(f, isEmail, Email) && FieldOk(f, isEmail, Phone) &&
      FieldOk(f, isEmail, Position) && FieldOk(f, isEmail, Salary) && FieldOk(f, isEmail, BranchId) &&
      FieldOk(f, isEmail, HiredDate) && FieldOk(f, isEmail, IsActive);
  }

  /** `employeeFormSchema.safeParse`: the values with `isActive` defaulted to
      true when absent, or every issue. */
  function Parse(f: EmployeeForm, isEmail: string -> bool): (r: Result<EmployeeValues, seq<Issue<Field>>>)
    ensures r.Ok? <==> ValidForm(f, isEmail)
    ensures r.Err? ==> r.error == Validate(f, isEmail) && r.error != []
    ensures r.Ok? ==>
      r.value.name == f.name && r.value.email == f.email && r.value.phone == f.phone &&
      r.value.position == f.position && r.value.salary == f.salary &&
      r.value.branchId == f.branchId && r.value.hiredDate == f.hiredDate &&
      r.value.isActive == (f.isActive != Some(false))
  {
    ValidateFlagsFailedFields(f, isEmail);
    var issues := Validate(f, isEmail);
    if issues != [] then Err(issues)
    else
      Ok(EmployeeValues(f.name, f.email, f.phone, f.position, f.salary, f.branchId, f.hiredDate,
                        match f.isActive case Some(b) => b case None => true))
  }

  /** An invalid address that is also too long is reported twice. */
  lemma LongInvalidEmailReportedTwice(f: EmployeeForm, isEmail: string -> bool)
    requires !isEmail(f.email) && |f.email| > 100
    ensures |Check(f, isEmail, Email)| == 2
    ensures Check(f, isEmail, Email)[0].message == "Debe ser un email válido"
    ensures Check(f, isEmail, Email)[1].message == "El email no puede exceder 100 caracteres"
  {
  }
}
