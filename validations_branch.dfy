/** The branch form's schema (src/lib/validations/branch.ts): minimum lengths
    for the contact fields and for each day of the weekly schedule, an e-mail
    that may be left out or empty, and a required active flag. Whether a
    string is an e-mail address is the `isEmail` parameter. */
module BranchValidation {
  import opened Prelude

  datatype Weekday = Lunes | Martes | Miercoles | Jueves | Viernes | Sabado | Domingo

  datatype Schedule = Schedule(
    lunes: string, martes: string, miercoles: string, jueves: string,
    viernes: string, sabado: string, domingo: string)

  function Hours(s: Schedule, d: Weekday): string
  {
    match d
    case Lunes => s.lunes
    case Martes => s.martes
    case Miercoles => s.miercoles
    case Jueves => s.jueves
    case Viernes => s.viernes
    case Sabado => s.sabado
    case Domingo => s.domingo
  }

  /** The form's values before validation; a field that was not sent is
      `None`. */
  datatype BranchForm = BranchForm(
    name: string,
    address: string,
    phone: string,
    email: Option<string>,
    schedule: Schedule,
    isActive: Option<bool>)

  datatype BranchValues = BranchValues(
    name: string,
    address: string,
    phone: string,
    email: Option<string>,
    schedule: Schedule,
    isActive: bool)

  /** The schema's fields; a schedule issue's path is `schedule.<day>`. */
  datatype Field = Name | Address | Phone | Email | Day(day: Weekday) | IsActive

  const Fields: seq<Field> := [
    Name, Address, Phone, Email,
    Day(Lunes), Day(Martes), Day(Miercoles), Day(Jueves), Day(Viernes), Day(Sabado), Day(Domingo),
    IsActive]

  /** The e-mail union: absent, a valid address, or the empty string. */
  predicate EmailOk(email: Option<string>, isEmail: string -> bool)
  {
    email.None? || isEmail(email.value) || email.value == ""
  }

  function Check(f: BranchForm, isEmail: string -> bool, g: Field): seq<Issue<Field>>
  {
    match g
    case Name => Need(|f.name| >= 2, Name, "El nombre es obligatorio")
    case Address => Need(|f.address| >= 5, Address, "La dirección es obligatoria")
    case Phone => Need(|f.phone| >= 7, Phone, "Teléfono inválido")
    case Email => Need(EmailOk(f.email, isEmail), Email, "Correo inválido")
    case Day(d) => Need(|Hours(f.schedule, d)| >= 1, Day(d), "Horario requerido")
    case IsActive => Need(f.isActive.Some?, IsActive, "Required")
  }

  function Validate(f: BranchForm, isEmail: string -> bool): seq<Issue<Field>>
  {
    Collect(Fields, g => Check(f, isEmail, g))
  }

  predicate FieldOk(f: BranchForm, isEmail: string -> bool, g: Field)
  {
    match g
    case Name => |f.name| >= 2
    case Address => |f.address| >= 5
    case Phone => |f.phone| >= 7
    case Email => EmailOk(f.email, isEmail)
    case Day(d) => Hours(f.schedule, d) != ""
    case IsActive => f.isActive.Some?
  }

  ghost predicate ValidForm(f: BranchForm, isEmail: string -> bool)
  {
    forall g :: FieldOk(f, isEmail, g)
  }

  lemma CheckFlagsOwnField(f: BranchForm, isEmail: string -> bool, g: Field)
    ensures forall k :: Flags(Check(f, isEmail, g), k) <==> k == g && !FieldOk(f, isEmail, g)
  {
  }

  lemma AllFieldsListed(g: Field)
    ensures g in Fields
  {
    match g
    case Name => assert Fields[0] == g;
    case Address => assert Fields[1] == g;
    case Phone => assert Fields[2] == g;
    case Email => assert Fields[3] == g;
    case Day(Lunes) => assert Fields[4] == g;
    case Day(Martes) => assert Fields[5] == g;
    case Day(Miercoles) => assert Fields[6] == g;
    case Day(Jueves) => assert Fields[7] == g;
    case Day(Viernes) => assert Fields[8] == g;
    case Day(Sabado) => assert Fields[9] == g;
    case Day(Domingo) => assert Fields[10] == g;
    case IsActive => assert Fields[11] == g;
  }

  /** Each field, and each day of the schedule, is flagged exactly when its
      own bound fails; the form is accepted exactly when every bound holds. */
  lemma ValidateFlagsFailedFields(f: BranchForm, isEmail: string -> bool)
    ensures forall g :: Flags(Validate(f, isEmail), g) <==> !FieldOk(f, isEmail, g)
    ensures Validate(f, isEmail) == [] <==> ValidForm(f, isEmail)
  {
    var check := g => Check(f, isEmail, g);
    forall h ensures forall k :: Flags(check(h), k) ==> k == h {
      CheckFlagsOwnField(f, isEmail, h);
    }
    forall g ensures Flags(Validate(f, isEmail), g) <==> !FieldOk(f, isEmail, g) {
      CollectFlags(Fields, check, g);
      CheckFlagsOwnField(f, isEmail, g);
      AllFieldsListed(g);
    }
    EmptyIffNoFlags(Validate(f, isEmail));
  }

  /** The form is valid exactly when each bound holds, every day included. */
  lemma ValidFormExplicit(f: BranchForm, isEmail: string -> bool)
    ensures ValidForm(f, isEmail) <==>
      |f.name| >= 2 && |f.address| >= 5 && |f.phone| >= 7 &&
      (f.email.None? || f.email.value == "" || isEmail(f.email.value)) &&
      (forall d :: Hours(f.schedule, d) != "") &&
      f.isActive.Some?
  {
    if ValidForm(f, isEmail) {
      forall d ensures Hours(f.schedule, d) != "" {
        assert FieldOk(f, isEmail, Day(d));
      }
      assert FieldOk(f, isEmail, Name) && FieldOk(f, isEmail, Address) && FieldOk(f, isEmail, Phone);
      assert FieldOk(f, isEmail, Email) && FieldOk(f, isEmail, IsActive);
    }
  }

  /** `branchFormSchema.safeParse`: the values, or every issue. */
  function Parse(f: BranchForm, isEmail: string -> bool): (r: Result<BranchValues, seq<Issue<Field>>>)
    ensures r.Ok? <==> ValidForm(f, isEmail)
    ensures r.Err? ==> r.error == Validate(f, isEmail) && r.error != []
    ensures r.Ok? ==>
      (f.isActive.Some? && r.value == BranchValues(f.name, f.address, f.phone, f.email, f.schedule, f.isActive.value))
  {
    ValidateFlagsFailedFields(f, isEmail);
    var issues := Validate(f, isEmail);
    if issues != [] then Err(issues)
    else
      assert FieldOk(f, isEmail, IsActive);
      Ok(BranchValues(f.name, f.address, f.phone, f.email, f.schedule, f.isActive.value))
  }

  /** An empty e-mail is accepted whatever `isEmail` says of it, while a
      non-empty one must be an address. */
  lemma EmptyEmailAccepted(f: BranchForm, isEmail: string -> bool)
    ensures f.email == Some("") ==> !Flags(Validate(f, isEmail), Email)
    ensures (f.email.Some? && f.email.value != "" && !isEmail(f.email.value)) ==> Flags(Validate(f, isEmail), Email)
  {
    ValidateFlagsFailedFields(f, isEmail);
  }

  /** A schedule with one empty day is refused, and the refusal names that day. */
  lemma EmptyDayRefused(f: BranchForm, isEmail: string -> bool, d: Weekday)
    requires Hours(f.schedule, d) == ""
    ensures Parse(f, isEmail).Err? && Flags(Parse(f, isEmail).error, Day(d))
  {
    assert !FieldOk(f, isEmail, Day(d));
    ValidateFlagsFailedFields(f, isEmail);
  }
}
