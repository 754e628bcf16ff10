/** ValidatePet: which pets the store lets in. */
module PetValidation {
  import opened Calendar
  import opened PetIndex
  import opened Text

  const PT_UNKNOWN: PetType := 0

  datatype PetError = NeedsId | HasId | NoName | NoKind | BadBirthday(error: DateError)

  datatype Validated = Valid(pet: Pet) | Invalid(error: PetError)

  /** The pet comes back with its name trimmed, as the source writes it into its argument. */
  function ValidatePet(p: Pet, forUpdate: bool): Validated {
    if forUpdate && p.id == "" then Invalid(NeedsId)
    else if !forUpdate && p.id != "" then Invalid(HasId)
    else
      var trimmed := p.(name := Trim(p.name));
      if trimmed.name == "" then Invalid(NoName)
      else if p.kind == PT_UNKNOWN then Invalid(NoKind)
      else
        match BirthdayToTime(p.birthday)
        case Err(e) => Invalid(BadBirthday(e))
        case Ok(_) => Valid(trimmed)
  }

  /** What a stored pet looks like: trimmed, named, of a known type, born on a real day. */
  ghost predicate WellFormed(p: Pet) {
    Trim(p.name) == p.name && p.name != "" && p.kind != PT_UNKNOWN && IsRealDate(p.birthday)
  }

  /** Validation accepts exactly the pets with an id where one is asked for and none where not,
      a name that is not all white space, a known type and a real birthday. Of an accepted pet it
      changes only the name, which loses the white space at its ends and nothing else. Validating
      an accepted update again changes nothing. */
  lemma ValidationIsExact(p: Pet, forUpdate: bool)
    ensures ValidatePet(p, forUpdate).Valid? <==>
              (p.id != "") == forUpdate && !AllSpace(p.name) && p.kind != PT_UNKNOWN && IsRealDate(p.birthday)
    ensures ValidatePet(p, forUpdate).Valid? ==>
              var q := ValidatePet(p, forUpdate).pet;
              IsTrimmed(p.name, q.name) && q == p.(name := q.name) && WellFormed(q)
    ensures ValidatePet(p, true).Valid? ==>
              ValidatePet(ValidatePet(p, true).pet, true) == ValidatePet(p, true)
  {
    TrimTwice(p.name);
    TrimIsTheMiddle(p.name, Trim(p.name));
    BlankIffAllSpace(p.name);
    AcceptsExactlyRealDates(p.birthday);
  }

  /** The first thing wrong with a pet, in the order of the checks. */
  lemma RejectionNamesFirstFault(p: Pet, forUpdate: bool)
    ensures ValidatePet(p, forUpdate) == Invalid(NeedsId) <==> forUpdate && p.id == ""
    ensures ValidatePet(p, forUpdate) == Invalid(HasId) <==> !forUpdate && p.id != ""
    ensures ValidatePet(p, forUpdate) == Invalid(NoName) <==> (p.id != "") == forUpdate && AllSpace(p.name)
    ensures ValidatePet(p, forUpdate) == Invalid(NoKind) <==>
              (p.id != "") == forUpdate && !AllSpace(p.name) && p.kind == PT_UNKNOWN
  {
    BlankIffAllSpace(p.name);
  }
}
