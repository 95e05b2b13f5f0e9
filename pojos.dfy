/** The objects the DAOs hand back to the router (pojos/Doctor.java,
    pojos/Patient.java), as values. The nested appointment, measurement,
    symptom and message lists the DAOs always fill with empty lists are not
    kept; a doctor's phone and a patient's sex and doctor may be null. */
module Pojos {
  import opened Common

  /** The constants of the `Sex` enumeration. */
  datatype Sex = MALE | FEMALE

  /** `Sex.toString()`: the constant's name. */
  function SexName(s: Sex): string {
    match s
    case MALE => "MALE"
    case FEMALE => "FEMALE"
  }

  /** `Sex.valueOf(name)`: the constant with exactly that name, otherwise
      IllegalArgumentException. */
  function SexValueOf(name: string): (r: Result<Sex>)
    ensures r.Ok? <==> name == "MALE" || name == "FEMALE"
    ensures r.Err? ==> r.failure == Failure("No enum constant pojos.Sex." + name)
  {
    if name == "MALE" then Ok(MALE)
    else if name == "FEMALE" then Ok(FEMALE)
    else Err(Failure("No enum constant pojos.Sex." + name))
  }

  /** Reading a constant back by its name gives the constant; a name that
      reads back as a constant is that constant's name. */
  lemma SexNameRoundTrip(s: Sex, name: string)
    ensures SexValueOf(SexName(s)) == Ok(s)
    ensures SexValueOf(name).Ok? ==> SexName(SexValueOf(name).value) == name
  {
  }

  datatype Doctor = Doctor(id: int, name: string, surname: string, phone: Option<string>,
                           email: string)

  datatype Patient = Patient(id: int, name: string, surname: string, email: string,
                             sex: Option<Sex>, phone: string, dob: string,
                             doctor: Option<Doctor>)
}
