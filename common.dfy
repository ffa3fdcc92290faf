/** Shared vocabulary of the CareFlow back end model: optional values, HTTP replies,
    identifiers and the seven user roles. */
module Common {

  datatype Option<+T> = None | Some(value: T)

  /** A document id (a MongoDB ObjectId in its string form) or any other key. */
  type Id = string

  /** What a controller sends back: the HTTP status code and the message it carries. */
  datatype Reply = Reply(code: int, message: string)
  {
    predicate IsSuccess() { 200 <= code < 300 }
  }

  /** The roles of `userModel.js` and of the registration schema. */
  datatype Role = Patient | Medecin | Infirmier | Secretaire | Admin | Pharmacien | Labo

  function RoleName(r: Role): string
  {
    match r
    case Patient => "patient"
    case Medecin => "medecin"
    case Infirmier => "infirmier"
    case Secretaire => "secretaire"
    case Admin => "admin"
    case Pharmacien => "pharmacien"
    case Labo => "labo"
  }

  /** Reads a role from its stored spelling; any other string is not a role. */
  function ParseRole(s: string): (r: Option<Role>)
    ensures r.Some? ==> RoleName(r.value) == s
  {
    if s == "patient" then Some(Patient)
    else if s == "medecin" then Some(Medecin)
    else if s == "infirmier" then Some(Infirmier)
    else if s == "secretaire" then Some(Secretaire)
    else if s == "admin" then Some(Admin)
    else if s == "pharmacien" then Some(Pharmacien)
    else if s == "labo" then Some(Labo)
    else None
  }

  lemma ParseRoleName(r: Role)
    ensures ParseRole(RoleName(r)) == Some(r)
  {
  }

  /** The `gender` enumeration shared by the patient record, the user profile and their
      request schemas. */
  datatype Gender = Male | Female | OtherGender

  function ParseGender(s: string): (g: Option<Gender>)
    ensures g.Some? <==> s in {"male", "female", "other"}
  {
    if s == "male" then Some(Male)
    else if s == "female" then Some(Female)
    else if s == "other" then Some(OtherGender)
    else None
  }

  /** JavaScript truthiness of an optional request string: absent and "" are falsy. */
  predicate Truthy(s: Option<string>)
  {
    s.Some? && s.value != ""
  }

  /** `a || b` on two optional request strings. */
  function OrElse(a: Option<string>, b: Option<string>): (r: Option<string>)
    ensures Truthy(r) <==> Truthy(a) || Truthy(b)
    ensures Truthy(a) ==> r == a
    ensures !Truthy(a) ==> r == b
  {
    if Truthy(a) then a else b
  }
}
