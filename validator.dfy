/** `validator.js`: the Joi request schemas, as predicates over request bodies. A body is a
    record of optional fields, one per key the schema declares: `None` is an absent key. Joi
    rejects unknown keys, so a body carrying any other key fails every schema; such bodies
    are not representable here. Dates are milliseconds since the epoch. */
module Validator {
  import opened Common
  import opened Text
  import opened TimeOfDay
  import AppointmentModel

  // ---------------------------------------------------------------------------
  // Joi's string rules

  /** `Joi.string()` on a present key: the empty string is refused. */
  predicate JoiString(s: string) { s != "" }

  /** `Joi.string().min(lo).max(hi)`. */
  predicate Between(s: string, lo: nat, hi: nat) { JoiString(s) && lo <= |s| <= hi }

  /** `Joi.string().max(hi).optional()`. */
  predicate OptionalMax(s: Option<string>, hi: nat)
  {
    s.None? || Between(s.value, 0, hi)
  }

  /** `Joi.string().trim().max(hi)`: the value is trimmed first, so a string of white space
      counts as empty and the bound applies to the trimmed text. */
  predicate TrimmedMax(s: string, hi: nat)
  {
    Trim(s) != "" && |Trim(s)| <= hi
  }

  /** A trimmed name that the schema accepts is stored as 1 to `hi` characters carrying no
      white space at either end, however much white space the request held. */
  lemma TrimmedName(s: string, hi: nat)
    requires TrimmedMax(s, hi)
    ensures 1 <= |Trim(s)| <= hi
    ensures !IsSpace(Trim(s)[0]) && !IsSpace(Trim(s)[|Trim(s)| - 1])
    ensures Trim(Trim(s)) == Trim(s)
  {
    TrimEnds(s);
    TrimIdempotent(s);
  }

  // ---------------------------------------------------------------------------
  // the phone pattern

  /** A character class of the phone pattern. */
  datatype CharClass = Digit | PlusSign | OpenParen | CloseParen | Separator

  predicate InClass(c: CharClass, ch: char)
  {
    match c
    case Digit => IsDigit(ch)
    case PlusSign => ch == '+'
    case OpenParen => ch == '('
    case CloseParen => ch == ')'
    case Separator => ch == '-' || ch == '.' || IsSpace(ch)
  }

  /** A class repeated from `lo` to `hi` times. */
  datatype Piece = Piece(cls: CharClass, lo: nat, hi: nat)

  /** `^[+]?[(]?[0-9]{1,4}[)]?[-\s.]?[(]?[0-9]{1,4}[)]?[-\s.]?[0-9]{1,9}$`. */
  const PhonePattern: seq<Piece> := [
    Piece(PlusSign, 0, 1), Piece(OpenParen, 0, 1), Piece(Digit, 1, 4), Piece(CloseParen, 0, 1),
    Piece(Separator, 0, 1), Piece(OpenParen, 0, 1), Piece(Digit, 1, 4), Piece(CloseParen, 0, 1),
    Piece(Separator, 0, 1), Piece(Digit, 1, 9)]

  /** The whole of `s` matches the pieces in turn. */
  predicate MatchAll(ps: seq<Piece>, s: string)
    decreases |ps|, |s|, 1
  {
    if |ps| == 0 then |s| == 0
    else MatchRepeat(ps[0].cls, ps[0].lo, ps[0].hi, ps[1..], s)
  }

  /** `s` starts with between `lo` and `hi` characters of class `c` and the remainder
      matches `rest`. */
  predicate MatchRepeat(c: CharClass, lo: nat, hi: nat, rest: seq<Piece>, s: string)
    decreases |rest| + 1, |s|, 0
  {
    || (lo == 0 && MatchAll(rest, s))
    || (hi > 0 && |s| > 0 && InClass(c, s[0])
        && MatchRepeat(c, if lo == 0 then 0 else lo - 1, hi - 1, rest, s[1..]))
  }

  predicate IsPhone(s: string) { MatchAll(PhonePattern, s) }

  function MinLength(ps: seq<Piece>): nat
  {
    if |ps| == 0 then 0 else ps[0].lo + MinLength(ps[1..])
  }

  function MaxLength(ps: seq<Piece>): nat
  {
    if |ps| == 0 then 0 else ps[0].hi + MaxLength(ps[1..])
  }

  predicate PhoneChar(ch: char)
  {
    IsDigit(ch) || ch == '+' || ch == '(' || ch == ')' || ch == '-' || ch == '.' || IsSpace(ch)
  }

  /** A string matching a sequence of pieces is as long as the pieces allow. */
  lemma {:induction false} MatchAllLength(ps: seq<Piece>, s: string)
    requires MatchAll(ps, s)
    ensures MinLength(ps) <= |s| <= MaxLength(ps)
    decreases |ps|, |s|, 1
  {
    if |ps| > 0 {
      MatchRepeatLength(ps[0].cls, ps[0].lo, ps[0].hi, ps[1..], s);
    }
  }

  lemma {:induction false} MatchRepeatLength(c: CharClass, lo: nat, hi: nat, rest: seq<Piece>, s: string)
    requires MatchRepeat(c, lo, hi, rest, s)
    ensures lo + MinLength(rest) <= |s| <= hi + MaxLength(rest)
    decreases |rest| + 1, |s|, 0
  {
    if lo == 0 && MatchAll(rest, s) {
      MatchAllLength(rest, s);
    } else {
      MatchRepeatLength(c, if lo == 0 then 0 else lo - 1, hi - 1, rest, s[1..]);
    }
  }

  /** A string matching the pieces uses only characters of their classes. */
  lemma {:induction false} MatchAllChars(ps: seq<Piece>, s: string)
    requires MatchAll(ps, s)
    requires forall k :: 0 <= k < |ps| ==> forall ch :: InClass(ps[k].cls, ch) ==> PhoneChar(ch)
    ensures forall i :: 0 <= i < |s| ==> PhoneChar(s[i])
    decreases |ps|, |s|, 1
  {
    if |ps| > 0 {
      assert forall ch :: InClass(ps[0].cls, ch) ==> PhoneChar(ch);
      MatchRepeatChars(ps[0].cls, ps[0].lo, ps[0].hi, ps[1..], s);
    }
  }

  lemma {:induction false} MatchRepeatChars(c: CharClass, lo: nat, hi: nat, rest: seq<Piece>, s: string)
    requires MatchRepeat(c, lo, hi, rest, s)
    requires forall ch :: InClass(c, ch) ==> PhoneChar(ch)
    requires forall k :: 0 <= k < |rest| ==> forall ch :: InClass(rest[k].cls, ch) ==> PhoneChar(ch)
    ensures forall i :: 0 <= i < |s| ==> PhoneChar(s[i])
    decreases |rest| + 1, |s|, 0
  {
    if lo == 0 && MatchAll(rest, s) {
      MatchAllChars(rest, s);
    } else {
      MatchRepeatChars(c, if lo == 0 then 0 else lo - 1, hi - 1, rest, s[1..]);
      assert forall i :: 1 <= i < |s| ==> s[i] == s[1..][i - 1];
    }
  }

  /** A phone number the pattern accepts has 3 to 24 characters, all of them digits, `+`,
      parentheses, `-`, `.` or white space. */
  lemma PhoneShape(s: string)
    requires IsPhone(s)
    ensures 3 <= |s| <= 24
    ensures forall i :: 0 <= i < |s| ==> PhoneChar(s[i])
  {
    MatchAllLength(PhonePattern, s);
    assert MinLength(PhonePattern) == 3;
    assert MaxLength(PhonePattern) == 24;
    MatchAllChars(PhonePattern, s);
  }

  /** "06 12-345678" is a phone number: two digits, a space, two digits, a dash, six digits. */
  lemma PhoneExample()
    ensures IsPhone("06 12-345678")
  {
    var p := PhonePattern;
    var s := "06 12-345678";
    // the last group, six digits, then nothing
    assert MatchAll(p[10..], []);
    assert MatchRepeat(Digit, 0, 3, p[10..], s[12..]);
    assert MatchRepeat(Digit, 0, 4, p[10..], s[11..]);
    assert MatchRepeat(Digit, 0, 5, p[10..], s[10..]);
    assert MatchRepeat(Digit, 0, 6, p[10..], s[9..]);
    assert MatchRepeat(Digit, 0, 7, p[10..], s[8..]);
    assert MatchRepeat(Digit, 0, 8, p[10..], s[7..]);
    assert MatchRepeat(Digit, 1, 9, p[10..], s[6..]);
    assert MatchAll(p[9..], s[6..]);
    // the dash, no closing parenthesis
    assert MatchRepeat(Separator, 0, 0, p[9..], s[6..]);
    assert MatchAll(p[8..], s[5..]);
    assert MatchAll(p[7..], s[5..]);
    // the middle group "12", no opening parenthesis
    assert MatchRepeat(Digit, 0, 2, p[7..], s[5..]);
    assert MatchRepeat(Digit, 0, 3, p[7..], s[4..]);
    assert MatchAll(p[6..], s[3..]);
    assert MatchAll(p[5..], s[3..]);
    // the space, no closing parenthesis
    assert MatchRepeat(Separator, 0, 0, p[5..], s[3..]);
    assert MatchAll(p[4..], s[2..]);
    assert MatchAll(p[3..], s[2..]);
    // the first group "06"
    assert MatchRepeat(Digit, 0, 2, p[3..], s[2..]);
    assert MatchRepeat(Digit, 0, 3, p[3..], s[1..]);
    assert MatchAll(p[2..], s);
    assert MatchAll(p[1..], s);
  }

  // ---------------------------------------------------------------------------
  // authentication schemas

  datatype RegisterRequest = RegisterRequest(
    name: Option<string>, email: Option<string>, password: Option<string>, role: Option<string>)

  /** `registerSchema`. The address format and its top-level domains are not checked. */
  predicate ValidRegister(r: RegisterRequest)
  {
    && r.name.Some? && Between(r.name.value, 2, 100)
    && r.email.Some? && Between(r.email.value, 5, 60)
    && r.password.Some? && Between(r.password.value, 8, 128)
    && (r.role.None? || ParseRole(r.role.value).Some?)
  }

  /** A registration the schema accepts names an account role or none. */
  lemma RegisterRole(r: RegisterRequest)
    requires ValidRegister(r)
    ensures r.role.Some? ==> exists role: Role :: RoleName(role) == r.role.value
  {
    if r.role.Some? {
      var role := ParseRole(r.role.value).value;
      assert RoleName(role) == r.role.value;
    }
  }

  datatype LoginRequest = LoginRequest(email: Option<string>, password: Option<string>)

  /** `loginSchema`: the password need only be present. */
  predicate ValidLogin(r: LoginRequest)
  {
    && r.email.Some? && Between(r.email.value, 5, 60)
    && r.password.Some? && JoiString(r.password.value)
  }

  datatype VerifyCodeRequest = VerifyCodeRequest(email: Option<string>, code: Option<string>)

  /** `length(6)` and `pattern(/^[0-9]+$/)`. */
  predicate ValidVerifyCode(code: string)
  {
    |code| == 6 && AllDigits(code)
  }

  /** `verifyCodeSchema`. */
  predicate ValidVerifyRequest(r: VerifyCodeRequest)
  {
    && r.email.Some? && JoiString(r.email.value)
    && r.code.Some? && ValidVerifyCode(r.code.value)
  }

  /** Every six-digit number, written in decimal, is a code the schema accepts. */
  lemma SixDigitCodesValid(n: nat)
    requires 100000 <= n <= 999999
    ensures ValidVerifyCode(Decimal(n))
  {
    SixDigitNumber(n);
  }

  // ---------------------------------------------------------------------------
  // user schemas

  datatype ProfileRequest = ProfileRequest(
    firstName: Option<string>, lastName: Option<string>, phone: Option<string>,
    address: Option<string>, dateOfBirth: Option<int>, gender: Option<string>)

  predicate ValidProfile(p: ProfileRequest)
  {
    && OptionalMax(p.firstName, 50)
    && OptionalMax(p.lastName, 50)
    && OptionalMax(p.phone, 20)
    && OptionalMax(p.address, 200)
    && (p.gender.None? || ParseGender(p.gender.value).Some?)
  }

  /** The roles an administrator may give when creating or updating a user: every role but
      pharmacist and laboratory. */
  predicate AssignableRole(s: string)
  {
    s in {"patient", "medecin", "infirmier", "secretaire", "admin"}
  }

  /** A user-creation body. `name` is not a key of `createUserSchema`; a body carrying it is
      refused as written, and accepted by the corrected schema. */
  datatype CreateUserRequest = CreateUserRequest(
    name: Option<string>, email: Option<string>, password: Option<string>,
    role: Option<string>, profile: Option<ProfileRequest>)

  /** `createUserSchema` as written. */
  predicate ValidCreateUserAsWritten(r: CreateUserRequest)
  {
    && r.name.None?
    && r.email.Some? && JoiString(r.email.value)
    && r.password.Some? && Between(r.password.value, 8, 128)
    && r.role.Some? && AssignableRole(r.role.value)
    && (r.profile.None? || ValidProfile(r.profile.value))
  }

  /** `createUserSchema` with the `name` key of `registerSchema`, which the user record
      requires. */
  predicate ValidCreateUser(r: CreateUserRequest)
  {
    && r.name.Some? && Between(r.name.value, 2, 100)
    && r.email.Some? && JoiString(r.email.value)
    && r.password.Some? && Between(r.password.value, 8, 128)
    && r.role.Some? && AssignableRole(r.role.value)
    && (r.profile.None? || ValidProfile(r.profile.value))
  }

  datatype UpdateUserRequest = UpdateUserRequest(
    email: Option<string>, password: Option<string>, role: Option<string>,
    profile: Option<ProfileRequest>, isActive: Option<bool>, verified: Option<bool>)

  /** `updateUserSchema`, with `.min(1)`: some key is present. */
  predicate ValidUpdateUser(r: UpdateUserRequest)
  {
    && (r.email.Some? || r.password.Some? || r.role.Some? || r.profile.Some? || r.isActive.Some? || r.verified.Some?)
    && (r.email.None? || JoiString(r.email.value))
    && (r.password.None? || Between(r.password.value, 8, 128))
    && (r.role.None? || AssignableRole(r.role.value))
    && (r.profile.None? || ValidProfile(r.profile.value))
  }

  /** The empty update is refused. */
  lemma EmptyUserUpdateRefused()
    ensures !ValidUpdateUser(UpdateUserRequest(None, None, None, None, None, None))
  {
  }

  // ---------------------------------------------------------------------------
  // patient schemas

  datatype AddressRequest = AddressRequest(
    street: Option<string>, city: Option<string>, zipCode: Option<string>, country: Option<string>)

  predicate ValidAddress(a: AddressRequest)
  {
    OptionalMax(a.street, 200) && OptionalMax(a.city, 100) && OptionalMax(a.zipCode, 20) && OptionalMax(a.country, 100)
  }

  datatype ContactRequest = ContactRequest(
    name: Option<string>, relationship: Option<string>, phone: Option<string>)

  predicate ValidContact(c: ContactRequest)
  {
    && OptionalMax(c.name, 100) && OptionalMax(c.relationship, 50)
    && (c.phone.None? || (JoiString(c.phone.value) && IsPhone(c.phone.value)))
  }

  datatype PatientRequest = PatientRequest(
    userId: Option<string>, firstName: Option<string>, lastName: Option<string>,
    dateOfBirth: Option<int>, gender: Option<string>, phone: Option<string>,
    address: Option<AddressRequest>, emergencyContact: Option<ContactRequest>)

  /** `createPatientSchema`: a user id, trimmed first and last names of at most 50
      characters, a birth date not after `now`, a gender and a phone number matching the
      pattern. */
  predicate ValidCreatePatient(r: PatientRequest, now: int)
  {
    && r.userId.Some? && JoiString(r.userId.value)
    && r.firstName.Some? && TrimmedMax(r.firstName.value, 50)
    && r.lastName.Some? && TrimmedMax(r.lastName.value, 50)
    && r.dateOfBirth.Some? && r.dateOfBirth.value <= now
    && r.gender.Some? && ParseGender(r.gender.value).Some?
    && r.phone.Some? && JoiString(r.phone.value) && IsPhone(r.phone.value)
    && (r.address.None? || ValidAddress(r.address.value))
    && (r.emergencyContact.None? || ValidContact(r.emergencyContact.value))
  }

  datatype PatientPatch = PatientPatch(
    firstName: Option<string>, lastName: Option<string>, dateOfBirth: Option<int>,
    gender: Option<string>, phone: Option<string>,
    address: Option<AddressRequest>, emergencyContact: Option<ContactRequest>)

  predicate PatientPatchNonEmpty(p: PatientPatch)
  {
    || p.firstName.Some? || p.lastName.Some? || p.dateOfBirth.Some? || p.gender.Some?
    || p.phone.Some? || p.address.Some? || p.emergencyContact.Some?
  }

  /** `updatePatientSchema`, with `.min(1)`. It has no `userId` key, so an update cannot move
      a patient record to another user. */
  predicate ValidUpdatePatient(p: PatientPatch, now: int)
  {
    && PatientPatchNonEmpty(p)
    && (p.firstName.None? || TrimmedMax(p.firstName.value, 50))
    && (p.lastName.None? || TrimmedMax(p.lastName.value, 50))
    && (p.dateOfBirth.None? || p.dateOfBirth.value <= now)
    && (p.gender.None? || ParseGender(p.gender.value).Some?)
    && (p.phone.None? || (JoiString(p.phone.value) && IsPhone(p.phone.value)))
    && (p.address.None? || ValidAddress(p.address.value))
    && (p.emergencyContact.None? || ValidContact(p.emergencyContact.value))
  }

  lemma EmptyPatientUpdateRefused(now: int)
    ensures !ValidUpdatePatient(PatientPatch(None, None, None, None, None, None, None), now)
  {
  }

  // ---------------------------------------------------------------------------
  // appointment schemas

  datatype AppointmentRequest = AppointmentRequest(
    patientId: Option<string>, doctorId: Option<string>, appointmentDate: Option<int>,
    startTime: Option<string>, endTime: Option<string>, reason: Option<string>,
    kind: Option<string>, notes: Option<string>)

  /** `createAppointmentSchema`. The date must not lie before `now`. */
  predicate ValidCreateAppointment(r: AppointmentRequest, now: int)
  {
    && r.patientId.Some? && JoiString(r.patientId.value)
    && r.doctorId.Some? && JoiString(r.doctorId.value)
    && r.appointmentDate.Some? && r.appointmentDate.value >= now
    && r.startTime.Some? && IsTime(r.startTime.value)
    && r.endTime.Some? && IsTime(r.endTime.value)
    && r.reason.Some? && Between(r.reason.value, 0, AppointmentModel.ReasonMax)
    && (r.kind.None? || AppointmentModel.ParseType(r.kind.value).Some?)
    && OptionalMax(r.notes, AppointmentModel.NotesMax)
  }

  datatype AppointmentPatch = AppointmentPatch(
    appointmentDate: Option<int>, startTime: Option<string>, endTime: Option<string>,
    reason: Option<string>, kind: Option<string>, status: Option<string>,
    notes: Option<string>, diagnosis: Option<string>, prescription: Option<string>)

  predicate AppointmentPatchNonEmpty(p: AppointmentPatch)
  {
    || p.appointmentDate.Some? || p.startTime.Some? || p.endTime.Some? || p.reason.Some?
    || p.kind.Some? || p.status.Some? || p.notes.Some? || p.diagnosis.Some? || p.prescription.Some?
  }

  /** `updateAppointmentSchema`, with `.min(1)`. Unlike creation, the date may lie in the
      past. */
  predicate ValidUpdateAppointment(p: AppointmentPatch)
  {
    && AppointmentPatchNonEmpty(p)
    && (p.startTime.None? || IsTime(p.startTime.value))
    && (p.endTime.None? || IsTime(p.endTime.value))
    && OptionalMax(p.reason, AppointmentModel.ReasonMax)
    && (p.kind.None? || AppointmentModel.ParseType(p.kind.value).Some?)
    && (p.status.None? || AppointmentModel.ParseStatus(p.status.value).Some?)
    && OptionalMax(p.notes, 1000)
    && OptionalMax(p.diagnosis, 1000)
    && OptionalMax(p.prescription, 2000)
  }

  lemma EmptyAppointmentUpdateRefused()
    ensures !ValidUpdateAppointment(AppointmentPatch(None, None, None, None, None, None, None, None, None))
  {
  }

  /** An accepted appointment request carries two clock times, each a minute of the day. */
  lemma CreateAppointmentTimes(r: AppointmentRequest, now: int)
    requires ValidCreateAppointment(r, now)
    ensures 0 <= TimeMinutes(r.startTime.value) < 24 * 60
    ensures 0 <= TimeMinutes(r.endTime.value) < 24 * 60
    ensures r.appointmentDate.value >= now
  {
    TimeMeaning(r.startTime.value);
    TimeMeaning(r.endTime.value);
  }

  /** The schema accepts an end before the start: 10:00 to 09:00 passes. */
  lemma CreateAppointmentAllowsReversedSlot(now: int)
    ensures ValidCreateAppointment(
      AppointmentRequest(Some("p1"), Some("d1"), Some(now), Some("10:00"), Some("09:00"),
                         Some("checkup"), None, None), now)
    ensures TimeMinutes("09:00") < TimeMinutes("10:00")
  {
    TimeMeaning("09:00");
    TimeMeaning("10:00");
  }
}
