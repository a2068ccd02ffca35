/** Form validation (users/forms.py): the signup form's uniqueness checks, the length
    limit on contact fields and the password form's extra fields. Each check either
    reports an error or hands back its input unchanged; none of them changes state.
    Inputs are field values after the framework has stripped surrounding whitespace. */
module UserForms {
  import opened Wrappers
  import opened UserModels

  /** `max_length=254` of the contact fields. */
  const ContactMaxLength: nat := 254

  /** `max_length=150` of `User.username`. */
  const UsernameMaxLength: nat := 150

  /** `min_value=13` of `SetPasswordForm.age`. */
  const MinimumAge: int := 13

  datatype FormError =
    | Required             // a required field was left empty
    | TooLong              // longer than the field's max_length
    | UsernameTaken        // "A user with that username already exists."
    | EmailTaken           // "A user with that email already exists."
    | PhoneTaken           // "A user with that phone number already exists."
    | PasswordMismatch     // the two new passwords differ
    | PasswordRejected     // refused by the configured password validators
    | TooYoung             // age below the minimum
    | InvalidChoice        // preferred_area is a ChoiceField without choices
    | NullCharacter        // "Null characters are not allowed."

  /** The value holds U+0000, which every text field refuses. */
  predicate HasNullCharacter(s: string) {
    '\0' in s
  }

  /** Some user already has this username. */
  predicate UsernameInUse(users: seq<UserRow>, username: string) {
    exists i :: 0 <= i < |users| && users[i].username == username
  }

  /** Some user already has this email. */
  predicate EmailInUse(users: seq<UserRow>, email: string) {
    exists i :: 0 <= i < |users| && users[i].email == email
  }

  /** Some user already has this phone number. */
  predicate PhoneInUse(users: seq<UserRow>, phone: string) {
    exists i :: 0 <= i < |users| && users[i].phoneNumber == Some(phone)
  }

  /** `SignupForm.clean_username`: rejects a username already in the user table and
      otherwise returns it unchanged. */
  function CleanUsername(users: seq<UserRow>, username: string): (r: Result<string, FormError>)
    ensures r.Err? <==> UsernameInUse(users, username)
    ensures r.Err? ==> r.error == UsernameTaken
    ensures r.Ok? ==> r.value == username
  {
    if UsernameInUse(users, username) then Err(UsernameTaken)
    else Ok(username)
  }

  /** `SignupForm.clean_contact_info`: a contact with '@' is checked against emails
      only, any other contact against phone numbers only; an accepted contact is
      returned unchanged. */
  function CleanContactInfo(users: seq<UserRow>, contact: string): (r: Result<string, FormError>)
    ensures '@' in contact ==> (r.Err? <==> EmailInUse(users, contact))
    ensures '@' !in contact ==> (r.Err? <==> PhoneInUse(users, contact))
    ensures r.Err? ==> r.error == (if '@' in contact then EmailTaken else PhoneTaken)
    ensures r.Ok? ==> r.value == contact
  {
    if '@' in contact then
      if EmailInUse(users, contact) then Err(EmailTaken) else Ok(contact)
    else
      if PhoneInUse(users, contact) then Err(PhoneTaken) else Ok(contact)
  }

  /** The built-in checks of a required `CharField(max_length=254)`: the value is
      required, and a given value runs both the length and the null-character check. */
  function ContactFieldErrors(contact: string): (errs: set<FormError>)
    ensures errs == {} <==> 0 < |contact| <= ContactMaxLength && !HasNullCharacter(contact)
    ensures errs <= {Required, TooLong, NullCharacter}
    ensures NullCharacter in errs <==> HasNullCharacter(contact)
  {
    if contact == "" then {Required}
    else
      (if |contact| > ContactMaxLength then {TooLong} else {}) +
      (if HasNullCharacter(contact) then {NullCharacter} else {})
  }

  /** The errors of `SignupForm`: each field's built-in checks first, and its
      `clean_<field>` only when those passed. */
  function SignupErrors(users: seq<UserRow>, username: string, contact: string): (errs: set<FormError>)
    ensures errs == {} <==>
      username != "" && |username| <= UsernameMaxLength && !HasNullCharacter(username) &&
      !UsernameInUse(users, username) &&
      0 < |contact| <= ContactMaxLength && !HasNullCharacter(contact) &&
      CleanContactInfo(users, contact).Ok?
    ensures UsernameTaken in errs <==>
      username != "" && |username| <= UsernameMaxLength && !HasNullCharacter(username) &&
      UsernameInUse(users, username)
  {
    var usernameFieldErrs :=
      (if |username| > UsernameMaxLength then {TooLong} else {}) +
      (if HasNullCharacter(username) then {NullCharacter} else {});
    var usernameErrs :=
      if username == "" then {Required}
      else if usernameFieldErrs != {} then usernameFieldErrs
      else match CleanUsername(users, username)
        case Ok(_) => {}
        case Err(e) => {e};
    var contactErrs :=
      if ContactFieldErrors(contact) != {} then ContactFieldErrors(contact)
      else match CleanContactInfo(users, contact)
        case Ok(_) => {}
        case Err(e) => {e};
    usernameErrs + contactErrs
  }

  /** `SetPasswordForm.age`: optional, but at least 13 when given. */
  predicate AgeAccepted(age: Option<int>) {
    age.None? || age.value >= MinimumAge
  }

  /** What the user submits to the password form. */
  datatype PasswordForm = PasswordForm(
    newPassword1: string,
    newPassword2: string,
    age: Option<int>,
    preferredCity: string,
    preferredArea: string,
    tasteTags: string)

  /** The errors of `SetPasswordForm`. `validatorsAccept` is the verdict of the
      configured password validators on the new password. The two password fields,
      the city and the tags refuse a null character. */
  function PasswordFormErrors(f: PasswordForm, validatorsAccept: bool): (errs: set<FormError>)
    ensures errs == {} <==>
      f.newPassword1 != "" && f.newPassword1 == f.newPassword2 && validatorsAccept &&
      AgeAccepted(f.age) && f.preferredArea == "" &&
      !HasNullCharacter(f.newPassword1) && !HasNullCharacter(f.newPassword2) &&
      !HasNullCharacter(f.preferredCity) && !HasNullCharacter(f.tasteTags)
    ensures TooYoung in errs <==> !AgeAccepted(f.age)
  {
    (if f.newPassword1 == "" || f.newPassword2 == "" then {Required} else {}) +
    (if f.newPassword1 != "" && f.newPassword2 != "" && f.newPassword1 != f.newPassword2
     then {PasswordMismatch} else {}) +
    (if f.newPassword1 != "" && f.newPassword1 == f.newPassword2 && !validatorsAccept
     then {PasswordRejected} else {}) +
    (if AgeAccepted(f.age) then {} else {TooYoung}) +
    (if f.preferredArea == "" then {} else {InvalidChoice}) +
    (if HasNullCharacter(f.newPassword1) || HasNullCharacter(f.newPassword2) ||
        HasNullCharacter(f.preferredCity) || HasNullCharacter(f.tasteTags)
     then {NullCharacter} else {})
  }

  /** The cleaned age: a validated age is a natural number. */
  function CleanedAge(age: Option<int>): (r: Option<nat>)
    requires AgeAccepted(age)
    ensures r.Some? <==> age.Some?
    ensures r.Some? ==> r.value == age.value && r.value >= MinimumAge
  {
    match age
    case None => None
    case Some(a) => Some(a)
  }
}
