/** The contact-verification workflow (users/views.py). Each view handler is one
    transition of a `Site`: the client's session map, the OTP table and the user table.
    Rendering, redirects and flash messages are reduced to an outcome per handler. An
    unhandled exception (a refused mail, a uniqueness violation, a missing user) ends
    the request with a server error: the framework does not save the session of such a
    response, while the database writes made before the exception stay. */
module UserViews {
  import opened Wrappers
  import opened Text
  import opened Seqs
  import opened UserModels
  import opened UserUtils
  import opened UserForms

  // ---------------------------------------------------------------------------
  // The session

  /** The session keys the workflow uses. */
  datatype SessionKey =
    | SignupDataKey          // 'signup_data'
    | SignupOtpId            // 'signup_otp_id'
    | ResetOtpId             // 'reset_otp_id'
    | UpdateOtpId            // 'update_otp_id'
    | VerificationPurpose    // 'verification_purpose'
    | ResetUserId            // 'reset_user_id'
    | UpdateOtpVerified      // 'update_otp_verified'
    | PendingProfileUpdate   // 'pending_profile_update'

  /** The cleaned signup form kept in the session until the account is created. */
  datatype SignupData = SignupData(username: string, contactInfo: string)

  /** The pending profile edits: a field is None when its key is absent from the dict.
      For a nullable field the inner Option is the stored value itself. */
  datatype ProfileEdits = ProfileEdits(
    profilePhoto: Option<string>,
    username: Option<string>,
    email: Option<string>,
    phoneNumber: Option<Option<string>>,
    age: Option<Option<nat>>,
    preferredCity: Option<string>,
    preferredArea: Option<Option<string>>,
    preferredPrice: Option<Option<string>>,
    tasteTags: Option<string>)
  {
    /** The dict has no key at all. */
    predicate IsEmpty() {
      profilePhoto.None? && username.None? && email.None? && phoneNumber.None? && age.None? &&
      preferredCity.None? && preferredArea.None? && preferredPrice.None? && tasteTags.None?
    }
  }

  /** A value stored in the session. */
  datatype SessionValue =
    | Null
    | Id(n: nat)
    | Str(s: string)
    | Flag(b: bool)
    | SignupForm(data: SignupData)
    | Edits(edits: ProfileEdits)

  /** Python truthiness of a stored value. */
  predicate Truthy(v: SessionValue) {
    match v
    case Null => false
    case Id(n) => n != 0
    case Str(s) => s != ""
    case Flag(b) => b
    case SignupForm(_) => true
    case Edits(e) => !e.IsEmpty()
  }

  type Session = map<SessionKey, SessionValue>

  /** `request.session.get(key)` is truthy. */
  predicate Holds(s: Session, key: SessionKey) {
    key in s && Truthy(s[key])
  }

  /** The kind of value each key holds. */
  predicate Fits(key: SessionKey, v: SessionValue) {
    match key
    case SignupDataKey => v.SignupForm?
    case SignupOtpId => v.Id?
    case ResetOtpId => v.Id?
    case UpdateOtpId => v.Id?
    case VerificationPurpose => v.Str?
    case ResetUserId => v.Id? || v.Null?
    case UpdateOtpVerified => v.Flag?
    case PendingProfileUpdate => v.Edits?
  }

  predicate WellTyped(s: Session) {
    forall key :: key in s ==> Fits(key, s[key])
  }

  /** The session key holding the OTP id of each purpose. */
  function OtpIdKey(p: Purpose): SessionKey {
    match p
    case Signup => SignupOtpId
    case Reset => ResetOtpId
    case ProfileUpdate => UpdateOtpId
  }

  /** The session stores `purpose` as the current verification purpose. */
  predicate PurposeIs(s: Session, p: Purpose) {
    VerificationPurpose in s && s[VerificationPurpose] == Str(PurposeName(p))
  }

  /** What the verify step reads from the session: the purpose, and the OTP id under
      the key that purpose selects; None when either is missing or empty. */
  function PendingOtp(s: Session): (r: Option<(Purpose, nat)>)
    ensures r.Some? ==> PurposeIs(s, r.value.0) && OtpIdKey(r.value.0) in s &&
                        s[OtpIdKey(r.value.0)] == Id(r.value.1) && r.value.1 != 0
    ensures r.None? ==> forall p :: PurposeIs(s, p) && OtpIdKey(p) in s ==>
                        !(s[OtpIdKey(p)].Id? && s[OtpIdKey(p)].n != 0)
  {
    if VerificationPurpose in s && s[VerificationPurpose].Str? then
      match ParsePurpose(s[VerificationPurpose].s)
      case None => None
      case Some(p) =>
        if Holds(s, OtpIdKey(p)) && s[OtpIdKey(p)].Id? then Some((p, s[OtpIdKey(p)].n)) else None
    else None
  }

  /** The session value stored for `otp.user_id`. */
  function UserRefValue(user: Option<nat>): SessionValue {
    match user
    case None => Null
    case Some(u) => Id(u)
  }

  // ---------------------------------------------------------------------------
  // Queries on the tables

  /** A row matching `OTP.objects.get(id=..., code=..., purpose=...)`. */
  predicate MatchesCode(otps: map<nat, OtpRow>, id: nat, code: string, p: Purpose) {
    id in otps && otps[id].code == code && otps[id].purpose == p
  }

  /** The table after `OTP.objects.filter(contact_info=contact, purpose='signup').delete()`. */
  function WithoutSignupCodesFor(otps: map<nat, OtpRow>, contact: string): (r: map<nat, OtpRow>)
    ensures forall id :: id in r <==> id in otps && !(otps[id].contactInfo == Some(contact) && otps[id].purpose == Signup)
    ensures forall id :: id in r ==> r[id] == otps[id]
  {
    map id | id in otps && !(otps[id].contactInfo == Some(contact) && otps[id].purpose == Signup) :: otps[id]
  }

  /** The table after `OTP.objects.filter(user=user, purpose='reset').delete()`. */
  function WithoutResetCodesOf(otps: map<nat, OtpRow>, user: nat): (r: map<nat, OtpRow>)
    ensures forall id :: id in r <==> id in otps && !(otps[id].user == Some(user) && otps[id].purpose == Reset)
    ensures forall id :: id in r ==> r[id] == otps[id]
  {
    map id | id in otps && !(otps[id].user == Some(user) && otps[id].purpose == Reset) :: otps[id]
  }

  /** The user rows the forgot-password lookup accepts. */
  predicate ResetCandidate(u: UserRow, contact: string) {
    u.isActive && (u.email == contact || u.phoneNumber == Some(contact))
  }

  /** `User.objects.filter(Q(email=c) | Q(phone_number=c), is_active=True).first()`:
      the id of the lowest-numbered active user with that email or phone number. */
  function ActiveUserByContact(users: seq<UserRow>, contact: string): (r: Option<nat>)
    ensures r.Some? ==> 1 <= r.value <= |users| && ResetCandidate(users[r.value - 1], contact)
    ensures r.Some? ==> forall j :: 0 <= j < r.value - 1 ==> !ResetCandidate(users[j], contact)
    ensures r.None? <==> forall j :: 0 <= j < |users| ==> !ResetCandidate(users[j], contact)
  {
    match FirstWhere(users, (u: UserRow) => ResetCandidate(u, contact))
    case None => None
    case Some(i) => Some(i + 1)
  }

  /** The user rows the login lookup accepts: username or email equal ignoring case, or
      the exact phone number. */
  predicate LoginCandidate(u: UserRow, login: string) {
    EqualsIgnoringCase(u.username, login) || EqualsIgnoringCase(u.email, login) ||
    u.phoneNumber == Some(login)
  }

  /** The user lookup of `LoginView.post`: the id of the lowest-numbered user the login
      names. Checking the password is the framework's and is not modelled. */
  function LoginUser(users: seq<UserRow>, login: string): (r: Option<nat>)
    ensures r.Some? ==> 1 <= r.value <= |users| && LoginCandidate(users[r.value - 1], login)
    ensures r.Some? ==> forall j :: 0 <= j < r.value - 1 ==> !LoginCandidate(users[j], login)
    ensures r.None? <==> forall j :: 0 <= j < |users| ==> !LoginCandidate(users[j], login)
  {
    match FirstWhere(users, (u: UserRow) => LoginCandidate(u, login))
    case None => None
    case Some(i) => Some(i + 1)
  }

  /** One more than the largest value of SQLite's signed 64-bit INTEGER. */
  const SqliteIntegerBound: int := 0x8000_0000_0000_0000

  /** Writing `u` to the database binds an age too large for SQLite's INTEGER, and the
      driver raises `OverflowError` before the statement runs. */
  predicate AgeOverflows(u: UserRow) {
    u.age.Some? && u.age.value >= SqliteIntegerBound
  }

  /** Storing `u` as a new user would break the uniqueness of usernames or phone numbers. */
  predicate ClashesOnInsert(users: seq<UserRow>, u: UserRow) {
    UsernameInUse(users, u.username) || (u.phoneNumber.Some? && PhoneInUse(users, u.phoneNumber.value))
  }

  /** Storing `u` in place of user number `i` would break the uniqueness of usernames or
      phone numbers. */
  predicate ClashesOnUpdate(users: seq<UserRow>, i: nat, u: UserRow) {
    exists j :: 0 <= j < |users| && j != i &&
      (users[j].username == u.username || (u.phoneNumber.Some? && users[j].phoneNumber == u.phoneNumber))
  }

  /** The account `SetPasswordView.post` creates from the signup data and the form: an
      email contact becomes a verified email, any other contact the phone number. */
  function NewAccount(data: SignupData, form: PasswordForm): (u: UserRow)
    requires AgeAccepted(form.age)
    ensures '@' in data.contactInfo ==>
      u.email == data.contactInfo && u.emailVerified && u.phoneNumber.None?
    ensures '@' !in data.contactInfo ==>
      u.phoneNumber == Some(data.contactInfo) && u.email == "" && !u.emailVerified
    ensures u.preferredCity == if form.preferredCity == "" then DefaultCity else form.preferredCity
    ensures u.username == data.username && u.isActive && u.isVerified && !u.phoneVerified
    ensures u.age == CleanedAge(form.age) && u.tasteTags == form.tasteTags
    ensures u.preferredArea.None? && u.preferredPrice.None?
  {
    var email := if '@' in data.contactInfo then data.contactInfo else "";
    var phone := if '@' in data.contactInfo then None else Some(data.contactInfo);
    var city := if form.preferredCity != "" then form.preferredCity else DefaultCity;
    DefaultUser(data.username).(
      email := email,
      phoneNumber := phone,
      age := CleanedAge(form.age),
      preferredCity := city,
      tasteTags := form.tasteTags,
      isActive := true,
      isVerified := true,
      emailVerified := '@' in data.contactInfo)
  }

  /** `VerifyProfileUpdateView.get`'s field updates: each field takes the pending value
      when its key is present and keeps its value otherwise; the email counts as
      verified once an email key was pending. */
  function ApplyEdits(u: UserRow, e: ProfileEdits): (r: UserRow)
    ensures r.username == e.username.GetOr(u.username)
    ensures r.email == e.email.GetOr(u.email)
    ensures r.phoneNumber == e.phoneNumber.GetOr(u.phoneNumber)
    ensures r.age == e.age.GetOr(u.age)
    ensures r.preferredCity == e.preferredCity.GetOr(u.preferredCity)
    ensures r.preferredArea == e.preferredArea.GetOr(u.preferredArea)
    ensures r.preferredPrice == e.preferredPrice.GetOr(u.preferredPrice)
    ensures r.tasteTags == e.tasteTags.GetOr(u.tasteTags)
    ensures r.emailVerified == (u.emailVerified || e.email.Some?)
    ensures r.isActive == u.isActive && r.isVerified == u.isVerified && r.phoneVerified == u.phoneVerified
  {
    var edited := u.(
      username := e.username.GetOr(u.username),
      email := e.email.GetOr(u.email),
      phoneNumber := e.phoneNumber.GetOr(u.phoneNumber),
      age := e.age.GetOr(u.age),
      preferredCity := e.preferredCity.GetOr(u.preferredCity),
      preferredArea := e.preferredArea.GetOr(u.preferredArea),
      preferredPrice := e.preferredPrice.GetOr(u.preferredPrice),
      tasteTags := e.tasteTags.GetOr(u.tasteTags));
    // `user.email == pending_data.get('email')`: a stored email never equals None
    if e.email.Some? && edited.email == e.email.value then edited.(emailVerified := true) else edited
  }

  /** The pending photo path is a file to move in (non-empty, not 'CLEAR') and storage
      holds it, so the move is attempted, and it raises (`os` is not imported). */
  predicate PhotoMoveFails(e: ProfileEdits, photoStored: bool) {
    e.profilePhoto.Some? && e.profilePhoto.value != "" && e.profilePhoto.value != "CLEAR" && photoStored
  }

  /** Applying the same pending edits a second time changes nothing more. */
  lemma ApplyEditsIdempotent(u: UserRow, e: ProfileEdits)
    ensures ApplyEdits(ApplyEdits(u, e), e) == ApplyEdits(u, e)
  {
  }

  /** Edits with no key leave the user as it was. */
  lemma ApplyNoEdits(u: UserRow, e: ProfileEdits)
    requires e.IsEmpty()
    ensures ApplyEdits(u, e) == u
  {
  }

  // ---------------------------------------------------------------------------
  // Outcomes of the handlers

  datatype SignupOutcome =
    | SignupFormInvalid(errors: set<FormError>)   // form re-rendered
    | SignupCodeSent(otpId: nat)                  // redirect to the verify page
    | SignupMailFailed                            // send_mail raised: server error

  datatype VerifyPage =
    | VerifyForm(contactInfo: Option<string>)     // the code entry page
    | VerifyInvalidSession                        // "Invalid session. Please start over."

  datatype VerifyOutcome =
    | VerifySessionExpired                        // "Session expired. Please start over."
    | InvalidCode                                 // "Invalid OTP code."
    | CodeExpired                                 // "OTP expired. Please try again."
    | Verified(purpose: Purpose)                  // redirect to that purpose's next step; the
                                                  // profile-update step has no route, so that
                                                  // redirect fails as a server error

  datatype PasswordPage = PasswordFormShown | PasswordPageRefused

  datatype SetPasswordOutcome =
    | SetPasswordSessionExpired
    | SetPasswordFormInvalid(errors: set<FormError>)
    | SetPasswordAgeOverflow                      // the age does not fit SQLite: server error
    | SetPasswordIntegrityError                   // create_user raised: server error
    | AccountCreated(userId: nat)

  datatype ForgotOutcome =
    | ForgotFormInvalid(errors: set<FormError>)
    | NoActiveUser                                // "No active user found ..."
    | ResetCodeSent(otpId: nat, sentTo: Option<string>)
    | ResetMailFailed                             // send_mail raised: server error

  datatype ResetOutcome =
    | ResetSessionExpired
    | ResetUserMissing                            // User.DoesNotExist: server error
    | ResetFormInvalid(errors: set<FormError>)
    | PasswordReset(userId: nat)

  datatype ProfileOutcome =
    | LoginRequired                               // not logged in: redirect to login
    | ProfileNotVerified                          // "Please verify your OTP first."
    | NoPendingUpdate                             // "No pending update found."
    | ProfilePhotoError                           // moving the stored photo raised: server error
    | ProfileAgeOverflow                          // the age does not fit SQLite: server error
    | ProfileIntegrityError                       // user.save() raised: server error
    | ProfileUpdated

  // ---------------------------------------------------------------------------
  // The state and its transitions

  class Site {
    /** The client's session. */
    var session: Session
    /** The OTP table, by id. */
    var otps: map<nat, OtpRow>
    /** The user table; the user with id `k` is `users[k - 1]`. */
    var users: seq<UserRow>
    /** The id the next OTP row receives. */
    var nextOtpId: nat
    /** The SMS provider's settings. */
    const twilio: TwilioSettings

    /** Every stored OTP sits under its own id, below the next id, with a six-digit
        code; the session values have the kinds their keys expect; usernames and phone
        numbers are unique. */
    ghost predicate Valid()
      reads this
    {
      && 1 <= nextOtpId
      && (forall id :: id in otps ==> 1 <= id < nextOtpId && otps[id].id == id && IsOtpCode(otps[id].code))
      && WellTyped(session)
      && UniqueUsernames(users)
      && UniquePhoneNumbers(users)
    }

    constructor (twilio: TwilioSettings)
      ensures Valid()
      ensures session == map[] && otps == map[] && users == [] && nextOtpId == 1
      ensures this.twilio == twilio
    {
      session := map[];
      otps := map[];
      users := [];
      nextOtpId := 1;
      this.twilio := twilio;
    }

    /** `OTP.objects.create(...)`: a new instance, saved (which draws its code and sets
        its expiry) and stored under the next id. */
    method CreateOtp(user: Option<nat>, contact: Option<string>, channel: Channel, purpose: Purpose,
                     now: Instant, draw: CodeDraw) returns (row: OtpRow)
      requires Valid()
      modifies this
      ensures Valid()
      ensures row == OtpRow(old(nextOtpId), user, contact, GenerateCode(draw), now, now + TenMinutes, channel, purpose)
      ensures otps == old(otps)[old(nextOtpId) := row] && nextOtpId == old(nextOtpId) + 1
      ensures session == old(session) && users == old(users)
    {
      var rec := new OtpRecord(user, contact, channel, purpose);
      rec.Save(now, draw);
      row := rec.Row(nextOtpId);
      otps := otps[nextOtpId := row];
      nextOtpId := nextOtpId + 1;
    }

    /** The `pop`/`del` loops that clear session keys. */
    method RemoveSessionKeys(keys: seq<SessionKey>)
      requires Valid()
      modifies this
      ensures Valid()
      ensures session == old(session) - (set k | k in keys)
      ensures otps == old(otps) && users == old(users) && nextOtpId == old(nextOtpId)
    {
      for i := 0 to |keys|
        invariant Valid()
        invariant session == old(session) - (set k | k in keys[..i])
        invariant otps == old(otps) && users == old(users) && nextOtpId == old(nextOtpId)
      {
        assert keys[..i + 1] == keys[..i] + [keys[i]];
        session := session - {keys[i]};
      }
      assert keys[..|keys|] == keys;
    }

    /** `SignupView.post`: validates the form, keeps it in the session, replaces every
        signup code for the contact by a fresh one, sends it and records its id and the
        purpose. The SMS verdict is ignored: the code stays usable when an SMS fails. */
    method SignupPost(username: string, contact: string, now: Instant, draw: CodeDraw,
                      mailDelivered: bool, smsDelivered: bool) returns (r: SignupOutcome)
      requires Valid()
      modifies this
      ensures Valid()
      ensures users == old(users)
      ensures r.SignupFormInvalid? <==> SignupErrors(old(users), username, contact) != {}
      ensures r.SignupFormInvalid? ==>
        r.errors == SignupErrors(old(users), username, contact) &&
        session == old(session) && otps == old(otps) && nextOtpId == old(nextOtpId)
      ensures !r.SignupFormInvalid? ==>
        nextOtpId == old(nextOtpId) + 1 &&
        otps == WithoutSignupCodesFor(old(otps), contact)[old(nextOtpId) :=
          OtpRow(old(nextOtpId), None, Some(contact), GenerateCode(draw), now, now + TenMinutes,
                 ChannelFor(contact), Signup)]
      ensures !r.SignupFormInvalid? ==>
        forall id :: (id in otps && otps[id].contactInfo == Some(contact) && otps[id].purpose == Signup)
                     <==> id == old(nextOtpId)
      ensures r.SignupMailFailed? <==>
        SignupErrors(old(users), username, contact) == {} && ChannelFor(contact) == Email && !mailDelivered
      ensures r.SignupMailFailed? ==> session == old(session)
      ensures r.SignupCodeSent? ==>
        && r.otpId == old(nextOtpId)
        && session == old(session)[SignupDataKey := SignupForm(SignupData(username, contact))]
                                  [SignupOtpId := Id(r.otpId)]
                                  [VerificationPurpose := Str(PurposeName(Signup))]
    {
      var errors := SignupErrors(users, username, contact);
      if errors != {} {
        return SignupFormInvalid(errors);
      }
      var data := SignupData(username, contact);
      var newSession := session[SignupDataKey := SignupForm(data)];
      var channel := ChannelFor(contact);
      otps := WithoutSignupCodesFor(otps, contact);
      var otp := CreateOtp(None, Some(contact), channel, Signup, now, draw);
      if channel == Email {
        var sent := SendOtpEmail(otp, mailDelivered);
        if sent.Err? {
          return SignupMailFailed;
        }
      } else {
        var _ := SendOtpPhone(twilio, otp, smsDelivered);
      }
      session := newSession[SignupOtpId := Id(otp.id)][VerificationPurpose := Str(PurposeName(Signup))];
      r := SignupCodeSent(otp.id);
    }

    /** `VerifyOTPView.get`: the code entry page is shown when the session names a
        purpose and an OTP id under that purpose's key, and the table holds an OTP with
        that id and purpose; it shows that OTP's contact. */
    method VerifyGet() returns (page: VerifyPage)
      requires Valid()
      ensures page.VerifyForm? <==>
        && PendingOtp(session).Some?
        && PendingOtp(session).value.1 in otps
        && otps[PendingOtp(session).value.1].purpose == PendingOtp(session).value.0
      ensures page.VerifyForm? ==> page.contactInfo == otps[PendingOtp(session).value.1].contactInfo
    {
      match PendingOtp(session)
      case None =>
        page := VerifyInvalidSession;
      case Some((p, id)) =>
        if id in otps && otps[id].purpose == p {
          page := VerifyForm(otps[id].contactInfo);
        } else {
          page := VerifyInvalidSession;
        }
    }

    /** `VerifyOTPView.post`: checks the submitted code against the OTP the session
        names for its purpose. Only a match on id, code and purpose, before expiry,
        succeeds; a password-reset success records the OTP's user as `reset_user_id`.
        No OTP is ever deleted here, so a verified code stays usable until it expires. */
    method VerifyPost(otpCode: Option<string>, now: Instant) returns (r: VerifyOutcome)
      requires Valid()
      modifies this
      ensures Valid()
      ensures otps == old(otps) && users == old(users) && nextOtpId == old(nextOtpId)
      ensures r.VerifySessionExpired? <==>
        otpCode.None? || otpCode.value == "" || PendingOtp(old(session)).None?
      ensures !r.VerifySessionExpired? ==>
        var p := PendingOtp(old(session)).value.0;
        var id := PendingOtp(old(session)).value.1;
        && (r.InvalidCode? <==> !MatchesCode(otps, id, otpCode.value, p))
        && (r.CodeExpired? <==> MatchesCode(otps, id, otpCode.value, p) && !otps[id].IsValid(now))
        && (r.Verified? <==> MatchesCode(otps, id, otpCode.value, p) && otps[id].IsValid(now))
        && (r.Verified? ==> r.purpose == p)
      ensures r == Verified(Reset) ==>
        session == old(session)[ResetUserId := UserRefValue(otps[PendingOtp(old(session)).value.1].user)]
      ensures r != Verified(Reset) ==> session == old(session)
    {
      var pending := PendingOtp(session);
      if otpCode.None? || otpCode.value == "" || pending.None? {
        return VerifySessionExpired;
      }
      var (p, id) := pending.value;
      if !(id in otps && otps[id].code == otpCode.value && otps[id].purpose == p) {
        return InvalidCode;
      }
      var otp := otps[id];
      if !otp.IsValid(now) {
        return CodeExpired;
      }
      if p == Reset {
        session := session[ResetUserId := UserRefValue(otp.user)];
      }
      r := Verified(p);
    }

    /** `SetPasswordView.get`: the form is shown while signup data is in the session. */
    method SetPasswordGet() returns (page: PasswordPage)
      requires Valid()
      ensures page == PasswordFormShown <==> Holds(session, SignupDataKey)
    {
      page := if Holds(session, SignupDataKey) then PasswordFormShown else PasswordPageRefused;
    }

    /** The signup data and signup OTP id are both in the session. */
    predicate SignupPending(s: Session) {
      Holds(s, SignupDataKey) && Holds(s, SignupOtpId)
    }

    /** `SetPasswordView.post`: with signup data and a signup OTP id in the session, a
        valid form and a signup OTP under that id, creates the account, points the OTP
        at it, clears the three signup keys and logs the new user in. Whether the code
        was ever verified, or is still live, is not checked. `loggedIn` says whether the
        session already belongs to a logged-in user: logging a different user in then
        flushes the whole session. */
    method SetPasswordPost(form: PasswordForm, validatorsAccept: bool, now: Instant, draw: CodeDraw,
                           loggedIn: bool)
      returns (r: SetPasswordOutcome)
      requires Valid()
      modifies this
      ensures Valid()
      ensures nextOtpId == old(nextOtpId)
      ensures r.SetPasswordSessionExpired? <==>
        !SignupPending(old(session)) ||
        (PasswordFormErrors(form, validatorsAccept) == {} &&
         !(old(session)[SignupOtpId].n in old(otps) && old(otps)[old(session)[SignupOtpId].n].purpose == Signup))
      ensures r.SetPasswordFormInvalid? <==>
        SignupPending(old(session)) && PasswordFormErrors(form, validatorsAccept) != {}
      ensures r.SetPasswordFormInvalid? ==> r.errors == PasswordFormErrors(form, validatorsAccept)
      ensures r.SetPasswordAgeOverflow? <==>
        && SignupPending(old(session)) && PasswordFormErrors(form, validatorsAccept) == {}
        && old(session)[SignupOtpId].n in old(otps) && old(otps)[old(session)[SignupOtpId].n].purpose == Signup
        && AgeOverflows(NewAccount(old(session)[SignupDataKey].data, form))
      ensures r.SetPasswordIntegrityError? ==>
        var account := NewAccount(old(session)[SignupDataKey].data, form);
        !AgeOverflows(account) && ClashesOnInsert(old(users), account)
      ensures !r.AccountCreated? ==> session == old(session) && otps == old(otps) && users == old(users)
      ensures r.AccountCreated? ==>
        var otpId := old(session)[SignupOtpId].n;
        && SignupPending(old(session))
        && PasswordFormErrors(form, validatorsAccept) == {}
        && otpId in old(otps) && old(otps)[otpId].purpose == Signup
        && !AgeOverflows(NewAccount(old(session)[SignupDataKey].data, form))
        && !ClashesOnInsert(old(users), NewAccount(old(session)[SignupDataKey].data, form))
        && r.userId == |old(users)| + 1
        && users == old(users) + [NewAccount(old(session)[SignupDataKey].data, form)]
        && otps == old(otps)[otpId := old(otps)[otpId].(user := Some(r.userId))]
        && session == if loggedIn then map[] else old(session) - {SignupDataKey, SignupOtpId, VerificationPurpose}
    {
      if !(Holds(session, SignupDataKey) && Holds(session, SignupOtpId)) {
        return SetPasswordSessionExpired;
      }
      var data := session[SignupDataKey].data;
      var otpId := session[SignupOtpId].n;
      var errors := PasswordFormErrors(form, validatorsAccept);
      if errors != {} {
        return SetPasswordFormInvalid(errors);
      }
      if !(otpId in otps && otps[otpId].purpose == Signup) {
        return SetPasswordSessionExpired;
      }
      var account := NewAccount(data, form);
      if AgeOverflows(account) {
        return SetPasswordAgeOverflow;
      }
      if ClashesOnInsert(users, account) {
        return SetPasswordIntegrityError;
      }
      users := users + [account];
      var userId := |users|;
      // otp.user = user; otp.save(): the stored code and expiry are kept
      var rec := new OtpRecord.Load(otps[otpId]);
      rec.user := Some(userId);
      rec.Save(now, draw);
      otps := otps[otpId := rec.Row(otpId)];
      RemoveSessionKeys([SignupDataKey, SignupOtpId, VerificationPurpose]);
      if loggedIn {
        // login() with another user's session: session.flush()
        session := map[];
      }
      r := AccountCreated(userId);
    }

    /** `VerifyProfileUpdateView.get`: with a verified update flag and pending edits in
        the session, applies the edits to the logged-in user and clears the four
        profile-update keys. `current` is the logged-in user's id, if any; `photoStored`
        is whether storage holds the file at the pending photo path. Moving such a file
        calls `os.path.basename` without `os` imported, so it fails before any field is
        assigned. */
    method ProfileUpdateGet(current: Option<nat>, photoStored: bool) returns (r: ProfileOutcome)
      requires Valid()
      requires current.Some? ==> 1 <= current.value <= |users|
      modifies this
      ensures Valid()
      ensures otps == old(otps) && nextOtpId == old(nextOtpId)
      ensures r.LoginRequired? <==> current.None?
      ensures r.ProfileNotVerified? <==> current.Some? && !Holds(old(session), UpdateOtpVerified)
      ensures r.NoPendingUpdate? <==>
        current.Some? && Holds(old(session), UpdateOtpVerified) && !Holds(old(session), PendingProfileUpdate)
      ensures r.ProfilePhotoError? <==>
        && current.Some? && Holds(old(session), UpdateOtpVerified) && Holds(old(session), PendingProfileUpdate)
        && PhotoMoveFails(old(session)[PendingProfileUpdate].edits, photoStored)
      ensures r.ProfileAgeOverflow? <==>
        && current.Some? && Holds(old(session), UpdateOtpVerified) && Holds(old(session), PendingProfileUpdate)
        && !PhotoMoveFails(old(session)[PendingProfileUpdate].edits, photoStored)
        && AgeOverflows(ApplyEdits(old(users)[current.value - 1], old(session)[PendingProfileUpdate].edits))
      ensures r.ProfileIntegrityError? ==>
        var i := current.value - 1;
        var edited := ApplyEdits(old(users)[i], old(session)[PendingProfileUpdate].edits);
        !AgeOverflows(edited) && ClashesOnUpdate(old(users), i, edited)
      ensures !r.ProfileUpdated? ==> users == old(users) && session == old(session)
      ensures r.ProfileUpdated? ==>
        var i := current.value - 1;
        && Holds(old(session), UpdateOtpVerified) && Holds(old(session), PendingProfileUpdate)
        && !PhotoMoveFails(old(session)[PendingProfileUpdate].edits, photoStored)
        && !AgeOverflows(ApplyEdits(old(users)[i], old(session)[PendingProfileUpdate].edits))
        && !ClashesOnUpdate(old(users), i, ApplyEdits(old(users)[i], old(session)[PendingProfileUpdate].edits))
        && users == old(users)[i := ApplyEdits(old(users)[i], old(session)[PendingProfileUpdate].edits)]
        && session == old(session) - {PendingProfileUpdate, UpdateOtpId, UpdateOtpVerified, VerificationPurpose}
    {
      if current.None? {
        return LoginRequired;
      }
      if !Holds(session, UpdateOtpVerified) {
        return ProfileNotVerified;
      }
      if !Holds(session, PendingProfileUpdate) {
        return NoPendingUpdate;
      }
      var edits := session[PendingProfileUpdate].edits;
      if PhotoMoveFails(edits, photoStored) {
        return ProfilePhotoError;
      }
      var i := current.value - 1;
      var edited := ApplyEdits(users[i], edits);
      if AgeOverflows(edited) {
        return ProfileAgeOverflow;
      }
      if ClashesOnUpdate(users, i, edited) {
        return ProfileIntegrityError;
      }
      users := users[i := edited];
      RemoveSessionKeys([PendingProfileUpdate, UpdateOtpId, UpdateOtpVerified, VerificationPurpose]);
      r := ProfileUpdated;
    }

    /** `ForgotPasswordView.post`: for the first active user whose email or phone is the
        contact, replaces every reset code of that user by a fresh one addressed to the
        user's stored email or phone (by the contact's channel), sends it and records its
        id and the purpose 'reset'. With no such user nothing changes. */
    method ForgotPasswordPost(contact: string, now: Instant, draw: CodeDraw,
                              mailDelivered: bool, smsDelivered: bool) returns (r: ForgotOutcome)
      requires Valid()
      modifies this
      ensures Valid()
      ensures users == old(users)
      ensures r.ForgotFormInvalid? <==> ContactFieldErrors(contact) != {}
      ensures r.ForgotFormInvalid? ==> r.errors == ContactFieldErrors(contact)
      ensures r.NoActiveUser? <==>
        ContactFieldErrors(contact) == {} && ActiveUserByContact(old(users), contact).None?
      ensures r.ForgotFormInvalid? || r.NoActiveUser? ==>
        session == old(session) && otps == old(otps) && nextOtpId == old(nextOtpId)
      ensures r.ResetCodeSent? || r.ResetMailFailed? ==>
        var uid := ActiveUserByContact(old(users), contact).value;
        var u := old(users)[uid - 1];
        var to := if ChannelFor(contact) == Email then Some(u.email) else u.phoneNumber;
        && nextOtpId == old(nextOtpId) + 1
        && otps == WithoutResetCodesOf(old(otps), uid)[old(nextOtpId) :=
             OtpRow(old(nextOtpId), Some(uid), to, GenerateCode(draw), now, now + TenMinutes,
                    ChannelFor(contact), Reset)]
        && (forall id :: (id in otps && otps[id].user == Some(uid) && otps[id].purpose == Reset)
                         <==> id == old(nextOtpId))
      ensures r.ResetMailFailed? <==>
        ContactFieldErrors(contact) == {} && ActiveUserByContact(old(users), contact).Some? &&
        ChannelFor(contact) == Email && !mailDelivered
      ensures r.ResetMailFailed? ==> session == old(session)
      ensures r.ResetCodeSent? ==>
        r.otpId == old(nextOtpId) && r.sentTo == otps[r.otpId].contactInfo &&
        session == old(session)[ResetOtpId := Id(r.otpId)][VerificationPurpose := Str(PurposeName(Reset))]
    {
      var errors := ContactFieldErrors(contact);
      if errors != {} {
        return ForgotFormInvalid(errors);
      }
      var found := ActiveUserByContact(users, contact);
      if found.None? {
        return NoActiveUser;
      }
      var uid := found.value;
      var user := users[uid - 1];
      var channel := ChannelFor(contact);
      var to := if channel == Email then Some(user.email) else user.phoneNumber;
      otps := WithoutResetCodesOf(otps, uid);
      var otp := CreateOtp(Some(uid), to, channel, Reset, now, draw);
      if channel == Email {
        var sent := SendOtpEmail(otp, mailDelivered);
        if sent.Err? {
          return ResetMailFailed;
        }
      } else {
        var _ := SendOtpPhone(twilio, otp, smsDelivered);
      }
      session := session[ResetOtpId := Id(otp.id)][VerificationPurpose := Str(PurposeName(Reset))];
      r := ResetCodeSent(otp.id, to);
    }

    /** The session carries a user to reset and the purpose 'reset'. */
    predicate ResetPending(s: Session) {
      Holds(s, ResetUserId) && PurposeIs(s, Reset)
    }

    /** `ResetPasswordView.get`: the form is shown while the session carries a reset
        user that exists and the purpose 'reset'. */
    method ResetPasswordGet() returns (page: PasswordPage)
      requires Valid()
      ensures page == PasswordFormShown <==>
        ResetPending(session) && 1 <= session[ResetUserId].n <= |users|
    {
      if !(Holds(session, ResetUserId) && PurposeIs(session, Reset)) {
        return PasswordPageRefused;
      }
      var uid := session[ResetUserId].n;
      page := if 1 <= uid <= |users| then PasswordFormShown else PasswordPageRefused;
    }

    /** `ResetPasswordView.post`: with a reset user and the purpose 'reset' in the
        session and a valid form, sets the password and clears the three reset keys.
        Which OTP was verified is not checked again. */
    method ResetPasswordPost(form: PasswordForm, validatorsAccept: bool) returns (r: ResetOutcome)
      requires Valid()
      modifies this
      ensures Valid()
      ensures users == old(users) && otps == old(otps) && nextOtpId == old(nextOtpId)
      ensures r.ResetSessionExpired? <==> !ResetPending(old(session))
      ensures r.ResetUserMissing? <==>
        ResetPending(old(session)) && !(1 <= old(session)[ResetUserId].n <= |users|)
      ensures r.ResetFormInvalid? <==>
        ResetPending(old(session)) && 1 <= old(session)[ResetUserId].n <= |users| &&
        PasswordFormErrors(form, validatorsAccept) != {}
      ensures r.PasswordReset? ==>
        && r.userId == old(session)[ResetUserId].n
        && session == old(session) - {ResetUserId, VerificationPurpose, ResetOtpId}
      ensures !r.PasswordReset? ==> session == old(session)
    {
      if !(Holds(session, ResetUserId) && PurposeIs(session, Reset)) {
        return ResetSessionExpired;
      }
      var uid := session[ResetUserId].n;
      if !(1 <= uid <= |users|) {
        return ResetUserMissing;
      }
      var errors := PasswordFormErrors(form, validatorsAccept);
      if errors != {} {
        return ResetFormInvalid(errors);
      }
      RemoveSessionKeys([ResetUserId, VerificationPurpose, ResetOtpId]);
      r := PasswordReset(uid);
    }
  }
}
