/** The account and one-time-code records (users/models.py): the user row with its
    defaults and uniqueness constraints, the OTP row, the purposes and channels an OTP
    may have, code generation and expiry, and the in-memory OTP instance whose `save`
    fills in the missing code and expiry. */
module UserModels {
  import opened Wrappers

  /** Instants on the server clock, in microseconds (the resolution of Python's datetime). */
  type Instant = int

  /** Lifetime of a freshly saved code: `timedelta(minutes=10)`. */
  const TenMinutes: int := 10 * 60 * 1000000

  // ---------------------------------------------------------------------------
  // Purposes and channels

  /** `OTP.PURPOSE_CHOICES`. */
  datatype Purpose = Signup | Reset | ProfileUpdate

  /** The stored string of each purpose; note that a password reset is `'reset'`. */
  function PurposeName(p: Purpose): string {
    match p
    case Signup => "signup"
    case Reset => "reset"
    case ProfileUpdate => "profile_update"
  }

  /** The purpose a stored string names, if any. */
  function ParsePurpose(s: string): (r: Option<Purpose>)
    ensures forall p :: r == Some(p) <==> s == PurposeName(p)
  {
    if s == "signup" then Some(Signup)
    else if s == "reset" then Some(Reset)
    else if s == "profile_update" then Some(ProfileUpdate)
    else None
  }

  /** The choices of `OTP.type`. */
  datatype Channel = Email | Phone

  /** The channel both issuing views pick for a contact: email exactly when it contains '@'. */
  function ChannelFor(contact: string): Channel {
    if '@' in contact then Email else Phone
  }

  // ---------------------------------------------------------------------------
  // Codes

  /** `string.digits`. */
  const Digits: string := "0123456789"

  /** One draw of `random.choices(string.digits)`: an index into `Digits`. */
  type DigitIndex = i: int | 0 <= i < 10

  /** The six independent draws of `random.choices(string.digits, k=6)`. The choice is
      nondeterministic, so callers supply it. */
  type CodeDraw = s: seq<DigitIndex> | |s| == 6 witness [0, 0, 0, 0, 0, 0]

  predicate IsDigit(c: char) {
    '0' <= c <= '9'
  }

  /** A well-formed code: exactly six decimal digits, leading zeros allowed. */
  predicate IsOtpCode(s: string) {
    |s| == 6 && forall i :: 0 <= i < |s| ==> IsDigit(s[i])
  }

  /** The code a draw produces. */
  function GenerateCode(draw: CodeDraw): (code: string)
    ensures IsOtpCode(code)
    ensures forall i :: 0 <= i < 6 ==> code[i] as int - '0' as int == draw[i]
  {
    seq(6, i requires 0 <= i < 6 => Digits[draw[i]])
  }

  /** Every six-digit string, leading zeros included, is the code of some draw. */
  lemma EveryCodeCanBeDrawn(code: string)
    requires IsOtpCode(code)
    ensures exists d: CodeDraw :: GenerateCode(d) == code
  {
    var d: CodeDraw := seq(6, i requires 0 <= i < 6 => (code[i] as int - '0' as int) as DigitIndex);
    assert GenerateCode(d) == code;
  }

  /** Different draws give different codes, so drawing uniformly gives every code the
      same chance. */
  lemma DistinctDrawsGiveDistinctCodes(d1: CodeDraw, d2: CodeDraw)
    requires d1 != d2
    ensures GenerateCode(d1) != GenerateCode(d2)
  {
  }

  // ---------------------------------------------------------------------------
  // Stored rows

  /** A row of the OTP table. `user` is the owning user's id, when set. */
  datatype OtpRow = OtpRow(
    id: nat,
    user: Option<nat>,
    contactInfo: Option<string>,
    code: string,
    createdAt: Instant,
    expiresAt: Instant,
    channel: Channel,
    purpose: Purpose)
  {
    /** `OTP.is_valid`: still live strictly before the expiry instant. */
    predicate IsValid(now: Instant) {
      now < expiresAt
    }
  }

  /** Once a code has expired it stays expired, and it is already expired at the
      instant stored as its expiry. */
  lemma ExpiryIsFinal(row: OtpRow, now: Instant, later: Instant)
    requires now <= later
    ensures !row.IsValid(now) ==> !row.IsValid(later)
    ensures !row.IsValid(row.expiresAt)
  {
  }

  /** A row of the user table (the fields of `User` this model uses). A missing email
      is the empty string, as the framework's user manager stores it; a missing phone
      number is NULL. */
  datatype UserRow = UserRow(
    username: string,
    email: string,
    phoneNumber: Option<string>,
    age: Option<nat>,
    preferredCity: string,
    preferredArea: Option<string>,
    preferredPrice: Option<string>,
    tasteTags: string,
    isActive: bool,
    isVerified: bool,
    emailVerified: bool,
    phoneVerified: bool)

  /** `User.preferred_city`'s default. */
  const DefaultCity: string := "Coimbatore"

  /** A user with every field at its model default. */
  function DefaultUser(username: string): (u: UserRow)
    ensures u.username == username && u.email == "" && u.phoneNumber.None?
    ensures u.preferredCity == "Coimbatore"
    ensures !u.isVerified && !u.emailVerified && !u.phoneVerified
  {
    UserRow(username, "", None, None, DefaultCity, None, None, "", true, false, false, false)
  }

  /** `User.username` is unique. */
  ghost predicate UniqueUsernames(users: seq<UserRow>) {
    forall i, j :: 0 <= i < j < |users| ==> users[i].username != users[j].username
  }

  /** `User.phone_number` is unique among the users that have one. */
  ghost predicate UniquePhoneNumbers(users: seq<UserRow>) {
    forall i, j :: 0 <= i < j < |users| && users[i].phoneNumber.Some? ==>
      users[i].phoneNumber != users[j].phoneNumber
  }

  // ---------------------------------------------------------------------------
  // The model instance and its save

  /** An `OTP` model instance in memory: before its first save its code is empty and
      its expiry unset. */
  class OtpRecord {
    var user: Option<nat>
    var contactInfo: Option<string>
    var code: string
    var createdAt: Option<Instant>
    var expiresAt: Option<Instant>
    var channel: Channel
    var purpose: Purpose

    /** `OTP(user=..., contact_info=..., type=..., purpose=...)`, not yet saved. */
    constructor (user: Option<nat>, contactInfo: Option<string>, channel: Channel, purpose: Purpose)
      ensures this.user == user && this.contactInfo == contactInfo
      ensures this.channel == channel && this.purpose == purpose
      ensures code == "" && createdAt.None? && expiresAt.None?
    {
      this.user := user;
      this.contactInfo := contactInfo;
      this.channel := channel;
      this.purpose := purpose;
      code := "";
      createdAt := None;
      expiresAt := None;
    }

    /** An instance loaded from a stored row. */
    constructor Load(row: OtpRow)
      ensures IsSaved() && Row(row.id) == row
    {
      user := row.user;
      contactInfo := row.contactInfo;
      code := row.code;
      createdAt := Some(row.createdAt);
      expiresAt := Some(row.expiresAt);
      channel := row.channel;
      purpose := row.purpose;
    }

    predicate IsSaved()
      reads this
    {
      createdAt.Some? && expiresAt.Some?
    }

    /** The row this instance is stored as under `id`. */
    function Row(id: nat): OtpRow
      reads this
      requires IsSaved()
    {
      OtpRow(id, user, contactInfo, code, createdAt.value, expiresAt.value, channel, purpose)
    }

    /** `OTP.save`: an empty code is replaced by a drawn one and an unset expiry by
        ten minutes from now; a code or expiry already present is kept. The creation
        time is stamped on the first save (`auto_now_add`). */
    method Save(now: Instant, draw: CodeDraw)
      modifies this
      ensures code == if old(code) == "" then GenerateCode(draw) else old(code)
      ensures expiresAt == if old(expiresAt).None? then Some(now + TenMinutes) else old(expiresAt)
      ensures createdAt == if old(createdAt).None? then Some(now) else old(createdAt)
      ensures user == old(user) && contactInfo == old(contactInfo)
      ensures channel == old(channel) && purpose == old(purpose)
      ensures IsSaved()
    {
      if code == "" {
        code := GenerateCode(draw);
      }
      if expiresAt.None? {
        expiresAt := Some(now + TenMinutes);
      }
      if createdAt.None? {
        createdAt := Some(now);
      }
    }
  }
}
