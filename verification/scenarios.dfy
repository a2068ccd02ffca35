/** End-to-end runs of the account flows (users/views.py), each a sequence of requests
    from one client against one site. They show what the handlers allow together: a
    signup code is accepted until its expiry and not after; a verified code can be
    entered again; the account can be created without the code ever being entered;
    and the password-reset flow reaches the user the contact names. */
module Scenarios {
  import opened Wrappers
  import opened UserModels
  import opened UserForms
  import opened UserViews

  /** Signing up and then entering the code twice: both entries succeed before the
      expiry and both fail from the expiry on, since a verified code is not used up. */
  method SignupThenVerifyTwice(site: Site, username: string, contact: string, now: Instant,
                               later: Instant, draw: CodeDraw, mailDelivered: bool, smsDelivered: bool)
    returns (sent: SignupOutcome, first: VerifyOutcome, second: VerifyOutcome)
    requires site.Valid()
    modifies site
    ensures site.Valid()
    ensures sent.SignupCodeSent? <==>
      SignupErrors(old(site.users), username, contact) == {} && (ChannelFor(contact) == Email ==> mailDelivered)
    ensures sent.SignupCodeSent? && later < now + TenMinutes ==>
      first == Verified(Signup) && second == Verified(Signup)
    ensures sent.SignupCodeSent? && later >= now + TenMinutes ==>
      first == CodeExpired && second == CodeExpired
  {
    sent := site.SignupPost(username, contact, now, draw, mailDelivered, smsDelivered);
    ghost var id := old(site.nextOtpId);
    assert sent.SignupCodeSent? ==> PendingOtp(site.session) == Some((Signup, id));
    first := site.VerifyPost(Some(GenerateCode(draw)), later);
    second := site.VerifyPost(Some(GenerateCode(draw)), later);
  }

  /** The password step after a signup, with no code entered in between: a valid form
      creates the account unless its age does not fit SQLite's INTEGER or its username or
      phone number is taken. */
  method SetPasswordWithoutVerifying(site: Site, username: string, contact: string, now: Instant,
                                     draw: CodeDraw, mailDelivered: bool, smsDelivered: bool,
                                     form: PasswordForm, validatorsAccept: bool, loggedIn: bool)
    returns (sent: SignupOutcome, created: SetPasswordOutcome)
    requires site.Valid()
    modifies site
    ensures site.Valid()
    ensures sent.SignupCodeSent? && PasswordFormErrors(form, validatorsAccept) == {} &&
            !AgeOverflows(NewAccount(SignupData(username, contact), form)) &&
            !ClashesOnInsert(old(site.users), NewAccount(SignupData(username, contact), form)) ==>
      && created == AccountCreated(|old(site.users)| + 1)
      && site.users == old(site.users) + [NewAccount(SignupData(username, contact), form)]
      && (loggedIn ==> site.session == map[])
    ensures sent.SignupCodeSent? && PasswordFormErrors(form, validatorsAccept) == {} &&
            AgeOverflows(NewAccount(SignupData(username, contact), form)) ==>
      created == SetPasswordAgeOverflow && site.users == old(site.users)
  {
    sent := site.SignupPost(username, contact, now, draw, mailDelivered, smsDelivered);
    ghost var usersAfterSignup := site.users;
    created := site.SetPasswordPost(form, validatorsAccept, now, draw, loggedIn);
    assert usersAfterSignup == old(site.users);
  }

  /** Forgetting the password, entering the emailed or texted code before it expires,
      and choosing a valid new password resets the password of the first active user
      whose email or phone number is the contact, and leaves no reset key behind. */
  method ResetFlow(site: Site, contact: string, now: Instant, later: Instant, draw: CodeDraw,
                   mailDelivered: bool, smsDelivered: bool, form: PasswordForm, validatorsAccept: bool)
    returns (sent: ForgotOutcome, verified: VerifyOutcome, reset: ResetOutcome)
    requires site.Valid()
    modifies site
    ensures site.Valid()
    ensures sent.ResetCodeSent? <==>
      && ContactFieldErrors(contact) == {}
      && ActiveUserByContact(old(site.users), contact).Some?
      && (ChannelFor(contact) == Email ==> mailDelivered)
    ensures sent.ResetCodeSent? && later < now + TenMinutes ==> verified == Verified(Reset)
    ensures sent.ResetCodeSent? && later < now + TenMinutes && PasswordFormErrors(form, validatorsAccept) == {} ==>
      && reset == PasswordReset(ActiveUserByContact(old(site.users), contact).value)
      && ResetUserId !in site.session && VerificationPurpose !in site.session && ResetOtpId !in site.session
    ensures site.users == old(site.users)
  {
    sent := site.ForgotPasswordPost(contact, now, draw, mailDelivered, smsDelivered);
    ghost var id := old(site.nextOtpId);
    assert sent.ResetCodeSent? ==> PendingOtp(site.session) == Some((Reset, id));
    verified := site.VerifyPost(Some(GenerateCode(draw)), later);
    reset := site.ResetPasswordPost(form, validatorsAccept);
  }
}
