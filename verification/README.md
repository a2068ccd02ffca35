# CityMate account verification and place search, in Dafny

CityMate is a Django site for finding places in Coimbatore. This project models two
parts of it and proves properties of the model.

**The one-time-code (OTP) workflow of the `users` app.** A client signs up with a
username and an email address or phone number. A six-digit code is sent to that contact,
the client enters it, and then chooses a password, which creates the account. A
forgotten password follows the same path: a code goes to the stored contact of the
active user the client names, and entering it unlocks a password reset. A pending
profile update is applied once its flag is set. As the site ships, that last step cannot be
reached: users/urls.py routes neither `VerifyProfileUpdateView` nor the
`users:verify_profile_update` name that a successful profile-update verify redirects to. That
redirect therefore fails as a server error, which leaves the state unchanged.

The state is three pieces:

- the client's session, a map over the eight session keys;
- the OTP table, a map from id to row;
- the user table, a sequence in which the user with id `k` is at position `k - 1`.

The class `UserViews.Site` holds all three. Each request handler is one of its methods,
and its contract states the outcome and the whole new state:

- which session keys are written or removed;
- which OTP rows are deleted or created;
- which user rows change.

The `Site.Valid()` invariant is preserved by every handler:

- every OTP sits under its own id and has a six-digit code;
- every session value has the kind its key expects;
- usernames and phone numbers are unique.

The modules beside `Site` hold the pieces it uses:

- `UserModels`: the rows, the purposes, code generation, and `OTP.save` as a method on
  an in-memory record (`OtpRecord`);
- `UserUtils`: phone-number normalisation and the two senders;
- `UserForms`: the form checks.

`Scenarios` chains the handlers along the site's flows.

**The place search (`SearchView.get`).** The result is the approved places, narrowed by
one filter per non-empty query parameter. Beside it the view builds a dictionary of
labels for the active filters. `PlaceViews.Select` models a chain of filters over a
sequence of places. `PlaceViews.Search` applies them in the view's order and is proved
equal to a single selection by all of them. `InSearchResults` characterises the result
place by place.

External inputs are parameters:

- the clock is `now`, in microseconds;
- the six random digits are `draw`, a sequence of six digit indices;
- whether the mail server or the SMS provider accepted a message is `mailDelivered` or
  `smsDelivered`;
- the verdict of the configured password validators is `validatorsAccept`;
- the logged-in user is `current`, and whether the session already belongs to a logged-in
  user when an account is created is `loggedIn`;
- whether storage holds the file at a pending profile-photo path is `photoStored`.

Framework behaviour that the handlers depend on is modelled explicitly:

- An exception the view does not catch is a server error. Examples are a mail refused
  with `fail_silently=False`, a duplicate username or phone number rejected by the
  database, and a reset user that no longer exists. On such an error, database writes
  made before it stay, but the session is not saved.
- `create_user` stores a missing email as the empty string.
- The database is SQLite, whose INTEGER is signed 64-bit. Saving a user whose age is
  2^63 or more makes the driver raise `OverflowError`, a server error. The age field has no
  upper bound of its own.
- `.first()` picks the lowest id.
- `icontains` and `iexact` compare letters ignoring ASCII case, as SQLite does.

Behaviour of the code that the model keeps as it is:

- `SetPasswordView.post` never checks that the code was entered or is still live. It
  only needs signup data, a signup OTP id and a signup OTP under that id.
  `Scenarios.SetPasswordWithoutVerifying` shows an account created straight after signup.
- Verifying never deletes the OTP, so a verified code is accepted again until it expires
  (`Scenarios.SignupThenVerifyTwice`).
- No handler writes `update_otp_id` or `update_otp_verified`, so the profile update
  applies only when some other code has set them. Even then it has no route, as said above.
- A pending profile photo that storage holds makes the profile update fail before any field
  is assigned, because the code calls `os.path.basename` without importing `os`.
- Creating the account logs the new user in. If the session already belonged to a
  logged-in user, logging in flushes the whole session, including any reset or
  profile-update keys.
- The reset purpose is stored as `"reset"`.
- A new forgot-password request deletes the earlier reset codes by user, not by contact.
  It does not clear `reset_user_id`.
- A failed SMS is ignored: the code stays in the table and the client is sent on to the
  verify page.

## Model

| member | source | states |
|---|---|---|
| UserModels.ParsePurpose | users/models.py:68-72 | a stored purpose string names a purpose exactly when it is that purpose's name: 'signup', 'reset' or 'profile_update' |
| UserModels.GenerateCode | users/models.py:84 | a drawn code is six decimal digits, digit i being the i-th draw |
| UserModels.EveryCodeCanBeDrawn | users/models.py:84 | every six-digit string, leading zeros included, is some draw's code |
| UserModels.DistinctDrawsGiveDistinctCodes | users/models.py:84 | different draws give different codes |
| UserModels.ExpiryIsFinal | users/models.py:89-90 | an expired code stays expired later on, and a code is already invalid at its expiry instant |
| UserModels.DefaultUser | users/models.py:11-47 | a new user has no email or phone, preferred city "Coimbatore" and all three verified flags false |
| UserModels.OtpRecord.constructor | users/models.py:74-81 | an unsaved OTP carries the given user, contact, type and purpose, with an empty code and no expiry |
| UserModels.OtpRecord.Load | users/models.py:74-81 | an instance loaded from a row is saved and stores back as the same row |
| UserModels.OtpRecord.Save | users/models.py:82-87 | an empty code is replaced by the drawn one and an unset expiry by now + 10 minutes; an existing code or expiry is kept; nothing else changes |
| UserUtils.NormalizePhone | users/utils.py:31-37 | the result starts with '+' and ends with the number; it equals the number exactly when the number starts with '+'; otherwise it starts with '+91', one character longer for numbers starting with 91 and three longer for the rest |
| UserUtils.NormalizePhoneIdempotent | users/utils.py:31-37 | normalising twice gives the same number as normalising once |
| UserUtils.SendOtpEmail | users/utils.py:7-16 | sending succeeds exactly when the mail is delivered, and then returns the OTP unchanged |
| UserUtils.SendOtpPhone | users/utils.py:19-47 | without all three Twilio settings the result is None; a result exists exactly when configured, with a contact, and delivered, and it is the OTP unchanged, sent to a normalised recipient |
| UserUtils.SmsRecipient | users/utils.py:31-42 | an SMS has a recipient exactly when the OTP has a contact; the recipient starts with '+' and ends with the contact |
| UserForms.CleanUsername | users/forms.py:20-24 | a username is rejected exactly when some user already has it, and is otherwise returned unchanged |
| UserForms.CleanContactInfo | users/forms.py:26-34 | a contact with '@' is rejected exactly when it is some user's email, any other exactly when it is some user's phone number; an accepted contact is returned unchanged |
| UserForms.ContactFieldErrors | users/forms.py:10-14 | a contact passes the field checks exactly when it is non-empty, at most 254 characters and free of null characters; a null character is reported exactly when present |
| UserForms.SignupErrors | users/forms.py:9-34 | the signup form is valid exactly when the username is given, at most 150 characters, free of null characters and not taken, and the contact passes its field checks and its uniqueness check |
| UserForms.PasswordFormErrors | users/forms.py:37-57 | the password form is valid exactly when the two passwords are given and equal, the validators accept them, the age is absent or at least 13, no area is chosen and none of the passwords, city or tags holds a null character; the age error appears exactly when the age is below 13 |
| UserForms.CleanedAge | users/forms.py:38-43 | an accepted age is kept, and a given one is a natural number of at least 13 |
| UserViews.PendingOtp | users/views.py:116-127 | the session yields a purpose and an OTP id only when it stores that purpose and a non-zero id under the purpose's own key; otherwise no purpose has such an id |
| UserViews.WithoutSignupCodesFor | users/views.py:71 | exactly the signup codes for the contact are removed, and every other row is kept as it was |
| UserViews.WithoutResetCodesOf | users/views.py:312 | exactly the reset codes of the user are removed, and every other row is kept as it was |
| UserViews.ActiveUserByContact | users/views.py:303-306 | the result is the lowest id of an active user whose email or phone number is the contact, and None exactly when there is no such user |
| UserViews.LoginUser | users/views.py:42-46 | the result is the lowest id of a user whose username or email equals the login ignoring case, or whose phone number is the login; None exactly when no user matches |
| UserViews.NewAccount | users/views.py:173-195 | an email contact becomes the verified email with no phone; any other contact becomes the phone number with no email; the city defaults to Coimbatore; the account is active and verified |
| UserViews.ApplyEdits | users/views.py:273-283 | each field takes its pending value when one is pending and keeps its value otherwise; the email becomes verified when an email was pending |
| UserViews.ApplyEditsIdempotent | users/views.py:273-283 | applying the same pending edits again changes nothing more |
| UserViews.ApplyNoEdits | users/views.py:273-283 | edits with no pending key leave the user as it was |
| UserViews.Site.CreateOtp | users/views.py:72-76 | the new row gets the next id, the drawn code, the creation instant and an expiry ten minutes later; nothing else changes |
| UserViews.Site.RemoveSessionKeys | users/views.py:203-204 | the listed keys are removed from the session; nothing else changes |
| UserViews.Site.SignupPost | users/views.py:62-88 | an invalid form changes nothing. Otherwise the contact's signup codes are replaced by exactly one fresh code, of type email exactly when the contact has '@'. A refused mail keeps the session. A sent code stores the signup data, its id and the purpose 'signup' |
| UserViews.Site.VerifyGet | users/views.py:92-112 | the code page is shown exactly when the session names a purpose and an id under its key, and an OTP with that id and purpose exists; it shows that OTP's contact |
| UserViews.Site.VerifyPost | users/views.py:114-147 | no code, purpose or id means session expired. Otherwise success needs a row matching id, code and purpose with now before its expiry. Only a reset success writes `reset_user_id`, the OTP's user. The OTP and user tables never change |
| UserViews.Site.SetPasswordGet | users/views.py:153-157 | the form is shown exactly when signup data is in the session |
| UserViews.Site.SetPasswordPost | users/views.py:159-213 | without signup data, an OTP id or a signup OTP under it, nothing changes. With them and a valid form, an age of 2^63 or more is a server error and changes nothing. Otherwise the new account is appended and the OTP points at it. The three signup keys are removed, or the whole session is flushed when another user was logged in. A duplicate username or phone changes nothing |
| UserViews.Site.ProfileUpdateGet | users/views.py:248-292 | without login, the verified flag or pending edits, nothing changes. A pending photo that storage holds is a server error and changes nothing, and so is an edited age of 2^63 or more. Otherwise the logged-in user takes the edits and the four profile-update keys are removed, unless the result would duplicate a username or phone |
| UserViews.Site.ForgotPasswordPost | users/views.py:299-331 | without a matching active user nothing changes. Otherwise that user's reset codes are replaced by exactly one fresh code, addressed to the user's stored email or phone by the contact's channel; a sent code stores its id and the purpose 'reset' |
| UserViews.Site.ResetPasswordGet | users/views.py:337-349 | the form is shown exactly when the session holds a reset user that exists and the purpose 'reset' |
| UserViews.Site.ResetPasswordPost | users/views.py:351-365 | a reset user, the purpose 'reset', an existing user and a valid form are needed; on success the three reset keys are removed; otherwise the session is unchanged |
| Scenarios.SignupThenVerifyTwice | users/views.py:62-147 | after a sent signup code, entering it succeeds twice before the expiry, and fails twice from the expiry on |
| Scenarios.SetPasswordWithoutVerifying | users/views.py:159-209 | right after a sent signup code, with no code entered, a valid form creates the account unless its age is 2^63 or more (then nothing is stored) or its username or phone is taken; a session that was already logged in is flushed |
| Scenarios.ResetFlow | users/views.py:299-365 | forgot password, the code entered before expiry and a valid form reset the password of the first active user with that contact, leaving no reset key |
| Text.ContainsIffWindow | places/views.py:52-55 | the recursive substring test holds exactly when some window of the text is the needle |
| PlaceViews.Lowest | places/views.py:69 | the lowest requested rating is one of them and no larger than any |
| PlaceViews.LowestThresholdDecides | places/views.py:68-70 | a rating reaches the lowest threshold exactly when it reaches one of the thresholds |
| PlaceViews.TruncateTowardZero | places/views.py:71 | the star count drops the fraction toward zero |
| PlaceViews.SelectKeeps | places/views.py:33-79 | a place is selected exactly when it is one of the places and passes every filter |
| PlaceViews.SelectTwice | places/views.py:51-79 | filtering by one list and then another is filtering by both at once |
| PlaceViews.FilterOrderIrrelevant | places/views.py:51-79 | the order in which filters are applied does not change the result |
| PlaceViews.FilterOnlyNarrows | places/views.py:51-79 | a further filter keeps no more places, and only places already kept |
| PlaceViews.EmptyLocationKeepsEveryPlace | places/views.py:59-63 | when one location value is empty, the location filter keeps every place, because every address contains the empty string |
| PlaceViews.InSearchResults | places/views.py:33-79 | a place is returned exactly when it is approved and passes the filter of each given parameter. Those filters are: the query in its name, description or tags ignoring case; a mapped location in its address; a rating of at least one threshold; a price level and a type among those requested |
| PlaceViews.ResultsAreApprovedPlaces | places/views.py:33 | every result is an approved place, and with no parameters the results are the approved places |
| PlaceViews.LocationQuery | places/views.py:59-62 | each requested location is replaced by its display name from `location_map`, or kept when it has none |
| PlaceViews.Search | places/views.py:25-80 | the results are the search results. A filter label is present exactly when its parameter is non-empty. The labels carry the query, the mapped locations, the truncated lowest rating, the mapped price names and the types |

## Left out

- Password hashing, `set_password`, `authenticate`, `login`/`logout` and the choice of auth backend are framework internals. A password is only checked for the outcome it causes. Of `login`, only its effect on the session keys modelled here is kept: it flushes a session that already belonged to a logged-in user.
- `UserViews.Site.ResetPasswordPost`: the new password is not stored, because passwords are not modelled, so its contract says the user table is unchanged.
- `UserViews.LoginUser`: only the user lookup of `LoginView.post` is modelled; whether the password matches, and logging in, are the framework's.
- UserViews.Site.ProfileUpdateGet: the profile-photo file operations are storage I/O and are not modelled. These are opening the pending file, deleting the old photo, and the 'CLEAR' deletion. Only their effect on the outcome is kept: a pending file that storage holds (`photoStored`) raises a server error before any field is assigned, because `os` is not imported.
- Mail and SMS delivery are foreign I/O. The outcome of each is a parameter, and delivery never changes an OTP.
- The `print` calls in users/utils.py are not modelled.
- Rendering, redirects and the `messages` framework are not modelled. Each handler returns an outcome naming the page or error instead.
- `UserModels.DefaultUser` and `UserViews.NewAccount` do not model `create_user`'s normalisation of the email domain and the username, nor the password it stores.
- UserForms.SignupErrors: the username validator's character rule (Unicode word characters and `.@+-` only) is not modelled. So a username of other characters is accepted here but rejected by the site, and UserViews.Site.SignupPost inherits the gap. Uniqueness is also checked on the raw username only. The site's ModelForm NFKC-normalises the username before its uniqueness check, so it also rejects a username whose NFKC form is taken, such as "ﬁ" when "fi" exists. The 150-character limit and the exact-match uniqueness are modelled.
- UserViews.Site.SignupPost: inherits both gaps of `UserForms.SignupErrors`. It issues a code for a username with characters outside the validator's rule, or one whose NFKC form is already taken, where the site re-renders the form.
- UserViews.Site.SetPasswordPost: the clash test uses the raw username, but `create_user` inserts its NFKC form. A username whose NFKC form is taken therefore creates an account here, while the site fails with an integrity error. `Scenarios.SetPasswordWithoutVerifying` inherits the gap.
- Form inputs are taken after the framework strips surrounding whitespace.
- The login form's own field checks are not modelled, and neither are the fields of the profile form that `ProfileView.post` saves. `ProfileView` is not part of this model.
- `UserViews.ProfileEdits` holds only strings, numbers and absent values, so a pending email of JSON null cannot be expressed. The code that writes pending edits is not part of this model.
- Nothing in the model writes `update_otp_id` or `update_otp_verified`, because no handler does.
- Ratings are reals, and `min_rating` values arrive already parsed: the error a malformed number raises in `float(r)` is not modelled.
- UserForms.PasswordFormErrors: the age arrives already parsed as an integer, so the form error for a non-integer age is not modelled.
- The labels are kept as the values they show. Joining with ", ", the quotes, "+ Stars" and `.title()` casing are text formatting and are not modelled.
- `HomeView`, the other views in places/views.py, seed_data.py and reviews/forms.py are not part of this model: they are random ordering, database seeding and widget declarations.
- Concurrent requests are not modelled, so the race between deleting old codes and creating a new one does not arise. Each request runs alone.
- Time zones are not modelled: instants are integer microseconds on one clock.
