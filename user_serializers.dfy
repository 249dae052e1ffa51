/**
 * The validators and writers of backend/users/serializers.py: registration
 * (`validate_username`, `validate_email`, `validate`, `create`), password
 * change (`validate_old_password`, `validate`) and profile update
 * (`UpdateUserSerializer.update`).
 *
 * The database lookups are sets of the usernames and emails already stored;
 * `check_password` and Django's password rules are predicates passed in.
 * A validator's raise is an `Err` carrying the message.
 */
module UserSerializers {
  import opened Common
  import opened Users

  /** An entry of the error dictionary: the field and its message. */
  datatype FieldError = FieldError(field: string, message: string)

  // --------------------------------------------------------- registration

  /** The registration payload after field parsing. */
  datatype Registration = Registration(username: string, email: string, password: string, passwordConfirm: string,
                                       fullName: Option<string>, phone: Option<string>, userType: Option<string>)

  /** `validate_username`: the existence check first, then the no-space rule. */
  function ValidateUsername(value: string, takenUsernames: set<string>): Result<string, string>
  {
    if value in takenUsernames then Err("Username already exists")
    else if ' ' in value then Err("Username cannot contain spaces")
    else Ok(value)
  }

  /** `validate_email` */
  function ValidateEmail(value: string, takenEmails: set<string>): Result<string, string>
  {
    if value in takenEmails then Err("Email already registered") else Ok(value)
  }

  /** `RegisterSerializer.validate` */
  function ValidateRegistrationAttrs(attrs: Registration): Result<Registration, FieldError>
  {
    if attrs.password != attrs.passwordConfirm then Err(FieldError("password", "Passwords do not match"))
    else Ok(attrs)
  }

  /** A validator's error as an entry of the error dictionary, or nothing. */
  function ErrorsOf<T>(field: string, r: Result<T, string>): seq<FieldError>
  {
    if r.Err? then [FieldError(field, r.error)] else []
  }

  /**
   * `is_valid()`: the per-field validators run first (username, email, then
   * the password rules) and their errors are collected; only when none
   * fails does the object-level `validate` run.
   */
  function ValidateRegistration(attrs: Registration, takenUsernames: set<string>, takenEmails: set<string>,
                                passwordAcceptable: string -> bool): Result<Registration, seq<FieldError>>
  {
    var fieldErrors :=
      ErrorsOf("username", ValidateUsername(attrs.username, takenUsernames))
      + ErrorsOf("email", ValidateEmail(attrs.email, takenEmails))
      + (if passwordAcceptable(attrs.password) then [] else [FieldError("password", "Password rules not met")]);
    if fieldErrors != [] then Err(fieldErrors)
    else
      match ValidateRegistrationAttrs(attrs)
      case Ok(a) => Ok(a)
      case Err(e) => Err([e])
  }

  /** The username is rejected iff taken or containing a space, the taken check reported first; else returned unchanged. */
  lemma ValidateUsernameSpec(value: string, takenUsernames: set<string>)
    ensures ValidateUsername(value, takenUsernames).Ok? <==> value !in takenUsernames && ' ' !in value
    ensures ValidateUsername(value, takenUsernames).Ok? ==> ValidateUsername(value, takenUsernames).value == value
    ensures value in takenUsernames ==> ValidateUsername(value, takenUsernames) == Err("Username already exists")
  {
  }

  /** The email is rejected iff already registered; else returned unchanged. */
  lemma ValidateEmailSpec(value: string, takenEmails: set<string>)
    ensures ValidateEmail(value, takenEmails).Ok? <==> value !in takenEmails
    ensures ValidateEmail(value, takenEmails).Ok? ==> ValidateEmail(value, takenEmails).value == value
  {
  }

  /** `validate` rejects exactly the mismatching confirmations and otherwise returns the attrs unchanged. */
  lemma ValidateRegistrationAttrsSpec(attrs: Registration)
    ensures ValidateRegistrationAttrs(attrs).Err? <==> attrs.password != attrs.passwordConfirm
    ensures ValidateRegistrationAttrs(attrs).Ok? ==> ValidateRegistrationAttrs(attrs).value == attrs
  {
  }

  /** A registration is accepted iff every rule holds, and then the data come back unchanged. */
  lemma ValidateRegistrationSpec(attrs: Registration, takenUsernames: set<string>, takenEmails: set<string>,
                                 passwordAcceptable: string -> bool)
    ensures var r := ValidateRegistration(attrs, takenUsernames, takenEmails, passwordAcceptable);
      && (r.Ok? <==>
           && attrs.username !in takenUsernames && ' ' !in attrs.username
           && attrs.email !in takenEmails
           && passwordAcceptable(attrs.password)
           && attrs.password == attrs.passwordConfirm)
      && (r.Ok? ==> r.value == attrs)
      && (r.Err? ==> r.error != [])
  {
  }

  /**
   * A mismatching confirmation is reported only once every field is valid:
   * with any field error the mismatch is not among the errors, and a taken
   * username is the first error reported.
   */
  lemma MismatchReportedLast(attrs: Registration, takenUsernames: set<string>, takenEmails: set<string>,
                             passwordAcceptable: string -> bool)
    requires || attrs.username in takenUsernames || ' ' in attrs.username
             || attrs.email in takenEmails || !passwordAcceptable(attrs.password)
    requires attrs.password != attrs.passwordConfirm
    ensures var r := ValidateRegistration(attrs, takenUsernames, takenEmails, passwordAcceptable);
      r.Err? && FieldError("password", "Passwords do not match") !in r.error
    ensures var r := ValidateRegistration(attrs, takenUsernames, takenEmails, passwordAcceptable);
      attrs.username in takenUsernames ==> r.Err? && r.error[0] == FieldError("username", "Username already exists")
  {
  }

  // ------------------------------------------------------ password change

  /** `validate_old_password`: `check_password` decides. */
  function ValidateOldPassword(value: string, checkPassword: string -> bool): Result<string, string>
  {
    if !checkPassword(value) then Err("Old password is incorrect") else Ok(value)
  }

  datatype PasswordChange = PasswordChange(oldPassword: string, newPassword: string, newPasswordConfirm: string)

  /** `ChangePasswordSerializer.validate` */
  function ValidatePasswordChangeAttrs(attrs: PasswordChange): Result<PasswordChange, FieldError>
  {
    if attrs.newPassword != attrs.newPasswordConfirm then Err(FieldError("new_password", "New passwords do not match"))
    else Ok(attrs)
  }

  /** `is_valid()`: the old-password check and the new password's rules, then `validate`. */
  function ValidatePasswordChange(attrs: PasswordChange, checkPassword: string -> bool,
                                  passwordAcceptable: string -> bool): Result<PasswordChange, seq<FieldError>>
  {
    var fieldErrors :=
      ErrorsOf("old_password", ValidateOldPassword(attrs.oldPassword, checkPassword))
      + (if passwordAcceptable(attrs.newPassword) then [] else [FieldError("new_password", "Password rules not met")]);
    if fieldErrors != [] then Err(fieldErrors)
    else
      match ValidatePasswordChangeAttrs(attrs)
      case Ok(a) => Ok(a)
      case Err(e) => Err([e])
  }

  /** A change is accepted iff the old password checks, the new one meets the rules and is confirmed. */
  lemma ValidatePasswordChangeSpec(attrs: PasswordChange, checkPassword: string -> bool,
                                   passwordAcceptable: string -> bool)
    ensures var r := ValidatePasswordChange(attrs, checkPassword, passwordAcceptable);
      && (r.Ok? <==>
           checkPassword(attrs.oldPassword) && passwordAcceptable(attrs.newPassword)
           && attrs.newPassword == attrs.newPasswordConfirm)
      && (r.Ok? ==> r.value == attrs)
      && (!checkPassword(attrs.oldPassword) ==> r.Err? && FieldError("old_password", "Old password is incorrect") in r.error)
  {
  }

  // ------------------------------------------------------- profile update

  /** `validated_data` of UpdateUserSerializer: profile data are the dict's items in order, keys distinct. */
  datatype ProfileUpdate = ProfileUpdate(fullName: Option<string>, phone: Option<string>,
                                         profile: Option<seq<(string, string)>>)

  /** `if profile_data:` is false for an absent and for an empty dict. */
  predicate ProfileGiven(data: ProfileUpdate)
  {
    data.profile.Some? && data.profile.value != []
  }

  /** The attributes after `setattr(profile, attr, value)` for each item in turn. */
  function Overwritten(attrs: map<string, string>, items: seq<(string, string)>): map<string, string>
    decreases |items|
  {
    if items == [] then attrs
    else
      var last := items[|items| - 1];
      Overwritten(attrs, items[..|items| - 1])[last.0 := last.1]
  }

  predicate DistinctKeys(items: seq<(string, string)>)
  {
    forall i, j :: 0 <= i < j < |items| ==> items[i].0 != items[j].0
  }

  /** Each given attribute takes its new value; every other attribute is untouched. */
  lemma {:induction false} OverwrittenSpec(attrs: map<string, string>, items: seq<(string, string)>)
    requires DistinctKeys(items)
    ensures var r := Overwritten(attrs, items);
      && (forall i :: 0 <= i < |items| ==> items[i].0 in r && r[items[i].0] == items[i].1)
      && (forall k :: (forall i :: 0 <= i < |items| ==> items[i].0 != k) ==>
            (k in r <==> k in attrs) && (k in attrs ==> r[k] == attrs[k]))
    decreases |items|
  {
    if items != [] {
      var init := items[..|items| - 1];
      OverwrittenSpec(attrs, init);
      var r := Overwritten(attrs, items);
      forall i | 0 <= i < |items|
        ensures items[i].0 in r && r[items[i].0] == items[i].1
      {
        if i < |items| - 1 {
          assert init[i] == items[i];
        }
      }
      forall k | forall i :: 0 <= i < |items| ==> items[i].0 != k
        ensures (k in r <==> k in attrs) && (k in attrs ==> r[k] == attrs[k])
      {
        assert items[|items| - 1].0 != k;
        forall i | 0 <= i < |init| ensures init[i].0 != k {
          assert init[i] == items[i];
        }
      }
    }
  }

  /** Applies each profile item to `profile.attrs`, in order. */
  method SetAttributes(profile: Profile, items: seq<(string, string)>)
    modifies profile
    ensures profile.attrs == Overwritten(old(profile.attrs), items)
  {
    ghost var start := profile.attrs;
    for i := 0 to |items|
      invariant profile.attrs == Overwritten(start, items[..i])
    {
      assert items[..i + 1][..i] == items[..i];
      profile.attrs := profile.attrs[items[i].0 := items[i].1];
    }
    assert items[..|items|] == items;
  }

  /**
   * `UpdateUserSerializer.update`: full_name and phone default to their old
   * values; given profile data overwrite the profile's attributes.  Without
   * a profile row, `instance.profile` raises after the user was saved.
   */
  method Update(instance: User, data: ProfileUpdate) returns (r: Result<User, string>)
    modifies instance, instance.profile
    ensures instance.fullName == data.fullName.GetOr(old(instance.fullName))
    ensures instance.phone == data.phone.GetOr(old(instance.phone))
    ensures instance.username == old(instance.username) && instance.email == old(instance.email)
      && instance.userType == old(instance.userType) && instance.State() == old(instance.State())
      && instance.isStaff == old(instance.isStaff) && instance.profile == old(instance.profile)
    ensures r.Err? <==> ProfileGiven(data) && instance.profile == null
    ensures r.Ok? ==> r.value == instance
    ensures instance.profile != null ==>
      instance.profile.attrs ==
        (if ProfileGiven(data) then Overwritten(old(instance.profile.attrs), data.profile.value)
         else old(instance.profile.attrs))
  {
    instance.fullName := data.fullName.GetOr(instance.fullName);
    instance.phone := data.phone.GetOr(instance.phone);
    if ProfileGiven(data) {
      var profile := instance.profile;
      if profile == null {
        return Err("User has no profile");
      }
      SetAttributes(profile, data.profile.value);
    }
    r := Ok(instance);
  }

  // -------------------------------------------------------------- create

  /** How many of the profiles belong to u. */
  function ProfileCount(profiles: seq<Profile>, u: User): nat
  {
    if profiles == [] then 0
    else (if profiles[|profiles| - 1].owner == u then 1 else 0) + ProfileCount(profiles[..|profiles| - 1], u)
  }

  lemma {:induction false} ProfileCountNone(profiles: seq<Profile>, u: User)
    requires forall i :: 0 <= i < |profiles| ==> profiles[i].owner != u
    ensures ProfileCount(profiles, u) == 0
  {
    if profiles != [] {
      ProfileCountNone(profiles[..|profiles| - 1], u);
    }
  }

  /** The user and profile tables. */
  class Database {
    var users: seq<User>
    var profiles: seq<Profile>
    var nextId: int

    constructor ()
      ensures users == [] && profiles == [] && OneProfileEach() && IdsBelowNext()
    {
      users, profiles, nextId := [], [], 1;
    }

    /** Every stored user owns exactly one profile. */
    ghost predicate OneProfileEach()
      reads this
    {
      forall i :: 0 <= i < |users| ==> ProfileCount(profiles, users[i]) == 1
    }

    /** Every stored user's id is below the next id the table hands out, as an auto-increment key is. */
    ghost predicate IdsBelowNext()
      reads this
    {
      forall i :: 0 <= i < |users| ==> users[i].userId < nextId
    }

    /**
     * `RegisterSerializer.create`: `pop('password_confirm')`, then
     * `create_user(**validated_data)`, then one `Profile` for the new user.
     * `passed` is the data handed to `create_user`; `now` is its creation time.
     */
    method Create(validatedData: map<string, string>, now: int) returns (user: User, passed: map<string, string>)
      requires "password_confirm" in validatedData
      requires "username" in validatedData && "email" in validatedData
      modifies this
      ensures passed == validatedData - {"password_confirm"} && "password_confirm" !in passed
      ensures fresh(user) && user.userId == old(nextId) && user.createdAt == now
      ensures nextId == old(nextId) + 1
      ensures old(IdsBelowNext()) ==> IdsBelowNext()
      ensures old(IdsBelowNext()) ==> forall i :: 0 <= i < |old(users)| ==> old(users)[i].userId != user.userId
      ensures user.username == passed["username"] && user.email == passed["email"]
      ensures user.fullName == (if "full_name" in passed then passed["full_name"] else "")
      ensures user.phone == (if "phone" in passed then passed["phone"] else "")
      ensures user.userType == (if "user_type" in passed then passed["user_type"] else "buyer")
      ensures user.State() == Account("active", true)
      ensures user.profile != null && fresh(user.profile) && user.profile.owner == user && user.profile.attrs == map[]
      ensures users == old(users) + [user] && profiles == old(profiles) + [user.profile]
      ensures ProfileCount(profiles, user) == 1
      ensures old(OneProfileEach()) ==> OneProfileEach()
    {
      passed := validatedData - {"password_confirm"};
      user := new User(nextId, now, passed["username"], passed["email"],
                       if "full_name" in passed then passed["full_name"] else "",
                       if "phone" in passed then passed["phone"] else "",
                       if "user_type" in passed then passed["user_type"] else "buyer");
      nextId := nextId + 1;
      var profile := new Profile(user);
      user.profile := profile;
      ProfileCountNone(profiles, user);
      ghost var before := profiles;
      users := users + [user];
      profiles := profiles + [profile];
      assert profiles[..|profiles| - 1] == before;
      forall i | 0 <= i < |old(users)|
        ensures ProfileCount(profiles, users[i]) == ProfileCount(before, users[i])
      {
        assert users[i] != user;
      }
    }
  }
}
