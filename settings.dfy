/**
 * The settings screen (components/Settings.tsx): the profile form and its
 * merge into the user, adding and removing moderators, choosing the
 * primary color, revealing the password behind the secret code, and the
 * write-back of each new profile into the all-users list. The half-second
 * delay before a profile update lands, the alerts, and backup export and
 * import are not modelled.
 */
module Settings {
  import opened Types
  import opened Folds
  import opened UserDirectory

  datatype ProfileForm = ProfileForm(name: string, email: string, mobile: string, currency: string)

  /** The profile form as the screen opens: the user's own values, `''` without a user, and `'৳'` for no currency. */
  function InitialProfileForm(user: Option<UserProfile>): ProfileForm {
    if user.None? then ProfileForm("", "", "", "৳")
    else
      var u := user.value;
      ProfileForm(u.name, u.email, u.mobile, if u.currency == "" then "৳" else u.currency)
  }

  /** `{ ...user, ...profileData }`: the four form fields overwrite the user's, nothing else moves. */
  function UpdateProfile(user: UserProfile, form: ProfileForm): (u: UserProfile)
    ensures u.name == form.name && u.email == form.email && u.mobile == form.mobile && u.currency == form.currency
    ensures u.(name := user.name, email := user.email, mobile := user.mobile, currency := user.currency) == user
  {
    user.(name := form.name, email := form.email, mobile := form.mobile, currency := form.currency)
  }

  /** Saving the form untouched gives back the same profile (when the user has a currency). */
  lemma UntouchedFormChangesNothing(user: UserProfile)
    requires user.currency != ""
    ensures UpdateProfile(user, InitialProfileForm(Some(user))) == user
  {
  }

  /** `handleUpdateProfile`: without a user nothing happens; otherwise the merged profile is the session's and is written back. */
  method HandleUpdateProfile(user: Option<UserProfile>, form: ProfileForm, allUsers: array<UserProfile>)
    returns (session: Option<UserProfile>)
    modifies allUsers
    ensures user.None? ==> session == user && allUsers[..] == old(allUsers[..])
    ensures user.Some? ==>
      && session == Some(UpdateProfile(user.value, form))
      && allUsers[..] == ReplaceUser(old(allUsers[..]), user.value.id, session.value)
  {
    if user.None? {
      return user;
    }
    var updated := UpdateProfile(user.value, form);
    WriteBack(allUsers, user.value.id, updated);
    return Some(updated);
  }

  datatype ModeratorForm = ModeratorForm(name: string, email: string, code: string)

  const EmptyModeratorForm := ModeratorForm("", "", "")

  /** `user.moderators || []`. */
  function Moderators(user: UserProfile): seq<Moderator> {
    user.moderators.GetOr([])
  }

  /**
   * `handleAddModerator`: `None` (the "fill all fields" alert) without a
   * user or with any field empty; otherwise the profile with one moderator
   * appended at the end.
   */
  function AddModerator(user: Option<UserProfile>, form: ModeratorForm, id: string): (r: Option<UserProfile>)
    ensures r.None? <==> user.None? || form.name == "" || form.email == "" || form.code == ""
    ensures r.Some? ==>
      && r.value.moderators.Some?
      && |Moderators(r.value)| == |Moderators(user.value)| + 1
      && Moderators(r.value)[..|Moderators(user.value)|] == Moderators(user.value)
      && Moderators(r.value)[|Moderators(user.value)|] == Moderator.Moderator(id, form.name, form.email, form.code, None)
      && r.value.(moderators := user.value.moderators) == user.value
  {
    if user.None? || form.name == "" || form.email == "" || form.code == "" then None
    else
      var ms := Moderators(user.value) + [Moderator.Moderator(id, form.name, form.email, form.code, None)];
      assert ms[..|Moderators(user.value)|] == Moderators(user.value);
      Some(user.value.(moderators := Some(ms)))
  }

  method HandleAddModerator(user: Option<UserProfile>, form: ModeratorForm, freshId: string,
                            allUsers: array<UserProfile>)
    returns (session: Option<UserProfile>, next: ModeratorForm)
    modifies allUsers
    ensures AddModerator(user, form, freshId).None? ==>
      session == user && next == form && allUsers[..] == old(allUsers[..])
    ensures AddModerator(user, form, freshId).Some? ==>
      && session == AddModerator(user, form, freshId)
      && next == EmptyModeratorForm
      && allUsers[..] == ReplaceUser(old(allUsers[..]), user.value.id, session.value)
  {
    var r := AddModerator(user, form, freshId);
    if r.None? {
      return user, form;
    }
    WriteBack(allUsers, user.value.id, r.value);
    return r, EmptyModeratorForm;
  }

  function NotModerator(id: string): Moderator -> bool {
    (m: Moderator) => m.id != id
  }

  /**
   * `handleRemoveModerator`: `None` without a user, without a confirmation,
   * or when the user has no moderator list (the handler's `filter` throws);
   * otherwise the profile keeping every moderator whose id differs. Unlike
   * the catalog and partner screens, there is no role check here.
   */
  function RemoveModerator(user: Option<UserProfile>, confirmed: bool, id: string): (r: Option<UserProfile>)
    ensures r.None? <==> user.None? || !confirmed || user.value.moderators.None?
    ensures r.Some? ==>
      && r.value.moderators.Some?
      && r.value.(moderators := user.value.moderators) == user.value
      && forall m :: m in Moderators(r.value) <==> m in Moderators(user.value) && m.id != id
  {
    if user.None? || !confirmed || user.value.moderators.None? then None
    else Some(user.value.(moderators := Some(Filter(user.value.moderators.value, NotModerator(id)))))
  }

  /** A removal keeps the other moderators in their order. */
  lemma RemoveModeratorKeepsOrder(user: UserProfile, id: string)
    requires user.moderators.Some?
    ensures Subsequence(Moderators(RemoveModerator(Some(user), true, id).value), Moderators(user))
  {
    FilterIsSubsequence(user.moderators.value, NotModerator(id));
  }

  method HandleRemoveModerator(user: Option<UserProfile>, confirmed: bool, id: string, allUsers: array<UserProfile>)
    returns (session: Option<UserProfile>)
    modifies allUsers
    ensures RemoveModerator(user, confirmed, id).None? ==> session == user && allUsers[..] == old(allUsers[..])
    ensures RemoveModerator(user, confirmed, id).Some? ==>
      && session == RemoveModerator(user, confirmed, id)
      && allUsers[..] == ReplaceUser(old(allUsers[..]), user.value.id, session.value)
  {
    var r := RemoveModerator(user, confirmed, id);
    if r.None? {
      return user;
    }
    WriteBack(allUsers, user.value.id, r.value);
    return r;
  }

  /** `handleSetPrimaryColor`: only `primaryColor` changes. */
  function SetPrimaryColor(user: UserProfile, color: string): (u: UserProfile)
    ensures u.primaryColor == Some(color)
    ensures u.(primaryColor := user.primaryColor) == user
  {
    user.(primaryColor := Some(color))
  }

  method HandleSetPrimaryColor(user: Option<UserProfile>, color: string, allUsers: array<UserProfile>)
    returns (session: Option<UserProfile>)
    modifies allUsers
    ensures user.None? ==> session == user && allUsers[..] == old(allUsers[..])
    ensures user.Some? ==>
      && session == Some(SetPrimaryColor(user.value, color))
      && allUsers[..] == ReplaceUser(old(allUsers[..]), user.value.id, session.value)
  {
    if user.None? {
      return user;
    }
    var updated := SetPrimaryColor(user.value, color);
    WriteBack(allUsers, user.value.id, updated);
    return Some(updated);
  }

  /** The password panel: the secret typed so far and whether the password is shown. */
  datatype SecretPanel = SecretPanel(verifySecret: string, passwordVisible: bool)

  /**
   * `handleShowPassword`: the right secret shows the password and clears
   * the box; anything else (including no user) raises the alert and leaves
   * the panel as it was. The boolean says whether the alert was raised.
   */
  function ShowPassword(panel: SecretPanel, user: Option<UserProfile>): (r: (SecretPanel, bool))
    ensures !r.1 <==> user.Some? && panel.verifySecret == user.value.secretCode
    ensures !r.1 ==> r.0 == SecretPanel("", true)
    ensures r.1 ==> r.0 == panel
  {
    if user.Some? && panel.verifySecret == user.value.secretCode then (SecretPanel("", true), false)
    else (panel, true)
  }
}
