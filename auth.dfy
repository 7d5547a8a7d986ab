/**
 * The sign-in screen (components/Auth.tsx): the three branches of its
 * submit handler over the stored list of users. Sign-up checks the two
 * passwords, then the email, then appends the new user; login returns the
 * first user with the email and password; recovery returns the password of
 * the first user with the email and secret code. The stored list is passed
 * in already parsed, and sign-up returns the list it would save.
 */
module Auth {
  import opened Types
  import opened Folds

  datatype AuthForm = AuthForm(name: string, email: string, mobile: string, password: string,
                               confirmPassword: string, secretCode: string)

  datatype AuthError = PasswordsDoNotMatch | EmailAlreadyExists | NoUsersFound | InvalidCredentials | RecoveryFailed

  datatype AuthResult = SignedIn(user: UserProfile) | Recovered(password: string) | Failed(error: AuthError)

  /** `allUsers.some(u => u.email === email)`. */
  predicate EmailTaken(users: seq<UserProfile>, email: string) {
    exists u :: u in users && u.email == email
  }

  /** No two stored users share an email. */
  predicate UniqueEmails(users: seq<UserProfile>) {
    forall i, j :: 0 <= i < j < |users| ==> users[i].email != users[j].email
  }

  /** The user sign-up creates: the form's fields, currency `'৳'`, no accounts, and no lists yet. */
  function NewUser(form: AuthForm, id: string): UserProfile {
    UserProfile(id, form.name, form.email, form.mobile, form.password, form.secretCode, "৳",
                None, None, [], None, None, None, None)
  }

  function Credentials(email: string, password: string): UserProfile -> bool {
    (u: UserProfile) => u.email == email && u.password == password
  }

  function SecretMatch(email: string, secretCode: string): UserProfile -> bool {
    (u: UserProfile) => u.email == email && u.secretCode == secretCode
  }

  /**
   * The login branch: the first user holding both the email and the
   * password; otherwise "no users found" for an empty store and "invalid
   * email or password" for any other.
   */
  function Login(users: seq<UserProfile>, email: string, password: string): (r: AuthResult)
    ensures r.SignedIn? <==> exists j :: 0 <= j < |users| && users[j].email == email && users[j].password == password
    ensures r.SignedIn? ==>
      exists k :: && 0 <= k < |users| && r.user == users[k]
                  && users[k].email == email && users[k].password == password
                  && forall j :: 0 <= j < k ==> !(users[j].email == email && users[j].password == password)
    ensures r == Failed(NoUsersFound) <==> users == []
    ensures r == Failed(InvalidCredentials) <==> users != [] && !r.SignedIn?
    ensures !r.Recovered?
  {
    var k := FindIndex(users, Credentials(email, password));
    if k != -1 then SignedIn(users[k])
    else if |users| == 0 then Failed(NoUsersFound)
    else Failed(InvalidCredentials)
  }

  /** The recovery branch: the password of the first user with the email and secret code, or the error. */
  function Recover(users: seq<UserProfile>, email: string, secretCode: string): (r: AuthResult)
    ensures r.Recovered? <==> exists j :: 0 <= j < |users| && users[j].email == email && users[j].secretCode == secretCode
    ensures r.Recovered? ==>
      exists k :: && 0 <= k < |users| && r.password == users[k].password
                  && users[k].email == email && users[k].secretCode == secretCode
                  && forall j :: 0 <= j < k ==> !(users[j].email == email && users[j].secretCode == secretCode)
    ensures !r.Recovered? ==> r == Failed(RecoveryFailed)
  {
    var k := FindIndex(users, SecretMatch(email, secretCode));
    if k != -1 then Recovered(users[k].password) else Failed(RecoveryFailed)
  }

  /** With emails unique, at most one user answers to an email, so login by email and password finds that user. */
  lemma LoginFindsOwner(users: seq<UserProfile>, k: int)
    requires UniqueEmails(users) && 0 <= k < |users|
    ensures Login(users, users[k].email, users[k].password) == SignedIn(users[k])
    ensures Recover(users, users[k].email, users[k].secretCode) == Recovered(users[k].password)
  {
    var u := users[k];
    FindIndexUnique(users, Credentials(u.email, u.password), k);
    FindIndexUnique(users, SecretMatch(u.email, u.secretCode), k);
  }

  /**
   * The sign-up branch. Mismatched passwords fail first, a taken email
   * second, and both leave the store as it was; otherwise exactly one new
   * user is appended. Emails stay unique, and the new user can then log in
   * and recover the password with the same details.
   */
  method SignUp(allUsers: seq<UserProfile>, form: AuthForm, freshId: string)
    returns (r: AuthResult, stored: seq<UserProfile>)
    ensures form.password != form.confirmPassword ==> r == Failed(PasswordsDoNotMatch) && stored == allUsers
    ensures form.password == form.confirmPassword && EmailTaken(allUsers, form.email) ==>
      r == Failed(EmailAlreadyExists) && stored == allUsers
    ensures form.password == form.confirmPassword && !EmailTaken(allUsers, form.email) ==>
      r == SignedIn(NewUser(form, freshId)) && stored == allUsers + [NewUser(form, freshId)]
    ensures UniqueEmails(allUsers) ==> UniqueEmails(stored)
    ensures r.SignedIn? ==> Login(stored, form.email, form.password) == r
    ensures r.SignedIn? ==> Recover(stored, form.email, form.secretCode) == Recovered(form.password)
  {
    if form.password != form.confirmPassword {
      return Failed(PasswordsDoNotMatch), allUsers;
    }
    if EmailTaken(allUsers, form.email) {
      return Failed(EmailAlreadyExists), allUsers;
    }
    var newUser := NewUser(form, freshId);
    stored := allUsers + [newUser];
    assert forall j :: 0 <= j < |allUsers| ==> stored[j] == allUsers[j] && stored[j].email != form.email;
    FindIndexUnique(stored, Credentials(form.email, form.password), |allUsers|);
    FindIndexUnique(stored, SecretMatch(form.email, form.secretCode), |allUsers|);
    r := SignedIn(newUser);
  }
}
