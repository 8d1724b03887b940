/** The pure part of the authentication service: the error-message table and the mapping of a
    signed-in account onto the application's user record. */
module AuthService {
  import opened Wrappers
  import opened Text

  /** The message shown for any other error code. */
  const UnknownError: string := "Erro desconhecido. Tente novamente"

  /** The known error codes and their messages. */
  const ErrorMessages: map<string, string> := map[
    "auth/email-already-in-use" := "Este email já está em uso",
    "auth/weak-password" := "A senha deve ter pelo menos 6 caracteres",
    "auth/invalid-email" := "Email inválido",
    "auth/user-not-found" := "Usuário não encontrado",
    "auth/wrong-password" := "Senha incorreta",
    "auth/too-many-requests" := "Muitas tentativas. Tente novamente mais tarde",
    "auth/network-request-failed" := "Erro de conexão. Verifique sua internet"]

  /** `getErrorMessage`: the table's message, or the generic one. */
  function ErrorMessage(errorCode: string): (r: string)
    ensures errorCode in ErrorMessages ==> r == ErrorMessages[errorCode]
    ensures errorCode !in ErrorMessages ==> r == UnknownError
    ensures r != ""
  {
    if errorCode in ErrorMessages && ErrorMessages[errorCode] != "" then ErrorMessages[errorCode] else UnknownError
  }

  /** The seven codes each have their own message, and none of them is the generic one: the
      message tells which known code occurred. */
  lemma ErrorMessagesIdentifyCode(a: string, b: string)
    requires a in ErrorMessages && ErrorMessage(a) == ErrorMessage(b)
    ensures a == b
  {
  }

  /** The account as the sign-in provider reports it. */
  datatype FirebaseUser = FirebaseUser(
    uid: string,
    displayName: Option<string>,
    email: Option<string>,
    phoneNumber: Option<string>,
    creationTime: Option<string>)

  /** The stored profile, any field of which may be missing. */
  datatype UserProfile = UserProfile(
    name: Option<string>,
    phone: Option<string>,
    role: Option<string>,
    createdAt: Option<string>)

  /** The application's user record; `phone` may be undefined. */
  datatype User = User(id: string, name: string, email: string, phone: Option<string>, role: string, createdAt: string)

  /** A JavaScript truthy string: present and non-empty. */
  predicate Truthy(s: Option<string>)
  {
    s.Some? && s.value != ""
  }

  /** `a || b` on an optional string. */
  function OrElse(a: Option<string>, b: Option<string>): (r: Option<string>)
    ensures Truthy(a) ==> r == a
    ensures !Truthy(a) ==> r == b
  {
    if Truthy(a) then a else b
  }

  /** `userData?.field`: with no profile every field is missing. */
  function Profile(userData: Option<UserProfile>): UserProfile
  {
    userData.GetOr(UserProfile(None, None, None, None))
  }

  /** The fallback name `mapFirebaseUserToUser` takes from the e-mail address: the part before
      the first at sign, when there is an address. */
  function EmailName(email: Option<string>): Option<string>
  {
    if email.Some? then Some(BeforeFirst(email.value, '@')) else None
  }

  /** `mapFirebaseUserToUser`; `now` is the current time as an ISO string. Every `||` chain takes
      its first truthy candidate and ends in a fallback, so the name and the role are never empty,
      and a name taken from the email is the part before its first "@" (all of it when there is none). */
  function MapFirebaseUserToUser(firebaseUser: FirebaseUser, userData: Option<UserProfile>, now: string): (u: User)
    ensures u.id == firebaseUser.uid
    ensures u.name != "" && u.role != ""
    ensures Truthy(Profile(userData).name) ==> u.name == Profile(userData).name.value
    ensures !Truthy(Profile(userData).name) && Truthy(firebaseUser.displayName) ==> u.name == firebaseUser.displayName.value
    ensures !Truthy(Profile(userData).name) && !Truthy(firebaseUser.displayName) && Truthy(EmailName(firebaseUser.email))
            ==> '@' !in u.name && StartsWith(firebaseUser.email.value, u.name)
                && (|u.name| < |firebaseUser.email.value| ==> firebaseUser.email.value[|u.name|] == '@')
    ensures !Truthy(Profile(userData).name) && !Truthy(firebaseUser.displayName) && !Truthy(EmailName(firebaseUser.email))
            ==> u.name == "Usuário"
    ensures u.email == if Truthy(firebaseUser.email) then firebaseUser.email.value else ""
    ensures u.phone.Some? ==> u.phone.value != ""
    ensures u.phone == if Truthy(Profile(userData).phone) then Profile(userData).phone
                       else if Truthy(firebaseUser.phoneNumber) then firebaseUser.phoneNumber else None
    ensures u.role == if Truthy(Profile(userData).role) then Profile(userData).role.value else "admin"
    ensures u.createdAt == if Truthy(Profile(userData).createdAt) then Profile(userData).createdAt.value
                           else if Truthy(firebaseUser.creationTime) then firebaseUser.creationTime.value else now
  {
    var profile := Profile(userData);
    var name := OrElse(profile.name, OrElse(firebaseUser.displayName, OrElse(EmailName(firebaseUser.email), Some("Usuário"))));
    var email := OrElse(firebaseUser.email, Some(""));
    var phone := OrElse(profile.phone, OrElse(firebaseUser.phoneNumber, None));
    var role := OrElse(profile.role, Some("admin"));
    var createdAt := OrElse(profile.createdAt, OrElse(firebaseUser.creationTime, Some(now)));
    User(firebaseUser.uid, name.value, email.value, phone, role.value, createdAt.value)
  }

  /** A complete stored profile decides everything but the id and the email, whatever the
      provider reports. */
  lemma ProfileOverridesAccount(a: FirebaseUser, b: FirebaseUser, profile: UserProfile, now: string)
    requires Truthy(profile.name) && Truthy(profile.phone) && Truthy(profile.role) && Truthy(profile.createdAt)
    ensures var u, v := MapFirebaseUserToUser(a, Some(profile), now), MapFirebaseUserToUser(b, Some(profile), now);
            u.(id := v.id, email := v.email) == v
  {
  }

  /** Without a stored profile (as for the current session's user) the role is "admin" and the
      name comes from the account. */
  lemma WithoutProfile(firebaseUser: FirebaseUser, now: string)
    ensures MapFirebaseUserToUser(firebaseUser, None, now).role == "admin"
    ensures Truthy(firebaseUser.displayName) ==> MapFirebaseUserToUser(firebaseUser, None, now).name == firebaseUser.displayName.value
  {
  }
}
