/**
 * The part of `contexts/AuthContext.tsx` that is plain logic: the app's `User`
 * record, `mapSupabaseUser`, which normalises the hosted backend's user
 * record into it, and the flags the provider derives from `currentUser`.
 */
module AuthContext {
  import opened Wrappers
  import opened Text

  /** `provider`: how the user signed in. */
  datatype Provider = Email | Google | Facebook | Guest

  /** The app's `User` record. `role` is whatever text the metadata held, so it stays a string. */
  datatype User = User(id: string, name: string, email: string, role: string, provider: Provider)

  /**
   * The fields `mapSupabaseUser` reads from the backend's user record:
   * `app_metadata.provider`, `is_anonymous`, `email` and the `name`,
   * `full_name` and `role` entries of `user_metadata`; `None` where absent.
   */
  datatype BackendUser = BackendUser(
    id: string,
    email: Option<string>,
    isAnonymous: bool,
    appProvider: Option<string>,
    metaName: Option<string>,
    metaFullName: Option<string>,
    metaRole: Option<string>)

  /**
   * The provider: a truthy `app_metadata.provider` decides (google and
   * facebook are kept, anything else is email); without one an anonymous user
   * is a guest and everyone else signed in by email.
   */
  function ProviderOf(u: BackendUser): (p: Provider)
    ensures Truthy(u.appProvider) && u.appProvider.value == "google" ==> p == Google
    ensures Truthy(u.appProvider) && u.appProvider.value == "facebook" ==> p == Facebook
    ensures Truthy(u.appProvider) && u.appProvider.value != "google" && u.appProvider.value != "facebook" ==> p == Email
    ensures !Truthy(u.appProvider) ==> (p == Guest <==> u.isAnonymous)
    ensures !Truthy(u.appProvider) && !u.isAnonymous ==> p == Email
  {
    var provider := Email;
    if Truthy(u.appProvider) then
      var metaProvider := u.appProvider.value;
      if metaProvider == "google" then Google
      else if metaProvider == "facebook" then Facebook
      else provider
    else if u.isAnonymous then Guest
    else provider
  }

  /** A guest is only ever an anonymous user without a provider in the metadata. */
  lemma GuestOnlyWhenAnonymous(u: BackendUser)
    ensures ProviderOf(u) == Guest ==> u.isAnonymous && !Truthy(u.appProvider)
  {
  }

  /** `user.email?.split('@')[0]`: the part of the address before its first `@`. */
  function EmailLocalPart(email: Option<string>): (r: Option<string>)
    ensures email.None? <==> r.None?
    ensures r.Some? ==> r.value == BeforeFirst(email.value, '@')
  {
    match email
    case Some(e) => Some(BeforeFirst(e, '@'))
    case None => None
  }

  /**
   * The display name: the first truthy of the metadata `name`, the metadata
   * `full_name` and the local part of the email address, else `"User"`.
   */
  function DisplayName(u: BackendUser): (name: string)
    ensures name != ""
    ensures Truthy(u.metaName) ==> name == u.metaName.value
    ensures !Truthy(u.metaName) && Truthy(u.metaFullName) ==> name == u.metaFullName.value
    ensures !Truthy(u.metaName) && !Truthy(u.metaFullName) && Truthy(EmailLocalPart(u.email)) ==>
              name == BeforeFirst(u.email.value, '@')
    ensures !Truthy(u.metaName) && !Truthy(u.metaFullName) && !Truthy(EmailLocalPart(u.email)) ==>
              name == "User"
  {
    Or(Or(Or(u.metaName, u.metaFullName), EmailLocalPart(u.email)), Some("User")).value
  }

  /** The display name never holds an `@` taken from the email address when the metadata names are absent. */
  lemma NameFromEmailHasNoAt(u: BackendUser)
    requires !Truthy(u.metaName) && !Truthy(u.metaFullName)
    ensures '@' !in DisplayName(u)
  {
  }

  /** `mapSupabaseUser(user)`: email defaults to `""`, role to `"user"`. */
  function MapSupabaseUser(u: BackendUser): (r: User)
    ensures r.id == u.id && r.provider == ProviderOf(u) && r.name == DisplayName(u)
    ensures r.name != "" && r.role != ""
    ensures r.email == u.email.GetOr("")
    ensures Truthy(u.metaRole) ==> r.role == u.metaRole.value
    ensures !Truthy(u.metaRole) ==> r.role == "user"
  {
    User(
      id := u.id,
      name := DisplayName(u),
      email := u.email.GetOr(""),
      role := Or(u.metaRole, Some("user")).value,
      provider := ProviderOf(u))
  }

  /** The flags of the context value, derived from `currentUser`. */
  datatype AuthFlags = AuthFlags(isAuthenticated: bool, isAdmin: bool, isGuest: bool)

  function Flags(currentUser: Option<User>): (f: AuthFlags)
    ensures f.isAuthenticated <==> currentUser.Some?
    ensures f.isAdmin <==> currentUser.Some? && currentUser.value.role == "admin"
    ensures f.isGuest <==> currentUser.Some? && currentUser.value.role == "guest"
  {
    AuthFlags(
      isAuthenticated := currentUser.Some?,
      isAdmin := currentUser.Some? && currentUser.value.role == "admin",
      isGuest := currentUser.Some? && currentUser.value.role == "guest")
  }

  /** Nobody is an admin and a guest at once, and both need a signed-in user. */
  lemma FlagsConsistent(currentUser: Option<User>)
    ensures !(Flags(currentUser).isAdmin && Flags(currentUser).isGuest)
    ensures Flags(currentUser).isAdmin || Flags(currentUser).isGuest ==> Flags(currentUser).isAuthenticated
  {
  }

  /** A mapped user is an admin exactly when the metadata role says `"admin"`; without a role it is a plain user. */
  lemma MappedUserFlags(u: BackendUser)
    ensures Flags(Some(MapSupabaseUser(u))).isAuthenticated
    ensures Flags(Some(MapSupabaseUser(u))).isAdmin <==> u.metaRole == Some("admin")
    ensures !Truthy(u.metaRole) ==> !Flags(Some(MapSupabaseUser(u))).isAdmin && !Flags(Some(MapSupabaseUser(u))).isGuest
  {
  }
}
