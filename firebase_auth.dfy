/** The authentication service: GitHub sign-in through the identity
    provider, the token and user-info entries it keeps in the browser's
    key-value store, and the GitHub API headers derived from the stored
    token. The provider's calls (`signInWithPopup`, `signOut`) are given
    as their outcomes; the store is a string-to-string map. */
module FirebaseAuth {
  import opened Wrappers
  import opened JsString

  const TokenKey := "github_token"
  const UserInfoKey := "user_info"
  const Scopes := ["gist", "read:user", "public_repo"]
  const GithubV3Json := "application/vnd.github.v3+json"

  /** The provider's user record (the fields the service copies). */
  datatype FirebaseUser = FirebaseUser(uid: string, email: Option<string>, displayName: Option<string>, photoURL: Option<string>)

  datatype AuthUser = AuthUser(uid: string, email: Option<string>, displayName: Option<string>, photoURL: Option<string>, githubToken: Option<string>)

  datatype LoginResult = LoginResult(user: AuthUser, token: string)

  /** What `signInWithPopup` and `credentialFromResult` produce. */
  datatype PopupOutcome = PopupRejected(message: string) | SignedIn(user: FirebaseUser, accessToken: Option<string>)

  datatype SignOutOutcome = SignOutDone | SignOutRejected(message: string)

  const MissingTokenMessage := "Failed to get GitHub access token from credential"

  /** `localStorage.getItem("github_token")`. */
  function StoredToken(storage: map<string, string>): Option<string> {
    if TokenKey in storage then Some(storage[TokenKey]) else None
  }

  /** `token ? `Bearer ${token}` : ''`. */
  function AuthorizationValue(storage: map<string, string>): (a: string)
    ensures a != "" <==> StoredToken(storage).Some? && StoredToken(storage).value != ""
    ensures a != "" ==> a == "Bearer " + storage[TokenKey]
  {
    match StoredToken(storage)
    case Some(t) => if t != "" then "Bearer " + t else ""
    case None => ""
  }

  /** `getGitHubApiHeaders()`. */
  function ApiHeaders(storage: map<string, string>): (h: map<string, string>)
    ensures h.Keys == {"Authorization", "Accept", "Content-Type"}
    ensures h["Authorization"] == AuthorizationValue(storage)
    ensures h["Accept"] == GithubV3Json && h["Content-Type"] == "application/json"
  {
    map["Authorization" := AuthorizationValue(storage), "Accept" := GithubV3Json, "Content-Type" := "application/json"]
  }

  class AuthService {
    /** The browser's key-value store. */
    var storage: map<string, string>
    /** The provider's `auth.currentUser`. */
    var currentUser: Option<FirebaseUser>
    const scopes: seq<string>

    constructor (initialStorage: map<string, string>)
      ensures storage == initialStorage && currentUser == None && scopes == Scopes
    {
      storage := initialStorage;
      currentUser := None;
      scopes := Scopes;
    }

    function GetStoredToken(): (t: Option<string>)
      reads this
      ensures t.Some? <==> TokenKey in storage
      ensures t.Some? ==> t.value == storage[TokenKey]
    {
      StoredToken(storage)
    }

    /** The stored user blob, `None` when the entry is absent or empty
        (`userInfo ? JSON.parse(userInfo) : null`; parsing is not modelled). */
    function GetStoredUserInfo(): (blob: Option<string>)
      reads this
      ensures blob.Some? <==> UserInfoKey in storage && storage[UserInfoKey] != ""
      ensures blob.Some? ==> blob.value == storage[UserInfoKey]
    {
      if UserInfoKey in storage && storage[UserInfoKey] != "" then Some(storage[UserInfoKey]) else None
    }

    /** The three headers, with a `Bearer` authorization exactly when a
        non-empty token is stored. */
    function GetGitHubApiHeaders(): (h: map<string, string>)
      reads this
      ensures h.Keys == {"Authorization", "Accept", "Content-Type"}
      ensures h["Authorization"] != "" <==> TokenKey in storage && storage[TokenKey] != ""
      ensures h["Authorization"] != "" ==> h["Authorization"] == "Bearer " + storage[TokenKey]
    {
      ApiHeaders(storage)
    }

    /** `!!getCurrentUser() && !!getStoredToken()`. */
    predicate IsAuthenticated()
      reads this
      ensures IsAuthenticated() <==> currentUser.Some? && GetGitHubApiHeaders()["Authorization"] != ""
    {
      currentUser.Some? && StoredToken(storage).Some? && StoredToken(storage).value != ""
    }

    method StoreToken(token: string)
      modifies this
      ensures storage == old(storage)[TokenKey := token]
      ensures currentUser == old(currentUser)
      ensures GetStoredToken() == Some(token)
    {
      storage := storage[TokenKey := token];
    }

    method StoreUserInfo(userJson: string)
      modifies this
      ensures storage == old(storage)[UserInfoKey := userJson]
      ensures currentUser == old(currentUser)
    {
      storage := storage[UserInfoKey := userJson];
    }

    method ClearStoredData()
      modifies this
      ensures storage == old(storage) - {TokenKey, UserInfoKey}
      ensures currentUser == old(currentUser)
      ensures GetStoredToken() == None && GetStoredUserInfo() == None && !IsAuthenticated()
    {
      storage := storage - {TokenKey};
      storage := storage - {UserInfoKey};
    }

    /** `loginWithGithub()`: a sign-in without an access token throws before
        anything is stored; otherwise the token and the user blob
        (`serialise` stands for `JSON.stringify`) are stored. */
    method LoginWithGithub(popup: PopupOutcome, serialise: AuthUser -> string) returns (r: Result<LoginResult>)
      modifies this
      ensures popup.PopupRejected? ==> r == Err(popup.message) && storage == old(storage) && currentUser == old(currentUser)
      ensures popup.SignedIn? ==> currentUser == Some(popup.user)
      ensures popup.SignedIn? && (popup.accessToken.None? || popup.accessToken.value == "") ==>
        r == Err(MissingTokenMessage) && storage == old(storage)
      ensures popup.SignedIn? && popup.accessToken.Some? && popup.accessToken.value != "" ==> r.Ok?
      ensures r.Ok? ==>
                popup.SignedIn? && popup.accessToken == Some(r.value.token) && r.value.token != ""
                && r.value.user == AuthUser(popup.user.uid, popup.user.email, popup.user.displayName, popup.user.photoURL, Some(r.value.token))
                && storage == old(storage)[TokenKey := r.value.token][UserInfoKey := serialise(r.value.user)]
                && IsAuthenticated()
    {
      match popup
      case PopupRejected(m) =>
        r := Err(m);
      case SignedIn(user, accessToken) =>
        currentUser := Some(user);
        if accessToken.None? || accessToken.value == "" {
          r := Err(MissingTokenMessage);
          return;
        }
        var token := accessToken.value;
        StoreToken(token);
        var authUser := AuthUser(user.uid, user.email, user.displayName, user.photoURL, Some(token));
        StoreUserInfo(serialise(authUser));
        r := Ok(LoginResult(authUser, token));
    }

    /** `logout()`: the stored entries are cleared only once sign-out succeeded. */
    method Logout(signOut: SignOutOutcome) returns (r: Result<()>)
      modifies this
      ensures signOut.SignOutDone? ==> r.Ok? && currentUser == None && storage == old(storage) - {TokenKey, UserInfoKey}
      ensures signOut.SignOutRejected? ==> r == Err(signOut.message) && storage == old(storage) && currentUser == old(currentUser)
    {
      match signOut
      case SignOutRejected(m) =>
        r := Err(m);
      case SignOutDone =>
        currentUser := None;
        ClearStoredData();
        r := Ok(());
    }
  }
}
