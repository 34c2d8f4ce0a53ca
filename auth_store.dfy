/** The zustand auth store: spread-based state transitions and the
    projection that is persisted to storage. */
module AuthStore {
  import opened Wrappers
  import opened FirebaseAuth
  import opened AppState

  const Initial := InitialAuth

  /** `setCurrentUser`: authenticated exactly when a user is given. */
  function SetCurrentUser(s: AuthState, user: Option<FirebaseUser>): (r: AuthState)
    ensures r.currentUser == user && (r.isAuthenticated <==> user.Some?)
    ensures r.(currentUser := s.currentUser, isAuthenticated := s.isAuthenticated) == s
  {
    s.(currentUser := user, isAuthenticated := user.Some?)
  }

  function SetUserInfo(s: AuthState, userInfo: Option<AuthUser>): (r: AuthState)
    ensures r.userInfo == userInfo && r.(userInfo := s.userInfo) == s
  {
    s.(userInfo := userInfo)
  }

  function SetGithubUserData(s: AuthState, userData: Option<GitHubUser>): (r: AuthState)
    ensures r.githubUserData == userData && r.(githubUserData := s.githubUserData) == s
  {
    s.(githubUserData := userData)
  }

  function SetGithubToken(s: AuthState, token: Option<string>): (r: AuthState)
    ensures r.githubToken == token && r.(githubToken := s.githubToken) == s
  {
    s.(githubToken := token)
  }

  function SetLoading(s: AuthState, loading: bool): (r: AuthState)
    ensures r.loading == loading && r.(loading := s.loading) == s
  {
    s.(loading := loading)
  }

  function SetIsAuthenticated(s: AuthState, isAuth: bool): (r: AuthState)
    ensures r.isAuthenticated == isAuth && r.(isAuthenticated := s.isAuthenticated) == s
  {
    s.(isAuthenticated := isAuth)
  }

  /** `logout`: every field is overwritten, whatever the state was. */
  function Logout(s: AuthState): (r: AuthState)
    ensures r.currentUser.None? && r.userInfo.None? && r.githubUserData.None? && r.githubToken.None?
    ensures !r.loading && !r.isAuthenticated
  {
    AuthState(None, None, None, None, false, false)
  }

  /** The persisted part of the state (`partialize`). */
  datatype Persisted = Persisted(githubToken: Option<string>, isAuthenticated: bool)

  function Partialize(s: AuthState): (p: Persisted)
    ensures p.githubToken == s.githubToken && p.isAuthenticated == s.isAuthenticated
  {
    Persisted(s.githubToken, s.isAuthenticated)
  }

  /** Only the token and the flag reach storage: states that agree on them
      persist the same record. */
  lemma PartializeOnlyTokenAndFlag(s: AuthState, t: AuthState)
    ensures Partialize(s) == Partialize(t) <==> s.githubToken == t.githubToken && s.isAuthenticated == t.isAuthenticated
  {
  }

  /** The user, profile and loading setters never change what is persisted. */
  lemma SettersKeepPersisted(s: AuthState, info: Option<AuthUser>, data: Option<GitHubUser>, loading: bool)
    ensures Partialize(SetUserInfo(s, info)) == Partialize(s)
    ensures Partialize(SetGithubUserData(s, data)) == Partialize(s)
    ensures Partialize(SetLoading(s, loading)) == Partialize(s)
  {
  }

  /** After a logout nothing identifying is persisted. */
  lemma LogoutPersistsNothing(s: AuthState)
    ensures Partialize(Logout(s)) == Persisted(None, false)
  {
  }

  /** Signing a user in and then out is the same as logging out directly. */
  lemma LogoutForgetsUser(s: AuthState, user: Option<FirebaseUser>)
    ensures Logout(SetCurrentUser(s, user)) == Logout(s)
  {
  }
}
