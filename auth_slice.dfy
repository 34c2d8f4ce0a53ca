/** The Redux auth slice: reducers that assign the auth fields in place, and
    the reactions to the login, logout and profile thunks. */
module AuthSlice {
  import opened Wrappers
  import opened FirebaseAuth
  import opened AppState
  import AuthStore

  class Slice {
    var currentUser: Option<FirebaseUser>
    var userInfo: Option<AuthUser>
    var githubUserData: Option<GitHubUser>
    var githubToken: Option<string>
    var loading: bool
    var isAuthenticated: bool

    function State(): AuthState
      reads this
    {
      AuthState(currentUser, userInfo, githubUserData, githubToken, loading, isAuthenticated)
    }

    constructor ()
      ensures State() == InitialAuth
    {
      currentUser := None;
      userInfo := None;
      githubUserData := None;
      githubToken := None;
      loading := true;
      isAuthenticated := false;
    }

    method SetLoading(payload: bool)
      modifies this
      ensures State() == AuthStore.SetLoading(old(State()), payload)
    {
      loading := payload;
    }

    /** The same transition as the store's `setCurrentUser`. */
    method SetCurrentUser(payload: Option<FirebaseUser>)
      modifies this
      ensures State() == AuthStore.SetCurrentUser(old(State()), payload)
    {
      currentUser := payload;
      isAuthenticated := payload.Some?;
    }

    method SetUserInfo(payload: Option<AuthUser>)
      modifies this
      ensures State() == AuthStore.SetUserInfo(old(State()), payload)
    {
      userInfo := payload;
    }

    method SetGithubUserData(payload: Option<GitHubUser>)
      modifies this
      ensures State() == AuthStore.SetGithubUserData(old(State()), payload)
    {
      githubUserData := payload;
    }

    method SetGithubToken(payload: Option<string>)
      modifies this
      ensures State() == AuthStore.SetGithubToken(old(State()), payload)
    {
      githubToken := payload;
    }

    /** `logout`: unlike the store's, `loading` is left as it was. */
    method Logout()
      modifies this
      ensures State() == old(State()).(currentUser := None, userInfo := None, githubUserData := None,
                                       githubToken := None, isAuthenticated := false)
      ensures State() == AuthStore.Logout(old(State())).(loading := old(loading))
    {
      currentUser := None;
      userInfo := None;
      githubUserData := None;
      githubToken := None;
      isAuthenticated := false;
    }

    /** `loginWithGithub.pending`. */
    method LoginPending()
      modifies this
      ensures State() == old(State()).(loading := true)
    {
      loading := true;
    }

    /** `loginWithGithub.fulfilled`: the profile, token and flag are taken
        only from a present payload. */
    method LoginFulfilled(payload: Option<LoginResult>)
      modifies this
      ensures payload.None? ==> State() == old(State()).(loading := false)
      ensures payload.Some? ==> State() == old(State()).(loading := false, userInfo := Some(payload.value.user),
                                                          githubToken := Some(payload.value.token), isAuthenticated := true)
    {
      loading := false;
      if payload.Some? {
        userInfo := Some(payload.value.user);
        githubToken := Some(payload.value.token);
        isAuthenticated := true;
      }
    }

    /** `loginWithGithub.rejected`. */
    method LoginRejected()
      modifies this
      ensures State() == old(State()).(loading := false)
    {
      loading := false;
    }

    /** `logoutUser.fulfilled`: the same fields as `logout`. */
    method LogoutFulfilled()
      modifies this
      ensures State() == old(State()).(currentUser := None, userInfo := None, githubUserData := None,
                                       githubToken := None, isAuthenticated := false)
    {
      currentUser := None;
      userInfo := None;
      githubUserData := None;
      githubToken := None;
      isAuthenticated := false;
    }

    /** `fetchAuthenticatedUser.fulfilled`. */
    method FetchAuthenticatedUserFulfilled(payload: GitHubUser)
      modifies this
      ensures State() == old(State()).(githubUserData := Some(payload))
    {
      githubUserData := Some(payload);
    }
  }
}
