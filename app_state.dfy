/** The two application states shared by the Redux slices and the zustand
    stores: the gists state and the auth state, with their initial values. */
module AppState {
  import opened Wrappers
  import opened GistModel
  import opened FirebaseAuth

  /** The fields of the signed-in GitHub account the client keeps. */
  datatype GitHubUser = GitHubUser(login: string, id: int, avatarUrl: string)

  datatype GistsState = GistsState(
    gists: seq<Gist>,
    searchResult: Option<Gist>,
    searchResults: seq<Gist>,
    gistContents: map<string, string>,
    loading: bool,
    loadingContent: bool,
    currentPage: int,
    hasNext: bool,
    hasPrev: bool,
    totalPages: int)

  const InitialGists := GistsState([], None, [], map[], true, false, 1, false, false, 1)

  datatype AuthState = AuthState(
    currentUser: Option<FirebaseUser>,
    userInfo: Option<AuthUser>,
    githubUserData: Option<GitHubUser>,
    githubToken: Option<string>,
    loading: bool,
    isAuthenticated: bool)

  const InitialAuth := AuthState(None, None, None, None, true, false)

  /** Both states agree on everything but the two search fields. */
  predicate SameButSearch(s: GistsState, t: GistsState) {
    s.gists == t.gists && s.gistContents == t.gistContents && s.loading == t.loading
    && s.loadingContent == t.loadingContent && s.currentPage == t.currentPage
    && s.hasNext == t.hasNext && s.hasPrev == t.hasPrev && s.totalPages == t.totalPages
  }
}
