/** The gist record as the client sees it (the fields the modelled code
    reads), and id-based views of a list of gists. */
module GistModel {
  import opened Wrappers

  /** One entry of a gist's `files` object; `filename` is its key. */
  datatype GistFile = GistFile(filename: string, language: Option<string>, content: Option<string>)

  datatype Owner = Owner(login: string, avatarUrl: string)

  /** `files` lists the entries in the order `Object.keys` enumerates them;
      `stargazersCount` and `forks` are the optional counters the public
      table reads. */
  datatype Gist = Gist(
    id: string,
    htmlUrl: string,
    description: Option<string>,
    updatedAt: string,
    files: seq<GistFile>,
    owner: Owner,
    stargazersCount: Option<int>,
    forks: Option<int>)

  /** Some element of `gists` has this id (`gists.some(g => g.id === id)`). */
  predicate HasId(gists: seq<Gist>, id: string) {
    exists i :: 0 <= i < |gists| && gists[i].id == id
  }

  /** No id occurs twice. */
  predicate DistinctIds(gists: seq<Gist>) {
    forall i, j :: 0 <= i < j < |gists| ==> gists[i].id != gists[j].id
  }

  /** The set of ids in `gists`. */
  function IdSet(gists: seq<Gist>): (ids: set<string>)
    ensures forall id :: id in ids <==> HasId(gists, id)
  {
    set i | 0 <= i < |gists| :: gists[i].id
  }
}
