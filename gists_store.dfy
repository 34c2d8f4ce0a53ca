/** The zustand gists store: each action maps the previous state to the
    next one by spread, `map` and `filter`. */
module GistsStore {
  import opened Wrappers
  import opened GistModel
  import opened AppState
  import Sequences

  /** The store's initial state is the shared initial gists state. */
  const Initial := InitialGists

  /** `clearSearch`: the two search fields are reset, nothing else moves. */
  function ClearSearch(s: GistsState): (r: GistsState)
    ensures r.searchResult == None && r.searchResults == []
    ensures SameButSearch(r, s)
  {
    s.(searchResult := None, searchResults := [])
  }

  /** `updateGistContent`: the contents map gains or overwrites key `gistId`. */
  function UpdateGistContent(s: GistsState, gistId: string, content: string): (r: GistsState)
    ensures gistId in r.gistContents && r.gistContents[gistId] == content
    ensures forall k :: k != gistId ==> (k in r.gistContents <==> k in s.gistContents)
    ensures forall k :: k != gistId && k in s.gistContents ==> r.gistContents[k] == s.gistContents[k]
    ensures r.(gistContents := s.gistContents) == s
  {
    s.(gistContents := s.gistContents[gistId := content])
  }

  /** `addGist`: the gist is put in front of the list. */
  function AddGist(s: GistsState, g: Gist): (r: GistsState)
    ensures |r.gists| == |s.gists| + 1 && r.gists[0] == g && r.gists[1..] == s.gists
    ensures r.(gists := s.gists) == s
  {
    s.(gists := [g] + s.gists)
  }

  /** Every gist with id `gistId` replaced by `g`, the rest in place. */
  function Replaced(gists: seq<Gist>, gistId: string, g: Gist): (r: seq<Gist>)
    ensures |r| == |gists|
    ensures forall i :: 0 <= i < |gists| ==> r[i] == if gists[i].id == gistId then g else gists[i]
  {
    seq(|gists|, i requires 0 <= i < |gists| => if gists[i].id == gistId then g else gists[i])
  }

  /** `updateGist`. */
  function UpdateGist(s: GistsState, gistId: string, g: Gist): (r: GistsState)
    ensures r.gists == Replaced(s.gists, gistId, g)
    ensures r.(gists := s.gists) == s
  {
    s.(gists := Replaced(s.gists, gistId, g))
  }

  /** The gists whose id is not `gistId`, in their original order. */
  function Without(gists: seq<Gist>, gistId: string): (r: seq<Gist>)
    ensures |r| <= |gists|
    ensures forall g :: g in r <==> g in gists && g.id != gistId
  {
    if gists == [] then []
    else if gists[|gists| - 1].id == gistId then Without(gists[..|gists| - 1], gistId)
    else Without(gists[..|gists| - 1], gistId) + [gists[|gists| - 1]]
  }

  /** `removeGist`. */
  function RemoveGist(s: GistsState, gistId: string): (r: GistsState)
    ensures !HasId(r.gists, gistId)
    ensures r.gists == Without(s.gists, gistId)
    ensures r.(gists := s.gists) == s
  {
    var r := s.(gists := Without(s.gists, gistId));
    assert forall i :: 0 <= i < |r.gists| ==> r.gists[i] in r.gists;
    r
  }

  /** Removal keeps the order: it distributes over concatenation. */
  lemma {:induction false} WithoutConcat(a: seq<Gist>, b: seq<Gist>, gistId: string)
    ensures Without(a + b, gistId) == Without(a, gistId) + Without(b, gistId)
    decreases |b|
  {
    if b == [] {
      assert a + b == a;
    } else {
      var b' := b[..|b| - 1];
      assert (a + b)[..|a + b| - 1] == a + b';
      assert (a + b)[|a + b| - 1] == b[|b| - 1];
      WithoutConcat(a, b', gistId);
    }
  }

  /** Nothing to remove leaves the list as it was. */
  lemma {:induction false} WithoutAbsent(gists: seq<Gist>, gistId: string)
    requires !HasId(gists, gistId)
    ensures Without(gists, gistId) == gists
  {
    if gists != [] {
      var init := gists[..|gists| - 1];
      assert !HasId(init, gistId) by {
        forall i | 0 <= i < |init| ensures init[i].id != gistId {
          assert init[i] == gists[i];
        }
      }
      WithoutAbsent(init, gistId);
      Sequences.SplitLast(gists);
    }
  }

  /** Removing a freshly added gist restores the state it was added to. */
  lemma RemoveUndoesAdd(s: GistsState, g: Gist)
    requires !HasId(s.gists, g.id)
    ensures RemoveGist(AddGist(s, g), g.id) == s
  {
    WithoutConcat([g], s.gists, g.id);
    assert Without([g], g.id) == [] by {
      assert [g][..0] == [];
    }
    WithoutAbsent(s.gists, g.id);
  }

  /** Removing twice is removing once. */
  lemma RemoveIdempotent(s: GistsState, gistId: string)
    ensures RemoveGist(RemoveGist(s, gistId), gistId) == RemoveGist(s, gistId)
  {
    WithoutAbsent(Without(s.gists, gistId), gistId);
  }

  /** An update that keeps the id changes nothing a removal of that id can see. */
  lemma {:induction false} WithoutReplaced(gists: seq<Gist>, gistId: string, g: Gist)
    requires g.id == gistId
    ensures Without(Replaced(gists, gistId, g), gistId) == Without(gists, gistId)
  {
    if gists != [] {
      var init := gists[..|gists| - 1];
      assert Replaced(gists, gistId, g)[..|gists| - 1] == Replaced(init, gistId, g);
      WithoutReplaced(init, gistId, g);
    }
  }

  lemma RemoveAfterUpdate(s: GistsState, gistId: string, g: Gist)
    requires g.id == gistId
    ensures RemoveGist(UpdateGist(s, gistId, g), gistId) == RemoveGist(s, gistId)
  {
    WithoutReplaced(s.gists, gistId, g);
  }

  /** An update that keeps the id keeps the set of ids. */
  lemma UpdateKeepsIds(s: GistsState, gistId: string, g: Gist)
    requires g.id == gistId
    ensures IdSet(UpdateGist(s, gistId, g).gists) == IdSet(s.gists)
  {
    var r := UpdateGist(s, gistId, g).gists;
    forall id ensures HasId(r, id) <==> HasId(s.gists, id) {
      if HasId(r, id) {
        var i :| 0 <= i < |r| && r[i].id == id;
        assert s.gists[i].id == id;
      }
      if HasId(s.gists, id) {
        var i :| 0 <= i < |s.gists| && s.gists[i].id == id;
        assert r[i].id == id;
      }
    }
  }
}
