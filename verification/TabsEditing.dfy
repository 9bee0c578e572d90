/** The editors as the tabs use them. */
module TabsEditing {
  import opened Wrappers
  import opened Json
  import opened RequestModel
  import Editors
  import EditorsTheorems
  import Tabs

  /** What the editors give for a request that was just loaded; a request that they refuse is left as it is. */
  ghost function Shown(codec: Codec, request: Request): Request {
    if EditorsTheorems.Normal(codec, request).Ok? then EditorsTheorems.Normal(codec, request).value else request
  }

  ghost function WorldOf(codec: Codec, collections: seq<string>, stored: nat -> set<string>): Tabs.World {
    Tabs.World(collections, stored, (request: Request) => Shown(codec, request))
  }

  lemma ShownTwice(codec: Codec, request: Request)
    requires codec.Valid()
    ensures Shown(codec, request).id == request.id && Shown(codec, Shown(codec, request)) == Shown(codec, request)
  {
    hide EditorsTheorems.Normal;
    if EditorsTheorems.Normal(codec, request).Ok? {
      EditorsTheorems.NormalIsStable(codec, request);
      SameIdentity(codec, request);
    }
  }

  lemma SameIdentity(codec: Codec, request: Request)
    requires EditorsTheorems.Normal(codec, request).Ok?
    ensures EditorsTheorems.Normal(codec, request).value.id == request.id
  {
    hide EditorsTheorems.NormalBody, EditorsTheorems.NormalGrpc, EditorsTheorems.NormalAuth;
  }

  /**
   * Main result: the world of the tabs is there. With the editors as they are, showing a request keeps its identity,
   * showing it twice is showing it once, and it is what loading it and taking it back gives, whatever the editors
   * held before; so the content that a tab keeps exactly is that of the requests that the editors leave alone.
   */
  lemma EditorsMakeAWorld(
      codec: Codec, collections: seq<string>, stored: nat -> set<string>, request: Request, before: Editors.EditorState)
    requires codec.Valid() && forall i, j | 0 <= i < j < |collections| :: collections[i] != collections[j]
    ensures var w := WorldOf(codec, collections, stored);
      var edited := Editors.Edited(codec, request, Editors.Loaded(codec, request, before));
      && w.Valid() && w.Stable()
      && (edited.Ok? ==> w.normalise(request) == edited.value
                         && (w.normalise(request) == request <==> EditorsTheorems.LeftAlone(request)))
  {
    hide EditorsTheorems.Normal, Editors.Edited, Editors.Loaded, EditorsTheorems.LeftAlone, Shown;
    forall r: Request ensures Shown(codec, r).id == r.id && Shown(codec, Shown(codec, r)) == Shown(codec, r) {
      ShownTwice(codec, r);
    }
    EditorsTheorems.EditingGivesNormalForm(codec, request, before);
    EditorsTheorems.UnchangedExactlyWhenPlain(codec, request, before);
    ShownIs(codec, request);
  }

  lemma ShownIs(codec: Codec, request: Request)
    ensures EditorsTheorems.Normal(codec, request).Ok?
        ==> Shown(codec, request) == EditorsTheorems.Normal(codec, request).value
  {
    hide EditorsTheorems.Normal;
  }
}
