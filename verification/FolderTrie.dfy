/** The folders of an exported collection: a trie built from the requests, and the list it is flattened to. */
module FolderTrie {
  import opened Wrappers
  import opened RequestModel
  import opened Text
  import opened Ordering

  datatype FolderNode = FolderNode(folders: map<string, FolderNode>, requests: seq<Request>)

  const EMPTY := FolderNode(map[], [])

  /** An exported item; how a request itself is written is not part of this model. */
  datatype Item = Folder(name: string, items: seq<Item>) | Leaf(request: Request)

  const SEPARATORS := "/\\"

  /** The folders a request asks for, from the outermost. */
  function Segments(request: Request): seq<string> {
    if request.folder.Some? then CleanPieces(request.folder.value, SEPARATORS) else []
  }

  function Child(node: FolderNode, name: string): FolderNode {
    if name in node.folders then node.folders[name] else EMPTY
  }

  /** `FolderNode::insert` along a path; missing folders are made on the way. */
  function Insert(node: FolderNode, path: seq<string>, request: Request): FolderNode
    decreases |path|
  {
    if path == [] then node.(requests := node.requests + [request])
    else node.(folders := node.folders[path[0] := Insert(Child(node, path[0]), path[1..], request)])
  }

  /** The trie after inserting requests in turn. */
  function InsertAll(node: FolderNode, requests: seq<Request>): FolderNode
    decreases |requests|
  {
    if requests == [] then node
    else InsertAll(Insert(node, Segments(requests[0]), requests[0]), requests[1..])
  }

  function Leaves(requests: seq<Request>): seq<Item> {
    if requests == [] then [] else [Leaf(requests[0])] + Leaves(requests[1..])
  }

  /** The folders of a node in key order, then its requests. */
  function Items(node: FolderNode): seq<Item>
    decreases node, 1, 0
  {
    FolderItems(node, SortedKeys(node.folders.Keys)) + Leaves(node.requests)
  }

  function FolderItems(node: FolderNode, names: seq<string>): seq<Item>
    requires forall name <- names :: name in node.folders
    decreases node, 0, |names|
  {
    if names == [] then []
    else [Folder(names[0], Items(node.folders[names[0]]))] + FolderItems(node, names[1..])
  }

  // ----- The loops of the exporter -----

  /** Builds the trie, one request at a time. */
  method BuildTrie(requests: seq<Request>) returns (root: FolderNode)
    ensures root == InsertAll(EMPTY, requests)
  {
    hide Insert;
    root := EMPTY;
    assert requests[0..] == requests;
    for i := 0 to |requests|
      invariant InsertAll(root, requests[i..]) == InsertAll(EMPTY, requests)
    {
      assert requests[i..][1..] == requests[i + 1..];
      root := Insert(root, Segments(requests[i]), requests[i]);
    }
    assert requests[|requests|..] == [];
  }

  /** `node_items`: one loop over the folders, which recurses, and one over the requests. */
  method NodeItems(node: FolderNode) returns (items: seq<Item>)
    ensures items == Items(node)
    decreases node
  {
    hide SortedKeys;
    items := [];
    var names := SortedKeys(node.folders.Keys);
    assert names[0..] == names;
    for i := 0 to |names|
      invariant items + FolderItems(node, names[i..]) == FolderItems(node, names)
    {
      var inner := NodeItems(node.folders[names[i]]);
      assert names[i..][0] == names[i] && names[i..][1..] == names[i + 1..];
      Regroup(items, Folder(names[i], inner), FolderItems(node, names[i + 1..]));
      items := items + [Folder(names[i], inner)];
    }
    assert names[|names|..] == [];
    assert items + [] == items;
    var folders := items;
    assert node.requests[0..] == node.requests;
    for i := 0 to |node.requests|
      invariant items + Leaves(node.requests[i..]) == folders + Leaves(node.requests)
    {
      assert node.requests[i..][1..] == node.requests[i + 1..];
      Regroup(items, Leaf(node.requests[i]), Leaves(node.requests[i + 1..]));
      items := items + [Leaf(node.requests[i])];
    }
    assert node.requests[|node.requests|..] == [];
    assert items + [] == items;
  }

  lemma Regroup(items: seq<Item>, item: Item, rest: seq<Item>)
    ensures items + ([item] + rest) == (items + [item]) + rest
  {
  }
}

module FolderTrieTheorems {
  import opened Wrappers
  import opened RequestModel
  import opened Text
  import opened Ordering
  import opened FolderTrie

  // ----- Reading the exported list, without the trie -----

  /** The requests that are found by opening exactly these folders, in the order of the list. */
  function Under(items: seq<Item>, path: seq<string>): seq<Request>
    decreases |path|, |items|
  {
    if items == [] then []
    else
      (match items[0]
       case Leaf(request) => if path == [] then [request] else []
       case Folder(name, inner) => if path != [] && path[0] == name then Under(inner, path[1..]) else [])
      + Under(items[1..], path)
  }

  /** The requests that ask for a path, in the order given. */
  function Asking(requests: seq<Request>, path: seq<string>): seq<Request> {
    if requests == [] then []
    else (if Segments(requests[0]) == path then [requests[0]] else []) + Asking(requests[1..], path)
  }

  /** Folders come first and in strictly increasing order, on every level, and none is empty. */
  ghost predicate WellOrdered(items: seq<Item>) {
    && (forall i, j | 0 <= i < j < |items| :: items[i].Leaf? ==> items[j].Leaf?)
    && (forall i, j | 0 <= i < j < |items| ::
          items[i].Folder? && items[j].Folder? ==> Less(items[i].name, items[j].name))
    && (forall i | 0 <= i < |items| :: items[i].Folder? ==> items[i].items != [] && WellOrdered(items[i].items))
  }

  // ----- The trie -----

  /** What a node holds under a path. */
  function Held(node: FolderNode, path: seq<string>): seq<Request>
    decreases |path|
  {
    if path == [] then node.requests
    else if path[0] in node.folders then Held(node.folders[path[0]], path[1..])
    else []
  }

  lemma {:induction false} InsertHolds(node: FolderNode, path: seq<string>, request: Request, at: seq<string>)
    ensures Held(Insert(node, path, request), at) == Held(node, at) + if path == at then [request] else []
    decreases |path|
  {
    if path != [] && at != [] {
      assert path == [path[0]] + path[1..] && at == [at[0]] + at[1..];
      if path[0] == at[0] {
        InsertHolds(Child(node, path[0]), path[1..], request, at[1..]);
        assert path[1..] == at[1..] <==> path == at;
        NothingInEmpty(at[1..]);
      }
    }
  }

  lemma NothingInEmpty(at: seq<string>)
    ensures Held(EMPTY, at) == []
  {
  }

  lemma {:induction false} AllAreHeld(node: FolderNode, requests: seq<Request>, at: seq<string>)
    ensures Held(InsertAll(node, requests), at) == Held(node, at) + Asking(requests, at)
    decreases |requests|
  {
    hide Insert;
    if requests != [] {
      InsertHolds(node, Segments(requests[0]), requests[0], at);
      AllAreHeld(Insert(node, Segments(requests[0]), requests[0]), requests[1..], at);
    }
  }

  lemma {:induction false} UnderBoth(a: seq<Item>, b: seq<Item>, path: seq<string>)
    ensures Under(a + b, path) == Under(a, path) + Under(b, path)
  {
    if a == [] {
      assert a + b == b;
    } else {
      assert (a + b)[1..] == a[1..] + b;
      UnderBoth(a[1..], b, path);
    }
  }

  lemma {:induction false} UnderLeaves(requests: seq<Request>, path: seq<string>)
    ensures Under(Leaves(requests), path) == if path == [] then requests else []
  {
    if requests != [] {
      UnderLeaves(requests[1..], path);
    }
  }

  lemma {:induction false} UnderFolders(node: FolderNode, names: seq<string>, path: seq<string>)
    requires Sorted(names) && forall name <- names :: name in node.folders
    ensures Under(FolderItems(node, names), path)
            == if path != [] && path[0] in names then Held(node.folders[path[0]], path[1..]) else []
    decreases |path|, 0, |names|
  {
    if names != [] {
      UnderFolders(node, names[1..], path);
      FirstIsAlone(names);
      if path != [] && path[0] == names[0] {
        ItemsHoldTheSame(node.folders[names[0]], path[1..]);
      }
    }
  }

  lemma FirstIsAlone(names: seq<string>)
    requires names != [] && Sorted(names)
    ensures names[0] !in names[1..]
  {
    Asymmetric();
    forall i | 0 < i < |names| ensures names[i] != names[0] {
      assert Less(names[0], names[i]);
    }
  }

  lemma {:induction false} ItemsHoldTheSame(node: FolderNode, path: seq<string>)
    ensures Under(Items(node), path) == Held(node, path)
    decreases |path|, 1
  {
    var names := SortedKeys(node.folders.Keys);
    UnderFolders(node, names, path);
    UnderLeaves(node.requests, path);
    UnderBoth(FolderItems(node, names), Leaves(node.requests), path);
  }

  /**
   * Main result: in the exported list every request is found under exactly the folders that it asks for, as
   * often as it was given, and requests of one folder keep their order.
   */
  lemma ExportKeepsEveryRequest(requests: seq<Request>, path: seq<string>)
    ensures Under(Items(InsertAll(EMPTY, requests)), path) == Asking(requests, path)
  {
    AllAreHeld(EMPTY, requests, path);
    NothingInEmpty(path);
    ItemsHoldTheSame(InsertAll(EMPTY, requests), path);
  }

  // ----- Order -----

  /** Every folder holds something. */
  predicate Populated(node: FolderNode) {
    forall name <- node.folders.Keys ::
      (node.folders[name].requests != [] || node.folders[name].folders != map[]) && Populated(node.folders[name])
  }

  lemma {:induction false} InsertKeepsPopulated(node: FolderNode, path: seq<string>, request: Request)
    requires Populated(node)
    ensures Populated(Insert(node, path, request))
    ensures Insert(node, path, request).requests != [] || Insert(node, path, request).folders != map[]
    decreases |path|
  {
    if path != [] {
      InsertKeepsPopulated(Child(node, path[0]), path[1..], request);
      assert path[0] in Insert(node, path, request).folders;
    }
  }

  lemma {:induction false} AllPopulated(node: FolderNode, requests: seq<Request>)
    requires Populated(node)
    ensures Populated(InsertAll(node, requests))
    decreases |requests|
  {
    hide Insert, Populated;
    if requests != [] {
      InsertKeepsPopulated(node, Segments(requests[0]), requests[0]);
      AllPopulated(Insert(node, Segments(requests[0]), requests[0]), requests[1..]);
    }
  }

  lemma {:induction false} FolderItemAt(node: FolderNode, names: seq<string>, i: nat)
    requires (forall name <- names :: name in node.folders) && i < |names|
    ensures |FolderItems(node, names)| == |names|
    ensures FolderItems(node, names)[i] == Folder(names[i], Items(node.folders[names[i]]))
    decreases |names|
  {
    if |names| > 1 {
      FolderItemAt(node, names[1..], if i == 0 then 0 else i - 1);
    }
  }

  lemma {:induction false} LeavesAreLeaves(requests: seq<Request>)
    ensures |Leaves(requests)| == |requests| && forall item <- Leaves(requests) :: item.Leaf?
  {
    if requests != [] {
      LeavesAreLeaves(requests[1..]);
    }
  }

  lemma {:induction false} ItemsAreWellOrdered(node: FolderNode)
    requires Populated(node)
    ensures WellOrdered(Items(node))
    ensures node.requests != [] || node.folders != map[] ==> Items(node) != []
    decreases node
  {
    var names := SortedKeys(node.folders.Keys);
    var folders, leaves := FolderItems(node, names), Leaves(node.requests);
    LeavesAreLeaves(node.requests);
    if names == [] {
      assert folders == [];
    } else {
      FolderItemAt(node, names, 0);
    }
    assert |folders| == |names|;
    var items := Items(node);
    assert forall k | |names| <= k < |items| :: items[k] in leaves;
    forall i | 0 <= i < |items| && items[i].Folder?
      ensures i < |names| && items[i].name == names[i] && items[i].items != [] && WellOrdered(items[i].items)
    {
      if i < |names| {
        FolderItemAt(node, names, i);
        assert names[i] in node.folders.Keys;
        ItemsAreWellOrdered(node.folders[names[i]]);
      }
    }
    forall i, j | 0 <= i < j < |items| ensures items[i].Leaf? ==> items[j].Leaf? {
      if i < |names| {
        FolderItemAt(node, names, i);
      }
    }
    if node.folders != map[] {
      var name :| name in node.folders;
      assert name in names;
    }
  }

  /** Main result: siblings of an exported list are strictly sorted, folders come before requests, none is empty. */
  lemma ExportIsWellOrdered(requests: seq<Request>)
    ensures WellOrdered(Items(InsertAll(EMPTY, requests)))
  {
    AllPopulated(EMPTY, requests);
    ItemsAreWellOrdered(InsertAll(EMPTY, requests));
  }

  /** Folders are named by trimmed, non-empty text without separators; writing such a path keeps it. */
  lemma SegmentsAreClean(request: Request, path: seq<string>)
    ensures forall segment <- Segments(request) :: Clean(segment, SEPARATORS)
    ensures (forall segment <- path :: Clean(segment, SEPARATORS))
            ==> Segments(request.(folder := Some(Join(path, "/")))) == path
  {
    hide CleanPieces, Join;
    if request.folder.Some? {
      CleanPiecesAreClean(request.folder.value, SEPARATORS);
    }
    if forall segment <- path :: Clean(segment, SEPARATORS) {
      CleanPiecesOfJoin(path, '/', SEPARATORS);
    }
  }
}
