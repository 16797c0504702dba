/** A change that can be made and not written: it needs a directory of a name that only files have. */
module Gitmodules {
  import opened Options
  import opened GitObjects
  import opened Paths
  import opened Trees
  import opened Rewrite
  import opened Legality
  import opened Commits

  const CHANGES: seq<Change> := [Change(".gitmodules/x", Some("text"))]

  lemma Cut()
    ensures Head(".gitmodules/x") == ".gitmodules" && Head("x") == "x" && ".gitmodules/x"[12..] == "x"
  {
    hide Head;
    HeadOf(".gitmodules", "x");
    HeadOf("x", "");
    assert ".gitmodules" + "/" + "x" == ".gitmodules/x";
  }

  /** Over no tree the change applies, and its path is not legal where `.gitmodules` is taken for what it is. */
  lemma NotLegal(naming: Naming, store: Store)
    requires ZERO !in store && naming.dotGitmodules(".gitmodules")
    ensures Applies(store, ZERO, CHANGES, 0) && !LegalChanges(naming, CHANGES, 0)
  {
    hide Head, Lookup, DirAt;
    Cut();
    var c := CHANGES[0];
    assert Tail(c, 0) == c.path == ".gitmodules/x";
    assert c in CHANGES && forall x | x in CHANGES :: x == c;
    assert !LegalPath(naming, ".gitmodules/x");
    DirNothing(store, ".gitmodules/x");
    forall path: string | |path| < 13
      ensures !Taken(store, ZERO, CHANGES, 0, path)
    {
      LookupNothing(store, path);
    }
  }

  /** So the rewrite refuses it. */
  method Refused(w: ObjectsWritten, naming: Naming, store: Store) returns (r: Rewritten)
    requires Ground(w.hash, store, ZERO) && w.Valid() && w.objects == [] && naming.dotGitmodules(".gitmodules")
    modifies w
    ensures r.NotWritten?
  {
    hide Ground, Head, Committed, Willing, Applies, LegalChanges, CollisionFree;
    NoZero(w.hash, store, ZERO);
    NotLegal(naming, store);
    GoodHere();
    r := RewriteTree(w, naming, store, ZERO, CHANGES);
  }

  lemma GoodHere()
    ensures DistinctKeys(PathOf, CHANGES) && forall c | c in CHANGES :: GoodTail(c.path)
  {
    Cut();
    assert GoodTail("x");
    assert GoodTail(".gitmodules/x");
  }
}
