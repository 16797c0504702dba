/** A map with few scopes in it, and a way to read it that answers for every scope there is. */
module Effective {
  import opened Options
  import opened Access

  /** What a token is narrowed to: the permissions it keeps and where it reaches, all of either where it
      does not say. */
  datatype TokenScope = TokenScope(permissions: Option<seq<Permission>>, within: Option<seq<Scope>>)

  predicate Keeps(t: TokenScope, what: Permission, at: Scope) {
    if at.namespace == "" then t.permissions.None? && t.within.None?
    else
      && (t.permissions.Some? ==> what in t.permissions.value)
      && (t.within.Some? ==> exists w | w in t.within.value :: Covers(w, at))
  }

  function NamespaceOf(at: Scope): Scope {
    Scope(at.namespace, "")
  }

  /** Who asks, what it is granted and when that was read, and what its credential keeps. */
  datatype Caller = Caller(who: Principal, grants: seq<Grant>, now: int, token: TokenScope)

  /** What the caller holds at a scope: what the rule gives it and its credential keeps. */
  ghost predicate Wants(c: Caller, at: Scope, what: Permission) {
    Rules(c.who, c.grants, at, c.now, what) && Keeps(c.token, what, at)
  }

  /** A grant, or what the credential reaches, names this scope. */
  predicate NamesScope(c: Caller, at: Scope) {
    || (exists g | g in c.grants :: g.scope == at)
    || (c.token.within.Some? && at in c.token.within.value)
  }

  /** The scopes asked about so far: those named by `named`, each with its namespace, once, and no others. */
  ghost predicate Asked(asked: seq<Scope>, named: seq<Scope>) {
    && (forall i, j | 0 <= i < j < |asked| :: asked[i] != asked[j])
    && (forall s | s in named :: NamespaceOf(s) in asked && (s.workflow != "" ==> s in asked))
    && (forall a | a in asked :: NamespaceOf(a) in asked && (a.workflow != "" ==> a in named))
  }

  method Ask(asked: seq<Scope>, named: seq<Scope>, at: Scope) returns (asked': seq<Scope>)
    requires Asked(asked, named)
    ensures Asked(asked', named + [at])
  {
    asked' := asked;
    if NamespaceOf(at) !in asked' {
      asked' := asked' + [NamespaceOf(at)];
    }
    if at.workflow != "" && at !in asked' {
      asked' := asked' + [at];
    }
  }

  function ScopesOf(c: Caller): seq<Scope> {
    seq(|c.grants|, i requires 0 <= i < |c.grants| => c.grants[i].scope) +
    if c.token.within.Some? then c.token.within.value else []
  }

  lemma ScopesAre(c: Caller, at: Scope)
    ensures at in ScopesOf(c) <==> NamesScope(c, at)
  {
    var scopes := seq(|c.grants|, i requires 0 <= i < |c.grants| => c.grants[i].scope);
    if exists g | g in c.grants :: g.scope == at {
      var g :| g in c.grants && g.scope == at;
      var i :| 0 <= i < |c.grants| && c.grants[i] == g;
      assert scopes[i] == at;
    }
  }

  /** Collects ScopesOf, each scope with its namespace, in one pass and without repeats. */
  method AskAll(c: Caller) returns (asked: seq<Scope>)
    ensures Asked(asked, ScopesOf(c))
  {
    asked := [];
    var named := ScopesOf(c);
    assert named[..0] == [];
    for i := 0 to |named|
      invariant Asked(asked, named[..i])
    {
      assert named[..i + 1] == named[..i] + [named[i]];
      asked := Ask(asked, named[..i], named[i]);
    }
    assert named[..|named|] == named;
  }

  /** What of a set the credential keeps at a scope. */
  method KeepOnly(s: Set, t: TokenScope, at: Scope) returns (kept: Set)
    requires Nine(s)
    ensures Nine(kept) && forall what :: Has(kept, what) <==> Has(s, what) && Keeps(t, what, at)
  {
    hide Has, Nine, Union, Only, Bit, Keeps;
    kept := EMPTY;
    NoneHas();
    for i := 0 to |NINE|
      invariant Nine(kept)
      invariant forall what :: Has(kept, what) <==> Has(s, what) && Keeps(t, what, at) && what in NINE[..i]
    {
      var p := NINE[i];
      assert NINE[..i + 1] == NINE[..i] + [p];
      if Has(s, p) && Keeps(t, p, at) {
        NineValid(i);
        DenyHas(kept, p);
        ghost var before := kept;
        kept := Union(kept, Only(p));
        assert forall what :: Has(kept, what) <==> Has(before, what) || what == p;
      }
    }
    OnlyNine(s);
    assert NINE[..|NINE|] == NINE;
  }

  lemma NineValid(i: nat)
    requires i < |NINE|
    ensures Valid(NINE[i])
  {}

  lemma OnlyNine(s: Set)
    ensures forall what :: Has(s, what) ==> what in NINE
  {}

  /** The set is what the caller holds at the scope. */
  ghost predicate IsHeld(c: Caller, at: Scope, s: Set) {
    Nine(s) && forall what :: Has(s, what) <==> Wants(c, at, what)
  }

  ghost predicate AllHeld(c: Caller, asked: seq<Scope>, held: map<Scope, Set>) {
    (forall at :: at in held <==> at in asked) && forall at | at in held :: IsHeld(c, at, held[at])
  }

  /** Some row written for the caller, not expired, cannot be read. */
  ghost predicate SomeUnreadable(c: Caller) {
    exists g :: g in c.grants && Names(g.principal, c.who) && !Expired(g, c.now) && g.scope.namespace != "" && !Binds(g)
  }

  lemma UnreadableAt(c: Caller, at: Scope, g: Grant)
    requires g in c.grants && Applies(c.who, g, at, c.now) && !Binds(g) && at.namespace != ""
    ensures SomeUnreadable(c)
  {}

  /** A row that cannot be read is met at a scope asked about: its own. */
  lemma UnreadableMet(c: Caller, asked: seq<Scope>)
    requires SomeUnreadable(c) && Asked(asked, ScopesOf(c))
    ensures exists at, g :: at in asked && at.namespace != "" && g in c.grants && Applies(c.who, g, at, c.now) && !Binds(g)
  {
    var g :| g in c.grants && Names(g.principal, c.who) && !Expired(g, c.now) && g.scope.namespace != "" && !Binds(g);
    ScopesAre(c, g.scope);
    var at := if g.scope.workflow != "" then g.scope else NamespaceOf(g.scope);
    assert at in asked && Applies(c.who, g, at, c.now);
  }

  /** Resolves every scope asked about. */
  method HoldAll(c: Caller, asked: seq<Scope>) returns (ok: bool, held: map<Scope, Set>)
    requires c.now != NO_TIME
    ensures ok ==> AllHeld(c, asked, held)
    ensures ok <==> !exists at, g :: at in asked && at.namespace != "" && g in c.grants && Applies(c.who, g, at, c.now) && !Binds(g)
  {
    hide Has, Nine, Rules, Keeps, Applies, Binds;
    held := map[];
    for i := 0 to |asked|
      invariant AllHeld(c, asked[..i], held)
      invariant !exists at, g :: at in asked[..i] && at.namespace != "" && g in c.grants && Applies(c.who, g, at, c.now) && !Binds(g)
    {
      assert asked[..i + 1] == asked[..i] + [asked[i]];
      var r := Resolve(c.who, c.grants, asked[i], c.now);
      if r.Unreadable? {
        assert asked[i] in asked;
        return false, held;
      }
      var kept := KeepOnly(r.held, c.token, asked[i]);
      held := held[asked[i] := kept];
    }
    assert asked[..|asked|] == asked;
    return true, held;
  }

  /** What is told of what is held: nothing of a scope where nothing is, and nothing of a workflow where
      what its namespace gives is. */
  predicate Told(held: map<Scope, Set>, at: Scope)
    requires at in held
  {
    held[at] != EMPTY && !(at.workflow != "" && NamespaceOf(at) in held && held[at] == held[NamespaceOf(at)])
  }

  method Tell(held: map<Scope, Set>) returns (out: map<Scope, Set>)
    requires forall at | at in held :: NamespaceOf(at) in held
    ensures forall at :: at in out <==> at in held && Told(held, at)
    ensures forall at | at in out :: out[at] == held[at]
  {
    out := map[];
    var left := held.Keys;
    while left != {}
      invariant left <= held.Keys
      invariant forall at :: at in out <==> at in held && at !in left && Told(held, at)
      invariant forall at | at in out :: out[at] == held[at]
    {
      var at :| at in left;
      var ns := held[NamespaceOf(at)];
      if held[at] == EMPTY {
      } else if at.workflow != "" && held[at] == ns {
      } else {
        out := out[at := held[at]];
      }
      left := left - {at};
    }
  }

  /** What a reader of the map takes to be held at a scope: what it says there, or else what it says of
      the namespace. */
  function LookUp(out: map<Scope, Set>, at: Scope): Set {
    if at in out then out[at] else if NamespaceOf(at) in out then out[NamespaceOf(at)] else EMPTY
  }

  /** The one thing the map does not tell: that nothing is held on a workflow some row or the credential
      names, where something is held on its namespace. */
  ghost predicate Hidden(c: Caller, at: Scope) {
    && at.workflow != "" && NamesScope(c, at)
    && (forall what :: !Wants(c, at, what)) && (exists what :: Wants(c, NamespaceOf(at), what))
  }

  ghost predicate Tells(c: Caller, out: map<Scope, Set>, at: Scope) {
    forall what :: Has(LookUp(out, at), what) <==> Wants(c, at, what)
  }

  /** On a workflow nothing names, what is held is what its namespace gives. */
  lemma Unnamed(c: Caller, at: Scope, what: Permission)
    requires at.workflow != "" && !NamesScope(c, at)
    ensures Wants(c, at, what) <==> Wants(c, NamespaceOf(at), what)
  {
    hide Has, Names;
    forall g | g in c.grants
      ensures Gives(g, c.who, what, at) <==> Gives(g, c.who, what, NamespaceOf(at))
      ensures Takes(g, c.who, what, at) <==> Takes(g, c.who, what, NamespaceOf(at))
    {}
  }

  /** On a namespace nothing names, nothing is held. */
  lemma Nowhere(c: Caller, asked: seq<Scope>, at: Scope, what: Permission)
    requires Asked(asked, ScopesOf(c)) && at.workflow == "" && at !in asked
    ensures !Wants(c, at, what)
  {
    hide Has, Names;
    forall g | g in c.grants
      ensures !Gives(g, c.who, what, at)
    {
      ScopesAre(c, g.scope);
    }
  }

  lemma EmptyHeld(c: Caller, at: Scope, s: Set)
    requires IsHeld(c, at, s)
    ensures s == EMPTY <==> forall what :: !Wants(c, at, what)
  {
    hide Wants;
    NoneHas();
    if forall what :: !Wants(c, at, what) {
      SameHas(s, EMPTY);
    }
  }

  /** The map answers for every scope, exactly but where it is hidden. */
  lemma TellsAll(c: Caller, asked: seq<Scope>, held: map<Scope, Set>, out: map<Scope, Set>, at: Scope)
    requires Asked(asked, ScopesOf(c)) && AllHeld(c, asked, held)
    requires forall a :: a in out <==> a in held && Told(held, a)
    requires forall a | a in out :: out[a] == held[a]
    ensures Tells(c, out, at) <==> !Hidden(c, at)
  {
    hide Has, Nine, Wants, NamesScope, Rules;
    var ns := NamespaceOf(at);
    NoneHas();
    ScopesAre(c, at);
    if at in held {
      EmptyHeld(c, at, held[at]);
      EmptyHeld(c, ns, held[ns]);
      assert IsHeld(c, at, held[at]) && IsHeld(c, ns, held[ns]);
      if at.workflow == "" {
        assert ns == at;
      } else if held[at] == EMPTY && held[ns] != EMPTY {
        assert LookUp(out, at) == held[ns];
        var what :| Wants(c, ns, what);
        assert Has(LookUp(out, at), what) && !Wants(c, at, what);
      } else {
        assert LookUp(out, at) == held[at];
      }
    } else if at.workflow == "" {
      assert ns == at;
      forall what
        ensures !Wants(c, at, what)
      {
        Nowhere(c, asked, at, what);
      }
    } else {
      forall what
        ensures Wants(c, at, what) <==> Wants(c, ns, what)
      {
        Unnamed(c, at, what);
      }
      if ns in held {
        EmptyHeld(c, ns, held[ns]);
      } else {
        forall what
          ensures !Wants(c, ns, what)
        {
          Nowhere(c, asked, ns, what);
        }
      }
    }
  }

  /** What a caller holds, told at each scope where it must be: looking a scope up in it, and falling back
      to its namespace, gives what the caller holds there for every scope, with the one exception. It
      fails exactly where a row of the caller's cannot be read. */
  method Permissions(c: Caller) returns (ok: bool, out: map<Scope, Set>)
    requires c.now != NO_TIME
    ensures ok <==> !SomeUnreadable(c)
    ensures ok ==> forall at :: Tells(c, out, at) <==> !Hidden(c, at)
  {
    hide Tells, Hidden, Asked, AllHeld, SomeUnreadable, Applies, Binds, Told;
    out := map[];
    var asked := AskAll(c);
    var held;
    ok, held := HoldAll(c, asked);
    if !ok {
      var at, g :| at in asked && at.namespace != "" && g in c.grants && Applies(c.who, g, at, c.now) && !Binds(g);
      UnreadableAt(c, at, g);
      return false, map[];
    }
    if SomeUnreadable(c) {
      UnreadableMet(c, asked);
    }
    Namespaces(c, asked, held);
    out := Tell(held);
    forall at
      ensures Tells(c, out, at) <==> !Hidden(c, at)
    {
      TellsAll(c, asked, held, out, at);
    }
  }

  lemma Namespaces(c: Caller, asked: seq<Scope>, held: map<Scope, Set>)
    requires Asked(asked, ScopesOf(c)) && AllHeld(c, asked, held)
    ensures forall at | at in held :: NamespaceOf(at) in held
  {}

  /** Decides `Taken`, which alone rules out `Rules`, whatever is `Given`. */
  method Denied(c: Caller, what: Permission, over: Scope) returns (denied: bool)
    ensures denied <==> Taken(c.who, c.grants, over, c.now, what)
    ensures denied ==> !Rules(c.who, c.grants, over, c.now, what)
  {
    for i := 0 to |c.grants|
      invariant forall j | 0 <= j < i :: !(Takes(c.grants[j], c.who, what, over) && !Expired(c.grants[j], c.now))
    {
      if Takes(c.grants[i], c.who, what, over) && !Expired(c.grants[i], c.now) {
        return true;
      }
    }
    return false;
  }
}
