/** Access told without sets of bits, columns or helpers: which rows give what to whom, written out. */
module AccessRules {
  import opened Options
  import opened Access
  import opened Effective

  /** The table of roles. */
  predicate InRole(r: Role, what: Permission) {
    match r
    case Viewer => what == WorkflowRead || what == RunRead
    case Operator => what == WorkflowRun || what == RunRead
    case Editor =>
      || what == WorkflowRead || what == WorkflowRun || what == WorkflowWrite || what == RunRead || what == RunReadData
      || what == SecretUse || what == SecretWrite
    case Owner => OfTheNine(what)
    case _ => false
  }

  predicate OfTheNine(what: Permission) {
    !what.NoPermission? && !what.OtherPermission?
  }

  /** A row is written for a principal under its own name, or for a group of it, and reaches a scope of one namespace
      or one workflow. */
  ghost predicate WrittenFor(g: Grant, p: Principal, at: Scope) {
    && at.namespace != "" && g.principal != ""
    && (g.principal == p.ref || exists n :: n in p.groups && n != "" && g.principal == "group:" + n)
    && g.scope.namespace == at.namespace && (g.scope.workflow == "" || g.scope.workflow == at.workflow)
  }

  ghost predicate Allows(g: Grant, p: Principal, what: Permission, at: Scope) {
    && WrittenFor(g, p, at) && g.deny.NoPermission? && InRole(g.role, what)
    && (g.scope.workflow != "" ==> what != SecretUse && what != SecretWrite)
  }

  ghost predicate Denies(g: Grant, p: Principal, what: Permission, at: Scope) {
    WrittenFor(g, p, at) && g.role.NoRole? && !what.NoPermission? && g.deny == what
  }

  predicate Lives(g: Grant, now: int) {
    match g.expiresAt
    case None => true
    case Some(end) => now < end
  }

  lemma NamedIs(ref: string, p: Principal)
    ensures Names(ref, p) <==> ref != "" && (ref == p.ref || exists n :: n in p.groups && n != "" && ref == "group:" + n)
  {
    if "group:" < ref {
      assert ref == "group:" + ref[6..];
    }
    forall n | n in p.groups && n != "" && ref == "group:" + n
      ensures "group:" < ref && ref[6..] == n
    {}
  }

  lemma ValidIs(what: Permission)
    ensures Valid(what) <==> OfTheNine(what)
  {
    match what case _ =>
  }

  lemma InRoleIs(r: Role, what: Permission)
    ensures Has(RolePermissions(r), what) <==> InRole(r, what)
  {
    hide Has, RolePermissions, Bit;
    RolesAre(r, what);
    ValidIs(what);
  }

  lemma NamespaceOnlyIs(what: Permission)
    ensures Has(NAMESPACE_ONLY, what) <==> what == SecretUse || what == SecretWrite
  {
    hide Has, Bit, Only, Union;
    UnionHas(Only(SecretUse), Only(SecretWrite), what);
    OnlyHas(SecretUse, what);
    OnlyHas(SecretWrite, what);
    ValidIs(SecretUse);
    ValidIs(SecretWrite);
  }

  /** What one row gives, and what it takes. */
  lemma RowIs(g: Grant, p: Principal, what: Permission, at: Scope)
    ensures Gives(g, p, what, at) <==> Allows(g, p, what, at)
    ensures Takes(g, p, what, at) <==> Denies(g, p, what, at)
  {
    hide Names, Has, RolePermissions, Without;
    NamedIs(g.principal, p);
    InRoleIs(g.role, what);
    NamespaceOnlyIs(what);
    WithoutHas(RolePermissions(g.role), NAMESPACE_ONLY, what);
  }

  /** The rule of access: some live row allows it, and no live row denies it. */
  lemma RulesAre(p: Principal, grants: seq<Grant>, at: Scope, now: int, what: Permission)
    ensures Rules(p, grants, at, now, what) <==>
            && (exists g :: g in grants && Lives(g, now) && Allows(g, p, what, at))
            && !(exists g :: g in grants && Lives(g, now) && Denies(g, p, what, at))
  {
    hide Gives, Takes, Allows, Denies;
    forall g
      ensures (Gives(g, p, what, at) <==> Allows(g, p, what, at)) && (Takes(g, p, what, at) <==> Denies(g, p, what, at))
    {
      RowIs(g, p, what, at);
    }
    assert forall g | g in grants :: Lives(g, now) <==> !Expired(g, now);
  }

  /** A row that cannot be read: neither one role of the four alone, nor one permission of the nine denied alone. */
  predicate Unclear(g: Grant) {
    && !(g.deny.NoPermission? && (g.role.Viewer? || g.role.Operator? || g.role.Editor? || g.role.Owner?))
    && !(g.role.NoRole? && OfTheNine(g.deny))
  }

  /** What Resolve answers, in these words: it fails exactly for a live row written for the principal that is not
      clear, and rows on workflows alone give no secret. */
  method Answer(p: Principal, grants: seq<Grant>, at: Scope, now: int) returns (r: Resolved)
    requires now != NO_TIME
    ensures r.Unreadable? <==> exists g :: g in grants && Lives(g, now) && WrittenFor(g, p, at) && Unclear(g)
    ensures r.Holding? || r.Unreadable?
    ensures r.Holding? ==> forall what :: Has(r.held, what) <==>
              && (exists g :: g in grants && Lives(g, now) && Allows(g, p, what, at))
              && !(exists g :: g in grants && Lives(g, now) && Denies(g, p, what, at))
    ensures r.Holding? && (forall g | g in grants :: g.scope.workflow != "") ==> !Has(r.held, SecretUse) && !Has(r.held, SecretWrite)
  {
    hide Has, Rules, Allows, Denies;
    r := Resolve(p, grants, at, now);
    forall what
      ensures Rules(p, grants, at, now, what) <==>
              && (exists g :: g in grants && Lives(g, now) && Allows(g, p, what, at))
              && !(exists g :: g in grants && Lives(g, now) && Denies(g, p, what, at))
    {
      RulesAre(p, grants, at, now, what);
    }
    forall g | g in grants && at.namespace != ""
      ensures Applies(p, g, at, now) && !Binds(g) <==> Lives(g, now) && WrittenFor(g, p, at) && Unclear(g)
    {
      UnclearIs(g, p, at, now);
    }
    forall g: Grant, what: Permission | g.scope.workflow != "" && (what == SecretUse || what == SecretWrite)
      ensures !Allows(g, p, what, at)
    {
      NoSecret(g, p, what, at);
    }
  }

  lemma UnclearIs(g: Grant, p: Principal, at: Scope, now: int)
    requires at.namespace != ""
    ensures Applies(p, g, at, now) && !Binds(g) <==> Lives(g, now) && WrittenFor(g, p, at) && Unclear(g)
  {
    NamedIs(g.principal, p);
    ValidIs(g.deny);
  }

  lemma NoSecret(g: Grant, p: Principal, what: Permission, at: Scope)
    requires g.scope.workflow != "" && (what == SecretUse || what == SecretWrite)
    ensures !Allows(g, p, what, at)
  {}

  /** A token keeps a permission at a scope of a namespace where its list, if it has one, has it, and a namespace or
      workflow it is within, if it names any, reaches there; and at the installation where it has neither. */
  lemma KeepsAre(t: TokenScope, what: Permission, at: Scope)
    ensures at.namespace == "" ==> (Keeps(t, what, at) <==> t == TokenScope(None, None))
    ensures at.namespace != "" ==>
              (Keeps(t, what, at) <==>
                && (t.permissions == None || what in t.permissions.value)
                && (t.within == None ||
                      exists w :: w in t.within.value && w.namespace == at.namespace && (w.workflow == "" || w.workflow == at.workflow)))
  {}
}
