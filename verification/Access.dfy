/** Grants as rows, sets of permissions as bits, and the pass over the rows that resolves one scope. */
module Access {
  import opened Options

  /** The nine permissions; NoPermission models the empty string, and OtherPermission any other one. */
  datatype Permission =
    | WorkflowRead | WorkflowRun | WorkflowWrite | WorkflowDelete | RunRead | RunReadData
    | SecretUse | SecretWrite | GrantManage | NoPermission | OtherPermission(name: string)

  const NINE: seq<Permission> := [WorkflowRead, WorkflowRun, WorkflowWrite, WorkflowDelete, RunRead, RunReadData, SecretUse, SecretWrite, GrantManage]

  /** A set of permissions as sixteen bits, of which the nine are the first. */
  datatype Set = Set(bits: bv16)

  const EMPTY: Set := Set(0)

  function Bit(p: Permission): bv16 {
    match p
    case WorkflowRead => 0x001
    case WorkflowRun => 0x002
    case WorkflowWrite => 0x004
    case WorkflowDelete => 0x008
    case RunRead => 0x010
    case RunReadData => 0x020
    case SecretUse => 0x040
    case SecretWrite => 0x080
    case GrantManage => 0x100
    case _ => 0
  }

  predicate Valid(p: Permission) {
    Bit(p) != 0
  }

  predicate Meets(a: bv16, b: bv16) {
    a & b != 0
  }

  predicate Has(s: Set, p: Permission) {
    Bit(p) != 0 && Meets(s.bits, Bit(p))
  }

  function Plus(a: bv16, b: bv16): bv16 {
    a | b
  }

  function Union(s: Set, t: Set): Set {
    Set(Plus(s.bits, t.bits))
  }

  function Minus(a: bv16, b: bv16): bv16 {
    a & !b
  }

  function Without(s: Set, t: Set): Set {
    Set(Minus(s.bits, t.bits))
  }

  /** A set holds nothing but the nine. */
  predicate Nine(s: Set) {
    !Meets(s.bits, 0xFE00)
  }

  lemma PlusMeets(a: bv16, b: bv16, m: bv16)
    ensures Meets(Plus(a, b), m) <==> Meets(a, m) || Meets(b, m)
  {
    assert (a | b) & m == (a & m) | (b & m);
  }

  lemma MinusWithin(a: bv16, b: bv16, m: bv16)
    ensures Meets(Minus(a, b), m) ==> Meets(a, m)
  {
    assert (a & !b) & m == (a & m) & !b;
  }

  /** A permission's bit is in a set of bits whole or not at all. */
  predicate WholeIn(a: bv16, m: bv16) {
    a & m == 0 || a & m == m
  }

  lemma BitWhole(a: bv16, p: Permission)
    ensures WholeIn(a, Bit(p))
  {}

  lemma MinusGone(a: bv16, b: bv16, m: bv16)
    requires b & m == m
    ensures !Meets(Minus(a, b), m)
  {}

  lemma MinusStays(a: bv16, b: bv16, m: bv16)
    requires b & m == 0
    ensures Minus(a, b) & m == a & m
  {}

  lemma MinusAt(a: bv16, b: bv16, m: bv16)
    requires WholeIn(b, m)
    ensures Meets(Minus(a, b), m) <==> Meets(a, m) && !Meets(b, m)
  {
    hide Minus;
    if b & m == 0 {
      MinusStays(a, b, m);
    } else {
      MinusGone(a, b, m);
    }
  }

  lemma MinusMeets(a: bv16, b: bv16, p: Permission)
    ensures Meets(Minus(a, b), Bit(p)) <==> Meets(a, Bit(p)) && !Meets(b, Bit(p))
  {
    hide Minus, Bit, Meets, WholeIn;
    BitWhole(b, p);
    MinusAt(a, b, Bit(p));
  }

  lemma UnionHas(s: Set, t: Set, p: Permission)
    ensures Has(Union(s, t), p) <==> Has(s, p) || Has(t, p)
    ensures Nine(s) && Nine(t) ==> Nine(Union(s, t))
  {
    hide Meets, Bit, Plus;
    PlusMeets(s.bits, t.bits, Bit(p));
    PlusMeets(s.bits, t.bits, 0xFE00);
  }

  lemma WithoutHas(s: Set, t: Set, p: Permission)
    ensures Has(Without(s, t), p) <==> Has(s, p) && !Has(t, p)
    ensures Nine(s) ==> Nine(Without(s, t))
  {
    hide Meets, Bit, Minus;
    MinusMeets(s.bits, t.bits, p);
    MinusWithin(s.bits, t.bits, 0xFE00);
  }

  /** `Has` tells sets apart: no two of them agree on all nine. */
  lemma SameHas(s: Set, t: Set)
    requires Nine(s) && Nine(t) && forall p :: Has(s, p) <==> Has(t, p)
    ensures s == t
  {
    assert Has(s, WorkflowRead) <==> Has(t, WorkflowRead);
    assert Has(s, WorkflowRun) <==> Has(t, WorkflowRun);
    assert Has(s, WorkflowWrite) <==> Has(t, WorkflowWrite);
    assert Has(s, WorkflowDelete) <==> Has(t, WorkflowDelete);
    assert Has(s, RunRead) <==> Has(t, RunRead);
    assert Has(s, RunReadData) <==> Has(t, RunReadData);
    assert Has(s, SecretUse) <==> Has(t, SecretUse);
    assert Has(s, SecretWrite) <==> Has(t, SecretWrite);
    assert Has(s, GrantManage) <==> Has(t, GrantManage);
  }

  function Only(p: Permission): Set {
    Set(Bit(p))
  }

  lemma OnlyHas(p: Permission, q: Permission)
    ensures Has(Only(p), q) <==> p == q && Valid(p)
    ensures Nine(Only(p))
  {
    match p case _ => match q case _ =>
  }

  // ---- Roles ----

  datatype Role = NoRole | Viewer | Operator | Editor | Owner | OtherRole(name: string)

  predicate IsRole(r: Role) {
    r.Viewer? || r.Operator? || r.Editor? || r.Owner?
  }

  const READ_COLUMN: Set := Union(Only(WorkflowRead), Only(RunRead))
  const RUN_COLUMN: Set := Union(Only(WorkflowRun), Only(RunRead))
  const WRITE_COLUMN: Set := Union(Only(WorkflowWrite), Only(SecretUse))
  const NAMESPACE_ONLY: Set := Union(Only(SecretUse), Only(SecretWrite))

  /** The set a role stands for, and nothing for a string that is none of the four. */
  function RolePermissions(r: Role): Set
    decreases if r.Owner? then 1 else 0
  {
    match r
    case Viewer => READ_COLUMN
    case Operator => RUN_COLUMN
    case Editor => Union(Union(Union(Union(READ_COLUMN, RUN_COLUMN), WRITE_COLUMN), Only(RunReadData)), Only(SecretWrite))
    case Owner => Union(Union(RolePermissions(Editor), Only(WorkflowDelete)), Only(GrantManage))
    case _ => EMPTY
  }

  /** A role's permissions are the nine's own, and an owner has every one. */
  lemma RolesAre(r: Role, p: Permission)
    ensures Nine(RolePermissions(r))
    ensures Has(RolePermissions(r), p) <==>
              match r
              case Viewer => p in {WorkflowRead, RunRead}
              case Operator => p in {WorkflowRun, RunRead}
              case Editor => Valid(p) && p !in {WorkflowDelete, GrantManage}
              case Owner => Valid(p)
              case _ => false
  {
    match r case _ => match p case _ =>
  }

  // ---- Grants ----

  /** `workflow` is empty for a whole namespace, and both are for the installation. */
  datatype Scope = Scope(namespace: string, workflow: string)

  /** `ref` is the principal's own name, and `groups` are the names a row may use for it instead. */
  datatype Principal = Principal(ref: string, groups: seq<string>)

  /** One row: a role allowed, or one permission denied, to whoever it names, at one scope. */
  datatype Grant = Grant(principal: string, scope: Scope, role: Role, deny: Permission, expiresAt: Option<int>)

  const NO_TIME: int := 0

  /** A grant names a principal by its own name or one of its groups', and nobody by the empty string. */
  predicate Names(ref: string, p: Principal) {
    ref != "" && (ref == p.ref || ("group:" < ref && ref[6..] in p.groups))
  }

  /** A namespace's grants apply to it and to every workflow of it, a workflow's to that workflow. */
  predicate Covers(s: Scope, q: Scope) {
    s.namespace == q.namespace && (s.workflow == "" || s.workflow == q.workflow)
  }

  predicate Expired(g: Grant, now: int) {
    g.expiresAt.Some? && now >= g.expiresAt.value
  }

  /** The model reads the row: it has a role of the four and no deny, or a deny of the nine and no role. */
  predicate Binds(g: Grant) {
    (g.role.NoRole? && Valid(g.deny)) || (IsRole(g.role) && g.deny.NoPermission?)
  }

  predicate Applies(p: Principal, g: Grant, at: Scope, now: int) {
    Names(g.principal, p) && Covers(g.scope, at) && !Expired(g, now)
  }

  /** One row's share of `Given`, whatever the time. */
  predicate Gives(g: Grant, p: Principal, what: Permission, at: Scope) {
    && !g.role.NoRole? && g.deny.NoPermission? && at.namespace != "" && Names(g.principal, p) && Covers(g.scope, at)
    && Has(GivesSet(g), what)
  }

  /** One row's share of `Taken`, whatever the time. */
  predicate Takes(g: Grant, p: Principal, what: Permission, at: Scope) {
    g.role.NoRole? && !g.deny.NoPermission? && g.deny == what && at.namespace != "" && Names(g.principal, p) && Covers(g.scope, at)
  }

  /** The rule: some live grant gives it, and none takes it away. */
  ghost predicate Rules(p: Principal, grants: seq<Grant>, at: Scope, now: int, what: Permission) {
    Given(p, grants, at, now, what) && !Taken(p, grants, at, now, what)
  }

  ghost predicate Given(p: Principal, grants: seq<Grant>, at: Scope, now: int, what: Permission) {
    exists g :: g in grants && !Expired(g, now) && Gives(g, p, what, at)
  }

  ghost predicate Taken(p: Principal, grants: seq<Grant>, at: Scope, now: int, what: Permission) {
    exists g :: g in grants && !Expired(g, now) && Takes(g, p, what, at)
  }

  lemma OneMore(p: Principal, grants: seq<Grant>, i: nat, at: Scope, now: int)
    requires i < |grants|
    ensures forall what :: Given(p, grants[..i + 1], at, now, what) <==>
              Given(p, grants[..i], at, now, what) || (!Expired(grants[i], now) && Gives(grants[i], p, what, at))
    ensures forall what :: Taken(p, grants[..i + 1], at, now, what) <==>
              Taken(p, grants[..i], at, now, what) || (!Expired(grants[i], now) && Takes(grants[i], p, what, at))
  {
    hide Gives, Takes, Expired;
    assert grants[..i + 1] == grants[..i] + [grants[i]];
  }

  datatype Resolved = Holding(held: Set) | NoTimeGiven | Unreadable

  /** One pass over the rows, with two sets of bits, refines `Rules`, which mentions neither order nor
      repetition; it is Unreadable exactly where some row `Applies` and not `Binds`. */
  method Resolve(p: Principal, grants: seq<Grant>, at: Scope, now: int) returns (r: Resolved)
    ensures r.NoTimeGiven? <==> now == NO_TIME
    ensures now != NO_TIME && at.namespace == "" ==> r == Holding(EMPTY)
    ensures now != NO_TIME && at.namespace != "" ==>
              (r.Unreadable? <==> exists g :: g in grants && Applies(p, g, at, now) && !Binds(g))
    ensures r.Holding? ==> Nine(r.held) && forall what :: Has(r.held, what) <==> Rules(p, grants, at, now, what)
  {
    hide Has, Nine, Without, Union, Only, Bit, RolePermissions, Names, Given, Taken, Gives, Takes;
    NoneHas();
    NoneYet(p, at, now);
    if now == NO_TIME {
      return NoTimeGiven;
    }
    if at.namespace == "" {
      NoneAt(p, grants, at, now);
      return Holding(EMPTY);
    }
    var allowed, denied := EMPTY, EMPTY;
    for i := 0 to |grants|
      invariant forall j | 0 <= j < i :: Applies(p, grants[j], at, now) ==> Binds(grants[j])
      invariant Nine(allowed) && Nine(denied)
      invariant forall what :: Has(allowed, what) <==> Given(p, grants[..i], at, now, what)
      invariant forall what :: Has(denied, what) <==> Taken(p, grants[..i], at, now, what)
    {
      var g := grants[i];
      OneMore(p, grants, i, at, now);
      if !Applies(p, g, at, now) {
        PassedOver(g, p, at, now);
        continue;
      }
      if !Binds(g) {
        return Unreadable;
      }
      OneGrant(g, p, at, now);
      if !g.deny.NoPermission? {
        DenyHas(denied, g.deny);
        ghost var before := denied;
        denied := Union(denied, Only(g.deny));
        forall what
          ensures Has(denied, what) <==> Taken(p, grants[..i + 1], at, now, what)
        {
          assert Has(denied, what) <==> Has(before, what) || what == g.deny;
          assert Takes(g, p, what, at) <==> what == g.deny;
        }
        continue;
      }
      var gives := RolePermissions(g.role);
      if g.scope.workflow != "" {
        gives := Without(gives, NAMESPACE_ONLY);
      }
      AllowHas(allowed, g);
      allowed := Union(allowed, gives);
    }
    HeldHas(allowed, denied);
    assert grants[..|grants|] == grants;
    return Holding(Without(allowed, denied));
  }

  function GivesSet(g: Grant): Set {
    if g.scope.workflow != "" then Without(RolePermissions(g.role), NAMESPACE_ONLY) else RolePermissions(g.role)
  }

  lemma OneGrant(g: Grant, p: Principal, at: Scope, now: int)
    requires Applies(p, g, at, now) && Binds(g) && at.namespace != ""
    ensures forall what :: Takes(g, p, what, at) <==> !g.deny.NoPermission? && what == g.deny
    ensures forall what :: Gives(g, p, what, at) <==> g.deny.NoPermission? && Has(GivesSet(g), what)
  {
    hide Has, Names, RolePermissions, Without;
  }

  lemma PassedOver(g: Grant, p: Principal, at: Scope, now: int)
    requires !Applies(p, g, at, now)
    ensures forall what :: !(!Expired(g, now) && Takes(g, p, what, at)) && !(!Expired(g, now) && Gives(g, p, what, at))
  {}

  lemma NoneYet(p: Principal, at: Scope, now: int)
    ensures forall what :: !Given(p, [], at, now, what) && !Taken(p, [], at, now, what)
  {}

  lemma NoneAt(p: Principal, grants: seq<Grant>, at: Scope, now: int)
    requires at.namespace == ""
    ensures forall what :: !Given(p, grants, at, now, what)
  {}

  lemma NoneHas()
    ensures Nine(EMPTY) && forall what :: !Has(EMPTY, what)
  {}

  lemma DenyHas(denied: Set, p: Permission)
    requires Nine(denied) && Valid(p)
    ensures Nine(Union(denied, Only(p))) && forall what :: Has(Union(denied, Only(p)), what) <==> Has(denied, what) || what == p
  {
    hide Has, Nine, Union;
    forall what
      ensures Nine(Union(denied, Only(p))) && (Has(Union(denied, Only(p)), what) <==> Has(denied, what) || what == p)
    {
      OnlyHas(p, what);
      UnionHas(denied, Only(p), what);
    }
    OnlyHas(p, p);
    UnionHas(denied, Only(p), p);
  }

  lemma AllowHas(allowed: Set, g: Grant)
    requires Nine(allowed)
    ensures Nine(Union(allowed, GivesSet(g)))
    ensures forall what :: Has(Union(allowed, GivesSet(g)), what) <==> Has(allowed, what) || Has(GivesSet(g), what)
  {
    hide Has, Nine, Union, Without, RolePermissions;
    var gives := GivesSet(g);
    RolesAre(g.role, NoPermission);
    WithoutHas(RolePermissions(g.role), NAMESPACE_ONLY, NoPermission);
    UnionHas(allowed, gives, NoPermission);
    forall what
      ensures Has(Union(allowed, gives), what) <==> Has(allowed, what) || Has(gives, what)
    {
      UnionHas(allowed, gives, what);
    }
  }

  lemma HeldHas(allowed: Set, denied: Set)
    requires Nine(allowed)
    ensures Nine(Without(allowed, denied)) && forall what :: Has(Without(allowed, denied), what) <==> Has(allowed, what) && !Has(denied, what)
  {
    hide Has, Nine, Without;
    WithoutHas(allowed, denied, NoPermission);
    forall what
      ensures Has(Without(allowed, denied), what) <==> Has(allowed, what) && !Has(denied, what)
    {
      WithoutHas(allowed, denied, what);
    }
  }
}
