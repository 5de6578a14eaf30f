/** The tenant handlers: a tenant's details with its row counts, the
    role-restricted update, and the super admin's list of all tenants. */
module TenantController {
  import opened Common
  import opened Listing
  import opened Db

  // ---- getTenant

  datatype TenantStats = TenantStats(totalUsers: nat, totalProjects: nat, totalTasks: nat)

  /** `SELECT *` of the tenant with its `stats` block. */
  datatype TenantDetails = TenantDetails(id: Id, tenant: Tenant, stats: TenantStats)

  /** A super admin, or a member of the tenant itself. */
  predicate MayAccess(c: Claims, tenantId: Id) {
    c.role == SuperAdmin || c.tenantId == Some(tenantId)
  }

  /** `GET /tenants/:tenantId`. */
  function GetTenant(db: Store, c: Claims, tenantId: Id): (r: Reply<TenantDetails>)
    reads db
    ensures !MayAccess(c, tenantId) ==> r == Fail(403, "Not authorized to access this tenant")
    ensures MayAccess(c, tenantId) && tenantId !in db.tenants ==> r == Fail(404, "Tenant not found")
    ensures r.Ok? <==> MayAccess(c, tenantId) && tenantId in db.tenants
    ensures r.Ok? ==>
      && r.status == 200 && r.message == "Tenant details"
      && r.data == Some(TenantDetails(tenantId, db.tenants[tenantId], TenantStats(
           |UsersOf(db.users, tenantId)|, |ProjectsOf(db.projects, tenantId)|, |TasksOf(db.tasks, tenantId)|)))
  {
    if !MayAccess(c, tenantId) then Fail(403, "Not authorized to access this tenant")
    else if tenantId !in db.tenants then Fail(404, "Tenant not found")
    else
      var stats := TenantStats(|UsersOf(db.users, tenantId)|, |ProjectsOf(db.projects, tenantId)|,
                               |TasksOf(db.tasks, tenantId)|);
      Ok(200, "Tenant details", Some(TenantDetails(tenantId, db.tenants[tenantId], stats)))
  }

  /** In a consistent store every task of a tenant sits in one of the
      tenant's projects. */
  lemma TenantTasksInItsProjects(
    tenants: map<Id, Tenant>, users: map<Id, User>, projects: map<Id, Project>,
    tasks: map<Id, Task>, n: Id, t: Id)
    requires Consistent(tenants, users, projects, tasks, n)
    ensures forall k :: k in TasksOf(tasks, t) ==> tasks[k].projectId in ProjectsOf(projects, t)
    ensures ProjectsOf(projects, t) == {} ==> TasksOf(tasks, t) == {}
  {
    forall k | k in TasksOf(tasks, t) ensures tasks[k].projectId in ProjectsOf(projects, t) {
      assert TasksLinked(projects, tasks);
    }
  }

  // ---- updateTenant

  /** The body of `PUT /tenants/:tenantId`. Every field is tested for
      truthiness: `""` and `0` stand for "not supplied". */
  datatype TenantPatch = TenantPatch(name: string, status: string, plan: string, maxUsers: int, maxProjects: int)

  /** A field only a super admin may write is present. */
  predicate TouchesSubscription(p: TenantPatch) {
    p.status != "" || p.plan != "" || p.maxUsers != 0 || p.maxProjects != 0
  }

  /** One `column = $idx` entry of the `updates` list. */
  datatype TenantSet =
    | SetName(name: string)
    | SetStatus(status: string)
    | SetPlan(plan: string)
    | SetMaxUsers(maxUsers: int)
    | SetMaxProjects(maxProjects: int)

  function ApplySet(t: Tenant, s: TenantSet): Tenant {
    match s
    case SetName(n) => t.(name := n)
    case SetStatus(st) => t.(status := st)
    case SetPlan(pl) => t.(plan := pl)
    case SetMaxUsers(m) => t.(maxUsers := m)
    case SetMaxProjects(m) => t.(maxProjects := m)
  }

  function ApplySets(t: Tenant, sets: seq<TenantSet>): Tenant {
    ApplyAll(t, sets, ApplySet)
  }


  /** The row after the update, stated directly: the name for every
      permitted caller, the subscription fields for a super admin only. */
  function TenantPatched(t: Tenant, p: TenantPatch, isSuper: bool): Tenant {
    t.(name := OrElse(p.name, t.name),
       status := if isSuper then OrElse(p.status, t.status) else t.status,
       plan := if isSuper then OrElse(p.plan, t.plan) else t.plan,
       maxUsers := if isSuper && p.maxUsers != 0 then p.maxUsers else t.maxUsers,
       maxProjects := if isSuper && p.maxProjects != 0 then p.maxProjects else t.maxProjects)
  }

  predicate TenantEffective(p: TenantPatch, isSuper: bool) {
    p.name != "" || (isSuper && TouchesSubscription(p))
  }

  /** Apart from a super admin, an update can rename the tenant and do
      nothing else; the subdomain never changes. */
  lemma OnlySuperAdminChangesSubscription(t: Tenant, p: TenantPatch, isSuper: bool)
    ensures !isSuper ==> TenantPatched(t, p, isSuper) == t.(name := OrElse(p.name, t.name))
    ensures TenantPatched(t, p, isSuper).subdomain == t.subdomain
    ensures TenantPatched(t, p, isSuper).createdAt == t.createdAt
    ensures !TenantEffective(p, isSuper) ==> TenantPatched(t, p, isSuper) == t
  {
  }

  /** An entry pushed only when `pushed` holds. */
  function Optional(pushed: bool, s: TenantSet): seq<TenantSet> {
    if pushed then [s] else []
  }

  /** The `updates` list of a patch: the name, then (for a super admin)
      status, plan and the two limits, each only when supplied. */
  function TenantSets(p: TenantPatch, isSuper: bool): seq<TenantSet> {
    Optional(p.name != "", SetName(p.name))
    + Optional(isSuper && p.status != "", SetStatus(p.status))
    + Optional(isSuper && p.plan != "", SetPlan(p.plan))
    + Optional(isSuper && p.maxUsers != 0, SetMaxUsers(p.maxUsers))
    + Optional(isSuper && p.maxProjects != 0, SetMaxProjects(p.maxProjects))
  }

  lemma ApplyOptional(t: Tenant, pushed: bool, s: TenantSet)
    ensures ApplySets(t, Optional(pushed, s)) == if pushed then ApplySet(t, s) else t
  {
    if pushed {
      assert [s][1..] == [];
      assert ApplyAll(t, [s], ApplySet) == ApplyAll(ApplySet(t, s), [], ApplySet);
    }
  }

  /** The list is empty exactly when the patch writes nothing. */
  lemma TenantSetsEmpty(p: TenantPatch, isSuper: bool)
    ensures TenantSets(p, isSuper) == [] <==> !TenantEffective(p, isSuper)
  {
    if TenantEffective(p, isSuper) {
      assert |TenantSets(p, isSuper)| > 0;
    }
  }

  /** Applying the list entry by entry gives the stated row. */
  lemma TenantSetsPatch(t: Tenant, p: TenantPatch, isSuper: bool)
    ensures ApplySets(t, TenantSets(p, isSuper)) == TenantPatched(t, p, isSuper)
  {
    var a := Optional(p.name != "", SetName(p.name));
    var b := Optional(isSuper && p.status != "", SetStatus(p.status));
    var d := Optional(isSuper && p.plan != "", SetPlan(p.plan));
    var e := Optional(isSuper && p.maxUsers != 0, SetMaxUsers(p.maxUsers));
    var f := Optional(isSuper && p.maxProjects != 0, SetMaxProjects(p.maxProjects));
    var t1 := ApplySets(t, a);
    ApplyOptional(t, p.name != "", SetName(p.name));
    var t2 := ApplySets(t1, b);
    ApplyOptional(t1, isSuper && p.status != "", SetStatus(p.status));
    var t3 := ApplySets(t2, d);
    ApplyOptional(t2, isSuper && p.plan != "", SetPlan(p.plan));
    var t4 := ApplySets(t3, e);
    ApplyOptional(t3, isSuper && p.maxUsers != 0, SetMaxUsers(p.maxUsers));
    ApplyOptional(t4, isSuper && p.maxProjects != 0, SetMaxProjects(p.maxProjects));
    ApplyAllAppend(t, a, b, ApplySet);
    ApplyAllAppend(t, a + b, d, ApplySet);
    ApplyAllAppend(t, a + b + d, e, ApplySet);
    ApplyAllAppend(t, a + b + d + e, f, ApplySet);
  }

  /** Builds the `updates` list by pushing one entry per written column. */
  method TenantUpdates(p: TenantPatch, isSuper: bool) returns (sets: seq<TenantSet>)
    ensures sets == [] <==> !TenantEffective(p, isSuper)
    ensures forall t :: ApplySets(t, sets) == TenantPatched(t, p, isSuper)
  {
    sets := [];
    if p.name != "" { sets := sets + [SetName(p.name)]; }
    assert sets == Optional(p.name != "", SetName(p.name));
    ghost var before := sets;
    if isSuper {
      if p.status != "" { sets := sets + [SetStatus(p.status)]; }
      assert sets == before + Optional(isSuper && p.status != "", SetStatus(p.status));
      before := sets;
      if p.plan != "" { sets := sets + [SetPlan(p.plan)]; }
      assert sets == before + Optional(isSuper && p.plan != "", SetPlan(p.plan));
      before := sets;
      if p.maxUsers != 0 { sets := sets + [SetMaxUsers(p.maxUsers)]; }
      assert sets == before + Optional(isSuper && p.maxUsers != 0, SetMaxUsers(p.maxUsers));
      before := sets;
      if p.maxProjects != 0 { sets := sets + [SetMaxProjects(p.maxProjects)]; }
      assert sets == before + Optional(isSuper && p.maxProjects != 0, SetMaxProjects(p.maxProjects));
    }
    assert sets == TenantSets(p, isSuper);
    TenantSetsEmpty(p, isSuper);
    forall t ensures ApplySets(t, sets) == TenantPatched(t, p, isSuper) {
      TenantSetsPatch(t, p, isSuper);
    }
  }

  /** `PUT /tenants/:tenantId`. The members' check lets a plain `user` of
      the tenant through; only a `tenant_admin` is refused the subscription
      fields, and a plain user's are ignored. With nothing to write the
      handler answers before it looks the tenant up. */
  method UpdateTenant(db: Store, c: Claims, tenantId: Id, p: TenantPatch) returns (r: Reply<(Id, Tenant)>)
    requires db.Valid()
    modifies db
    ensures db.Valid()
    ensures r.Fail? || !TenantEffective(p, c.role == SuperAdmin) ==> unchanged(db)
    ensures !MayAccess(c, tenantId) ==> r == Fail(403, "Not authorized")
    ensures MayAccess(c, tenantId) && c.role == TenantAdmin && TouchesSubscription(p)
      ==> r == Fail(403, "Tenant admins can only update name")
    ensures MayAccess(c, tenantId) && !(c.role == TenantAdmin && TouchesSubscription(p))
      && !TenantEffective(p, c.role == SuperAdmin)
      ==> r == Ok(200, "No changes made", None)
    ensures MayAccess(c, tenantId) && !(c.role == TenantAdmin && TouchesSubscription(p))
      && TenantEffective(p, c.role == SuperAdmin) && tenantId !in old(db.tenants)
      ==> r == Fail(404, "Tenant not found")
    ensures r.Ok? <==>
      MayAccess(c, tenantId) && !(c.role == TenantAdmin && TouchesSubscription(p))
      && (TenantEffective(p, c.role == SuperAdmin) ==> tenantId in old(db.tenants))
    ensures r.Ok? && TenantEffective(p, c.role == SuperAdmin) ==>
      var t := TenantPatched(old(db.tenants)[tenantId], p, c.role == SuperAdmin);
      && r == Ok(200, "Tenant updated successfully", Some((tenantId, t)))
      && db.tenants == old(db.tenants)[tenantId := t]
      && db.users == old(db.users) && db.projects == old(db.projects) && db.tasks == old(db.tasks)
      && db.nextId == old(db.nextId)
      && db.audit == old(db.audit) + [AuditEvent(Some(tenantId), Some(c.userId), "UPDATE_TENANT", "tenant", tenantId)]
  {
    if c.role != SuperAdmin && c.tenantId != Some(tenantId) {
      return Fail(403, "Not authorized");
    }
    if c.role == TenantAdmin && TouchesSubscription(p) {
      return Fail(403, "Tenant admins can only update name");
    }
    var isSuper := c.role == SuperAdmin;
    var sets := TenantUpdates(p, isSuper);
    if sets == [] {
      return Ok(200, "No changes made", None);
    }
    if tenantId !in db.tenants {
      return Fail(404, "Tenant not found");
    }
    var t := ApplySets(db.tenants[tenantId], sets);
    OnlySuperAdminChangesSubscription(db.tenants[tenantId], p, isSuper);
    TenantWritten(db.tenants, db.users, db.projects, db.tasks, db.nextId, db.nextId, tenantId, t);
    db.Commit(db.tenants[tenantId := t], db.users, db.projects, db.tasks, db.nextId);
    db.Log(AuditEvent(Some(tenantId), Some(c.userId), "UPDATE_TENANT", "tenant", tenantId));
    r := Ok(200, "Tenant updated successfully", Some((tenantId, t)));
  }

  // ---- listTenants

  /** The query string of `GET /tenants`. */
  datatype TenantQuery = TenantQuery(status: string, plan: string, page: Option<int>, limit: Option<int>)

  datatype TenantClause =
    | StatusIs(status: string)
    | PlanIs(plan: string)

  predicate TenantHolds(c: TenantClause, t: Tenant) {
    match c
    case StatusIs(s) => t.status == s
    case PlanIs(pl) => t.plan == pl
  }

  /** The clauses joined with `AND`; none at all is no `WHERE`. */
  predicate TenantWhere(cs: seq<TenantClause>, t: Tenant) {
    forall i :: 0 <= i < |cs| ==> TenantHolds(cs[i], t)
  }

  predicate TenantListed(q: TenantQuery, t: Tenant) {
    (q.status != "" ==> t.status == q.status) && (q.plan != "" ==> t.plan == q.plan)
  }

  method TenantFilter(q: TenantQuery) returns (cs: seq<TenantClause>)
    ensures cs == [] <==> q.status == "" && q.plan == ""
    ensures forall t :: TenantWhere(cs, t) <==> TenantListed(q, t)
  {
    cs := [];
    if q.status != "" { cs := cs + [StatusIs(q.status)]; }
    if q.plan != "" { cs := cs + [PlanIs(q.plan)]; }
    forall t ensures TenantWhere(cs, t) <==> TenantListed(q, t) {
      if TenantWhere(cs, t) {
        if q.status != "" { assert TenantHolds(cs[0], t); }
        if q.plan != "" { assert TenantHolds(cs[|cs| - 1], t); }
      }
    }
  }

  function TenantKey(t: Tenant): Key {
    NewestFirst(t.createdAt)
  }

  /** `t.*` with `total_users` and `total_projects`. */
  datatype TenantRow = TenantRow(id: Id, tenant: Tenant, totalUsers: nat, totalProjects: nat)

  function FormatTenants(tenants: map<Id, Tenant>, users: map<Id, User>, projects: map<Id, Project>, ids: seq<Id>)
    : (vs: seq<TenantRow>)
    requires forall i :: 0 <= i < |ids| ==> ids[i] in tenants
    ensures |vs| == |ids|
    ensures forall i :: 0 <= i < |ids| ==>
      vs[i] == TenantRow(ids[i], tenants[ids[i]], |UsersOf(users, ids[i])|, |ProjectsOf(projects, ids[i])|)
  {
    seq(|ids|, i requires 0 <= i < |ids| =>
      TenantRow(ids[i], tenants[ids[i]], |UsersOf(users, ids[i])|, |ProjectsOf(projects, ids[i])|))
  }

  /** `GET /tenants`, for super admins only; `total` is the
      `pagination.totalTenants` of the response. */
  method ListTenants(db: Store, c: Claims, q: TenantQuery)
    returns (r: Reply<Page<TenantRow>>, ghost ordered: seq<Id>)
    ensures c.role != SuperAdmin ==> r == Fail(403, "Not authorized")
    ensures var page, limit := q.page.GetOr(1), q.limit.GetOr(10);
      c.role == SuperAdmin && (limit < 0 || Offset(page, limit) < 0) ==> r == Fail(500, ServerError)
    ensures var page, limit := q.page.GetOr(1), q.limit.GetOr(10);
      r.Ok? <==> c.role == SuperAdmin && limit >= 0 && Offset(page, limit) >= 0
    ensures forall i :: 0 <= i < |ordered| ==> ordered[i] in db.tenants && TenantListed(q, db.tenants[ordered[i]])
    ensures r.Ok? ==> forall k :: k in db.tenants && TenantListed(q, db.tenants[k]) ==> k in ordered
    ensures forall i, j :: 0 <= i < j < |ordered| ==> ordered[i] != ordered[j]
    ensures forall i, j :: 0 <= i < j < |ordered| ==>
      db.tenants[ordered[i]].createdAt >= db.tenants[ordered[j]].createdAt
    ensures r.Ok? ==>
      var page, limit := q.page.GetOr(1), q.limit.GetOr(10);
      && r.status == 200 && r.message == "Tenants list" && r.data.Some?
      && r.data.value.total == |ordered|
      && r.data.value.total == |set k | k in db.tenants && TenantListed(q, db.tenants[k])|
      && r.data.value.items == FormatTenants(db.tenants, db.users, db.projects, Window(ordered, Offset(page, limit), limit))
      && r.data.value.currentPage == page && r.data.value.limit == limit
      && r.data.value.totalPages == TotalPages(|ordered|, limit)
  {
    ordered := [];
    if c.role != SuperAdmin {
      return Fail(403, "Not authorized"), ordered;
    }
    var page, limit := q.page.GetOr(1), q.limit.GetOr(10);
    var offset := Offset(page, limit);
    var cs := TenantFilter(q);
    var ids := Select(db.tenants, (t: Tenant) => TenantWhere(cs, t), TenantKey);
    ordered := ids;
    assert (set k | k in db.tenants && TenantListed(q, db.tenants[k]))
        == Matching(db.tenants, (t: Tenant) => TenantWhere(cs, t));
    forall i, j | 0 <= i < j < |ordered|
      ensures db.tenants[ordered[i]].createdAt >= db.tenants[ordered[j]].createdAt
    {
      NewestFirstOrder(db.tenants[ordered[i]].createdAt, db.tenants[ordered[j]].createdAt);
    }
    if limit < 0 || offset < 0 {
      return Fail(500, ServerError), ordered;
    }
    var shown := Window(ids, offset, limit);
    r := Ok(200, "Tenants list", Some(Page(FormatTenants(db.tenants, db.users, db.projects, shown), |ids|, page, TotalPages(|ids|, limit), limit)));
  }
}
