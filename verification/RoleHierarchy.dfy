/** Role-based access control with inheritance: app/services/rbac_service.py and the role handlers of
    app/routers/roles.py. */
module RoleHierarchy {
  import opened Options
  import Delimited

  datatype Permission = Permission(resource: string, action: string)

  datatype Role = Role(name: string, parent: Option<string>)

  datatype Grant = Grant(user: string, role: string)

  /** The roles, the permission rows of each role, and the role grants in table order. */
  datatype Tables = Tables(roles: map<string, Role>, permissions: map<string, seq<Permission>>, grants: seq<Grant>)

  // ---- The hierarchy ----

  /** The role that r inherits from. A missing row, NULL and the empty string all mean none. */
  function Parent(roles: map<string, Role>, r: string): Option<string> {
    if r in roles && roles[r].parent.Some? && roles[r].parent.value != "" then roles[r].parent else None
  }

  /** x is the k-th ancestor of r. */
  predicate Ancestor(roles: map<string, Role>, r: string, x: string, k: nat)
    decreases k
  {
    if k == 0 then r == x else Parent(roles, r).Some? && Ancestor(roles, Parent(roles, r).value, x, k - 1)
  }

  /** x is r or one of its ancestors: the reflexive-transitive closure of Parent. */
  ghost predicate Inherits(roles: map<string, Role>, r: string, x: string) {
    exists k: nat :: Ancestor(roles, r, x, k)
  }

  function OwnRows(t: Tables, r: string): seq<Permission> {
    if r in t.permissions then t.permissions[r] else []
  }

  function Encode(p: Permission): string {
    p.resource + [':'] + p.action
  }

  function EncodeAll(rows: seq<Permission>): set<string> {
    set p | p in rows :: Encode(p)
  }

  // ---- The recursive walk and its meaning ----

  /** The roles a walk from r visits when it must not enter `visited`. */
  function Walk(roles: map<string, Role>, r: string, visited: set<string>): set<string>
    decreases roles.Keys - visited, r in roles
  {
    if r in visited then {} else
    match Parent(roles, r)
    case None => {r}
    case Some(p) => {r} + Walk(roles, p, visited + {r})
  }

  /** Every parent of a visited role has been visited, or is r, about to be. */
  ghost predicate ClosedBut(roles: map<string, Role>, visited: set<string>, r: string) {
    forall v | v in visited && Parent(roles, v).Some? :: Parent(roles, v).value in visited + {r}
  }

  ghost predicate Closed(roles: map<string, Role>, visited: set<string>) {
    forall v | v in visited && Parent(roles, v).Some? :: Parent(roles, v).value in visited
  }

  /** A walk stays inside the closure of its start, and leaves a closed set of visited roles. */
  lemma {:induction false} WalkCloses(roles: map<string, Role>, r: string, visited: set<string>)
    requires ClosedBut(roles, visited, r)
    ensures Closed(roles, visited + Walk(roles, r, visited)) && r in visited + Walk(roles, r, visited)
    ensures forall x | x in Walk(roles, r, visited) :: Inherits(roles, r, x)
    decreases roles.Keys - visited, r in roles
  {
    if r !in visited {
      assert Ancestor(roles, r, r, 0);
      match Parent(roles, r)
      case None =>
      case Some(p) =>
        WalkCloses(roles, p, visited + {r});
        assert visited + {r} + Walk(roles, p, visited + {r}) == visited + Walk(roles, r, visited);
        forall x | x in Walk(roles, p, visited + {r})
          ensures Inherits(roles, r, x)
        {
          var k: nat :| Ancestor(roles, p, x, k);
          assert Ancestor(roles, r, x, k + 1);
        }
    }
  }

  /** A closed set holds every ancestor of its members. */
  lemma {:induction false} ClosedHoldsAncestors(roles: map<string, Role>, visited: set<string>, r: string, x: string,
                                                k: nat)
    requires Closed(roles, visited) && r in visited && Ancestor(roles, r, x, k)
    ensures x in visited
    decreases k
  {
    if k > 0 {
      ClosedHoldsAncestors(roles, visited, Parent(roles, r).value, x, k - 1);
    }
  }

  /** From a closed set of visited roles, a walk adds exactly the closure of its start: sharing the set
      between walks loses nothing, whatever cycles the hierarchy has. */
  lemma WalkIsClosure(roles: map<string, Role>, r: string, visited: set<string>)
    requires Closed(roles, visited)
    ensures Closed(roles, visited + Walk(roles, r, visited))
    ensures forall x :: x in visited + Walk(roles, r, visited) <==> x in visited || Inherits(roles, r, x)
  {
    WalkCloses(roles, r, visited);
    forall x | Inherits(roles, r, x)
      ensures x in visited + Walk(roles, r, visited)
    {
      var k: nat :| Ancestor(roles, r, x, k);
      ClosedHoldsAncestors(roles, visited + Walk(roles, r, visited), r, x, k);
    }
  }

  // ---- Effective permissions ----

  function RolesOf(grants: seq<Grant>, user: string): seq<string> {
    if grants == [] then [] else
    (if grants[0].user == user then [grants[0].role] else []) + RolesOf(grants[1..], user)
  }

  lemma {:induction false} RolesOfSpec(grants: seq<Grant>, user: string)
    ensures forall r :: r in RolesOf(grants, user) <==> Grant(user, r) in grants
  {
    if grants != [] {
      RolesOfSpec(grants[1..], user);
      assert grants == [grants[0]] + grants[1..];
    }
  }

  /** Some granted role inherits from a role that has this permission row. */
  ghost predicate Holds(t: Tables, user: string, p: Permission) {
    exists r, x :: Grant(user, r) in t.grants && Inherits(t.roles, r, x) && p in OwnRows(t, x)
  }

  /** Some role of rs inherits from x. */
  ghost predicate Reaches(roles: map<string, Role>, rs: seq<string>, x: string) {
    exists r :: r in rs && Inherits(roles, r, x)
  }

  /** s is the string of a permission row of a role in ids. */
  ghost predicate Collected(t: Tables, ids: set<string>, s: string) {
    exists x :: x in ids && s in EncodeAll(OwnRows(t, x))
  }

  /** One more role walked: what has been visited and collected grows by its closure. */
  lemma CollectOneMore(t: Tables, rs: seq<string>, r: string, visited: set<string>)
    requires Closed(t.roles, visited) && forall x :: x in visited <==> Reaches(t.roles, rs, x)
    ensures var visited' := visited + Walk(t.roles, r, visited);
      && Closed(t.roles, visited')
      && (forall x :: x in visited' <==> Reaches(t.roles, rs + [r], x))
      && (forall s :: Collected(t, visited', s) <==>
        Collected(t, visited, s) || Collected(t, Walk(t.roles, r, visited), s))
  {
    WalkIsClosure(t.roles, r, visited);
    assert forall q :: q in rs + [r] <==> q in rs || q == r;
  }

  lemma NothingCollected(t: Tables)
    ensures Closed(t.roles, {})
    ensures forall x :: !Reaches(t.roles, [], x)
    ensures forall s :: !Collected(t, {}, s)
  {
  }

  lemma NoGrantsIsBuiltin(t: Tables, user: string, role: string)
    requires RolesOf(t.grants, user) == []
    ensures forall s :: s in Builtin(role) <==> Effective(t, user, role, s)
  {
    RolesOfSpec(t.grants, user);
  }

  lemma CollectedAreEffective(t: Tables, user: string, role: string, visited: set<string>)
    requires RolesOf(t.grants, user) != []
    requires forall x :: x in visited <==> Reaches(t.roles, RolesOf(t.grants, user), x)
    ensures forall s :: Collected(t, visited, s) <==> Effective(t, user, role, s)
  {
    RolesOfSpec(t.grants, user);
    assert Grant(user, RolesOf(t.grants, user)[0]) in t.grants;
    forall s
      ensures Collected(t, visited, s) <==> Effective(t, user, role, s)
    {
      if Collected(t, visited, s) {
        var x :| x in visited && s in EncodeAll(OwnRows(t, x));
        var p :| p in OwnRows(t, x) && s == Encode(p);
        assert Holds(t, user, p);
      }
      if Effective(t, user, role, s) {
        var p :| Holds(t, user, p) && s == Encode(p);
        var r, x :| Grant(user, r) in t.grants && Inherits(t.roles, r, x) && p in OwnRows(t, x);
        assert x in visited;
      }
    }
  }

  /** What a user without explicit grants may do, by the role string on the user row. */
  function Builtin(role: string): set<string> {
    match role
    case "admin" => {"*:*"}
    case "manager" => {"users:read", "users:write", "api-keys:read", "roles:read"}
    case "user" => {"self:read", "self:write", "api-keys:read"}
    case "service-account" => {"*:*"}
    case _ => {"self:read", "self:write"}
  }

  /** The same, as pairs. */
  function BuiltinPairs(role: string): set<Permission> {
    var all, self := Permission("*", "*"), {Permission("self", "read"), Permission("self", "write")};
    match role
    case "admin" => {all}
    case "manager" =>
      {Permission("users", "read"), Permission("users", "write"), Permission("api-keys", "read"),
       Permission("roles", "read")}
    case "user" => self + {Permission("api-keys", "read")}
    case "service-account" => {all}
    case _ => self
  }

  ghost predicate HasGrants(t: Tables, user: string) {
    exists r :: Grant(user, r) in t.grants
  }

  /** s is an effective permission string of the user. */
  ghost predicate Effective(t: Tables, user: string, role: string, s: string) {
    if HasGrants(t, user) then exists p :: Holds(t, user, p) && s == Encode(p) else s in Builtin(role)
  }

  // ---- Checking a permission ----

  predicate StringCheck(perms: set<string>, resource: string, action: string) {
    "*:*" in perms || Encode(Permission(resource, action)) in perms || Encode(Permission(resource, "*")) in perms
  }

  /** The check meant by the string test: a row for everything, for this pair, or for every action. */
  predicate Matches(p: Permission, resource: string, action: string) {
    p == Permission("*", "*") || (p.resource == resource && (p.action == action || p.action == "*"))
  }

  predicate ColonFree(s: string) {
    Delimited.Free(':', s)
  }

  /** p is a permission of the user: through a granted role, or built in for users without grants. */
  ghost predicate Has(t: Tables, user: string, role: string, p: Permission) {
    if HasGrants(t, user) then Holds(t, user, p) else p in BuiltinPairs(role)
  }

  /** What user_has_permission is meant to decide. */
  ghost predicate PairCheck(t: Tables, user: string, role: string, resource: string, action: string) {
    exists p :: Has(t, user, role, p) && Matches(p, resource, action)
  }

  lemma BuiltinEncoded(role: string, s: string)
    ensures s in Builtin(role) <==> exists p :: p in BuiltinPairs(role) && s == Encode(p)
  {
    var names := ["users", "api-keys", "roles", "self", "*"];
    var strings := ["users:read", "users:write", "api-keys:read", "roles:read", "self:read", "self:write", "*:*"];
    assert strings[0] == Encode(Permission("users", "read")) && strings[1] == Encode(Permission("users", "write"));
    assert strings[2] == Encode(Permission("api-keys", "read")) && strings[3] == Encode(Permission("roles", "read"));
    assert strings[4] == Encode(Permission("self", "read")) && strings[5] == Encode(Permission("self", "write"));
    assert strings[6] == Encode(Permission("*", "*"));
  }

  lemma EffectiveEncoded(t: Tables, user: string, role: string, s: string)
    ensures Effective(t, user, role, s) <==> exists p :: Has(t, user, role, p) && s == Encode(p)
  {
    BuiltinEncoded(role, s);
    hide Builtin, BuiltinPairs, Holds, HasGrants, Encode;
  }

  /** Neither name goes on from the other at a colon. */
  predicate Apart(r1: string, r2: string) {
    !Delimited.Extends(':', r1, r2) && !Delimited.Extends(':', r2, r1)
  }

  lemma EncodeInjective(p: Permission, q: Permission)
    requires Encode(p) == Encode(q)
    requires Apart(p.resource, q.resource) || (ColonFree(p.resource) && ColonFree(p.action))
    ensures p == q
  {
    if Apart(p.resource, q.resource) {
      if p != q {
        Delimited.CollisionExtends(':', p.resource, p.action, q.resource, q.action);
      }
    } else {
      var fs, gs := [p.resource, p.action], [q.resource, q.action];
      assert fs[1..] == [p.action] && gs[1..] == [q.action];
      Delimited.JoinInjectiveFixed(':', fs, gs);
      assert fs[0] == gs[0] && fs[1] == gs[1];
    }
  }

  lemma BuiltinColonFree(role: string, p: Permission)
    requires p in BuiltinPairs(role)
    ensures ColonFree(p.resource) && ColonFree(p.action)
  {
  }

  /** The permission that makes one of the three string tests succeed is the one named in it. */
  lemma StringMeansPair(t: Tables, user: string, role: string, q: Permission)
    requires Effective(t, user, role, Encode(q))
    requires q == Permission("*", "*") || (HasGrants(t, user) ==>
               forall p | Holds(t, user, p) :: Apart(q.resource, p.resource))
    ensures Has(t, user, role, q)
  {
    EffectiveEncoded(t, user, role, Encode(q));
    var p :| Has(t, user, role, p) && Encode(q) == Encode(p);
    if q == Permission("*", "*") {
      assert ColonFree(q.resource) && ColonFree(q.action);
      EncodeInjective(q, p);
    } else if HasGrants(t, user) {
      EncodeInjective(q, p);
    } else {
      BuiltinColonFree(role, p);
      EncodeInjective(p, q);
    }
  }

  /** Where the resource asked about and those of the held permissions are apart, as colon-free names are,
      the string test on a user's effective set is matching on pairs. Built-in permissions are always apart. */
  lemma StringCheckIsPairCheck(t: Tables, user: string, role: string, perms: set<string>, resource: string,
                               action: string)
    requires forall s :: s in perms <==> Effective(t, user, role, s)
    requires HasGrants(t, user) ==> forall p | Holds(t, user, p) :: Apart(resource, p.resource)
    ensures StringCheck(perms, resource, action) <==> PairCheck(t, user, role, resource, action)
  {
    hide Effective, Holds, HasGrants, BuiltinPairs, Apart;
    assert "*:*" == Encode(Permission("*", "*"));
    if StringCheck(perms, resource, action) {
      var q := if "*:*" in perms then Permission("*", "*")
               else if Encode(Permission(resource, action)) in perms then Permission(resource, action)
               else Permission(resource, "*");
      StringMeansPair(t, user, role, q);
      assert Matches(q, resource, action);
    }
    if p :| Has(t, user, role, p) && Matches(p, resource, action) {
      EffectiveEncoded(t, user, role, Encode(p));
    }
  }

  lemma ColonFreeApart(r1: string, r2: string)
    requires ColonFree(r1) && ColonFree(r2)
    ensures Apart(r1, r2)
  {
    if Delimited.Extends(':', r1, r2) {
      Delimited.ExtendsHasDelimiter(':', r1, r2);
    }
    if Delimited.Extends(':', r2, r1) {
      Delimited.ExtendsHasDelimiter(':', r2, r1);
    }
  }

  // ---- When the string test is the pair test ----

  ghost predicate ResourcesIn(t: Tables, names: set<string>) {
    forall x, p | x in t.permissions && p in t.permissions[x] :: p.resource in names
  }

  /** With resources of these names, the string test is the pair test for all tables and all users. */
  ghost predicate AlwaysPairs(names: set<string>) {
    forall t: Tables, user: string, role: string, perms: set<string>, resource: string, action: string
      | ResourcesIn(t, names) && resource in names && forall s :: s in perms <==> Effective(t, user, role, s) ::
      StringCheck(perms, resource, action) <==> PairCheck(t, user, role, resource, action)
  }

  /** That is so exactly when no name goes on from another at a colon. */
  lemma AlwaysPairsIff(names: set<string>)
    ensures AlwaysPairs(names) <==> forall r1, r2 | r1 in names && r2 in names :: Apart(r1, r2)
  {
    if forall r1, r2 | r1 in names && r2 in names :: Apart(r1, r2) {
      forall t: Tables, user: string, role: string, perms: set<string>, resource: string, action: string
        | ResourcesIn(t, names) && resource in names && forall s :: s in perms <==> Effective(t, user, role, s)
        ensures StringCheck(perms, resource, action) <==> PairCheck(t, user, role, resource, action)
      {
        HeldIn(t, user, names);
        StringCheckIsPairCheck(t, user, role, perms, resource, action);
      }
    } else {
      var r1, r2 :| r1 in names && r2 in names && Delimited.Extends(':', r1, r2);
      ExtendingNameMisleads(names, r1, r2);
    }
  }

  lemma HeldIn(t: Tables, user: string, names: set<string>)
    requires ResourcesIn(t, names)
    ensures forall p | Holds(t, user, p) :: p.resource in names
  {
  }

  /** One user, one role without a parent, one permission row. */
  function OneRow(p: Permission): Tables {
    Tables(map[], map["r" := [p]], [Grant("u", "r")])
  }

  lemma OneRowHeld(p: Permission)
    ensures HasGrants(OneRow(p), "u") && forall q :: Holds(OneRow(p), "u", q) <==> q == p
  {
    var t := OneRow(p);
    assert Grant("u", "r") in t.grants;
    assert Ancestor(t.roles, "r", "r", 0);
    assert Inherits(t.roles, "r", "r") && p in OwnRows(t, "r");
    forall x, k: nat | Ancestor(t.roles, "r", x, k)
      ensures x == "r"
    {
      assert Parent(t.roles, "r").None?;
    }
  }

  lemma ExtendingNameMisleads(names: set<string>, longer: string, shorter: string)
    requires longer in names && shorter in names && Delimited.Extends(':', longer, shorter)
    ensures !AlwaysPairs(names)
  {
    Delimited.ExtendsCollides(':', longer, shorter);
    var a1: string, a2: string :| (longer, a1) != (shorter, a2) && longer + [':'] + a1 == shorter + [':'] + a2;
    var p, t := Permission(longer, a1), OneRow(Permission(longer, a1));
    OneRowHeld(p);
    Delimited.ExtendsHasDelimiter(':', longer, shorter);
    assert ':' !in "*" && longer != shorter;
    var perms := {Encode(p)};
    forall s
      ensures s in perms <==> Effective(t, "u", "", s)
    {
    }
    assert StringCheck(perms, shorter, a2) && !PairCheck(t, "u", "", shorter, a2);
    assert ResourcesIn(t, names);
  }

  /** Two resource names can be confused by the string test, for some actions, exactly when one is the
      other followed by a colon and more. */
  lemma ResourcesConfusedIff(r1: string, r2: string)
    requires r1 != r2
    ensures (exists a1: string, a2: string :: Encode(Permission(r1, a1)) == Encode(Permission(r2, a2)))
       <==> (Delimited.Extends(':', r1, r2) || Delimited.Extends(':', r2, r1))
  {
    Delimited.CollisionIff(':', r1, r2);
    if a1: string, a2: string :| (r1, a1) != (r2, a2) && r1 + [':'] + a1 == r2 + [':'] + a2 {
      assert Encode(Permission(r1, a1)) == Encode(Permission(r2, a2));
    }
    if a1: string, a2: string :| Encode(Permission(r1, a1)) == Encode(Permission(r2, a2)) {
      assert (r1, a1) != (r2, a2) && r1 + [':'] + a1 == r2 + [':'] + a2;
    }
  }

  // ---- Granting and revoking ----

  predicate UniqueGrants(t: Tables) {
    forall i, j | 0 <= i < j < |t.grants| :: t.grants[i] != t.grants[j]
  }

  /** A second grant of the same role leaves the table alone. */
  function GrantRole(t: Tables, user: string, role: string): Tables {
    if Grant(user, role) in t.grants then t else t.(grants := t.grants + [Grant(user, role)])
  }

  function Without(grants: seq<Grant>, g: Grant): seq<Grant> {
    if grants == [] then [] else if grants[0] == g then grants[1..] else [grants[0]] + Without(grants[1..], g)
  }

  function RevokeRole(t: Tables, user: string, role: string): (Tables, bool) {
    (t.(grants := Without(t.grants, Grant(user, role))), Grant(user, role) in t.grants)
  }

  /** For a user who has a role already, a grant adds exactly the closure of the new role. */
  lemma GrantAddsClosure(t: Tables, user: string, role: string, p: Permission)
    ensures Holds(GrantRole(t, user, role), user, p)
       <==> Holds(t, user, p) || exists x :: Inherits(t.roles, role, x) && p in OwnRows(t, x)
    ensures HasGrants(GrantRole(t, user, role), user)
    ensures UniqueGrants(t) ==> UniqueGrants(GrantRole(t, user, role))
  {
    var t' := GrantRole(t, user, role);
    assert Grant(user, role) in t'.grants;
    forall r
      ensures Grant(user, r) in t'.grants <==> Grant(user, r) in t.grants || r == role
    {
    }
    assert forall x :: OwnRows(t', x) == OwnRows(t, x);
  }

  /** The first grant replaces the built-in permissions rather than adding to them. */
  lemma FirstGrantReplacesBuiltin(t: Tables, user: string, role: string, roleString: string, s: string)
    requires !HasGrants(t, user)
    ensures Effective(t, user, roleString, s) <==> s in Builtin(roleString)
    ensures Effective(GrantRole(t, user, role), user, roleString, s)
       <==> exists x, p :: Inherits(t.roles, role, x) && p in OwnRows(t, x) && s == Encode(p)
  {
    var t' := GrantRole(t, user, role);
    assert Grant(user, role) in t'.grants;
    if Effective(t', user, roleString, s) {
      var p :| Holds(t', user, p) && s == Encode(p);
      GrantAddsClosure(t, user, role, p);
    }
    if x, p :| Inherits(t.roles, role, x) && p in OwnRows(t, x) && s == Encode(p) {
      GrantAddsClosure(t, user, role, p);
      assert Holds(t', user, p);
    }
  }

  lemma {:induction false} WithoutAppended(grants: seq<Grant>, g: Grant)
    requires g !in grants
    ensures Without(grants + [g], g) == grants
  {
    if grants != [] {
      assert (grants + [g])[1..] == grants[1..] + [g];
      WithoutAppended(grants[1..], g);
    }
  }

  /** Granting a role the user does not have and revoking it gives back the very same tables, and with
      them the same effective permissions, built-in ones included. */
  lemma GrantThenRevoke(t: Tables, user: string, role: string)
    requires Grant(user, role) !in t.grants
    ensures RevokeRole(GrantRole(t, user, role), user, role) == (t, true)
  {
    WithoutAppended(t.grants, Grant(user, role));
  }

  lemma {:induction false} WithoutMembers(grants: seq<Grant>, g: Grant)
    requires forall i, j | 0 <= i < j < |grants| :: grants[i] != grants[j]
    ensures forall h :: h in Without(grants, g) <==> h in grants && h != g
    ensures forall i, j | 0 <= i < j < |Without(grants, g)| :: Without(grants, g)[i] != Without(grants, g)[j]
  {
    if grants != [] {
      assert grants == [grants[0]] + grants[1..];
      WithoutMembers(grants[1..], g);
      assert forall i | 0 < i < |grants| :: grants[1..][i - 1] == grants[i];
      var rest := Without(grants[1..], g);
      assert forall j | 0 <= j < |rest| :: rest[j] in rest && rest[j] != grants[0];
    }
  }

  /** Revoking takes away exactly the permissions no other granted role carries, and the last revocation
      brings the built-in ones back. */
  lemma RevokeRemoves(t: Tables, user: string, role: string, p: Permission)
    requires UniqueGrants(t)
    ensures UniqueGrants(RevokeRole(t, user, role).0)
    ensures RevokeRole(t, user, role).1 <==> Grant(user, role) in t.grants
    ensures Holds(RevokeRole(t, user, role).0, user, p)
       <==> exists r, x :: Grant(user, r) in t.grants && r != role && Inherits(t.roles, r, x) && p in OwnRows(t, x)
    ensures HasGrants(RevokeRole(t, user, role).0, user) <==> exists r :: Grant(user, r) in t.grants && r != role
  {
    WithoutMembers(t.grants, Grant(user, role));
    var t' := RevokeRole(t, user, role).0;
    assert forall r :: Grant(user, r) in t'.grants <==> Grant(user, r) in t.grants && r != role;
    assert forall x :: OwnRows(t', x) == OwnRows(t, x);
  }

  // ---- Creating roles ----

  datatype CreateOutcome = Created | NameTaken | ParentNotFound

  /** The handler: the name must be new and a named parent must exist. Role ids are fresh. */
  function CreateRole(t: Tables, id: string, name: string, parent: Option<string>): (Tables, CreateOutcome) {
    if exists r | r in t.roles :: t.roles[r].name == name then (t, NameTaken)
    else if parent.Some? && parent.value != "" && parent.value !in t.roles then (t, ParentNotFound)
    else (t.(roles := t.roles[id := Role(name, parent)]), Created)
  }

  predicate NameIn(t: Tables, name: string) {
    exists r :: r in t.roles && t.roles[r].name == name
  }

  predicate NamesUnique(roles: map<string, Role>) {
    forall r, s | r in roles && s in roles && r != s :: roles[r].name != roles[s].name
  }

  predicate HasParent(parent: Option<string>) {
    parent.Some? && parent.value != ""
  }

  /** When a role is created, and that nothing else changes: a taken name comes before a missing parent. */
  lemma CreatedIff(t: Tables, id: string, name: string, parent: Option<string>)
    requires id !in t.roles
    ensures var (t', outcome) := CreateRole(t, id, name, parent);
      && (outcome == NameTaken <==> NameIn(t, name))
      && (outcome == ParentNotFound <==> !NameIn(t, name) && HasParent(parent) && parent.value !in t.roles)
      && (outcome != Created ==> t' == t)
      && (outcome == Created ==>
            && t'.roles.Keys == t.roles.Keys + {id} && t'.roles[id].name == name
            && (forall r | r in t.roles :: t'.roles[r] == t.roles[r])
            && t'.permissions == t.permissions && t'.grants == t.grants)
  {
  }

  lemma {:induction false} AncestorOfAncestor(roles: map<string, Role>, r: string, y: string, x: string, k: nat, l: nat)
    requires Ancestor(roles, r, y, k) && Ancestor(roles, y, x, l)
    ensures Inherits(roles, r, x)
    decreases k
  {
    if k > 0 {
      AncestorOfAncestor(roles, Parent(roles, r).value, y, x, k - 1, l);
      ParentInherits(roles, r, x);
    } else {
      assert Ancestor(roles, r, x, l);
    }
  }

  lemma ParentInherits(roles: map<string, Role>, r: string, x: string)
    requires Parent(roles, r).Some? && Inherits(roles, Parent(roles, r).value, x)
    ensures Inherits(roles, r, x)
  {
    var k: nat :| Ancestor(roles, Parent(roles, r).value, x, k);
    assert Ancestor(roles, r, x, k + 1);
  }

  lemma InheritsItself(roles: map<string, Role>, r: string)
    ensures Inherits(roles, r, r)
  {
    assert Ancestor(roles, r, r, 0);
  }

  /** The table with a role added. */
  predicate Adds(roles: map<string, Role>, roles': map<string, Role>, id: string, parent: Option<string>) {
    && id !in roles && roles'.Keys == roles.Keys + {id} && (forall r | r in roles :: roles'[r] == roles[r])
    && Parent(roles', id) == if HasParent(parent) then parent else None
  }

  lemma {:induction false} OldAncestor(roles: map<string, Role>, roles': map<string, Role>, id: string,
                                       parent: Option<string>, r: string, x: string, k: nat)
    requires Adds(roles, roles', id, parent) && Ancestor(roles, r, x, k)
    ensures Ancestor(roles', r, x, k)
    decreases k
  {
    if k > 0 {
      OldAncestor(roles, roles', id, parent, Parent(roles, r).value, x, k - 1);
    }
  }

  lemma {:induction false} NewAncestor(roles: map<string, Role>, roles': map<string, Role>, id: string,
                                       parent: Option<string>, r: string, x: string, k: nat)
    requires Adds(roles, roles', id, parent) && Ancestor(roles', r, x, k)
    ensures Inherits(roles, r, x)
         || (Inherits(roles, r, id) && HasParent(parent) && Inherits(roles, parent.value, x))
    decreases k
  {
    if k == 0 {
      InheritsItself(roles, r);
    } else {
      var p := Parent(roles', r).value;
      NewAncestor(roles, roles', id, parent, p, x, k - 1);
      InheritsItself(roles, id);
      if r != id {
        assert Parent(roles, r) == Some(p);
        if Inherits(roles, p, x) {
          ParentInherits(roles, r, x);
        } else {
          ParentInherits(roles, r, id);
        }
      }
    }
  }

  /** What every role inherits after one is added: what it did, and, if it inherited from the new role's id
      before (which only a dangling parent can make it), from the new role's ancestors. */
  lemma AddedInherits(roles: map<string, Role>, roles': map<string, Role>, id: string, parent: Option<string>,
                      r: string, x: string)
    requires Adds(roles, roles', id, parent)
    ensures Inherits(roles', r, x) <==>
      Inherits(roles, r, x) || (Inherits(roles, r, id) && HasParent(parent) && Inherits(roles, parent.value, x))
  {
    if Inherits(roles', r, x) {
      var k: nat :| Ancestor(roles', r, x, k);
      NewAncestor(roles, roles', id, parent, r, x, k);
    }
    if Inherits(roles, r, x) {
      var k: nat :| Ancestor(roles, r, x, k);
      OldAncestor(roles, roles', id, parent, r, x, k);
    }
    if Inherits(roles, r, id) && HasParent(parent) && Inherits(roles, parent.value, x) {
      var k: nat :| Ancestor(roles, r, id, k);
      var l: nat :| Ancestor(roles, parent.value, x, l);
      OldAncestor(roles, roles', id, parent, r, id, k);
      OldAncestor(roles, roles', id, parent, parent.value, x, l);
      assert Ancestor(roles', id, x, l + 1);
      AncestorOfAncestor(roles', r, id, x, k, l + 1);
    }
  }

  /** A created role inherits from itself and, exactly, from what its parent inherits from; the other roles
      inherit from what they did before, unless they named the new id as an ancestor already. */
  lemma CreatedInherits(t: Tables, id: string, name: string, parent: Option<string>, r: string, x: string)
    requires id !in t.roles && CreateRole(t, id, name, parent).1 == Created
    ensures var roles' := CreateRole(t, id, name, parent).0.roles;
      && (Inherits(roles', id, x) <==> x == id || (HasParent(parent) && Inherits(t.roles, parent.value, x)))
      && (!Inherits(t.roles, r, id) ==> (Inherits(roles', r, x) <==> Inherits(t.roles, r, x)))
  {
    var roles' := CreateRole(t, id, name, parent).0.roles;
    CreatedIff(t, id, name, parent);
    assert Adds(t.roles, roles', id, parent);
    AddedInherits(t.roles, roles', id, parent, id, x);
    AddedInherits(t.roles, roles', id, parent, r, x);
    InheritsItself(t.roles, id);
    if k: nat :| Ancestor(t.roles, id, x, k) {
      assert Parent(t.roles, id).None?;
    }
    hide CreateRole;
  }

  /** In a table the handler built, no role names an id that is not there, so creation never changes what the
      other roles inherit; and no two roles have one name. */
  lemma {:induction false} ReachableTables(t: Tables, requests: seq<Request>)
    requires t.roles == map[]
    ensures var roles := CreateAll(t, requests).roles;
      && NamesUnique(roles)
      && (forall r, x | r in roles && x !in roles :: !Inherits(roles, r, x))
  {
    UniqueNames(t, requests);
    var roles := CreateAll(t, requests).roles;
    var rank := CreationOrderRanks(t, requests);
    hide CreateAll;
    forall r, x | r in roles && Inherits(roles, r, x)
      ensures x in roles
    {
      var k: nat :| Ancestor(roles, r, x, k);
      RankedAncestors(roles, rank, r, x, k);
    }
  }

  lemma {:induction false} UniqueNames(t: Tables, requests: seq<Request>)
    requires t.roles == map[]
    ensures NamesUnique(CreateAll(t, requests).roles)
  {
    if requests != [] {
      var n := |requests| - 1;
      UniqueNames(t, requests[..n]);
      CreatedName(CreateAll(t, requests[..n]), requests[n]);
    }
  }

  /** A created role has a new name. */
  lemma CreatedName(t: Tables, q: Request)
    requires NamesUnique(t.roles)
    ensures q.id !in t.roles ==> NamesUnique(CreateRole(t, q.id, q.name, q.parent).0.roles)
  {
    if q.id !in t.roles {
      CreatedIff(t, q.id, q.name, q.parent);
    }
  }

  datatype Request = Request(id: string, name: string, parent: Option<string>)

  /** The tables after a sequence of requests, each with an id never used before. */
  function CreateAll(t: Tables, requests: seq<Request>): Tables {
    if requests == [] then t else
    var before := CreateAll(t, requests[..|requests| - 1]);
    var q := requests[|requests| - 1];
    if q.id in before.roles then before else CreateRole(before, q.id, q.name, q.parent).0
  }

  /** Parents rank below their children. */
  ghost predicate Ranked(roles: map<string, Role>, rank: map<string, nat>) {
    && rank.Keys == roles.Keys
    && forall r | r in roles && Parent(roles, r).Some? ::
         Parent(roles, r).value in roles && rank[Parent(roles, r).value] < rank[r]
  }

  /** Every reachable roles table is ranked by creation order. */
  lemma {:induction false} CreationOrderRanks(t: Tables, requests: seq<Request>) returns (rank: map<string, nat>)
    requires t.roles == map[]
    ensures Ranked(CreateAll(t, requests).roles, rank)
    ensures forall r | r in rank :: rank[r] < |requests|
  {
    if requests == [] {
      rank := map[];
    } else {
      var n := |requests| - 1;
      rank := CreationOrderRanks(t, requests[..n]);
      var before, after := CreateAll(t, requests[..n]), CreateAll(t, requests);
      if after.roles != before.roles {
        var id := requests[n].id;
        rank := rank[id := n];
        forall r | r in after.roles && Parent(after.roles, r).Some?
          ensures Parent(after.roles, r).value in after.roles && rank[Parent(after.roles, r).value] < rank[r]
        {
          assert r != id ==> Parent(after.roles, r) == Parent(before.roles, r);
        }
      }
    }
  }

  /** A ranked hierarchy has no cycles: no role is its own proper ancestor. */
  lemma {:induction false} RankedAncestors(roles: map<string, Role>, rank: map<string, nat>, r: string, x: string,
                                           k: nat)
    requires Ranked(roles, rank) && r in roles && Ancestor(roles, r, x, k)
    ensures x in roles && rank[x] + k <= rank[r]
    decreases k
  {
    if k > 0 {
      RankedAncestors(roles, rank, Parent(roles, r).value, x, k - 1);
    }
  }

  /** and every chain of parents ends in a root. */
  lemma {:induction false} RankedRoot(roles: map<string, Role>, rank: map<string, nat>, r: string)
    returns (root: string, k: nat)
    requires Ranked(roles, rank) && r in roles
    ensures Ancestor(roles, r, root, k) && root in roles && Parent(roles, root).None?
    decreases rank[r]
  {
    if Parent(roles, r).None? {
      root, k := r, 0;
    } else {
      root, k := RankedRoot(roles, rank, Parent(roles, r).value);
      k := k + 1;
    }
  }

  /** Every roles table that the create handler can build from nothing is a forest. */
  lemma RolesFormAForest(t: Tables, requests: seq<Request>, r: string)
    requires t.roles == map[] && r in CreateAll(t, requests).roles
    ensures var roles := CreateAll(t, requests).roles;
      && (forall k: nat | Ancestor(roles, r, r, k) :: k == 0)
      && (exists root, k: nat :: Ancestor(roles, r, root, k) && root in roles && Parent(roles, root).None?)
  {
    var roles := CreateAll(t, requests).roles;
    var rank := CreationOrderRanks(t, requests);
    forall k: nat | Ancestor(roles, r, r, k)
      ensures k == 0
    {
      RankedAncestors(roles, rank, r, r, k);
    }
    var root, k := RankedRoot(roles, rank, r);
  }

  // ---- The code ----

  /** A set passed by reference. */
  class Visited {
    var ids: set<string>

    constructor ()
      ensures ids == {}
    {
      ids := {};
    }
  }

  class RbacService {
    var roles: map<string, Role>
    var permissions: map<string, seq<Permission>>
    var grants: seq<Grant>

    function View(): Tables
      reads this
    {
      Tables(roles, permissions, grants)
    }

    /** The permissions of roleId and its ancestors, entering no role twice. */
    method CollectRolePermissions(roleId: string, visited: Visited) returns (perms: set<string>)
      modifies visited
      ensures visited.ids == old(visited.ids) + Walk(roles, roleId, old(visited.ids))
      ensures forall s :: s in perms <==> Collected(View(), Walk(roles, roleId, old(visited.ids)), s)
      decreases roles.Keys - visited.ids, roleId in roles
    {
      if roleId in visited.ids {
        return {};
      }
      visited.ids := visited.ids + {roleId};
      perms := {};
      var rows := OwnRows(View(), roleId);
      for i := 0 to |rows|
        invariant perms == EncodeAll(rows[..i])
      {
        perms := perms + {Encode(rows[i])};
        assert rows[..i + 1] == rows[..i] + [rows[i]];
      }
      assert rows[..|rows|] == rows;
      var parent := Parent(roles, roleId);
      if parent.Some? {
        var parentPerms := CollectRolePermissions(parent.value, visited);
        perms := perms + parentPerms;
      }
    }

    /** The effective permissions are the union of the permissions of every granted role and of every role
        it inherits from, for any hierarchy and any order of grants. */
    method GetEffectivePermissions(user: string, role: string) returns (perms: set<string>)
      ensures forall s :: s in perms <==> Effective(View(), user, role, s)
    {
      hide Closed, Reaches, Collected, Effective, Walk;
      var userRoles := RolesOf(grants, user);
      if userRoles == [] {
        NoGrantsIsBuiltin(View(), user, role);
        return Builtin(role);
      }
      perms := {};
      var visited := new Visited();
      NothingCollected(View());
      for i := 0 to |userRoles|
        invariant Closed(roles, visited.ids)
        invariant forall x :: x in visited.ids <==> Reaches(roles, userRoles[..i], x)
        invariant forall s :: s in perms <==> Collected(View(), visited.ids, s)
      {
        CollectOneMore(View(), userRoles[..i], userRoles[i], visited.ids);
        assert userRoles[..i + 1] == userRoles[..i] + [userRoles[i]];
        var rolePerms := CollectRolePermissions(userRoles[i], visited);
        perms := perms + rolePerms;
      }
      assert userRoles[..|userRoles|] == userRoles;
      CollectedAreEffective(View(), user, role, visited.ids);
    }

    method UserHasPermission(user: string, resource: string, action: string, role: string) returns (allowed: bool)
      ensures allowed <==>
        || Effective(View(), user, role, "*:*")
        || Effective(View(), user, role, Encode(Permission(resource, action)))
        || Effective(View(), user, role, Encode(Permission(resource, "*")))
      ensures (HasGrants(View(), user) ==> forall p | Holds(View(), user, p) :: Apart(resource, p.resource)) ==>
        (allowed <==> PairCheck(View(), user, role, resource, action))
    {
      hide Effective, Holds, HasGrants, Apart, PairCheck;
      var perms := GetEffectivePermissions(user, role);
      allowed := "*:*" in perms || resource + [':'] + action in perms || resource + [':'] + "*" in perms;
      if HasGrants(View(), user) ==> forall p | Holds(View(), user, p) :: Apart(resource, p.resource) {
        StringCheckIsPairCheck(View(), user, role, perms, resource, action);
      }
    }

    method Create(id: string, name: string, parent: Option<string>) returns (outcome: CreateOutcome)
      requires id !in roles
      modifies this
      ensures (View(), outcome) == CreateRole(old(View()), id, name, parent)
    {
      if exists r | r in roles :: roles[r].name == name {
        return NameTaken;
      }
      if parent.Some? && parent.value != "" {
        if parent.value !in roles {
          return ParentNotFound;
        }
      }
      roles := roles[id := Role(name, parent)];
      outcome := Created;
    }

    method Assign(user: string, role: string) returns (found: bool)
      modifies this
      ensures found == (role in old(roles))
      ensures View() == if found then GrantRole(old(View()), user, role) else old(View())
    {
      found := role in roles;
      if found && Grant(user, role) !in grants {
        grants := grants + [Grant(user, role)];
      }
    }

    method Remove(user: string, role: string) returns (removed: bool)
      modifies this
      ensures (View(), removed) == RevokeRole(old(View()), user, role)
    {
      removed := Grant(user, role) in grants;
      grants := Without(grants, Grant(user, role));
    }
  }
}
