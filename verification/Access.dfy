// Users, roles and the guards that keep a shop from locking its owner out or from
// handing out power nobody gave. Every operation is taken as one step.

module Access {

  datatype User = User(name: string, role: nat, active: bool)

  datatype Role = Role(name: string, system: bool, perms: seq<string>)

  // Ids come from AUTOINCREMENT: users are never removed, role ids never reused.
  datatype Staff = Staff(users: seq<User>, roles: map<nat, Role>, nextRole: nat)

  datatype Answer = Ok | BadRequest | Forbidden | NotFound | Conflict

  datatype Change = Change(staff: Staff, answer: Answer)

  const USERS_MANAGE := "users.manage"
  const SETTINGS_MANAGE := "settings.manage"
  const ROLES_MANAGE := "roles.manage"
  const AUTHORITY := [USERS_MANAGE, SETTINGS_MANAGE, ROLES_MANAGE]

  // ---- who holds what ----

  predicate IncludesBoth(perms: seq<string>, a: string, b: string) {
    a in perms && b in perms
  }

  predicate OwnerLevel(perms: seq<string>) {
    IncludesBoth(perms, SETTINGS_MANAGE, USERS_MANAGE)
  }

  predicate Holds(s: Staff, u: nat, key: string) {
    u < |s.users| && s.users[u].active && s.users[u].role in s.roles && key in s.roles[s.users[u].role].perms
  }

  function Holders(s: Staff, key: string): set<nat> {
    set u: nat | u < |s.users| && Holds(s, u, key)
  }

  predicate Owner(s: Staff, u: nat) {
    Holds(s, u, SETTINGS_MANAGE) && Holds(s, u, USERS_MANAGE)
  }

  predicate OwnerExists(s: Staff) {
    exists u: nat :: u < |s.users| && Owner(s, u)
  }

  // ---- guards ----

  // No authority key in these permissions that the caller lacks.
  predicate MayGrant(s: Staff, caller: nat, perms: seq<string>) {
    forall key :: key in AUTHORITY && key in perms ==> Holds(s, caller, key)
  }

  predicate OtherOwner(s: Staff, target: nat) {
    exists u: nat :: u < |s.users| && u != target && Owner(s, u)
  }

  // lastOwnerGuard on a user that exists and roles that exist.
  predicate KeepsAnOwner(s: Staff, caller: nat, target: nat, newRole: nat, active: bool)
    requires target < |s.users| && s.users[target].role in s.roles && (active ==> newRole in s.roles)
  {
    if !active && target == caller then false
    else if active && OwnerLevel(s.roles[newRole].perms) then true
    else if !OwnerLevel(s.roles[s.users[target].role].perms) then true
    else OtherOwner(s, target)
  }

  predicate OwnerOutside(s: Staff, role: nat) {
    exists u: nat :: u < |s.users| && Owner(s, u) && s.users[u].role != role
  }

  // guardLastOwnerStrip on a role that exists.
  predicate SurvivesStrip(s: Staff, role: nat, perms: seq<string>)
    requires role in s.roles
  {
    !OwnerLevel(s.roles[role].perms) || OwnerLevel(perms) || OwnerOutside(s, role)
  }

  // ---- operations ----

  function Deduped(perms: seq<string>): (ps: seq<string>)
    ensures forall p :: p in ps <==> p in perms
  {
    if perms == [] then []
    else
      var ps := Deduped(perms[..|perms| - 1]);
      if perms[|perms| - 1] in ps then ps else ps + [perms[|perms| - 1]]
  }

  predicate NameTaken(users: seq<User>, name: string) {
    exists i :: 0 <= i < |users| && users[i].name == name
  }

  predicate RoleNameTaken(roles: map<nat, Role>, name: string) {
    exists r :: r in roles && roles[r].name == name
  }

  function CreateUser(s: Staff, caller: nat, name: string, role: nat, active: bool, acceptable: bool): Change {
    if !acceptable || role !in s.roles then Change(s, BadRequest)
    else if !MayGrant(s, caller, s.roles[role].perms) then Change(s, Forbidden)
    else if NameTaken(s.users, name) then Change(s, Conflict)
    else Change(s.(users := s.users + [User(name, role, active)]), Ok)
  }

  function UpdateUser(s: Staff, caller: nat, target: nat, role: nat, active: bool): Change {
    if target < |s.users| && s.users[target].role !in s.roles then Change(s, Conflict)
    else if active && role !in s.roles then Change(s, Conflict)
    else if !active && target == caller then Change(s, Conflict)
    else if target < |s.users| && !KeepsAnOwner(s, caller, target, role, active) then Change(s, Conflict)
    else if role !in s.roles then Change(s, Conflict)
    else if !MayGrant(s, caller, s.roles[role].perms) then Change(s, Forbidden)
    else if target >= |s.users| then Change(s, NotFound)
    else Change(s.(users := s.users[target := s.users[target].(role := role, active := active)]), Ok)
  }

  function DeactivateUser(s: Staff, caller: nat, target: nat): Change {
    if target == caller then Change(s, Conflict)
    else if target >= |s.users| then Change(s, NotFound)
    else if s.users[target].role !in s.roles then Change(s, Conflict)
    else if !KeepsAnOwner(s, caller, target, 0, false) then Change(s, Conflict)
    else Change(s.(users := s.users[target := s.users[target].(active := false)]), Ok)
  }

  function CreateRole(s: Staff, caller: nat, name: string, perms: seq<string>, known: set<string>): Change {
    if exists p :: p in perms && p !in known then Change(s, BadRequest)
    else if !MayGrant(s, caller, perms) then Change(s, Forbidden)
    else if RoleNameTaken(s.roles, name) then Change(s, Conflict)
    else Change(s.(roles := s.roles[s.nextRole := Role(name, false, Deduped(perms))], nextRole := s.nextRole + 1), Ok)
  }

  function UpdateRole(s: Staff, caller: nat, role: nat, perms: seq<string>, known: set<string>): Change {
    if exists p :: p in perms && p !in known then Change(s, BadRequest)
    else if !MayGrant(s, caller, perms) then Change(s, Forbidden)
    else if role !in s.roles then Change(s, Conflict)
    else if !SurvivesStrip(s, role, perms) then Change(s, Conflict)
    else Change(s.(roles := s.roles[role := s.roles[role].(perms := Deduped(perms))]), Ok)
  }

  predicate Assigned(users: seq<User>, role: nat) {
    exists i :: 0 <= i < |users| && users[i].role == role
  }

  function DeleteRole(s: Staff, role: nat): Change {
    if role !in s.roles then Change(s, NotFound)
    else if s.roles[role].system || Assigned(s.users, role) then Change(s, Conflict)
    else Change(s.(roles := s.roles - {role}), Ok)
  }

  // ---- runs ----

  datatype Op =
    | DoCreateUser(name: string, role: nat, active: bool, acceptable: bool)
    | DoUpdateUser(target: nat, role: nat, active: bool)
    | DoDeactivateUser(target: nat)
    | DoCreateRole(title: string, perms: seq<string>, known: set<string>)
    | DoUpdateRole(role: nat, perms: seq<string>, known: set<string>)
    | DoDeleteRole(role: nat)
  {
    // The permission the route asks for.
    function Needs(): string {
      if DoCreateUser? || DoUpdateUser? || DoDeactivateUser? then USERS_MANAGE else ROLES_MANAGE
    }
  }

  function Perform(s: Staff, caller: nat, op: Op): Change {
    match op
    case DoCreateUser(name, role, active, acceptable) => CreateUser(s, caller, name, role, active, acceptable)
    case DoUpdateUser(target, role, active) => UpdateUser(s, caller, target, role, active)
    case DoDeactivateUser(target) => DeactivateUser(s, caller, target)
    case DoCreateRole(name, perms, known) => CreateRole(s, caller, name, perms, known)
    case DoUpdateRole(role, perms, known) => UpdateRole(s, caller, role, perms, known)
    case DoDeleteRole(role) => DeleteRole(s, role)
  }

  // A request by a signed-in user: permissions are read afresh, and the route is closed without its key.
  datatype Request = Request(caller: nat, op: Op)

  function Step(s: Staff, r: Request): Staff {
    if Holds(s, r.caller, r.op.Needs()) then Perform(s, r.caller, r.op).staff else s
  }

  function Run(s: Staff, requests: seq<Request>): Staff {
    if requests == [] then s else Step(Run(s, requests[..|requests| - 1]), requests[|requests| - 1])
  }

  // Foreign keys hold and role ids in use are below the next one.
  predicate Sound(s: Staff) {
    && (forall u :: u in s.users ==> u.role in s.roles)
    && (forall r :: r in s.roles ==> r < s.nextRole)
  }

  lemma PerformSound(s: Staff, caller: nat, op: Op)
    requires Sound(s)
    ensures Sound(Perform(s, caller, op).staff)
  {
  }

  // ---- the owner stays ----

  // The guard on user changes refuses exactly self-deactivation and the changes
  // that would leave no active owner.
  lemma OwnerGuardExact(s: Staff, caller: nat, target: nat, role: nat, active: bool)
    requires Sound(s) && OwnerExists(s) && target < |s.users| && role in s.roles
    ensures var t := s.(users := s.users[target := s.users[target].(role := role, active := active)]);
            KeepsAnOwner(s, caller, target, role, active) <==> OwnerExists(t) && !(!active && target == caller)
  {
    var t := s.(users := s.users[target := s.users[target].(role := role, active := active)]);
    assert s.users[target] in s.users;
    if OtherOwner(s, target) {
      var u: nat :| u < |s.users| && u != target && Owner(s, u);
      assert Owner(t, u);
    } else {
      var o: nat :| o < |s.users| && Owner(s, o);
      assert o == target;
    }
    if active && OwnerLevel(s.roles[role].perms) {
      assert Owner(t, target);
    }
    if OwnerExists(t) {
      var u: nat :| u < |t.users| && Owner(t, u);
      assert u != target ==> Owner(s, u);
    }
  }

  // The guard on role changes refuses exactly those that would leave no active owner.
  lemma StripGuardExact(s: Staff, role: nat, perms: seq<string>)
    requires Sound(s) && OwnerExists(s) && role in s.roles
    ensures SurvivesStrip(s, role, perms) <==> OwnerExists(s.(roles := s.roles[role := s.roles[role].(perms := Deduped(perms))]))
  {
    var t := s.(roles := s.roles[role := s.roles[role].(perms := Deduped(perms))]);
    var o: nat :| o < |s.users| && Owner(s, o);
    if OwnerOutside(s, role) {
      var u: nat :| u < |s.users| && Owner(s, u) && s.users[u].role != role;
      assert Owner(t, u);
    } else if OwnerLevel(perms) {
      assert Owner(t, o);
    }
    if OwnerExists(t) {
      var u: nat :| u < |t.users| && Owner(t, u);
      assert s.users[u].role != role ==> Owner(s, u);
    }
  }

  lemma PerformKeepsOwner(s: Staff, caller: nat, op: Op)
    requires Sound(s) && OwnerExists(s)
    ensures OwnerExists(Perform(s, caller, op).staff)
  {
    var t := Perform(s, caller, op).staff;
    if t != s {
      match op
      case DoCreateUser(_, _, _, _) =>
        var o: nat :| o < |s.users| && Owner(s, o);
        assert Owner(t, o);
      case DoUpdateUser(target, role, active) => OwnerGuardExact(s, caller, target, role, active);
      case DoDeactivateUser(target) =>
        assert s.users[target] in s.users;
        OwnerGuardExact(s, caller, target, s.users[target].role, false);
      case DoCreateRole(_, _, _) =>
        var o: nat :| o < |s.users| && Owner(s, o);
        assert Owner(t, o);
      case DoUpdateRole(role, perms, _) => StripGuardExact(s, role, perms);
      case DoDeleteRole(role) =>
        var o: nat :| o < |s.users| && Owner(s, o);
        assert Owner(t, o);
    }
  }

  // Over every run of requests at least one active owner-level user remains.
  lemma {:induction false} OwnerAlwaysRemains(s: Staff, requests: seq<Request>)
    requires Sound(s) && OwnerExists(s)
    ensures Sound(Run(s, requests)) && OwnerExists(Run(s, requests))
  {
    if requests != [] {
      var rest := requests[..|requests| - 1];
      OwnerAlwaysRemains(s, rest);
      var r := requests[|requests| - 1];
      PerformSound(Run(s, rest), r.caller, r.op);
      PerformKeepsOwner(Run(s, rest), r.caller, r.op);
    }
  }

  // ---- no power out of nothing ----

  // A caller without an authority key cannot enlarge the set of its active holders.
  lemma NoEscalation(s: Staff, caller: nat, op: Op, key: string)
    requires Sound(s) && key in AUTHORITY && !Holds(s, caller, key)
    ensures Holders(Perform(s, caller, op).staff, key) <= Holders(s, key)
  {
  }

  // The caller of a successful step stays active.
  lemma CallerStays(s: Staff, caller: nat, op: Op)
    requires caller < |s.users| && s.users[caller].active
    ensures var t := Perform(s, caller, op).staff; caller < |t.users| && t.users[caller].active
  {
  }

  // A role may go only while nobody has it, so no user gains or loses anything.
  lemma DeletingTouchesNobody(s: Staff, role: nat, key: string)
    requires Sound(s)
    ensures Holders(DeleteRole(s, role).staff, key) == Holders(s, key)
    ensures DeleteRole(s, role).answer == Ok
            <==> role in s.roles && !s.roles[role].system && forall u: nat :: u < |s.users| ==> s.users[u].role != role
  {
    var t := DeleteRole(s, role).staff;
    forall u: nat | u < |s.users|
      ensures Holds(t, u, key) <==> Holds(s, u, key)
    {
      assert s.users[u] in s.users;
    }
  }

  // Once nobody active holds an authority key, no run of requests brings it back.
  lemma {:induction false} LostKeysStayLost(s: Staff, requests: seq<Request>, key: string)
    requires Sound(s) && key in AUTHORITY && Holders(s, key) == {}
    ensures Sound(Run(s, requests)) && Holders(Run(s, requests), key) == {}
  {
    if requests != [] {
      var rest := requests[..|requests| - 1];
      var r := requests[|requests| - 1];
      LostKeysStayLost(s, rest, key);
      assert r.caller !in Holders(Run(s, rest), key);
      PerformSound(Run(s, rest), r.caller, r.op);
      NoEscalation(Run(s, rest), r.caller, r.op, key);
    }
  }
}
