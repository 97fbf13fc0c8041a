// The user and role handlers over the tables they update in place, with the guard
// loops as they run.

module Offices {
  import opened Access

  class Office {
    var users: seq<User>
    var roles: map<nat, Role>
    var nextRole: nat

    function State(): Staff
      reads this
    {
      Staff(users, roles, nextRole)
    }

    // ---- guards ----

    static method PermsIncludeBoth(perms: seq<string>, a: string, b: string) returns (both: bool)
      ensures both == IncludesBoth(perms, a, b)
    {
      var hasA, hasB := false, false;
      for i := 0 to |perms|
        invariant hasA <==> a in perms[..i]
        invariant hasB <==> b in perms[..i]
      {
        assert perms[..i + 1] == perms[..i] + [perms[i]];
        if perms[i] == a {
          hasA := true;
        }
        if perms[i] == b {
          hasB := true;
        }
      }
      assert perms[..|perms|] == perms;
      both := hasA && hasB;
    }

    // guardGrantElevation.
    method MayProceed(caller: nat, perms: seq<string>) returns (ok: bool)
      ensures ok == MayGrant(State(), caller, perms)
    {
      for i := 0 to |AUTHORITY|
        invariant forall k :: 0 <= k < i && AUTHORITY[k] in perms ==> Holds(State(), caller, AUTHORITY[k])
      {
        var key := AUTHORITY[i];
        assert key in AUTHORITY;
        for j := 0 to |perms|
          invariant key in perms[..j] ==> Holds(State(), caller, key)
        {
          assert perms[..j + 1] == perms[..j] + [perms[j]];
          if perms[j] == key && !Holds(State(), caller, key) {
            return false;
          }
        }
        assert perms[..|perms|] == perms;
      }
      ok := true;
    }

    // Another active owner-level user than the target.
    method FindOtherOwner(target: nat) returns (found: bool)
      requires Sound(State())
      ensures found == OtherOwner(State(), target)
    {
      for u := 0 to |users|
        invariant forall v: nat :: v < u && v != target ==> !Owner(State(), v)
      {
        if users[u].active && u != target {
          assert users[u] in users;
          var both := PermsIncludeBoth(roles[users[u].role].perms, SETTINGS_MANAGE, USERS_MANAGE);
          if both {
            assert Owner(State(), u);
            return true;
          }
        }
      }
      found := false;
    }

    // lastOwnerGuard: a missing target passes, a missing role is refused.
    method LastOwnerGuard(caller: nat, target: nat, newRole: nat, active: bool) returns (ok: bool)
      requires Sound(State())
      ensures ok <==> !(!active && target == caller) && !(active && newRole !in roles)
                      && (target < |users| ==> users[target].role in roles && KeepsAnOwner(State(), caller, target, newRole, active))
    {
      if !active && target == caller {
        return false;
      }
      if target < |users| {
        assert users[target] in users;
      }
      if !active {
        if target >= |users| {
          return true;
        }
        var owner := PermsIncludeBoth(roles[users[target].role].perms, SETTINGS_MANAGE, USERS_MANAGE);
        if !owner {
          return true;
        }
      } else {
        if newRole !in roles {
          return false;
        }
        var stays := PermsIncludeBoth(roles[newRole].perms, SETTINGS_MANAGE, USERS_MANAGE);
        if stays || target >= |users| {
          return true;
        }
        var was := PermsIncludeBoth(roles[users[target].role].perms, SETTINGS_MANAGE, USERS_MANAGE);
        if !was {
          return true;
        }
      }
      ok := FindOtherOwner(target);
    }

    // guardLastOwnerStrip.
    method LastOwnerStrip(role: nat, perms: seq<string>) returns (ok: bool)
      requires Sound(State()) && role in roles
      ensures ok == SurvivesStrip(State(), role, perms)
    {
      var was := PermsIncludeBoth(roles[role].perms, SETTINGS_MANAGE, USERS_MANAGE);
      var stays := PermsIncludeBoth(perms, SETTINGS_MANAGE, USERS_MANAGE);
      if !was || stays {
        return true;
      }
      for u := 0 to |users|
        invariant forall v: nat :: v < u ==> !(Owner(State(), v) && users[v].role != role)
      {
        if users[u].active && users[u].role != role {
          assert users[u] in users;
          var both := PermsIncludeBoth(roles[users[u].role].perms, SETTINGS_MANAGE, USERS_MANAGE);
          if both {
            assert Owner(State(), u);
            return true;
          }
        }
      }
      ok := false;
    }

    method ValidatePerms(perms: seq<string>, known: set<string>) returns (kept: seq<string>, ok: bool)
      ensures ok <==> forall p :: p in perms ==> p in known
      ensures ok ==> kept == Deduped(perms)
    {
      kept := [];
      for i := 0 to |perms|
        invariant forall p :: p in perms[..i] ==> p in known
        invariant kept == Deduped(perms[..i])
      {
        assert perms[..i + 1] == perms[..i] + [perms[i]] && perms[..i + 1][..i] == perms[..i];
        assert perms[i] in perms;
        if perms[i] !in known {
          return kept, false;
        }
        if perms[i] !in kept {
          kept := kept + [perms[i]];
        }
      }
      assert perms[..|perms|] == perms;
      ok := true;
    }

    // ---- operations ----

    method CreateUser(caller: nat, name: string, role: nat, active: bool, acceptable: bool) returns (answer: Answer)
      requires Sound(State())
      modifies this
      ensures Change(State(), answer) == Access.CreateUser(old(State()), caller, name, role, active, acceptable)
    {
      if !acceptable || role !in roles {
        return BadRequest;
      }
      var ok := MayProceed(caller, roles[role].perms);
      if !ok {
        return Forbidden;
      }
      if NameTaken(users, name) {
        return Conflict;
      }
      users := users + [User(name, role, active)];
      answer := Ok;
    }

    method UpdateUser(caller: nat, target: nat, role: nat, active: bool) returns (answer: Answer)
      requires Sound(State())
      modifies this
      ensures Change(State(), answer) == Access.UpdateUser(old(State()), caller, target, role, active)
    {
      var ok := LastOwnerGuard(caller, target, role, active);
      if !ok || role !in roles {
        return Conflict;
      }
      ok := MayProceed(caller, roles[role].perms);
      if !ok {
        return Forbidden;
      }
      if target >= |users| {
        return NotFound;
      }
      users := users[target := users[target].(role := role, active := active)];
      answer := Ok;
    }

    method DeactivateUser(caller: nat, target: nat) returns (answer: Answer)
      requires Sound(State())
      modifies this
      ensures Change(State(), answer) == Access.DeactivateUser(old(State()), caller, target)
    {
      if target == caller {
        return Conflict;
      }
      var ok := LastOwnerGuard(caller, target, 0, false);
      if !ok {
        return Conflict;
      }
      if target >= |users| {
        return NotFound;
      }
      users := users[target := users[target].(active := false)];
      answer := Ok;
    }

    method CreateRole(caller: nat, name: string, perms: seq<string>, known: set<string>) returns (answer: Answer)
      modifies this
      ensures Change(State(), answer) == Access.CreateRole(old(State()), caller, name, perms, known)
    {
      var kept, valid := ValidatePerms(perms, known);
      if !valid {
        return BadRequest;
      }
      var ok := MayProceed(caller, kept);
      if !ok {
        return Forbidden;
      }
      if RoleNameTaken(roles, name) {
        return Conflict;
      }
      roles := roles[nextRole := Role(name, false, kept)];
      nextRole := nextRole + 1;
      answer := Ok;
    }

    method UpdateRole(caller: nat, role: nat, perms: seq<string>, known: set<string>) returns (answer: Answer)
      requires Sound(State())
      modifies this
      ensures Change(State(), answer) == Access.UpdateRole(old(State()), caller, role, perms, known)
    {
      var kept, valid := ValidatePerms(perms, known);
      if !valid {
        return BadRequest;
      }
      var ok := MayProceed(caller, kept);
      if !ok {
        return Forbidden;
      }
      if role !in roles {
        return Conflict;
      }
      ok := LastOwnerStrip(role, kept);
      if !ok {
        return Conflict;
      }
      roles := roles[role := roles[role].(perms := kept)];
      answer := Ok;
    }

    method DeleteRole(role: nat) returns (answer: Answer)
      modifies this
      ensures Change(State(), answer) == Access.DeleteRole(old(State()), role)
    {
      if role !in roles {
        return NotFound;
      }
      if roles[role].system || Assigned(users, role) {
        return Conflict;
      }
      roles := roles - {role};
      answer := Ok;
    }
  }
}
