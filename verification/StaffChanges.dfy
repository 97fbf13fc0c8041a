// User and role administration from the outside: exactly when a request is granted, and
// the change it makes.

module StaffChanges {
  import opened Access

  // Somebody active who may manage both settings and users.
  predicate HasOwner(s: Staff) {
    exists u :: u in s.users && u.active && u.role in s.roles
                && "settings.manage" in s.roles[u.role].perms && "users.manage" in s.roles[u.role].perms
  }

  lemma OwnersAgree(s: Staff)
    ensures HasOwner(s) <==> OwnerExists(s)
  {
    if OwnerExists(s) {
      var i: nat :| i < |s.users| && Owner(s, i);
      assert s.users[i] in s.users;
    }
    if HasOwner(s) {
      var u :| u in s.users && u.active && u.role in s.roles
               && "settings.manage" in s.roles[u.role].perms && "users.manage" in s.roles[u.role].perms;
      var i :| 0 <= i < |s.users| && s.users[i] == u;
      assert Owner(s, i);
    }
  }

  predicate Has(s: Staff, u: nat, key: string) {
    u < |s.users| && s.users[u].active && s.users[u].role in s.roles && key in s.roles[s.users[u].role].perms
  }

  // The caller has every authority key among these permissions.
  predicate Entitled(s: Staff, caller: nat, perms: seq<string>) {
    && ("users.manage" in perms ==> Has(s, caller, "users.manage"))
    && ("settings.manage" in perms ==> Has(s, caller, "settings.manage"))
    && ("roles.manage" in perms ==> Has(s, caller, "roles.manage"))
  }

  lemma EntitledIs(s: Staff, caller: nat, perms: seq<string>)
    ensures Entitled(s, caller, perms) <==> MayGrant(s, caller, perms)
  {
    assert AUTHORITY[0] in AUTHORITY && AUTHORITY[1] in AUTHORITY && AUTHORITY[2] in AUTHORITY;
  }

  predicate NoDuplicates(perms: seq<string>) {
    forall i, j :: 0 <= i < j < |perms| ==> perms[i] != perms[j]
  }

  lemma {:induction false} DedupedOnce(perms: seq<string>)
    ensures NoDuplicates(Deduped(perms))
  {
    if perms != [] {
      DedupedOnce(perms[..|perms| - 1]);
    }
  }

  predicate SameKeys(a: seq<string>, b: seq<string>) {
    && (forall key :: key in a ==> key in b)
    && (forall key :: key in b ==> key in a)
  }

  // ---- users ----

  lemma CreateUserIff(s: Staff, caller: nat, name: string, role: nat, active: bool, acceptable: bool)
    ensures var c := CreateUser(s, caller, name, role, active, acceptable);
            && (c.answer == Ok <==> acceptable && role in s.roles && Entitled(s, caller, s.roles[role].perms)
                                    && forall u :: u in s.users ==> u.name != name)
            && c.staff == (if c.answer == Ok then s.(users := s.users + [User(name, role, active)]) else s)
            && (c.answer == Forbidden <==> acceptable && role in s.roles && !Entitled(s, caller, s.roles[role].perms))
            && (c.answer == BadRequest <==> !acceptable || role !in s.roles)
  {
    if role in s.roles {
      EntitledIs(s, caller, s.roles[role].perms);
    }
    assert forall i :: 0 <= i < |s.users| ==> s.users[i] in s.users;
  }

  function WithUser(s: Staff, target: nat, role: nat, active: bool): Staff
    requires target < |s.users|
  {
    s.(users := s.users[target := User(s.users[target].name, role, active)])
  }

  // A change of role or activity is granted exactly when user and role exist, the caller
  // is entitled to the role and does not switch itself off, and an owner remains.
  lemma UpdateUserIff(s: Staff, caller: nat, target: nat, role: nat, active: bool)
    requires Sound(s) && HasOwner(s)
    ensures var c := UpdateUser(s, caller, target, role, active);
            && (c.answer == Ok <==>
                  && target < |s.users| && role in s.roles && Entitled(s, caller, s.roles[role].perms)
                  && (active || target != caller) && HasOwner(WithUser(s, target, role, active)))
            && c.staff == (if c.answer == Ok then WithUser(s, target, role, active) else s)
  {
    OwnersAgree(s);
    if target < |s.users| && role in s.roles {
      assert s.users[target] in s.users;
      EntitledIs(s, caller, s.roles[role].perms);
      OwnerGuardExact(s, caller, target, role, active);
      OwnersAgree(WithUser(s, target, role, active));
    } else if role in s.roles {
      EntitledIs(s, caller, s.roles[role].perms);
    }
  }

  lemma DeactivateUserIff(s: Staff, caller: nat, target: nat)
    requires Sound(s) && HasOwner(s)
    ensures var c := DeactivateUser(s, caller, target);
            && (c.answer == Ok <==> target < |s.users| && target != caller && HasOwner(WithUser(s, target, s.users[target].role, false)))
            && c.staff == (if c.answer == Ok then WithUser(s, target, s.users[target].role, false) else s)
            && (c.answer == NotFound <==> target >= |s.users| && target != caller)
  {
    OwnersAgree(s);
    if target < |s.users| {
      assert s.users[target] in s.users;
      OwnerGuardExact(s, caller, target, s.users[target].role, false);
      OwnersAgree(WithUser(s, target, s.users[target].role, false));
    }
  }

  // ---- roles ----

  predicate AllKnown(perms: seq<string>, known: set<string>) {
    forall p :: p in perms ==> p in known
  }

  // t is s with one more role, under the next id.
  predicate RoleAdded(s: Staff, t: Staff, name: string, perms: seq<string>) {
    && s.nextRole in t.roles && t == s.(roles := s.roles[s.nextRole := t.roles[s.nextRole]], nextRole := s.nextRole + 1)
    && t.roles[s.nextRole] == Role(name, false, t.roles[s.nextRole].perms)
    && SameKeys(t.roles[s.nextRole].perms, perms) && NoDuplicates(t.roles[s.nextRole].perms)
  }

  lemma CreateRoleIff(s: Staff, caller: nat, name: string, perms: seq<string>, known: set<string>)
    ensures var c := CreateRole(s, caller, name, perms, known);
            && (c.answer == Ok <==> AllKnown(perms, known) && Entitled(s, caller, perms)
                                    && forall r :: r in s.roles ==> s.roles[r].name != name)
            && (if c.answer == Ok then RoleAdded(s, c.staff, name, perms) else c.staff == s)
            && (c.answer == Forbidden <==> AllKnown(perms, known) && !Entitled(s, caller, perms))
  {
    EntitledIs(s, caller, perms);
    DedupedOnce(perms);
  }

  // t is s with the permissions of one role replaced.
  predicate RoleEdited(s: Staff, t: Staff, role: nat, perms: seq<string>) {
    && role in s.roles && role in t.roles
    && t == s.(roles := s.roles[role := s.roles[role].(perms := t.roles[role].perms)])
    && SameKeys(t.roles[role].perms, perms) && NoDuplicates(t.roles[role].perms)
  }

  // New permissions for a role are granted exactly when they are known, the caller is
  // entitled to them, the role exists, and an owner remains with them.
  lemma UpdateRoleIff(s: Staff, caller: nat, role: nat, perms: seq<string>, known: set<string>)
    requires Sound(s) && HasOwner(s)
    ensures var c := UpdateRole(s, caller, role, perms, known);
            && (c.answer == Ok <==>
                  && AllKnown(perms, known) && Entitled(s, caller, perms) && role in s.roles
                  && HasOwner(s.(roles := s.roles[role := s.roles[role].(perms := perms)])))
            && (if c.answer == Ok then RoleEdited(s, c.staff, role, perms) else c.staff == s)
  {
    EntitledIs(s, caller, perms);
    OwnersAgree(s);
    if role in s.roles {
      var t := s.(roles := s.roles[role := s.roles[role].(perms := Deduped(perms))]);
      var u := s.(roles := s.roles[role := s.roles[role].(perms := perms)]);
      DedupedOnce(perms);
      StripGuardExact(s, role, perms);
      OwnersAgree(t);
      SameOwners(s, t, u, role, perms);
    }
  }

  lemma SameOwners(s: Staff, t: Staff, u: Staff, role: nat, perms: seq<string>)
    requires role in s.roles && role in t.roles && role in u.roles && SameKeys(t.roles[role].perms, u.roles[role].perms)
    requires t == s.(roles := s.roles[role := s.roles[role].(perms := t.roles[role].perms)])
    requires u == s.(roles := s.roles[role := s.roles[role].(perms := u.roles[role].perms)])
    ensures HasOwner(t) <==> HasOwner(u)
  {
    assert forall x :: x in s.roles ==> SameKeys(t.roles[x].perms, u.roles[x].perms);
  }
}
