/** Users and the three role predicates of accounts/roles.py. A user's id is
    its position in the user directory plus one, as the database assigns
    primary keys. */
module Roles {
  import opened Wrappers

  const ROLE_ADMIN: string := "ADMINISTRADOR"
  const ROLE_TECH: string := "TECNICO"
  const ROLE_REQUESTER: string := "SOLICITANTE"

  /** The user fields the core consumes; `groups` holds the names of the
      user's groups. */
  datatype User = User(username: string, email: string, isActive: bool,
                       isSuperuser: bool, groups: set<string>)

  type UserId = nat

  /** Superuser, or member of ADMINISTRADOR. */
  predicate IsAdmin(u: User) { u.isSuperuser || ROLE_ADMIN in u.groups }

  /** Member of TECNICO; being a superuser does not count. */
  predicate IsTech(u: User) { ROLE_TECH in u.groups }

  /** Member of SOLICITANTE. */
  predicate IsRequester(u: User) { ROLE_REQUESTER in u.groups }

  /** Admin or technician: the users the source calls staff. */
  predicate IsStaff(u: User) { IsAdmin(u) || IsTech(u) }

  predicate ValidId(users: seq<User>, id: int) { 1 <= id <= |users| }

  /** `User.objects.get(id=...)`: the user with that id, if any. */
  function Lookup(users: seq<User>, id: int): (r: Option<User>)
    ensures r.Some? <==> ValidId(users, id)
    ensures r.Some? ==> r.value == users[id - 1]
  {
    if ValidId(users, id) then Some(users[id - 1]) else None
  }

  function UsernameOf(users: seq<User>, id: int): string
    requires ValidId(users, id)
  {
    users[id - 1].username
  }

  /** The id-to-username directory of all users. */
  function Usernames(users: seq<User>): (d: map<int, string>)
    ensures forall id :: id in d <==> ValidId(users, id)
    ensures forall id :: ValidId(users, id) ==> d[id] == users[id - 1].username
  {
    map id: int | 1 <= id <= |users| && ValidId(users, id) :: UsernameOf(users, id)
  }

  /** Ids are stable as the directory grows: a new user takes the next id,
      and every existing id still finds its user. */
  lemma LookupStable(users: seq<User>, u: User, id: int)
    ensures ValidId(users, id) ==> Lookup(users + [u], id) == Lookup(users, id)
    ensures id == |users| + 1 ==> Lookup(users + [u], id) == Some(u) && Lookup(users, id).None?
    ensures !ValidId(users + [u], id) ==> Lookup(users + [u], id).None?
  {
    if ValidId(users, id) {
      assert (users + [u])[id - 1] == users[id - 1];
    }
  }

  /** The directory names exactly the users `Lookup` finds, by their usernames. */
  lemma UsernamesAgreeWithLookup(users: seq<User>)
    ensures forall id :: id in Usernames(users) <==> Lookup(users, id).Some?
    ensures forall id :: id in Usernames(users) ==> Usernames(users)[id] == Lookup(users, id).value.username
  {
  }

  /** A new user adds exactly its own entry to the directory. */
  lemma {:induction false} UsernamesGrow(users: seq<User>, u: User)
    ensures Usernames(users + [u]) == Usernames(users)[|users| + 1 := u.username]
  {
    var a := Usernames(users + [u]);
    var b := Usernames(users)[|users| + 1 := u.username];
    assert a.Keys == b.Keys;
    forall id | id in a ensures a[id] == b[id] {
      if id <= |users| {
        assert (users + [u])[id - 1] == users[id - 1];
      }
    }
  }

  /** The predicates are independent: one user can be admin, technician and
      requester at once, and a superuser without groups is no technician. */
  lemma RolesIndependent()
    ensures exists u: User :: IsAdmin(u) && IsTech(u) && IsRequester(u)
    ensures exists u: User :: IsAdmin(u) && !IsTech(u) && !IsRequester(u)
    ensures exists u: User :: !IsAdmin(u) && IsTech(u) && !IsRequester(u)
    ensures exists u: User :: !IsAdmin(u) && !IsTech(u) && IsRequester(u)
  {
    var all := User("a", "", true, false, {ROLE_ADMIN, ROLE_TECH, ROLE_REQUESTER});
    assert IsAdmin(all) && IsTech(all) && IsRequester(all);
    var su := User("root", "", true, true, {});
    assert IsAdmin(su) && !IsTech(su) && !IsRequester(su);
    var tech := User("t", "", true, false, {ROLE_TECH});
    assert !IsAdmin(tech) && IsTech(tech) && !IsRequester(tech);
    var req := User("r", "", true, false, {ROLE_REQUESTER});
    assert !IsAdmin(req) && !IsTech(req) && IsRequester(req);
  }
}
