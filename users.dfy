/** The administrator's user table: a paginated listing newest first with an
    optional exact role filter, lookup by id, a partial update that only
    overwrites supplied (truthy) fields, and deletion. */
module Users {
  import opened Common
  import opened Text
  import opened Pagination

  datatype User = User(
    id: int,
    name: string,
    email: string,
    role: string,
    phone: Option<string>,
    address: Option<string>,
    city: Option<string>,
    state: Option<string>,
    zipCode: Option<string>,
    country: Option<string>)

  /** The fields an update request may carry. */
  datatype UserPatch = UserPatch(
    name: Option<string>,
    email: Option<string>,
    role: Option<string>,
    phone: Option<string>,
    address: Option<string>,
    city: Option<string>,
    state: Option<string>,
    zipCode: Option<string>,
    country: Option<string>)

  const NoPatch := UserPatch(None, None, None, None, None, None, None, None, None)

  /** `...(name && { name }), ...`: each truthy field of the patch replaces the
      stored one; absent and empty fields, and the id, stay as stored. */
  function Merge(u: User, p: UserPatch): (r: User)
    ensures r.id == u.id
    ensures r.name == MergeTruthy(u.name, p.name) && r.email == MergeTruthy(u.email, p.email)
    ensures r.role == MergeTruthy(u.role, p.role)
    ensures r.phone == MergeTruthyOpt(u.phone, p.phone) && r.address == MergeTruthyOpt(u.address, p.address)
    ensures r.city == MergeTruthyOpt(u.city, p.city) && r.state == MergeTruthyOpt(u.state, p.state)
    ensures r.zipCode == MergeTruthyOpt(u.zipCode, p.zipCode) && r.country == MergeTruthyOpt(u.country, p.country)
  {
    User(u.id,
         MergeTruthy(u.name, p.name), MergeTruthy(u.email, p.email), MergeTruthy(u.role, p.role),
         MergeTruthyOpt(u.phone, p.phone), MergeTruthyOpt(u.address, p.address),
         MergeTruthyOpt(u.city, p.city), MergeTruthyOpt(u.state, p.state),
         MergeTruthyOpt(u.zipCode, p.zipCode), MergeTruthyOpt(u.country, p.country))
  }

  /** The later of two patches wins field by field where it is truthy. */
  function Later(a: Option<string>, b: Option<string>): Option<string> {
    if Truthy(b) then b else a
  }

  function Combine(p: UserPatch, q: UserPatch): UserPatch {
    UserPatch(Later(p.name, q.name), Later(p.email, q.email), Later(p.role, q.role),
              Later(p.phone, q.phone), Later(p.address, q.address), Later(p.city, q.city),
              Later(p.state, q.state), Later(p.zipCode, q.zipCode), Later(p.country, q.country))
  }

  /** An empty request body changes nothing. */
  lemma EmptyPatchKeepsUser(u: User)
    ensures Merge(u, NoPatch) == u
  {
  }

  /** Sending the same update twice has the effect of sending it once. */
  lemma MergeIdempotent(u: User, p: UserPatch)
    ensures Merge(Merge(u, p), p) == Merge(u, p)
  {
  }

  /** Two updates in a row act as one update with the later truthy values. */
  lemma MergeCompose(u: User, p: UserPatch, q: UserPatch)
    ensures Merge(Merge(u, p), q) == Merge(u, Combine(p, q))
  {
  }

  /** `role ? { role } : {}`: a truthy role keeps exactly the users with that
      role; otherwise every user. */
  function WithRole(users: seq<User>, role: Option<string>): (r: seq<User>)
    ensures !Truthy(role) ==> r == users
    ensures forall u :: u in r <==> u in users && (Truthy(role) ==> u.role == role.value)
    ensures |r| <= |users|
  {
    if !Truthy(role) || users == [] then users
    else (if users[0].role == role.value then [users[0]] else []) + WithRole(users[1..], role)
  }

  predicate IdsUnique(users: seq<User>) {
    forall i, j :: 0 <= i < j < |users| ==> users[i].id != users[j].id
  }

  function FindUser(users: seq<User>, id: int): Option<nat> {
    FindKey(users, (x: User) => x.id, id)
  }

  lemma DeleteKeepsIdsUnique(users: seq<User>, k: nat)
    requires IdsUnique(users) && k < |users|
    ensures IdsUnique(users[..k] + users[k + 1..])
    ensures forall u :: u in users[..k] + users[k + 1..] <==> u in users && u.id != users[k].id
  {
    var s := users[..k] + users[k + 1..];
    assert forall i :: 0 <= i < |s| ==> s[i] == (if i < k then users[i] else users[i + 1]);
    forall u | u in users && u.id != users[k].id
      ensures u in s
    {
      var i :| 0 <= i < |users| && users[i] == u;
      assert i != k;
      if i < k { assert s[i] == u; } else { assert s[i - 1] == u; }
    }
  }

  lemma UpdateKeepsIdsUnique(users: seq<User>, k: nat, p: UserPatch)
    requires IdsUnique(users) && k < |users|
    ensures IdsUnique(users[k := Merge(users[k], p)])
  {
    var s := users[k := Merge(users[k], p)];
    assert forall i :: 0 <= i < |s| ==> s[i].id == users[i].id;
  }

  /** The user table; rows are kept in creation order. */
  class UserTable {
    var rows: seq<User>

    ghost predicate Valid()
      reads this
    {
      IdsUnique(rows)
    }

    constructor (users: seq<User>)
      requires IdsUnique(users)
      ensures Valid() && rows == users
    {
      rows := users;
    }

    /** `getAllUsers`: the users with the requested role (all of them when
        none is given), newest first, one page of at most `limit`, default 20. */
    function GetAllUsers(page: Option<string>, limit: Option<string>, role: Option<string>)
      : (r: Result<(seq<User>, PageInfo), Error>)
      reads this
      ensures r == Paginate(Reverse(WithRole(rows, role)), page, limit, UserPageSize)
      ensures r.Ok? ==> r.value.1.total == |WithRole(rows, role)|
      ensures r.Ok? ==> forall u :: u in r.value.0 ==> u in rows && (Truthy(role) ==> u.role == role.value)
      ensures r.Ok? && page.None? && limit.None? ==> |r.value.0| == Min(UserPageSize, |WithRole(rows, role)|)
    {
      var matching := Reverse(WithRole(rows, role));
      var answer := Paginate(matching, page, limit, UserPageSize);
      if answer.Ok? then
        assert forall i :: 0 <= i < |answer.value.0| ==> answer.value.0[i] in matching;
        assert forall u :: u in matching ==> u in WithRole(rows, role);
        answer
      else answer
    }

    /** `getUserById`: the user with that id, NotFound if there is none. */
    function GetUserById(id: string): (r: Result<User, Error>)
      reads this
      ensures ParseInt(id).None? ==> r == Err(ServerError)
      ensures ParseInt(id).Some? ==>
                (r.Ok? <==> exists u :: u in rows && u.id == ParseInt(id).value)
                && (r.Ok? ==> r.value in rows && r.value.id == ParseInt(id).value)
                && (r.Err? ==> r.error == NotFound)
    {
      match ParseInt(id)
      case None => Err(ServerError)
      case Some(key) =>
        match FindUser(rows, key)
        case None => Err(NotFound)
        case Some(k) => Ok(rows[k])
    }

    /** `updateUser`: NotFound for an unknown id; otherwise the user's row is
        replaced by its merge with the request and every other row is kept. */
    method UpdateUser(id: string, patch: UserPatch) returns (r: Result<User, Error>)
      requires Valid()
      modifies this
      ensures Valid()
      ensures ParseInt(id).None? ==> r == Err(ServerError)
      ensures ParseInt(id).Some? && FindUser(old(rows), ParseInt(id).value).None? ==> r == Err(NotFound)
      ensures ParseInt(id).Some? && FindUser(old(rows), ParseInt(id).value).Some? ==>
        var k := FindUser(old(rows), ParseInt(id).value).value;
        r == Ok(Merge(old(rows)[k], patch)) && rows == old(rows)[k := r.value]
      ensures r.Err? ==> rows == old(rows)
    {
      var key := ParseInt(id);
      if key.None? {
        return Err(ServerError);
      }
      var found := FindUser(rows, key.value);
      if found.None? {
        return Err(NotFound);
      }
      var k := found.value;
      var updated := Merge(rows[k], patch);
      UpdateKeepsIdsUnique(rows, k, patch);
      rows := rows[k := updated];
      r := Ok(updated);
    }

    /** `deleteUser`: NotFound for an unknown id; otherwise exactly that user's
        row goes. */
    method DeleteUser(id: string) returns (r: Result<(), Error>)
      requires Valid()
      modifies this
      ensures Valid()
      ensures ParseInt(id).None? ==> r == Err(ServerError)
      ensures ParseInt(id).Some? ==>
        (r.Ok? <==> exists u :: u in old(rows) && u.id == ParseInt(id).value)
        && (r.Err? ==> r.error == NotFound)
        && (r.Ok? ==> forall u :: u in rows <==> u in old(rows) && u.id != ParseInt(id).value)
      ensures ParseInt(id).Some? && FindUser(old(rows), ParseInt(id).value).Some? ==>
        var k := FindUser(old(rows), ParseInt(id).value).value;
        r.Ok? && rows == old(rows)[..k] + old(rows)[k + 1..]
      ensures r.Err? ==> rows == old(rows)
    {
      var key := ParseInt(id);
      if key.None? {
        return Err(ServerError);
      }
      var found := FindUser(rows, key.value);
      if found.None? {
        return Err(NotFound);
      }
      var k := found.value;
      DeleteKeepsIdsUnique(rows, k);
      rows := rows[..k] + rows[k + 1..];
      r := Ok(());
    }
  }
}
