/** The user table: users in the order they were saved, looked up by user
    name. The user name is a unique index of the table. */
module UserRepositories {
  import opened Errors
  import opened Entities

  /** The first user on the list with this user name, if any. */
  function FindByUserName(users: seq<User>, userName: string): (r: Option<User>)
    ensures r.Some? <==> exists i :: 0 <= i < |users| && users[i].userName == userName
    ensures r.Some? ==> r.value in users && r.value.userName == userName
  {
    if users == [] then None
    else if users[0].userName == userName then Some(users[0])
    else
      var rest := FindByUserName(users[1..], userName);
      assert forall i :: 1 <= i < |users| ==> users[i] == users[1..][i - 1];
      rest
  }

  /** No two users share a user name. */
  predicate UniqueUserNames(users: seq<User>) {
    forall i, j :: 0 <= i < j < |users| ==> users[i].userName != users[j].userName
  }

  /** No two users share an id. */
  predicate UniqueIds(users: seq<User>) {
    forall i, j :: 0 <= i < j < |users| ==> users[i].id != users[j].id
  }

  /** In a table with unique user names the lookup finds the one user with
      that name, wherever it is. */
  lemma FindByUserNameUnique(users: seq<User>, k: int)
    requires UniqueUserNames(users) && 0 <= k < |users|
    ensures FindByUserName(users, users[k].userName) == Some(users[k])
  {
    var r := FindByUserName(users, users[k].userName);
    var i :| 0 <= i < |users| && users[i] == r.value;
    assert i == k;
  }

  /** Appending a user whose name is new keeps the names unique, makes that
      user findable, and leaves every other lookup as it was. */
  lemma {:induction false} FindAfterAppend(users: seq<User>, u: User, name: string)
    requires FindByUserName(users, u.userName).None?
    ensures FindByUserName(users + [u], u.userName) == Some(u)
    ensures name != u.userName ==> FindByUserName(users + [u], name) == FindByUserName(users, name)
  {
    if users != [] {
      assert (users + [u])[1..] == users[1..] + [u];
      assert users[0].userName != u.userName;
      FindAfterAppend(users[1..], u, name);
    } else {
      assert [] + [u] == [u];
    }
  }

  class UserRepository {
    /** The saved users, in the order they were saved. */
    var users: seq<User>

    ghost predicate Valid()
      reads this
    {
      UniqueUserNames(users) && UniqueIds(users)
    }

    constructor ()
      ensures users == [] && Valid()
    {
      users := [];
    }

    /** `findByUserName`. */
    function Find(userName: string): (r: Option<User>)
      reads this
      ensures r.Some? <==> exists u :: u in users && u.userName == userName
      ensures r.Some? ==> r.value in users && r.value.userName == userName
      ensures Valid() ==> forall k :: 0 <= k < |users| && users[k].userName == userName ==> r == Some(users[k])
    {
      var r := FindByUserName(users, userName);
      assert Valid() ==> forall k :: 0 <= k < |users| && users[k].userName == userName ==> r == Some(users[k]) by {
        if Valid() {
          forall k | 0 <= k < |users| && users[k].userName == userName ensures r == Some(users[k]) {
            FindByUserNameUnique(users, k);
          }
        }
      }
      r
    }

    /** Saves a user whose name and id are not yet in the table. */
    method Insert(u: User)
      requires Valid()
      requires Find(u.userName).None?
      requires forall v :: v in users ==> v.id != u.id
      modifies this
      ensures users == old(users) + [u]
      ensures Valid()
      ensures Find(u.userName) == Some(u)
      ensures forall name :: name != u.userName ==> Find(name) == old(Find(name))
    {
      forall name ensures name != u.userName ==> FindByUserName(users + [u], name) == FindByUserName(users, name) {
        FindAfterAppend(users, u, name);
      }
      FindAfterAppend(users, u, u.userName);
      users := users + [u];
    }
  }
}
