/** The in-memory user store: a map from id to user, an id counter, and
    one-directional friend edges kept in each user's friend set. */
module UserStore {
  import opened Wrappers
  import opened JavaLang
  import opened Enumeration
  import opened Users

  /** The message of every NotFoundException the store throws. */
  const UserNotFound: string := "Пользователь не найден"

  /** The name a user is stored with on creation: its own name when that is
      present and not blank, its login otherwise. */
  function NameOrLogin(user: User): (name: Option<string>)
    ensures user.name.Some? && !IsBlank(user.name.value) ==> name == user.name
    ensures user.name.None? || IsBlank(user.name.value) ==> name == user.login
    ensures ValidLogin(user.login) ==> name.Some? && !IsBlank(name.value)
  {
    if user.name.None? || IsBlank(user.name.value) then user.login else user.name
  }

  /** `us` lists the stored users whose ids make up `ids`, each exactly
      once, in some order. */
  ghost predicate Lists(us: seq<User>, ids: set<int>, users: map<int, User>) {
    && Enumerates(Ids(us), ids)
    && forall i :: 0 <= i < |us| ==> us[i].id in users && users[us[i].id] == us[i]
  }

  /** A listing has one entry per id. */
  lemma ListsLength(us: seq<User>, ids: set<int>, users: map<int, User>)
    requires Lists(us, ids, users)
    ensures |us| == |ids|
  {
    EnumeratesCardinality(Ids(us), ids);
  }

  /** The map after the directed edge userId -> friendId is added. */
  function Follow(users: map<int, User>, userId: int, friendId: int): (r: map<int, User>)
    requires userId in users
    ensures r.Keys == users.Keys
    ensures friendId in r[userId].friends
    ensures forall x :: x != friendId ==> (x in r[userId].friends <==> x in users[userId].friends)
    ensures r[userId] == users[userId].(friends := r[userId].friends)
    ensures forall id :: id in users && id != userId ==> r[id] == users[id]
  {
    users[userId := users[userId].AddFriend(friendId).0]
  }

  /** The map after the directed edge userId -> friendId is removed. */
  function Unfollow(users: map<int, User>, userId: int, friendId: int): (r: map<int, User>)
    requires userId in users
    ensures r.Keys == users.Keys
    ensures friendId !in r[userId].friends
    ensures forall x :: x != friendId ==> (x in r[userId].friends <==> x in users[userId].friends)
    ensures r[userId] == users[userId].(friends := r[userId].friends)
    ensures forall id :: id in users && id != userId ==> r[id] == users[id]
  {
    users[userId := users[userId].RemoveFriend(friendId).0]
  }

  /** Adding an edge that is already there changes nothing. */
  lemma FollowIdempotent(users: map<int, User>, userId: int, friendId: int)
    requires userId in users
    ensures Follow(Follow(users, userId, friendId), userId, friendId) == Follow(users, userId, friendId)
  {
  }

  /** Following is one-directional: the reverse edge appears only if it was
      there before. */
  lemma FollowIsOneDirectional(users: map<int, User>, userId: int, friendId: int)
    requires userId in users && friendId in users && userId != friendId
    ensures userId in Follow(users, userId, friendId)[friendId].friends <==> userId in users[friendId].friends
  {
  }

  /** Removing an edge that was just added restores the map. */
  lemma UnfollowAfterFollow(users: map<int, User>, userId: int, friendId: int)
    requires userId in users && friendId !in users[userId].friends
    ensures Unfollow(Follow(users, userId, friendId), userId, friendId) == users
  {
  }

  class InMemoryUserStorage {
    var users: map<int, User>
    var idGenerator: nat

    /** Every key is an id the counter has handed out, and is the id of the
        user stored under it. */
    ghost predicate Valid()
      reads this
    {
      forall id :: id in users ==> 1 <= id <= idGenerator && users[id].id == id
    }

    constructor ()
      ensures Valid() && users == map[] && idGenerator == 0
    {
      users := map[];
      idGenerator := 0;
    }

    /** Stores `user` under the next id, naming it after its login when its
        name is missing or blank. */
    method CreateUser(user: User) returns (created: User)
      requires Valid()
      modifies this
      ensures Valid()
      ensures idGenerator == old(idGenerator) + 1 && created.id == idGenerator
      ensures created == user.(id := created.id, name := NameOrLogin(user))
      ensures created.id !in old(users)
      ensures users == old(users)[created.id := created]
    {
      var named := user;
      if user.name.None? || IsBlank(user.name.value) {
        named := user.(name := user.login);
      }
      idGenerator := idGenerator + 1;
      created := named.(id := idGenerator);
      users := users[created.id := created];
    }

    /** Replaces the stored user with the same id; fails when there is none. */
    method UpdateUser(user: User) returns (r: Result<User>)
      requires Valid()
      modifies this
      ensures Valid() && idGenerator == old(idGenerator)
      ensures r.Failure? <==> user.id !in old(users)
      ensures r.Failure? ==> r.error == NotFound(UserNotFound) && users == old(users)
      ensures r.Success? ==> r.value == user && users == old(users)[user.id := user]
    {
      if user.id !in users {
        return Failure(NotFound(UserNotFound));
      }
      users := users[user.id := user];
      return Success(user);
    }

    /** Every stored user, once each. */
    method FindAll() returns (all: seq<User>)
      requires Valid()
      ensures Lists(all, users.Keys, users)
    {
      var keys := Enumerate(users.Keys);
      var stored := users;
      forall i | 0 <= i < |keys|
        ensures keys[i] in stored && stored[keys[i]].id == keys[i]
      {
        EnumeratesMember(keys, users.Keys, i);
      }
      all := seq(|keys|, i requires 0 <= i < |keys| && keys[i] in stored => stored[keys[i]]);
      assert Ids(all) == keys;
    }

    /** The user stored under `id`; NotFound when there is none. */
    function FindById(id: int): (r: Result<User>)
      reads this
      requires Valid()
      ensures r.Success? <==> id in users
      ensures r.Success? ==> r.value == users[id] && r.value.id == id
      ensures r.Failure? ==> r.error == NotFound(UserNotFound)
    {
      if id in users then Success(users[id]) else Failure(NotFound(UserNotFound))
    }

    /** Empties the store and restarts the counter. */
    method DeleteAll()
      modifies this
      ensures Valid() && users == map[] && idGenerator == 0
    {
      users := map[];
      idGenerator := 0;
    }

    /** Adds the one-directional edge userId -> friendId; both users must
        exist. */
    method AddFriend(userId: int, friendId: int) returns (r: Outcome)
      requires Valid()
      modifies this
      ensures Valid() && idGenerator == old(idGenerator)
      ensures r.Fail? <==> userId !in old(users) || friendId !in old(users)
      ensures r.Fail? ==> r.error == NotFound(UserNotFound) && users == old(users)
      ensures r.Pass? ==> users == Follow(old(users), userId, friendId)
    {
      var user := FindById(userId);
      if user.Failure? {
        return Fail(user.error);
      }
      var friend := FindById(friendId);
      if friend.Failure? {
        return Fail(friend.error);
      }
      users := users[userId := user.value.AddFriend(friendId).0];
      return Pass;
    }

    /** Removes the edge userId -> friendId; only userId must exist. */
    method RemoveFriend(userId: int, friendId: int) returns (r: Outcome)
      requires Valid()
      modifies this
      ensures Valid() && idGenerator == old(idGenerator)
      ensures r.Fail? <==> userId !in old(users)
      ensures r.Fail? ==> r.error == NotFound(UserNotFound) && users == old(users)
      ensures r.Pass? ==> users == Unfollow(old(users), userId, friendId)
    {
      var user := FindById(userId);
      if user.Failure? {
        return Fail(user.error);
      }
      users := users[userId := user.value.RemoveFriend(friendId).0];
      return Pass;
    }

    /** Looks up every id of `ids`, in iteration order; the first id with no
        stored user makes the whole call fail. */
    method ResolveAll(ids: set<int>) returns (r: Result<seq<User>>)
      requires Valid()
      ensures r.Success? <==> ids <= users.Keys
      ensures r.Failure? ==> r.error == NotFound(UserNotFound)
      ensures r.Success? ==> Lists(r.value, ids, users)
    {
      var order := Enumerate(ids);
      var resolved: seq<User> := [];
      for i := 0 to |order|
        invariant Ids(resolved) == order[..i]
        invariant forall j :: 0 <= j < |resolved| ==> resolved[j].id in users && users[resolved[j].id] == resolved[j]
      {
        var found := FindById(order[i]);
        if found.Failure? {
          assert order[i] in order;
          return Failure(found.error);
        }
        resolved := resolved + [found.value];
      }
      assert order[..|order|] == order;
      forall id | id in ids
        ensures id in users
      {
        var j :| 0 <= j < |order| && order[j] == id;
        assert Ids(resolved)[j] == id;
      }
      return Success(resolved);
    }

    /** The users `userId` follows; fails when `userId` is unknown or one of
        its friend ids has no stored user. */
    method GetFriends(userId: int) returns (r: Result<seq<User>>)
      requires Valid()
      ensures r.Success? <==> userId in users && users[userId].friends <= users.Keys
      ensures r.Failure? ==> r.error == NotFound(UserNotFound)
      ensures r.Success? ==> Lists(r.value, users[userId].friends, users)
    {
      var user := FindById(userId);
      if user.Failure? {
        return Failure(user.error);
      }
      r := ResolveAll(user.value.friends);
    }

    /** The users both `userId` and `otherUserId` follow, once each. */
    method GetCommonFriends(userId: int, otherUserId: int) returns (r: Result<seq<User>>)
      requires Valid()
      ensures r.Success? <==>
        && userId in users && otherUserId in users
        && users[userId].friends * users[otherUserId].friends <= users.Keys
      ensures r.Failure? ==> r.error == NotFound(UserNotFound)
      ensures r.Success? ==> Lists(r.value, users[userId].friends * users[otherUserId].friends, users)
    {
      var user := FindById(userId);
      if user.Failure? {
        return Failure(user.error);
      }
      var other := FindById(otherUserId);
      if other.Failure? {
        return Failure(other.error);
      }
      var commonIds := user.value.friends * other.value.friends;
      r := ResolveAll(commonIds);
    }
  }

  /** After deleteAll the store is empty and the next user created gets
      id 1, named after its login when it has no name. */
  method ResetThenCreate(store: InMemoryUserStorage, email: string, login: string, birthday: Date)
    returns (created: User)
    requires store.Valid()
    modifies store
    ensures created.id == 1 && created.name == Some(login)
    ensures store.users == map[1 := created]
  {
    store.DeleteAll();
    var payload := NewUser().(email := Some(email), login := Some(login), name := Some(""), birthday := Some(birthday));
    created := store.CreateUser(payload);
  }
}
