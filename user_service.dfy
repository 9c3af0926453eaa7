/** The user service: symmetric friendship on top of the store's
    one-directional edges, friend listings, and the unchecked partial
    update of a user. */
module UserServices {
  import opened Wrappers
  import opened JavaLang
  import opened Users
  import opened UserStore

  /** The message of the ValidationException for a missing id. */
  const UserIdRequired: string := "ID пользователя обязателен для обновления."

  /** The map after `a` and `b` become friends: both directed edges are
      added, and nothing else changes. */
  function Befriend(users: map<int, User>, a: int, b: int): (r: map<int, User>)
    requires a in users && b in users
    ensures r.Keys == users.Keys
    ensures b in r[a].friends && a in r[b].friends
    ensures r[a].friends == users[a].friends + {b}
    ensures r[b].friends == users[b].friends + {a}
    ensures forall id :: id in users && id != a && id != b ==> r[id] == users[id]
    ensures forall id :: id in users ==> r[id] == users[id].(friends := r[id].friends)
  {
    Follow(Follow(users, a, b), b, a)
  }

  /** The map after `a` and `b` stop being friends: both directed edges are
      removed, and nothing else changes. */
  function Unfriend(users: map<int, User>, a: int, b: int): (r: map<int, User>)
    requires a in users && b in users
    ensures r.Keys == users.Keys
    ensures b !in r[a].friends && a !in r[b].friends
    ensures r[a].friends == users[a].friends - {b}
    ensures r[b].friends == users[b].friends - {a}
    ensures forall id :: id in users && id != a && id != b ==> r[id] == users[id]
    ensures forall id :: id in users ==> r[id] == users[id].(friends := r[id].friends)
  {
    Unfollow(Unfollow(users, a, b), b, a)
  }

  /** Friendship is mutual between stored users. */
  ghost predicate Symmetric(users: map<int, User>) {
    forall a, b :: a in users && b in users && b in users[a].friends ==> a in users[b].friends
  }

  /** Befriending keeps a mutual friendship graph mutual. */
  lemma BefriendKeepsSymmetric(users: map<int, User>, a: int, b: int)
    requires a in users && b in users && Symmetric(users)
    ensures Symmetric(Befriend(users, a, b))
  {
  }

  /** Unfriending keeps a mutual friendship graph mutual. */
  lemma UnfriendKeepsSymmetric(users: map<int, User>, a: int, b: int)
    requires a in users && b in users && Symmetric(users)
    ensures Symmetric(Unfriend(users, a, b))
  {
  }

  /** It does not matter which of the two users asks for the friendship. */
  lemma BefriendCommutes(users: map<int, User>, a: int, b: int)
    requires a in users && b in users
    ensures Befriend(users, a, b) == Befriend(users, b, a)
  {
  }

  /** Befriending two users who were not friends and unfriending them again
      restores both friend sets, and so the whole map. */
  lemma UnfriendAfterBefriend(users: map<int, User>, a: int, b: int)
    requires a in users && b in users
    requires b !in users[a].friends && a !in users[b].friends
    ensures Unfriend(Befriend(users, a, b), a, b) == users
  {
    var r := Unfriend(Befriend(users, a, b), a, b);
    forall id | id in users
      ensures r[id] == users[id]
    {
      if id == a || id == b {
        assert r[id].friends == users[id].friends;
      }
    }
  }

  /** Ending a friendship that does not exist changes nothing. */
  lemma UnfriendAbsent(users: map<int, User>, a: int, b: int)
    requires a in users && b in users
    requires b !in users[a].friends && a !in users[b].friends
    ensures Unfriend(users, a, b) == users
  {
    var r := Unfriend(users, a, b);
    forall id | id in users
      ensures r[id] == users[id]
    {
      if id == a || id == b {
        assert r[id].friends == users[id].friends;
      }
    }
  }

  /** The partial update of a user: every field the patch supplies (is not
      null) replaces the stored one, valid or not; id and friends stay. */
  function MergeUser(existing: User, patch: User): (r: User)
    ensures r.id == existing.id && r.friends == existing.friends
    ensures r.email == (if patch.email.Some? then patch.email else existing.email)
    ensures r.login == (if patch.login.Some? then patch.login else existing.login)
    ensures r.name == (if patch.name.Some? then patch.name else existing.name)
    ensures r.birthday == (if patch.birthday.Some? then patch.birthday else existing.birthday)
  {
    var withEmail := if patch.email.Some? then existing.(email := patch.email) else existing;
    var withLogin := if patch.login.Some? then withEmail.(login := patch.login) else withEmail;
    var withName := if patch.name.Some? then withLogin.(name := patch.name) else withLogin;
    if patch.birthday.Some? then withName.(birthday := patch.birthday) else withName
  }

  /** A patch that supplies no field leaves the user as it is. */
  lemma MergeUserEmptyPatch(existing: User, patch: User)
    requires patch.email.None? && patch.login.None? && patch.name.None? && patch.birthday.None?
    ensures MergeUser(existing, patch) == existing
  {
  }

  /** Applying the same patch twice is the same as applying it once. */
  lemma MergeUserIdempotent(existing: User, patch: User)
    ensures MergeUser(MergeUser(existing, patch), patch) == MergeUser(existing, patch)
  {
  }

  /** Unlike the film update, the user update checks nothing: a login with a
      space in it is stored although the login constraint rejects it. */
  lemma MergeUserAcceptsInvalidLogin(existing: User)
    ensures var r := MergeUser(existing, NewUser().(login := Some("a b")));
      r.login == Some("a b") && !ValidLogin(r.login)
  {
    assert IsRegexSpace("a b"[1]);
  }

  class UserService {
    const storage: InMemoryUserStorage

    constructor (storage: InMemoryUserStorage)
      ensures this.storage == storage
    {
      this.storage := storage;
    }

    /** The stored user, or NotFound. */
    method FindById(id: int) returns (r: Result<User>)
      requires storage.Valid()
      ensures r.Success? <==> id in storage.users
      ensures r.Success? ==> r.value == storage.users[id] && r.value.id == id
      ensures r.Failure? ==> r.error == NotFound(UserNotFound)
    {
      r := storage.FindById(id);
    }

    /** Makes `id` and `friendId` friends of each other; both must exist. */
    method AddFriend(id: int, friendId: int) returns (r: Outcome)
      requires storage.Valid()
      modifies storage
      ensures storage.Valid() && storage.idGenerator == old(storage.idGenerator)
      ensures r.Fail? <==> id !in old(storage.users) || friendId !in old(storage.users)
      ensures r.Fail? ==> r.error == NotFound(UserNotFound) && storage.users == old(storage.users)
      ensures r.Pass? ==> storage.users == Befriend(old(storage.users), id, friendId)
    {
      var user := FindById(id);
      if user.Failure? {
        return Fail(user.error);
      }
      var friend := FindById(friendId);
      if friend.Failure? {
        return Fail(friend.error);
      }
      // Both calls act on the stored objects, which are one and the same
      // when id == friendId: each step re-reads the current entry.
      storage.users := storage.users[id := storage.users[id].AddFriend(friendId).0];
      storage.users := storage.users[friendId := storage.users[friendId].AddFriend(id).0];
      return Pass;
    }

    /** Ends the friendship of `id` and `friendId` in both directions; both
        must exist, and an absent edge is not an error. */
    method RemoveFriend(id: int, friendId: int) returns (r: Outcome)
      requires storage.Valid()
      modifies storage
      ensures storage.Valid() && storage.idGenerator == old(storage.idGenerator)
      ensures r.Fail? <==> id !in old(storage.users) || friendId !in old(storage.users)
      ensures r.Fail? ==> r.error == NotFound(UserNotFound) && storage.users == old(storage.users)
      ensures r.Pass? ==> storage.users == Unfriend(old(storage.users), id, friendId)
    {
      var user := FindById(id);
      if user.Failure? {
        return Fail(user.error);
      }
      var friend := FindById(friendId);
      if friend.Failure? {
        return Fail(friend.error);
      }
      storage.users := storage.users[id := storage.users[id].RemoveFriend(friendId).0];
      storage.users := storage.users[friendId := storage.users[friendId].RemoveFriend(id).0];
      return Pass;
    }

    /** The friends of `id`, one stored user per friend id. */
    method GetFriends(id: int) returns (r: Result<seq<User>>)
      requires storage.Valid()
      ensures r.Success? <==> id in storage.users && storage.users[id].friends <= storage.users.Keys
      ensures r.Failure? ==> r.error == NotFound(UserNotFound)
      ensures r.Success? ==> Lists(r.value, storage.users[id].friends, storage.users)
      ensures r.Success? ==> |r.value| == |storage.users[id].friends|
    {
      var user := FindById(id);
      if user.Failure? {
        return Failure(user.error);
      }
      r := storage.ResolveAll(user.value.friends);
      if r.Success? {
        ListsLength(r.value, user.value.friends, storage.users);
      }
    }

    /** The users that are friends of both `id` and `otherId`, once each. */
    method GetCommonFriends(id: int, otherId: int) returns (r: Result<seq<User>>)
      requires storage.Valid()
      ensures r.Success? <==>
        && id in storage.users && otherId in storage.users
        && storage.users[id].friends * storage.users[otherId].friends <= storage.users.Keys
      ensures r.Failure? ==> r.error == NotFound(UserNotFound)
      ensures r.Success? ==>
        Lists(r.value, storage.users[id].friends * storage.users[otherId].friends, storage.users)
    {
      var user1 := FindById(id);
      if user1.Failure? {
        return Failure(user1.error);
      }
      var user2 := FindById(otherId);
      if user2.Failure? {
        return Failure(user2.error);
      }
      var commonIds := user1.value.friends * user2.value.friends;
      r := storage.ResolveAll(commonIds);
    }

    /** Patches the stored user with every non-null field of `updatedUser`.
        A non-positive id is a Validation failure before any lookup. */
    method UpdateUserCustomValidation(updatedUser: User) returns (r: Result<User>)
      requires storage.Valid()
      modifies storage
      ensures storage.Valid() && storage.idGenerator == old(storage.idGenerator)
      ensures r.Failure? <==> updatedUser.id <= 0 || updatedUser.id !in old(storage.users)
      ensures updatedUser.id <= 0 ==> r == Failure(Validation(UserIdRequired))
      ensures updatedUser.id > 0 && updatedUser.id !in old(storage.users) ==>
        r == Failure(NotFound(UserNotFound))
      ensures r.Failure? ==> storage.users == old(storage.users)
      ensures r.Success? ==>
        && r.value == MergeUser(old(storage.users)[updatedUser.id], updatedUser)
        && storage.users == old(storage.users)[updatedUser.id := r.value]
    {
      if updatedUser.id <= 0 {
        return Failure(Validation(UserIdRequired));
      }
      var existing := FindById(updatedUser.id);
      if existing.Failure? {
        return Failure(existing.error);
      }
      var merged := MergeUser(existing.value, updatedUser);
      // The Java code sets the fields on the stored object itself.
      storage.users := storage.users[updatedUser.id := merged];
      return Success(merged);
    }
  }
}
