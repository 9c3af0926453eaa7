/** The User entity: its record fields, its friend set and the field
    constraints declared on it. */
module Users {
  import opened Wrappers
  import opened JavaLang

  /** A user as the stores hold it. A null field of the Java object is
      None; `friends` holds the ids of the users this one follows. */
  datatype User = User(
    id: int,
    email: Option<string>,
    login: Option<string>,
    name: Option<string>,
    birthday: Option<Date>,
    friends: set<int>)
  {
    /** Adds `friendId` to the friend set; the flag tells whether the set
        changed, that is, whether the id was absent before. */
    function AddFriend(friendId: int): (r: (User, bool))
      ensures r.1 <==> friendId !in friends
      ensures friendId in r.0.friends
      ensures forall x :: x != friendId ==> (x in r.0.friends <==> x in friends)
      ensures r.0 == this.(friends := r.0.friends)
    {
      (this.(friends := friends + {friendId}), friendId !in friends)
    }

    /** Removes `friendId` from the friend set; the flag tells whether the
        set changed, that is, whether the id was present before. */
    function RemoveFriend(friendId: int): (r: (User, bool))
      ensures r.1 <==> friendId in friends
      ensures friendId !in r.0.friends
      ensures forall x :: x != friendId ==> (x in r.0.friends <==> x in friends)
      ensures r.0 == this.(friends := r.0.friends)
    {
      (this.(friends := friends - {friendId}), friendId in friends)
    }
  }

  /** `new User()`: every reference field null, id 0 (not yet stored) and
      an empty friend set. */
  function NewUser(): (u: User)
    ensures u.friends == {} && u.id == 0
  {
    User(0, None, None, None, None, {})
  }

  /** Adding a friend who was not there and removing them again gives back
      the same user, and both calls report a change. */
  lemma AddThenRemoveFriend(u: User, friendId: int)
    requires friendId !in u.friends
    ensures u.AddFriend(friendId).0.RemoveFriend(friendId) == (u, true)
    ensures u.AddFriend(friendId).1
  {
  }

  /** Adding the same friend twice changes the set once: the second call
      leaves the user as it is and reports no change. */
  lemma AddFriendTwice(u: User, friendId: int)
    ensures var once := u.AddFriend(friendId).0; once.AddFriend(friendId) == (once, false)
  {
  }

  /** Email: @NotBlank (the @Email shape check is left to the framework). */
  predicate ValidEmail(email: Option<string>)
    ensures ValidEmail(email) ==>
      email.Some? && exists i :: 0 <= i < |email.value| && !IsWhitespace(email.value[i])
  {
    NotBlank(email)
  }

  /** Login: @NotBlank and @Pattern("^\S+$"): not blank, and free of the
      regular-expression whitespace characters. */
  predicate ValidLogin(login: Option<string>)
    ensures ValidLogin(login) ==> login.Some? && login.value != []
  {
    && NotBlank(login)
    && forall i :: 0 <= i < |login.value| ==> !IsRegexSpace(login.value[i])
  }

  /** Birthday: @Past, judged against `today`; null passes, as it does for
      every Bean Validation constraint except @NotNull and @NotBlank. */
  predicate ValidBirthday(birthday: Option<Date>, today: Date)
    ensures birthday.None? ==> ValidBirthday(birthday, today)
    ensures ValidBirthday(birthday, today) && birthday.Some? ==>
      birthday.value != today && birthday.value.year <= today.year
  {
    birthday.None? || IsBefore(birthday.value, today)
  }

  /** All field constraints of a user; the id and the friend set carry
      none. */
  predicate ValidUser(u: User, today: Date)
    ensures ValidUser(u, today) ==>
      u.email.Some? && u.email.value != [] && u.login.Some? && u.login.value != []
  {
    ValidEmail(u.email) && ValidLogin(u.login) && ValidBirthday(u.birthday, today)
  }

  /** Storing a user (a new id) or befriending (a new friend set) cannot
      make it valid or invalid. */
  lemma ValidUserIgnoresIdAndFriends(u: User, today: Date, id: int, friends: set<int>)
    ensures ValidUser(u, today) <==> ValidUser(u.(id := id, friends := friends), today)
  {
  }

  /** The ids of a list of users, in list order. */
  function Ids(us: seq<User>): seq<int> {
    seq(|us|, i requires 0 <= i < |us| => us[i].id)
  }
}
