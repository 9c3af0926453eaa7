# Filmorate core in Dafny

Filmorate is a small film-rating service. Users register, follow or befriend
each other, and like films. The service ranks films by their number of likes.
This project models its in-memory core:

- the two entities, `User` and `Film`, with the field constraints declared on them;
- the two in-memory stores. Each is a map from id to entity plus an id counter
  that `deleteAll` resets;
- the user service. Friendship there is symmetric, built on the store's
  one-directional edges. The service also lists friends and common friends,
  and applies an unchecked partial update;
- the film service. It records and withdraws likes, ranks films by likes,
  and applies a best-effort partial update that skips every unacceptable field.

Entities are datatypes (values). The stores and services are classes whose
methods update a `map` field.

- A Java `null` is `None`.
- A thrown exception is a `Failure`/`Fail` value carrying the exception kind
  (`NotFound`, `Validation`, `IllegalArgument`) and the source's own message.
- A `HashMap`/`HashSet` traversal is `Enumeration.Enumerate`. It promises
  only that every element comes exactly once, in some order.

A listing (`findAll`, `getFriends`, `getCommonFriends`) is specified by the
predicate `Lists`. It says the listing holds each stored entity whose id is
in the requested id set exactly once.

Modules, one per file: `Wrappers`, `JavaLang` (blank strings, UTF-16 length,
`LocalDate` order, decimal rendering), `Enumeration`, `Users`, `Films`,
`UserStore`, `FilmStore`, `UserServices`, `FilmServices`.

Points where the code's behaviour may be unexpected; the model follows the
code:

- `updateFilm` on an unknown id throws a ValidationException, not a
  NotFoundException.
- `removeLike` requires the user to exist.
- The user partial update applies no validation.
- The popularity ranking breaks ties by the `findAll` order, not by id.
- The film description limit counts UTF-16 code units (`String.length()`).
- `Film.java` declares no `likes` set, but `FilmService` reads and updates
  one through `getLikes()`. The model gives `Film` a `likes: set<int>` field.

## Model

| member | source | states |
|---|---|---|
| JavaLang.Utf16Length | src/main/java/ru/yandex/practicum/filmorate/service/FilmService.java:78 | the length `String.length()` reports lies between the code-point count and twice it, and equals the code-point count exactly when no character lies outside the Basic Multilingual Plane |
| JavaLang.IsBlank | src/main/java/ru/yandex/practicum/filmorate/storage/InMemoryUserStorage.java:18 | the empty string and every run of the ASCII whitespace characters are blank; a string holding a no-break space (U+00A0) is not, as `Character.isWhitespace` excludes it |
| JavaLang.IsBefore | src/main/java/ru/yandex/practicum/filmorate/service/FilmService.java:82 | no date is before itself, and none is before a date of an earlier year |
| JavaLang.IsBeforeTotal | src/main/java/ru/yandex/practicum/filmorate/service/FilmService.java:82 | of two different dates exactly one is before the other |
| JavaLang.IsBeforeTransitive | src/main/java/ru/yandex/practicum/filmorate/service/FilmService.java:82 | the order on dates is transitive |
| JavaLang.NatToString | src/main/java/ru/yandex/practicum/filmorate/service/FilmService.java:35 | the rendering of a natural number is a non-empty run of digits that `DecimalValue` reads back as that number, without a leading zero except for 0, one digit long exactly below 10 |
| JavaLang.IntToString | src/main/java/ru/yandex/practicum/filmorate/service/FilmService.java:35 | the rendering starts with a minus sign exactly for negative numbers; the digits after it read back (`DecimalValue`) as the number's magnitude |
| JavaLang.IntToStringInjective | src/main/java/ru/yandex/practicum/filmorate/service/FilmService.java:35 | two numbers with the same rendering are equal |
| Users.User.AddFriend | src/main/java/ru/yandex/practicum/filmorate/model/User.java:35-37 | afterwards the id is in the friend set, no other membership changed, no other field changed, and the result flag is true exactly when the id was absent before |
| Users.User.RemoveFriend | src/main/java/ru/yandex/practicum/filmorate/model/User.java:45-47 | afterwards the id is not in the friend set, nothing else changed, and the flag is true exactly when the id was present before |
| Users.NewUser | src/main/java/ru/yandex/practicum/filmorate/model/User.java:12-27 | a new user has id 0 and an empty friend set |
| Users.AddThenRemoveFriend | src/main/java/ru/yandex/practicum/filmorate/model/User.java:29-47 | adding an absent friend and removing them again gives back the same user, and both calls report a change |
| Users.AddFriendTwice | src/main/java/ru/yandex/practicum/filmorate/model/User.java:29-37 | a second addFriend with the same id changes nothing and returns false |
| Users.ValidLogin | src/main/java/ru/yandex/practicum/filmorate/model/User.java:18-20 | a login that passes @NotBlank and the no-whitespace pattern is present and non-empty |
| Users.ValidEmail | src/main/java/ru/yandex/practicum/filmorate/model/User.java:14-16 | a valid email is present and holds at least one non-whitespace character |
| Users.ValidBirthday | src/main/java/ru/yandex/practicum/filmorate/model/User.java:24-25 | a missing birthday passes; a present one that passes @Past is not today and not in a later year |
| Users.ValidUser | src/main/java/ru/yandex/practicum/filmorate/model/User.java:12-27 | a valid user has a present, non-empty email and login |
| Users.ValidUserIgnoresIdAndFriends | src/main/java/ru/yandex/practicum/filmorate/model/User.java:12-27 | the id and the friend set carry no constraint: changing them never changes validity |
| JavaLang.NotBlank | src/main/java/ru/yandex/practicum/filmorate/model/Film.java:17-18 | a value that passes @NotBlank (the film name here, the user email and login alike) is present and non-empty |
| Films.ValidName | src/main/java/ru/yandex/practicum/filmorate/model/Film.java:17-18 | a name is valid exactly when it is present and holds at least one non-whitespace character |
| Films.ValidDescription | src/main/java/ru/yandex/practicum/filmorate/model/Film.java:20-21 | a present description that passes @Size(max = 200) has at most 200 characters |
| Films.ValidReleaseDate | src/main/java/ru/yandex/practicum/filmorate/model/Film.java:23-25 | a release date that passes @NotNull and the cinema-birthday constraint is present and not earlier than 1895 |
| Films.ValidDuration | src/main/java/ru/yandex/practicum/filmorate/model/Film.java:27-28 | a valid duration is at least 1; zero is rejected, since @Positive is strict |
| Films.ValidFilm | src/main/java/ru/yandex/practicum/filmorate/model/Film.java:15-28 | a valid film has a present, non-empty name, a present release date, a positive duration and a description of at most 200 characters when it has one |
| Films.ValidFilmIgnoresIdAndLikes | src/main/java/ru/yandex/practicum/filmorate/model/Film.java:15-28 | the id and the like set carry no constraint: changing them never changes validity |
| UserStore.NameOrLogin | src/main/java/ru/yandex/practicum/filmorate/storage/InMemoryUserStorage.java:18-20 | a present, non-blank name is kept, otherwise the login is used; for a valid login the stored name is never blank |
| UserStore.ListsLength | src/main/java/ru/yandex/practicum/filmorate/storage/InMemoryUserStorage.java:36-38 | a user listing has exactly one entry per listed id |
| UserStore.Follow | src/main/java/ru/yandex/practicum/filmorate/storage/InMemoryUserStorage.java:58-62 | the edge userId -> friendId is present afterwards; all other friend memberships, all other fields and all other users are unchanged |
| UserStore.Unfollow | src/main/java/ru/yandex/practicum/filmorate/storage/InMemoryUserStorage.java:65-68 | the edge userId -> friendId is absent afterwards; nothing else changes |
| UserStore.FollowIdempotent | src/main/java/ru/yandex/practicum/filmorate/storage/InMemoryUserStorage.java:58-62 | adding an existing edge again changes nothing |
| UserStore.FollowIsOneDirectional | src/main/java/ru/yandex/practicum/filmorate/storage/InMemoryUserStorage.java:55-62 | following does not create the reverse edge |
| UserStore.UnfollowAfterFollow | src/main/java/ru/yandex/practicum/filmorate/storage/InMemoryUserStorage.java:58-68 | removing an edge that was just added restores the whole map |
| UserStore.InMemoryUserStorage.constructor | src/main/java/ru/yandex/practicum/filmorate/storage/InMemoryUserStorage.java:13-14 | a new store is empty, its counter is 0, and its invariant holds |
| UserStore.InMemoryUserStorage.CreateUser | src/main/java/ru/yandex/practicum/filmorate/storage/InMemoryUserStorage.java:17-24 | the counter goes up by one; the user is stored under that fresh id, with its name defaulted to the login; nothing else changes; the invariant is kept |
| UserStore.InMemoryUserStorage.UpdateUser | src/main/java/ru/yandex/practicum/filmorate/storage/InMemoryUserStorage.java:27-33 | fails with NotFound("Пользователь не найден") exactly when the id is not stored, leaving the map unchanged; otherwise replaces that entry only |
| UserStore.InMemoryUserStorage.FindAll | src/main/java/ru/yandex/practicum/filmorate/storage/InMemoryUserStorage.java:36-38 | returns every stored user exactly once |
| UserStore.InMemoryUserStorage.FindById | src/main/java/ru/yandex/practicum/filmorate/storage/InMemoryUserStorage.java:41-47 | succeeds exactly when the id is stored, with the user under it, whose id is that id; otherwise NotFound |
| UserStore.InMemoryUserStorage.DeleteAll | src/main/java/ru/yandex/practicum/filmorate/storage/InMemoryUserStorage.java:50-53 | the map is empty and the counter is 0 |
| UserStore.InMemoryUserStorage.AddFriend | src/main/java/ru/yandex/practicum/filmorate/storage/InMemoryUserStorage.java:58-62 | fails with NotFound exactly when either user is missing, changing nothing; otherwise the map becomes Follow of the old map |
| UserStore.InMemoryUserStorage.RemoveFriend | src/main/java/ru/yandex/practicum/filmorate/storage/InMemoryUserStorage.java:65-68 | fails exactly when the first user is missing (the friend is not looked up); otherwise the map becomes Unfollow of the old map |
| UserStore.InMemoryUserStorage.ResolveAll | src/main/java/ru/yandex/practicum/filmorate/storage/InMemoryUserStorage.java:74-77 | succeeds exactly when every id is stored, returning each of those users once; otherwise NotFound |
| UserStore.InMemoryUserStorage.GetFriends | src/main/java/ru/yandex/practicum/filmorate/storage/InMemoryUserStorage.java:71-78 | succeeds exactly when the user and every followed id exist, listing each followed user once |
| UserStore.InMemoryUserStorage.GetCommonFriends | src/main/java/ru/yandex/practicum/filmorate/storage/InMemoryUserStorage.java:81-93 | succeeds exactly when both users and every commonly followed id exist, listing the intersection of the two friend sets, each user once |
| UserStore.ResetThenCreate | src/test/java/ru/yandex/practicum/filmorate/service/UserServiceTest.java:26-37 | after deleteAll, a user created with a blank name gets id 1 and its login as name, and is the only user stored |
| FilmStore.ListsLength | src/main/java/ru/yandex/practicum/filmorate/storage/InMemoryFilmStorage.java:33-35 | a film listing has exactly one entry per listed id |
| FilmStore.InMemoryFilmStorage.constructor | src/main/java/ru/yandex/practicum/filmorate/storage/InMemoryFilmStorage.java:13-14 | a new store is empty, its counter is 0, and its invariant holds |
| FilmStore.InMemoryFilmStorage.CreateFilm | src/main/java/ru/yandex/practicum/filmorate/storage/InMemoryFilmStorage.java:17-21 | the counter goes up by one; the film is stored under that fresh id; nothing else changes |
| FilmStore.InMemoryFilmStorage.UpdateFilm | src/main/java/ru/yandex/practicum/filmorate/storage/InMemoryFilmStorage.java:24-30 | fails with Validation("Фильм не найден") exactly when the id is not stored, changing nothing; otherwise replaces that entry only |
| FilmStore.InMemoryFilmStorage.FindAll | src/main/java/ru/yandex/practicum/filmorate/storage/InMemoryFilmStorage.java:33-35 | returns every stored film exactly once |
| FilmStore.InMemoryFilmStorage.FindById | src/main/java/ru/yandex/practicum/filmorate/storage/InMemoryFilmStorage.java:38-40 | the stored film when the id is present, otherwise null (None) |
| FilmStore.InMemoryFilmStorage.DeleteAll | src/main/java/ru/yandex/practicum/filmorate/storage/InMemoryFilmStorage.java:43-46 | the map is empty and the counter is 0 |
| FilmStore.ResetThenCreateFilm | src/main/java/ru/yandex/practicum/filmorate/storage/InMemoryFilmStorage.java:17-46 | after deleteAll, the next film created gets id 1 and is the only film stored |
| UserServices.Befriend | src/main/java/ru/yandex/practicum/filmorate/service/UserService.java:44-50 | afterwards each user's friend set is its old set plus the other user; users other than the two are unchanged, and only friend sets change |
| UserServices.Unfriend | src/main/java/ru/yandex/practicum/filmorate/service/UserService.java:53-59 | afterwards each user's friend set is its old set minus the other user; users other than the two are unchanged, and only friend sets change |
| UserServices.BefriendKeepsSymmetric | src/main/java/ru/yandex/practicum/filmorate/service/UserService.java:44-50 | if friendship among stored users was mutual, it is still mutual after addFriend |
| UserServices.UnfriendKeepsSymmetric | src/main/java/ru/yandex/practicum/filmorate/service/UserService.java:53-59 | if friendship among stored users was mutual, it is still mutual after removeFriend |
| UserServices.BefriendCommutes | src/main/java/ru/yandex/practicum/filmorate/service/UserService.java:44-50 | addFriend(a, b) and addFriend(b, a) give the same map |
| UserServices.UnfriendAfterBefriend | src/main/java/ru/yandex/practicum/filmorate/service/UserService.java:44-59 | removing a friendship that was just created restores the map |
| UserServices.UnfriendAbsent | src/main/java/ru/yandex/practicum/filmorate/service/UserService.java:53-59 | removing a friendship that does not exist leaves the map unchanged |
| UserServices.MergeUser | src/main/java/ru/yandex/practicum/filmorate/service/UserService.java:90-101 | each non-null field of the patch replaces the stored one, each null field keeps it; id and friends stay |
| UserServices.MergeUserEmptyPatch | src/main/java/ru/yandex/practicum/filmorate/service/UserService.java:90-101 | an all-null patch leaves the user as it is |
| UserServices.MergeUserIdempotent | src/main/java/ru/yandex/practicum/filmorate/service/UserService.java:90-101 | applying a patch twice equals applying it once |
| UserServices.MergeUserAcceptsInvalidLogin | src/main/java/ru/yandex/practicum/filmorate/service/UserService.java:93-95 | a login containing a space is stored, although the login constraint rejects it |
| UserServices.UserService.constructor | src/main/java/ru/yandex/practicum/filmorate/service/UserService.java:17 | the service works on the store it is given |
| UserServices.UserService.FindById | src/main/java/ru/yandex/practicum/filmorate/service/UserService.java:31-37 | succeeds exactly when the id is stored; otherwise NotFound("Пользователь не найден") |
| UserServices.UserService.AddFriend | src/main/java/ru/yandex/practicum/filmorate/service/UserService.java:44-50 | fails with NotFound exactly when either user is missing, changing nothing; otherwise the map becomes Befriend of the old map, including when both ids are equal |
| UserServices.UserService.RemoveFriend | src/main/java/ru/yandex/practicum/filmorate/service/UserService.java:53-59 | fails with NotFound exactly when either user is missing; otherwise the map becomes Unfriend of the old map |
| UserServices.UserService.GetFriends | src/main/java/ru/yandex/practicum/filmorate/service/UserService.java:62-67 | succeeds exactly when the user and all its friends exist, listing each friend once, so the list is as long as the friend set |
| UserServices.UserService.GetCommonFriends | src/main/java/ru/yandex/practicum/filmorate/service/UserService.java:70-80 | succeeds exactly when both users and all common friend ids exist, listing the intersection of the friend sets once each |
| UserServices.UserService.UpdateUserCustomValidation | src/main/java/ru/yandex/practicum/filmorate/service/UserService.java:83-104 | a non-positive id is Validation("ID пользователя обязателен для обновления."); an unknown id is NotFound; both change nothing; otherwise the stored user becomes MergeUser of it and the patch |
| FilmServices.FilmNotFoundMessageNamesId | src/test/java/ru/yandex/practicum/filmorate/controller/FilmServiceTest.java:115-123 | the not-found message renders the id in decimal, sign included |
| FilmServices.FilmNotFoundMessage | src/main/java/ru/yandex/practicum/filmorate/service/FilmService.java:35 | the message is the fixed prefix "Фильм с id=", the id rendered in decimal, and the fixed suffix " не найден." |
| FilmServices.FilmNotFoundMessageInjective | src/main/java/ru/yandex/practicum/filmorate/service/FilmService.java:35 | different ids give different messages |
| FilmServices.Like | src/main/java/ru/yandex/practicum/filmorate/service/FilmService.java:46 | the user is in the film's like set afterwards; other likes, other fields and other films are unchanged |
| FilmServices.Unlike | src/main/java/ru/yandex/practicum/filmorate/service/FilmService.java:55 | the user is not in the film's like set afterwards; nothing else changes |
| FilmServices.LikeIdempotent | src/main/java/ru/yandex/practicum/filmorate/service/FilmService.java:46 | liking twice equals liking once |
| FilmServices.LikeCountAfterLike | src/main/java/ru/yandex/practicum/filmorate/service/FilmService.java:46 | a new like raises the like count by one; a repeated like leaves it unchanged |
| FilmServices.UnlikeAfterLike | src/main/java/ru/yandex/practicum/filmorate/service/FilmService.java:41-56 | withdrawing a like that was just given restores the map |
| FilmServices.SortedByLikesAt | src/main/java/ru/yandex/practicum/filmorate/service/FilmService.java:61 | in a list sorted by likes, no film has fewer likes than any later film |
| FilmServices.InsertByLikes | src/main/java/ru/yandex/practicum/filmorate/service/FilmService.java:61 | insertion adds one element, which becomes either the new film or the old first film |
| FilmServices.InsertByLikesPermutes | src/main/java/ru/yandex/practicum/filmorate/service/FilmService.java:61 | insertion adds exactly the new film and loses nothing (multiset) |
| FilmServices.InsertByLikesSorted | src/main/java/ru/yandex/practicum/filmorate/service/FilmService.java:61 | insertion keeps a list sorted by likes sorted |
| FilmServices.SortByLikes | src/main/java/ru/yandex/practicum/filmorate/service/FilmService.java:60-61 | the sort is a permutation of its input and sorted by like count, most liked first |
| FilmServices.InsertByLikesKeepsTies | src/main/java/ru/yandex/practicum/filmorate/service/FilmService.java:61 | among the films with any given like count, the inserted film comes first and the others keep their order |
| FilmServices.SortByLikesIsStable | src/main/java/ru/yandex/practicum/filmorate/service/FilmService.java:61 | the sort is stable: the films with any given like count keep their input order |
| FilmServices.Popular | src/main/java/ru/yandex/practicum/filmorate/service/FilmService.java:59-64 | fails with IllegalArgument(count in decimal) exactly when count is negative; otherwise returns min(count, number of films) films, sorted by likes, each drawn from the listing |
| FilmServices.PopularIsTop | src/main/java/ru/yandex/practicum/filmorate/service/FilmService.java:59-64 | no film left out of the ranking has more likes than a film in it |
| FilmServices.PopularIsStable | src/main/java/ru/yandex/practicum/filmorate/service/FilmService.java:59-64 | among films with equal like counts, the ranking returns the first ones of the listing, in listing order |
| FilmServices.MergeFilm | src/main/java/ru/yandex/practicum/filmorate/service/FilmService.java:74-88 | each patch field replaces the stored one exactly when it passes that field's constraint (a description also has to be present); id and likes stay; a valid film stays valid |
| FilmServices.MergeFilmRejectsInvalidPatch | src/main/java/ru/yandex/practicum/filmorate/service/FilmService.java:74-88 | a patch with no acceptable field leaves the film unchanged |
| FilmServices.MergeFilmIdempotent | src/main/java/ru/yandex/practicum/filmorate/service/FilmService.java:74-88 | applying a patch twice equals applying it once |
| FilmServices.MergeFilmSkipsInvalidFields | src/test/java/ru/yandex/practicum/filmorate/controller/FilmServiceTest.java:89-101 | a 201-character description, a 1800 release date and a negative duration are all skipped; a patch with only a new name changes the name alone |
| FilmServices.FilmService.constructor | src/main/java/ru/yandex/practicum/filmorate/service/FilmService.java:20-21 | the service works on the two stores it is given |
| FilmServices.FilmService.FindById | src/main/java/ru/yandex/practicum/filmorate/service/FilmService.java:32-38 | succeeds exactly when the id is stored; otherwise NotFound("Фильм с id=<id> не найден.") |
| FilmServices.FilmService.AddLike | src/main/java/ru/yandex/practicum/filmorate/service/FilmService.java:41-47 | a missing film is NotFound naming the film; otherwise a missing user is NotFound("Пользователь не найден"); both change nothing; otherwise the films become Like of the old films |
| FilmServices.FilmService.RemoveLike | src/main/java/ru/yandex/practicum/filmorate/service/FilmService.java:50-56 | the same checks as AddLike, in the same order; on success the films become Unlike of the old films |
| FilmServices.FilmService.GetPopularFilms | src/main/java/ru/yandex/practicum/filmorate/service/FilmService.java:59-64 | the result is Popular applied to a findAll listing of the store, of length min(count, number of films) |
| FilmServices.FilmService.UpdateFilmCustomValidation | src/main/java/ru/yandex/practicum/filmorate/service/FilmService.java:67-91 | a non-positive id is Validation("ID фильма обязателен для обновления."); an unknown id is NotFound naming the id; both change nothing; otherwise the stored film becomes MergeFilm of it and the patch |

## Left out

- The JDBC storages, the controllers, the exception handler, and the genre and MPA rating services are not part of this model. Neither are the `mpa` and `genres` film fields that those storages and the tests use; `Film.java` does not declare them.
- The pass-through service methods (`createUser`, `updateUser`, `findAll`, `deleteAll`, `createFilm`) only delegate to the store. They are covered by the store members.
- UserStore.InMemoryUserStorage.CreateUser: the id counter is an unbounded `nat`. The 32-bit wrap-around of `AtomicInteger` after 2^31 - 1 creations is not modelled. The same holds for FilmStore.InMemoryFilmStorage.CreateFilm.
- Concurrency: the atomicity of the counter and the absence of synchronisation on the maps are not modelled.
- Entities are values, so aliasing is not captured. The Java stores hand out the stored objects themselves, and a caller that keeps one sees later changes; in the model a change to an entity is a replacement of its map entry.
- Iteration order of `HashMap`/`HashSet` is left open. The model does not capture that two traversals of the same unchanged map give the same order.
- JavaLang.NotBlank: `@NotBlank` is modelled as "not null and not `String.isBlank()`", with whitespace as `Character.isWhitespace` defines it. The Bean Validation implementation of `@NotBlank` is not part of this model and may treat whitespace differently. The preservation of validity by `MergeFilm` rests on this reading.
- Users.ValidEmail: the shape check of `@Email` is not modelled, only `@NotBlank`.
- Films.ValidReleaseDate: the validator class behind `@ReleaseDateConstraint` is not part of this model. The check is taken to be the same "not before 28 December 1895" comparison that `FilmService` makes.
- Dates are (year, month, day) triples compared field by field; calendar validity is not checked.
- Users.ValidBirthday: `@Past` is judged against a `today` parameter instead of the system clock.
- Bean Validation itself (when the annotations are enforced, and the messages they produce) happens outside the core. The predicates only state what each constraint accepts.
