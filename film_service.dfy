/** The film service: likes, the popularity ranking, and the best-effort
    partial update of a film. */
module FilmServices {
  import opened Wrappers
  import opened JavaLang
  import opened Films
  import opened FilmStore
  import UserStore

  /** The message of the ValidationException for a missing id. */
  const FilmIdRequired: string := "ID фильма обязателен для обновления."

  const NotFoundPrefix: string := "Фильм с id="
  const NotFoundSuffix: string := " не найден."

  /** The message of the NotFoundException for an unknown film id: the id
      in decimal between a fixed prefix and suffix, so that different ids
      give different messages. */
  function FilmNotFoundMessage(id: int): (m: string)
    ensures |m| > |NotFoundPrefix| + |NotFoundSuffix|
    ensures m[..|NotFoundPrefix|] == NotFoundPrefix && m[|m| - |NotFoundSuffix|..] == NotFoundSuffix
    ensures m[|NotFoundPrefix|..|m| - |NotFoundSuffix|] == IntToString(id)
  {
    NotFoundPrefix + IntToString(id) + NotFoundSuffix
  }

  /** The message identifies the film: two ids with the same message are
      the same id. */
  lemma FilmNotFoundMessageInjective(m: int, n: int)
    requires FilmNotFoundMessage(m) == FilmNotFoundMessage(n)
    ensures m == n
  {
    var a, b := FilmNotFoundMessage(m), FilmNotFoundMessage(n);
    assert a[|NotFoundPrefix|..|a| - |NotFoundSuffix|] == b[|NotFoundPrefix|..|b| - |NotFoundSuffix|];
    IntToStringInjective(m, n);
  }

  /** The message names the id in decimal, sign included, as in
      "Фильм с id=999 не найден.". */
  lemma FilmNotFoundMessageNamesId()
    ensures FilmNotFoundMessage(999) == NotFoundPrefix + "999" + NotFoundSuffix
    ensures FilmNotFoundMessage(-7) == NotFoundPrefix + "-7" + NotFoundSuffix
  {
    assert NatToString(99) == NatToString(9) + "9";
    assert NatToString(999) == NatToString(99) + "9";
  }

  // ----- Likes -----

  /** The map after `userId` likes film `filmId`; no other film changes. */
  function Like(films: map<int, Film>, filmId: int, userId: int): (r: map<int, Film>)
    requires filmId in films
    ensures r.Keys == films.Keys
    ensures userId in r[filmId].likes
    ensures forall x :: x != userId ==> (x in r[filmId].likes <==> x in films[filmId].likes)
    ensures r[filmId] == films[filmId].(likes := r[filmId].likes)
    ensures forall id :: id in films && id != filmId ==> r[id] == films[id]
  {
    films[filmId := films[filmId].(likes := films[filmId].likes + {userId})]
  }

  /** The map after `userId` withdraws a like from film `filmId`; no other
      film changes. */
  function Unlike(films: map<int, Film>, filmId: int, userId: int): (r: map<int, Film>)
    requires filmId in films
    ensures r.Keys == films.Keys
    ensures userId !in r[filmId].likes
    ensures forall x :: x != userId ==> (x in r[filmId].likes <==> x in films[filmId].likes)
    ensures r[filmId] == films[filmId].(likes := r[filmId].likes)
    ensures forall id :: id in films && id != filmId ==> r[id] == films[id]
  {
    films[filmId := films[filmId].(likes := films[filmId].likes - {userId})]
  }

  /** A like counts once: liking again changes nothing. */
  lemma LikeIdempotent(films: map<int, Film>, filmId: int, userId: int)
    requires filmId in films
    ensures Like(Like(films, filmId, userId), filmId, userId) == Like(films, filmId, userId)
  {
  }

  /** A new like raises the like count by one, a repeated like by nothing. */
  lemma LikeCountAfterLike(films: map<int, Film>, filmId: int, userId: int)
    requires filmId in films
    ensures LikeCount(Like(films, filmId, userId)[filmId])
         == LikeCount(films[filmId]) + (if userId in films[filmId].likes then 0 else 1)
  {
    var likes := films[filmId].likes;
    assert Like(films, filmId, userId)[filmId].likes == likes + {userId};
    if userId in likes {
      assert likes + {userId} == likes;
    } else {
      assert |likes + {userId}| == |likes| + |{userId}|;
    }
  }

  /** Withdrawing a like that was just given restores the map. */
  lemma UnlikeAfterLike(films: map<int, Film>, filmId: int, userId: int)
    requires filmId in films && userId !in films[filmId].likes
    ensures Unlike(Like(films, filmId, userId), filmId, userId) == films
  {
  }

  // ----- Ranking -----

  /** Like counts do not increase from one film to the next. */
  predicate SortedByLikes(fs: seq<Film>) {
    forall i :: 0 < i < |fs| ==> LikeCount(fs[i - 1]) >= LikeCount(fs[i])
  }

  /** In a sorted list no film has fewer likes than a later one. */
  lemma {:induction false} SortedByLikesAt(fs: seq<Film>, i: int, j: int)
    requires SortedByLikes(fs) && 0 <= i <= j < |fs|
    ensures LikeCount(fs[i]) >= LikeCount(fs[j])
    decreases j - i
  {
    if i < j {
      SortedByLikesAt(fs, i + 1, j);
    }
  }

  /** Puts `f` into a list sorted by likes, in front of every film with no
      more likes than it has. The result starts with `f` or with the old
      first film. */
  function InsertByLikes(f: Film, sorted: seq<Film>): (r: seq<Film>)
    ensures |r| == |sorted| + 1
    ensures r[0] == f || (sorted != [] && r[0] == sorted[0])
  {
    if sorted == [] then [f]
    else if LikeCount(f) >= LikeCount(sorted[0]) then [f] + sorted
    else
      assert sorted == [sorted[0]] + sorted[1..];
      [sorted[0]] + InsertByLikes(f, sorted[1..])
  }

  /** Insertion adds `f` and loses nothing. */
  lemma {:induction false} InsertByLikesPermutes(f: Film, sorted: seq<Film>)
    ensures multiset(InsertByLikes(f, sorted)) == multiset(sorted) + multiset{f}
  {
    if sorted != [] && LikeCount(f) < LikeCount(sorted[0]) {
      var tail := sorted[1..];
      InsertByLikesPermutes(f, tail);
      assert sorted == [sorted[0]] + tail;
      assert InsertByLikes(f, sorted) == [sorted[0]] + InsertByLikes(f, tail);
    }
  }

  /** Insertion keeps a sorted list sorted. */
  lemma {:induction false} InsertByLikesSorted(f: Film, sorted: seq<Film>)
    requires SortedByLikes(sorted)
    ensures SortedByLikes(InsertByLikes(f, sorted))
  {
    if sorted != [] && LikeCount(f) < LikeCount(sorted[0]) {
      var tail := sorted[1..];
      assert SortedByLikes(tail) by {
        forall i | 0 < i < |tail|
          ensures LikeCount(tail[i - 1]) >= LikeCount(tail[i])
        {
          assert tail[i - 1] == sorted[i] && tail[i] == sorted[i + 1];
        }
      }
      InsertByLikesSorted(f, tail);
      var rest := InsertByLikes(f, tail);
      var r := [sorted[0]] + rest;
      assert LikeCount(r[0]) >= LikeCount(r[1]) by {
        if tail != [] {
          assert tail[0] == sorted[1];
        }
      }
      forall i | 1 < i < |r|
        ensures LikeCount(r[i - 1]) >= LikeCount(r[i])
      {
        assert r[i - 1] == rest[i - 2] && r[i] == rest[i - 1];
      }
    }
  }

  /** The stable sort by like count, most liked first (insertion sort). */
  function SortByLikes(fs: seq<Film>): (r: seq<Film>)
    ensures multiset(r) == multiset(fs) && |r| == |fs|
    ensures SortedByLikes(r)
  {
    if fs == [] then []
    else
      assert fs == [fs[0]] + fs[1..];
      InsertByLikesSorted(fs[0], SortByLikes(fs[1..]));
      InsertByLikesPermutes(fs[0], SortByLikes(fs[1..]));
      InsertByLikes(fs[0], SortByLikes(fs[1..]))
  }

  /** `[f]` when `f` has exactly `c` likes, `[]` otherwise. */
  function KeepIfLikes(f: Film, c: nat): seq<Film> {
    if LikeCount(f) == c then [f] else []
  }

  /** The films of `fs` that have exactly `c` likes, in their order in `fs`. */
  function WithLikeCount(fs: seq<Film>, c: nat): seq<Film> {
    if fs == [] then [] else KeepIfLikes(fs[0], c) + WithLikeCount(fs[1..], c)
  }

  /** Selecting by like count distributes over concatenation. */
  lemma {:induction false} WithLikeCountAppend(a: seq<Film>, b: seq<Film>, c: nat)
    ensures WithLikeCount(a + b, c) == WithLikeCount(a, c) + WithLikeCount(b, c)
  {
    if a == [] {
      assert a + b == b;
    } else {
      assert (a + b)[0] == a[0];
      assert (a + b)[1..] == a[1..] + b;
      WithLikeCountAppend(a[1..], b, c);
    }
  }

  /** Inserting `f` puts it in front of the films with the same like count. */
  lemma {:induction false} InsertByLikesKeepsTies(f: Film, sorted: seq<Film>, c: nat)
    ensures WithLikeCount(InsertByLikes(f, sorted), c) == KeepIfLikes(f, c) + WithLikeCount(sorted, c)
  {
    var r := InsertByLikes(f, sorted);
    if sorted == [] || LikeCount(f) >= LikeCount(sorted[0]) {
      assert r[0] == f && r[1..] == sorted;
    } else {
      var tail := sorted[1..];
      assert r[0] == sorted[0] && r[1..] == InsertByLikes(f, tail);
      InsertByLikesKeepsTies(f, tail, c);
      assert KeepIfLikes(sorted[0], c) == [] || KeepIfLikes(f, c) == [];
    }
  }

  /** The sort is stable: the films with any one like count keep the order
      they had in the input. */
  lemma {:induction false} SortByLikesIsStable(fs: seq<Film>, c: nat)
    ensures WithLikeCount(SortByLikes(fs), c) == WithLikeCount(fs, c)
  {
    if fs != [] {
      SortByLikesIsStable(fs[1..], c);
      InsertByLikesKeepsTies(fs[0], SortByLikes(fs[1..]), c);
    }
  }

  /** The smaller of two integers. */
  function Min(a: int, b: int): int {
    if a <= b then a else b
  }

  /** getPopularFilms on the listing `all`: sort by likes, most liked
      first, and keep the first `count`; a negative count is the
      IllegalArgumentException of Stream.limit. */
  function Popular(all: seq<Film>, count: int): (r: Result<seq<Film>>)
    ensures r.Failure? <==> count < 0
    ensures r.Failure? ==> r.error == IllegalArgument(IntToString(count))
    ensures r.Success? ==> |r.value| == Min(count, |all|) && SortedByLikes(r.value)
    ensures r.Success? ==> multiset(r.value) <= multiset(all)
  {
    if count < 0 then Failure(IllegalArgument(IntToString(count)))
    else
      var sorted := SortByLikes(all);
      var n := Min(count, |all|);
      assert sorted == sorted[..n] + sorted[n..];
      Success(sorted[..n])
  }

  /** Splitting a sorted list leaves no film in the back part with more
      likes than a film in the front part. */
  lemma SortedSplit(fs: seq<Film>, n: int)
    requires SortedByLikes(fs) && 0 <= n <= |fs|
    ensures forall x, y :: x in fs[..n] && y in fs[n..] ==> LikeCount(x) >= LikeCount(y)
  {
    forall x, y | x in fs[..n] && y in fs[n..]
      ensures LikeCount(x) >= LikeCount(y)
    {
      var i :| 0 <= i < n && fs[..n][i] == x;
      var j :| 0 <= j < |fs| - n && fs[n..][j] == y;
      SortedByLikesAt(fs, i, n + j);
    }
  }

  /** What a prefix leaves of a list is its suffix, counted with multiplicity. */
  lemma MultisetRest(fs: seq<Film>, n: int)
    requires 0 <= n <= |fs|
    ensures multiset(fs) - multiset(fs[..n]) == multiset(fs[n..])
  {
    assert fs == fs[..n] + fs[n..];
  }

  /** No film left out of the ranking has more likes than a film in it. */
  lemma PopularIsTop(all: seq<Film>, count: int)
    requires count >= 0
    ensures var r := Popular(all, count).value;
      forall x, y :: x in r && y in multiset(all) - multiset(r) ==> LikeCount(x) >= LikeCount(y)
  {
    var sorted := SortByLikes(all);
    var n := Min(count, |all|);
    assert Popular(all, count).value == sorted[..n];
    MultisetRest(sorted, n);
    SortedSplit(sorted, n);
    forall x, y | x in sorted[..n] && y in multiset(all) - multiset(sorted[..n])
      ensures LikeCount(x) >= LikeCount(y)
    {
      assert y in multiset(sorted[n..]);
    }
  }

  /** The ranking keeps ties in listing order: among the films with a given
      like count, it returns the first ones of the listing. */
  lemma PopularIsStable(all: seq<Film>, count: int, c: nat)
    requires count >= 0
    ensures WithLikeCount(Popular(all, count).value, c) <= WithLikeCount(all, c)
  {
    var sorted := SortByLikes(all);
    var n := Min(count, |all|);
    assert sorted == sorted[..n] + sorted[n..];
    WithLikeCountAppend(sorted[..n], sorted[n..], c);
    SortByLikesIsStable(all, c);
  }

  // ----- Partial update -----

  /** The best-effort partial update: each field of the patch replaces the
      stored one only when it passes that field's own constraint (for the
      description: present and not too long); id and likes stay. */
  function MergeFilm(existing: Film, patch: Film): (r: Film)
    ensures r.id == existing.id && r.likes == existing.likes
    ensures r.name == (if ValidName(patch.name) then patch.name else existing.name)
    ensures r.description ==
      (if patch.description.Some? && ValidDescription(patch.description) then patch.description
       else existing.description)
    ensures r.releaseDate ==
      (if ValidReleaseDate(patch.releaseDate) then patch.releaseDate else existing.releaseDate)
    ensures r.duration == (if ValidDuration(patch.duration) then patch.duration else existing.duration)
    ensures ValidFilm(existing) ==> ValidFilm(r)
  {
    var withName :=
      if patch.name.Some? && !IsBlank(patch.name.value) then existing.(name := patch.name)
      else existing;
    var withDescription :=
      if patch.description.Some? && Utf16Length(patch.description.value) <= 200
      then withName.(description := patch.description)
      else withName;
    var withReleaseDate :=
      if patch.releaseDate.Some? && !IsBefore(patch.releaseDate.value, CinemaBirthday)
      then withDescription.(releaseDate := patch.releaseDate)
      else withDescription;
    if patch.duration > 0 then withReleaseDate.(duration := patch.duration) else withReleaseDate
  }

  /** A patch none of whose fields is acceptable leaves the film as it is. */
  lemma MergeFilmRejectsInvalidPatch(existing: Film, patch: Film)
    requires !ValidName(patch.name)
    requires patch.description.None? || !ValidDescription(patch.description)
    requires !ValidReleaseDate(patch.releaseDate) && !ValidDuration(patch.duration)
    ensures MergeFilm(existing, patch) == existing
  {
  }

  /** Applying the same patch twice is the same as applying it once. */
  lemma MergeFilmIdempotent(existing: Film, patch: Film)
    ensures MergeFilm(MergeFilm(existing, patch), patch) == MergeFilm(existing, patch)
  {
  }

  /** A 201-character description, a negative duration and a release date
      in 1800 are all skipped; a valid new name alone is applied. */
  lemma MergeFilmSkipsInvalidFields(existing: Film)
    ensures var patch := Film(existing.id, None, Some(seq(201, _ => 'A')), Some(Date(1800, 1, 1)), -100, {});
      MergeFilm(existing, patch) == existing
    ensures var patch := Film(existing.id, Some("Updated name"), None, None, 0, {});
      MergeFilm(existing, patch) == existing.(name := Some("Updated name"))
  {
    assert !IsBlank("Updated name") by {
      assert !IsWhitespace("Updated name"[0]);
    }
  }

  class FilmService {
    const filmStorage: InMemoryFilmStorage
    const userStorage: UserStore.InMemoryUserStorage

    constructor (filmStorage: InMemoryFilmStorage, userStorage: UserStore.InMemoryUserStorage)
      ensures this.filmStorage == filmStorage && this.userStorage == userStorage
    {
      this.filmStorage := filmStorage;
      this.userStorage := userStorage;
    }

    /** The stored film, or NotFound naming the id (the store itself
        answers null). */
    method FindById(id: int) returns (r: Result<Film>)
      requires filmStorage.Valid()
      ensures r.Success? <==> id in filmStorage.films
      ensures r.Success? ==> r.value == filmStorage.films[id] && r.value.id == id
      ensures r.Failure? ==> r.error == NotFound(FilmNotFoundMessage(id))
    {
      var film := filmStorage.FindById(id);
      if film.None? {
        return Failure(NotFound(FilmNotFoundMessage(id)));
      }
      return Success(film.value);
    }

    /** Records that `userId` likes `filmId`; the film is looked up first,
        then the user. */
    method AddLike(filmId: int, userId: int) returns (r: Outcome)
      requires filmStorage.Valid() && userStorage.Valid()
      modifies filmStorage
      ensures filmStorage.Valid() && filmStorage.idGenerator == old(filmStorage.idGenerator)
      ensures r.Fail? <==> filmId !in old(filmStorage.films) || userId !in userStorage.users
      ensures filmId !in old(filmStorage.films) ==> r == Fail(NotFound(FilmNotFoundMessage(filmId)))
      ensures filmId in old(filmStorage.films) && userId !in userStorage.users ==>
        r == Fail(NotFound(UserStore.UserNotFound))
      ensures r.Fail? ==> filmStorage.films == old(filmStorage.films)
      ensures r.Pass? ==> filmStorage.films == Like(old(filmStorage.films), filmId, userId)
    {
      var film := FindById(filmId);
      if film.Failure? {
        return Fail(film.error);
      }
      var user := userStorage.FindById(userId);
      if user.Failure? {
        return Fail(user.error);
      }
      // The Java code adds to the like set of the stored object itself.
      filmStorage.films := filmStorage.films[filmId := film.value.(likes := film.value.likes + {userId})];
      return Pass;
    }

    /** Withdraws the like of `userId` from `filmId`; the user, too, must
        exist, and an absent like is not an error. */
    method RemoveLike(filmId: int, userId: int) returns (r: Outcome)
      requires filmStorage.Valid() && userStorage.Valid()
      modifies filmStorage
      ensures filmStorage.Valid() && filmStorage.idGenerator == old(filmStorage.idGenerator)
      ensures r.Fail? <==> filmId !in old(filmStorage.films) || userId !in userStorage.users
      ensures filmId !in old(filmStorage.films) ==> r == Fail(NotFound(FilmNotFoundMessage(filmId)))
      ensures filmId in old(filmStorage.films) && userId !in userStorage.users ==>
        r == Fail(NotFound(UserStore.UserNotFound))
      ensures r.Fail? ==> filmStorage.films == old(filmStorage.films)
      ensures r.Pass? ==> filmStorage.films == Unlike(old(filmStorage.films), filmId, userId)
    {
      var film := FindById(filmId);
      if film.Failure? {
        return Fail(film.error);
      }
      var user := userStorage.FindById(userId);
      if user.Failure? {
        return Fail(user.error);
      }
      filmStorage.films := filmStorage.films[filmId := film.value.(likes := film.value.likes - {userId})];
      return Pass;
    }

    /** The `count` most liked films of the listing `findAll` gives, ties in
        listing order; `listing` names that listing for the specification. */
    method GetPopularFilms(count: int) returns (r: Result<seq<Film>>, ghost listing: seq<Film>)
      requires filmStorage.Valid()
      ensures Lists(listing, filmStorage.films.Keys, filmStorage.films)
      ensures r == Popular(listing, count)
      ensures r.Success? ==> |r.value| == Min(count, |filmStorage.films|)
    {
      var all := filmStorage.FindAll();
      listing := all;
      ListsLength(all, filmStorage.films.Keys, filmStorage.films);
      r := Popular(all, count);
    }

    /** Patches the stored film with the acceptable fields of `updatedFilm`.
        A non-positive id is a Validation failure before the store is
        touched; an unknown id is NotFound. */
    method UpdateFilmCustomValidation(updatedFilm: Film) returns (r: Result<Film>)
      requires filmStorage.Valid()
      modifies filmStorage
      ensures filmStorage.Valid() && filmStorage.idGenerator == old(filmStorage.idGenerator)
      ensures r.Failure? <==> updatedFilm.id <= 0 || updatedFilm.id !in old(filmStorage.films)
      ensures updatedFilm.id <= 0 ==> r == Failure(Validation(FilmIdRequired))
      ensures updatedFilm.id > 0 && updatedFilm.id !in old(filmStorage.films) ==>
        r == Failure(NotFound(FilmNotFoundMessage(updatedFilm.id)))
      ensures r.Failure? ==> filmStorage.films == old(filmStorage.films)
      ensures r.Success? ==>
        && r.value == MergeFilm(old(filmStorage.films)[updatedFilm.id], updatedFilm)
        && filmStorage.films == old(filmStorage.films)[updatedFilm.id := r.value]
    {
      if updatedFilm.id <= 0 {
        return Failure(Validation(FilmIdRequired));
      }
      var existing := FindById(updatedFilm.id);
      if existing.Failure? {
        return Failure(existing.error);
      }
      var merged := MergeFilm(existing.value, updatedFilm);
      r := filmStorage.UpdateFilm(merged);
    }
  }
}
