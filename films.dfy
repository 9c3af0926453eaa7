/** The Film entity: its record fields, its like set and the field
    constraints declared on it, which the partial update reuses. */
module Films {
  import opened Wrappers
  import opened JavaLang

  /** A film as the store holds it. A null field of the Java object is
      None; `duration` is a primitive int and so never null. `likes` holds
      the ids of the users who liked the film. */
  datatype Film = Film(
    id: int,
    name: Option<string>,
    description: Option<string>,
    releaseDate: Option<Date>,
    duration: int,
    likes: set<int>)

  /** The earliest admissible release date, 28 December 1895. */
  const CinemaBirthday: Date := Date(1895, 12, 28)

  /** The longest admissible description, in UTF-16 code units. */
  const MaxDescriptionLength: nat := 200

  /** Name: @NotBlank. */
  predicate ValidName(name: Option<string>)
    ensures ValidName(name) <==>
      name.Some? && exists i :: 0 <= i < |name.value| && !IsWhitespace(name.value[i])
  {
    NotBlank(name)
  }

  /** Description: @Size(max = 200); a null description passes. */
  predicate ValidDescription(description: Option<string>)
    ensures ValidDescription(description) && description.Some? ==> |description.value| <= MaxDescriptionLength
  {
    description.None? || Utf16Length(description.value) <= MaxDescriptionLength
  }

  /** Release date: @NotNull and not before the cinema's birthday. */
  predicate ValidReleaseDate(releaseDate: Option<Date>)
    ensures ValidReleaseDate(releaseDate) ==> releaseDate.Some? && releaseDate.value.year >= 1895
  {
    releaseDate.Some? && !IsBefore(releaseDate.value, CinemaBirthday)
  }

  /** Duration: @Positive, which is strict: zero is rejected. */
  predicate ValidDuration(duration: int)
    ensures duration == 0 ==> !ValidDuration(duration)
    ensures ValidDuration(duration) ==> duration >= 1
  {
    duration > 0
  }

  /** All field constraints of a film; the id and the like set carry
      none. */
  predicate ValidFilm(f: Film)
    ensures ValidFilm(f) ==>
      && f.name.Some? && f.name.value != [] && f.releaseDate.Some? && f.duration > 0
      && (f.description.Some? ==> |f.description.value| <= MaxDescriptionLength)
  {
    ValidName(f.name) && ValidDescription(f.description) && ValidReleaseDate(f.releaseDate)
    && ValidDuration(f.duration)
  }

  /** Storing a film (a new id) or liking it (a new like set) cannot make
      it valid or invalid. */
  lemma ValidFilmIgnoresIdAndLikes(f: Film, id: int, likes: set<int>)
    ensures ValidFilm(f) <==> ValidFilm(f.(id := id, likes := likes))
  {
  }

  /** The number of likes, the ranking key. */
  function LikeCount(f: Film): nat {
    |f.likes|
  }

  /** The ids of a list of films, in list order. */
  function Ids(fs: seq<Film>): seq<int> {
    seq(|fs|, i requires 0 <= i < |fs| => fs[i].id)
  }
}
