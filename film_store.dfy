/** The in-memory film store: a map from id to film and an id counter. */
module FilmStore {
  import opened Wrappers
  import opened Enumeration
  import opened Films

  /** The message of the ValidationException updateFilm throws for an
      unknown id. */
  const FilmNotFound: string := "Фильм не найден"

  /** `fs` lists the stored films whose ids make up `ids`, each exactly
      once, in some order. */
  ghost predicate Lists(fs: seq<Film>, ids: set<int>, films: map<int, Film>) {
    && Enumerates(Ids(fs), ids)
    && forall i :: 0 <= i < |fs| ==> fs[i].id in films && films[fs[i].id] == fs[i]
  }

  /** A listing has one entry per id. */
  lemma ListsLength(fs: seq<Film>, ids: set<int>, films: map<int, Film>)
    requires Lists(fs, ids, films)
    ensures |fs| == |ids|
  {
    EnumeratesCardinality(Ids(fs), ids);
  }

  class InMemoryFilmStorage {
    var films: map<int, Film>
    var idGenerator: nat

    /** Every key is an id the counter has handed out, and is the id of the
        film stored under it. */
    ghost predicate Valid()
      reads this
    {
      forall id :: id in films ==> 1 <= id <= idGenerator && films[id].id == id
    }

    constructor ()
      ensures Valid() && films == map[] && idGenerator == 0
    {
      films := map[];
      idGenerator := 0;
    }

    /** Stores `film` under the next id. */
    method CreateFilm(film: Film) returns (created: Film)
      requires Valid()
      modifies this
      ensures Valid()
      ensures idGenerator == old(idGenerator) + 1 && created.id == idGenerator
      ensures created == film.(id := created.id)
      ensures created.id !in old(films)
      ensures films == old(films)[created.id := created]
    {
      idGenerator := idGenerator + 1;
      created := film.(id := idGenerator);
      films := films[created.id := created];
    }

    /** Replaces the stored film with the same id; an unknown id is a
        Validation failure, not NotFound. */
    method UpdateFilm(film: Film) returns (r: Result<Film>)
      requires Valid()
      modifies this
      ensures Valid() && idGenerator == old(idGenerator)
      ensures r.Failure? <==> film.id !in old(films)
      ensures r.Failure? ==> r.error == Validation(FilmNotFound) && films == old(films)
      ensures r.Success? ==> r.value == film && films == old(films)[film.id := film]
    {
      if film.id !in films {
        return Failure(Validation(FilmNotFound));
      }
      films := films[film.id := film];
      return Success(film);
    }

    /** Every stored film, once each. */
    method FindAll() returns (all: seq<Film>)
      requires Valid()
      ensures Lists(all, films.Keys, films)
    {
      var keys := Enumerate(films.Keys);
      var stored := films;
      forall i | 0 <= i < |keys|
        ensures keys[i] in stored && stored[keys[i]].id == keys[i]
      {
        EnumeratesMember(keys, films.Keys, i);
      }
      all := seq(|keys|, i requires 0 <= i < |keys| && keys[i] in stored => stored[keys[i]]);
      assert Ids(all) == keys;
    }

    /** The film stored under `id`, or null (None): a missing film is not
        an error here. */
    function FindById(id: int): (r: Option<Film>)
      reads this
      requires Valid()
      ensures r.Some? <==> id in films
      ensures r.Some? ==> r.value == films[id] && r.value.id == id
    {
      if id in films then Some(films[id]) else None
    }

    /** Empties the store and restarts the counter. */
    method DeleteAll()
      modifies this
      ensures Valid() && films == map[] && idGenerator == 0
    {
      films := map[];
      idGenerator := 0;
    }
  }

  /** After deleteAll the next film created gets id 1 and is the only one
      stored. */
  method ResetThenCreateFilm(store: InMemoryFilmStorage, film: Film) returns (created: Film)
    requires store.Valid()
    modifies store
    ensures created.id == 1 && store.films == map[1 := created]
  {
    store.DeleteAll();
    created := store.CreateFilm(film);
  }
}
