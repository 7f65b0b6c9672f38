/**
 * The per-user watchlist decisions: the defaults a new movie gets, the status
 * filter of the listing, the lookup by path id and the field-by-field patch.
 */
module Watchlist {
  import opened Wrappers
  import opened Seqs
  import opened Records

  const DefaultLanguage := "Unknown"

  /** `f || fallback` on an optional string field. */
  function OrElse(f: Option<string>, fallback: string): string
  {
    if Truthy(f) then f.value else fallback
  }

  /**
   * The movie a POST body creates: the title as given, a falsy language
   * replaced by "Unknown", a falsy overview by "", and an absent watched flag by false.
   */
  function NewMovie(fields: MovieFields, id: Id): (m: Movie)
    requires Truthy(fields.title)
    ensures m.id == id && m.title == fields.title.value
    ensures Truthy(fields.language) ==> m.language == fields.language.value
    ensures !Truthy(fields.language) ==> m.language == DefaultLanguage
    ensures Truthy(fields.overview) ==> m.overview == fields.overview.value
    ensures !Truthy(fields.overview) ==> m.overview == ""
    ensures m.watched <==> fields.watched == Some(true)
    ensures m.title != [] && m.language != []
  {
    Movie(id, fields.title.value, OrElse(fields.language, DefaultLanguage), OrElse(fields.overview, ""),
          match fields.watched case Some(w) => w case None => false)
  }

  /**
   * The movie a PATCH body leaves: every supplied field overwritten, every
   * absent one kept, and the id never touched.
   */
  function ApplyPatch(m: Movie, fields: MovieFields): (r: Movie)
    ensures r.id == m.id
    ensures fields.title.None? ==> r.title == m.title
    ensures fields.title.Some? ==> r.title == fields.title.value
    ensures fields.language.None? ==> r.language == m.language
    ensures fields.language.Some? ==> r.language == fields.language.value
    ensures fields.overview.None? ==> r.overview == m.overview
    ensures fields.overview.Some? ==> r.overview == fields.overview.value
    ensures fields.watched.None? ==> r.watched == m.watched
    ensures fields.watched.Some? ==> r.watched == fields.watched.value
    ensures fields == MovieFields(None, None, None, None) ==> r == m
  {
    var m1 := if fields.title.Some? then m.(title := fields.title.value) else m;
    var m2 := if fields.language.Some? then m1.(language := fields.language.value) else m1;
    var m3 := if fields.overview.Some? then m2.(overview := fields.overview.value) else m2;
    if fields.watched.Some? then m3.(watched := fields.watched.value) else m3
  }

  /** Applying the same patch twice leaves what applying it once leaves. */
  lemma PatchIdempotent(m: Movie, fields: MovieFields)
    ensures ApplyPatch(ApplyPatch(m, fields), fields) == ApplyPatch(m, fields)
  {
  }

  /**
   * Position of the first movie whose id equals the path id; an unparseable
   * path id (None, JavaScript's NaN) matches nothing.
   */
  function FindMovie(movies: seq<Movie>, pathId: Option<Id>): (r: Option<nat>)
    ensures r.Some? ==> r.value < |movies| && pathId == Some(movies[r.value].id)
    ensures r.Some? ==> forall j :: 0 <= j < r.value ==> pathId != Some(movies[j].id)
    ensures r.None? <==> forall j :: 0 <= j < |movies| ==> pathId != Some(movies[j].id)
    ensures pathId.None? ==> r.None?
  {
    FindIndex(movies, (m: Movie) => pathId == Some(m.id))
  }

  /**
   * Adding then reading back: when the new id is not already in the list, the
   * lookup by that id finds the movie just appended, with the title given and
   * the defaulted language, overview and watched flag. `generateId` does not
   * guarantee the freshness this assumes.
   */
  lemma AddThenFind(ms: seq<Movie>, fields: MovieFields, newId: Id)
    requires Truthy(fields.title)
    requires forall j :: 0 <= j < |ms| ==> ms[j].id != newId
    ensures FindMovie(ms + [NewMovie(fields, newId)], Some(newId)) == Some(|ms|)
    ensures (ms + [NewMovie(fields, newId)])[|ms|] == NewMovie(fields, newId)
  {
  }

  /**
   * Without a fresh id the read-back finds the older movie: when the list
   * already holds a movie with the new id, the lookup after the append gives
   * the same position as before it, so GET, PATCH and DELETE on that id reach
   * the earlier movie.
   */
  lemma {:induction false} IdCollisionFindsEarlier(ms: seq<Movie>, fields: MovieFields, newId: Id)
    requires Truthy(fields.title)
    requires exists j :: 0 <= j < |ms| && ms[j].id == newId
    ensures FindMovie(ms, Some(newId)).Some?
    ensures FindMovie(ms + [NewMovie(fields, newId)], Some(newId)) == FindMovie(ms, Some(newId))
  {
    var k := FindMovie(ms, Some(newId)).value;
    assert (ms + [NewMovie(fields, newId)])[k] == ms[k];
    assert forall j :: 0 <= j < k ==> (ms + [NewMovie(fields, newId)])[j] == ms[j];
  }

  /** An instance: an earlier "Alien" with id 7 hides a newly added "Dune" that drew id 7. */
  lemma AlienHidesDune()
    ensures FindMovie([Movie(7, "Alien", "en", "", true)] + [NewMovie(MovieFields(Some("Dune"), None, None, None), 7)], Some(7))
         == Some(0)
  {
  }

  predicate IsWatched(m: Movie) { m.watched }

  predicate IsUnwatched(m: Movie) { !m.watched }

  /**
   * The listing: a falsy status returns every movie; "watched" and "unwatched"
   * return exactly the movies with that flag, in their original order; any
   * other status is refused.
   */
  function SelectByStatus(movies: seq<Movie>, status: Option<string>): (r: Result<seq<Movie>>)
    ensures !Truthy(status) ==> r == Ok(movies)
    ensures status == Some("watched") ==>
      && r.Ok?
      && IsSubsequence(r.value, movies)
      && forall m :: multiset(r.value)[m] == if m.watched then multiset(movies)[m] else 0
    ensures status == Some("unwatched") ==>
      && r.Ok?
      && IsSubsequence(r.value, movies)
      && forall m :: multiset(r.value)[m] == if m.watched then 0 else multiset(movies)[m]
    ensures Truthy(status) && status.value != "watched" && status.value != "unwatched" ==> r == Err(InvalidStatus)
  {
    if !Truthy(status) then Ok(movies)
    else if status.value == "watched" then
      FilterIsSubsequence(movies, IsWatched);
      FilterMultiset(movies, IsWatched);
      Ok(Filter(movies, IsWatched))
    else if status.value == "unwatched" then
      FilterIsSubsequence(movies, IsUnwatched);
      FilterMultiset(movies, IsUnwatched);
      Ok(Filter(movies, IsUnwatched))
    else Err(InvalidStatus)
  }

  /** The two filtered listings split the watchlist: together they hold every movie exactly once. */
  lemma StatusesPartition(movies: seq<Movie>)
    ensures SelectByStatus(movies, Some("watched")).Ok? && SelectByStatus(movies, Some("unwatched")).Ok?
    ensures multiset(SelectByStatus(movies, Some("watched")).value) + multiset(SelectByStatus(movies, Some("unwatched")).value)
         == multiset(movies)
  {
    var w := SelectByStatus(movies, Some("watched")).value;
    var u := SelectByStatus(movies, Some("unwatched")).value;
    forall m ensures (multiset(w) + multiset(u))[m] == multiset(movies)[m] {
    }
  }
}
