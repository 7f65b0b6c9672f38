/** The user store's lookups (`findUserByUsername`, `findUserById`) and the facts the store keeps. */
module Users {
  import opened Wrappers
  import opened Seqs
  import opened Records

  /**
   * Position of the first user whose username is exactly `username`. The source
   * returns that record itself; the position is how this model refers to it.
   */
  function FindUserByUsername(users: seq<User>, username: string): (r: Option<nat>)
    ensures r.Some? ==> r.value < |users| && users[r.value].username == username
    ensures r.Some? ==> forall j :: 0 <= j < r.value ==> users[j].username != username
    ensures r.None? <==> forall j :: 0 <= j < |users| ==> users[j].username != username
  {
    FindIndex(users, (u: User) => u.username == username)
  }

  /** Position of the first user whose id is exactly `id`. */
  function FindUserById(users: seq<User>, id: Id): (r: Option<nat>)
    ensures r.Some? ==> r.value < |users| && users[r.value].id == id
    ensures r.Some? ==> forall j :: 0 <= j < r.value ==> users[j].id != id
    ensures r.None? <==> forall j :: 0 <= j < |users| ==> users[j].id != id
  {
    FindIndex(users, (u: User) => u.id == id)
  }

  /** No two users share a username; registration keeps this. */
  ghost predicate UsernamesUnique(users: seq<User>)
  {
    forall i, j :: 0 <= i < j < |users| ==> users[i].username != users[j].username
  }

  /**
   * No two users share an id. The source draws ids from the clock and a random
   * number and does not check this; the model assumes it only where a lemma says so.
   */
  ghost predicate IdsUnique(users: seq<User>)
  {
    forall i, j :: 0 <= i < j < |users| ==> users[i].id != users[j].id
  }

  /** `after` differs from `before` at most in the movie list of the user at position `i`. */
  ghost predicate OnlyMoviesChanged(before: seq<User>, after: seq<User>, i: nat)
  {
    && |after| == |before|
    && i < |before|
    && (forall j :: 0 <= j < |before| && j != i ==> after[j] == before[j])
    && after[i].id == before[i].id
    && after[i].username == before[i].username
    && after[i].password == before[i].password
  }

  /** The store with the movie list of the user at position `i` replaced by `movies`. */
  function SetMovies(users: seq<User>, i: nat, movies: seq<Movie>): (r: seq<User>)
    requires i < |users|
    ensures OnlyMoviesChanged(users, r, i) && r[i].movies == movies
    ensures UsernamesUnique(users) ==> UsernamesUnique(r)
  {
    users[i := users[i].(movies := movies)]
  }

  /** When ids are unique, looking a user up by its own id finds that user. */
  lemma FindOwnId(users: seq<User>, k: nat)
    requires IdsUnique(users) && k < |users|
    ensures FindUserById(users, users[k].id) == Some(k)
  {
  }

  /** A username not yet taken is found, after an append, at the new last position. */
  lemma FindAppended(users: seq<User>, u: User)
    requires FindUserByUsername(users, u.username).None?
    ensures FindUserByUsername(users + [u], u.username) == Some(|users|)
  {
    assert (users + [u])[|users|] == u;
  }
}
