/**
 * The server's routes over its one piece of state, the ordered list of users.
 * Each route runs as one atomic step: the movie routes pass the authorization
 * header through the auth gate first and act only on the movie list of the
 * user the gate resolved. Oracles (hasher, password check, token signer and
 * verifier) and freshly generated ids are parameters.
 */
module Server {
  import opened Wrappers
  import opened Seqs
  import opened Records
  import opened Users
  import opened Auth
  import opened Watchlist

  class Store {
    var users: seq<User>

    ghost predicate Valid()
      reads this
    {
      UsernamesUnique(users)
    }

    constructor ()
      ensures Valid() && users == []
    {
      users := [];
    }

    /**
     * POST /auth/register: falsy fields are a 400 and a taken username a 409,
     * both leaving the store unchanged; otherwise exactly one user is appended
     * with the digest of the password and no movies, and only its id and
     * username are sent back.
     */
    method Register(username: Option<string>, password: Option<string>, hash: string -> string, newId: Id)
      returns (r: Reply<Identity>)
      requires Valid()
      modifies this
      ensures Valid()
      ensures !Truthy(username) || !Truthy(password) ==> r == Failure(MissingCredentials) && users == old(users)
      ensures Truthy(username) && Truthy(password) && FindUserByUsername(old(users), username.value).Some? ==>
        r == Failure(UsernameTaken) && users == old(users)
      ensures Truthy(username) && Truthy(password) && FindUserByUsername(old(users), username.value).None? ==>
        && users == old(users) + [User(newId, username.value, hash(password.value), [])]
        && r == Success(201, IdentityOf(users[|users| - 1]))
    {
      if !Truthy(username) || !Truthy(password) {
        return Failure(MissingCredentials);
      }
      if FindUserByUsername(users, username.value).Some? {
        return Failure(UsernameTaken);
      }
      var hashed := hash(password.value);
      var newUser := User(newId, username.value, hashed, []);
      users := users + [newUser];
      r := Success(201, IdentityOf(newUser));
    }

    /** POST /auth/login: on success, the signed payload `{id, username}` of the user found by name. */
    method Login(username: Option<string>, password: Option<string>,
                 matches: (string, string) -> bool, sign: Identity -> string)
      returns (r: Reply<string>)
      ensures var d := LoginDecision(users, username, password, matches);
        && (d.Ok? ==> r == Success(200, sign(d.value)))
        && (d.Err? ==> r == Failure(d.fault))
      ensures r.Failure? ==> r.Status() == 400 || r.Status() == 401
    {
      var decision := LoginDecision(users, username, password, matches);
      if decision.Err? {
        return Failure(decision.fault);
      }
      var token := sign(decision.value);
      r := Success(200, token);
    }

    /**
     * POST /movies: after the gate, a falsy title is a 400 with no change;
     * otherwise the defaulted movie is appended to the caller's list and to no
     * other.
     */
    method AddMovie(header: Option<string>, verify: string -> Option<Identity>, fields: MovieFields, newId: Id)
      returns (r: Reply<Movie>)
      requires Valid()
      modifies this
      ensures Valid()
      ensures var a := Authenticate(old(users), header, verify);
        a.Err? ==> r == Failure(a.fault) && users == old(users)
      ensures var a := Authenticate(old(users), header, verify);
        a.Ok? && !Truthy(fields.title) ==> r == Failure(TitleRequired) && users == old(users)
      ensures var a := Authenticate(old(users), header, verify);
        a.Ok? && Truthy(fields.title) ==>
          var i := FindUserById(old(users), a.value.id).value;
          && r == Success(201, NewMovie(fields, newId))
          && OnlyMoviesChanged(old(users), users, i)
          && users[i].movies == old(users)[i].movies + [r.body]
    {
      var gate := Authenticate(users, header, verify);
      if gate.Err? {
        return Failure(gate.fault);
      }
      if !Truthy(fields.title) {
        return Failure(TitleRequired);
      }
      var i := FindUserById(users, gate.value.id).value;
      var movie := NewMovie(fields, newId);
      users := SetMovies(users, i, users[i].movies + [movie]);
      r := Success(201, movie);
    }

    /** GET /movies: the caller's movies, narrowed by the optional status. */
    method ListMovies(header: Option<string>, verify: string -> Option<Identity>, status: Option<string>)
      returns (r: Reply<seq<Movie>>)
      ensures var a := Authenticate(users, header, verify);
        a.Err? ==> r == Failure(a.fault)
      ensures var a := Authenticate(users, header, verify);
        a.Ok? ==>
          var s := SelectByStatus(users[FindUserById(users, a.value.id).value].movies, status);
          && (s.Ok? ==> r == Success(200, s.value))
          && (s.Err? ==> r == Failure(s.fault))
    {
      var gate := Authenticate(users, header, verify);
      if gate.Err? {
        return Failure(gate.fault);
      }
      var i := FindUserById(users, gate.value.id).value;
      var selected := SelectByStatus(users[i].movies, status);
      if selected.Err? {
        return Failure(selected.fault);
      }
      r := Success(200, selected.value);
    }

    /** GET /movies/:id: the first movie of the caller's own list with that id, else a 404. */
    method GetMovie(header: Option<string>, verify: string -> Option<Identity>, pathId: Option<Id>)
      returns (r: Reply<Movie>)
      ensures var a := Authenticate(users, header, verify);
        a.Err? ==> r == Failure(a.fault)
      ensures var a := Authenticate(users, header, verify);
        a.Ok? ==>
          var ms := users[FindUserById(users, a.value.id).value].movies;
          && (FindMovie(ms, pathId).None? ==> r == Failure(MovieNotFound))
          && (FindMovie(ms, pathId).Some? ==> r == Success(200, ms[FindMovie(ms, pathId).value]))
    {
      var gate := Authenticate(users, header, verify);
      if gate.Err? {
        return Failure(gate.fault);
      }
      var i := FindUserById(users, gate.value.id).value;
      var found := FindMovie(users[i].movies, pathId);
      if found.None? {
        return Failure(MovieNotFound);
      }
      r := Success(200, users[i].movies[found.value]);
    }

    /**
     * PATCH /movies/:id: the first movie of the caller's list with that id gets
     * the supplied fields; every other field, movie and user stays as it was.
     */
    method PatchMovie(header: Option<string>, verify: string -> Option<Identity>, pathId: Option<Id>, fields: MovieFields)
      returns (r: Reply<Movie>)
      requires Valid()
      modifies this
      ensures Valid()
      ensures var a := Authenticate(old(users), header, verify);
        a.Err? ==> r == Failure(a.fault) && users == old(users)
      ensures var a := Authenticate(old(users), header, verify);
        a.Ok? ==>
          var i := FindUserById(old(users), a.value.id).value;
          var ms := old(users)[i].movies;
          && (FindMovie(ms, pathId).None? ==> r == Failure(MovieNotFound) && users == old(users))
          && (FindMovie(ms, pathId).Some? ==>
                var k := FindMovie(ms, pathId).value;
                && r == Success(200, ApplyPatch(ms[k], fields))
                && OnlyMoviesChanged(old(users), users, i)
                && users[i].movies == ms[k := r.body])
    {
      var gate := Authenticate(users, header, verify);
      if gate.Err? {
        return Failure(gate.fault);
      }
      var i := FindUserById(users, gate.value.id).value;
      var ms := users[i].movies;
      var found := FindMovie(ms, pathId);
      if found.None? {
        return Failure(MovieNotFound);
      }
      var k := found.value;
      var patched := ApplyPatch(ms[k], fields);
      users := SetMovies(users, i, ms[k := patched]);
      r := Success(200, patched);
    }

    /**
     * DELETE /movies/:id: the first movie of the caller's list with that id is
     * removed and sent back; the rest of the list keeps its order.
     */
    method DeleteMovie(header: Option<string>, verify: string -> Option<Identity>, pathId: Option<Id>)
      returns (r: Reply<Movie>)
      requires Valid()
      modifies this
      ensures Valid()
      ensures var a := Authenticate(old(users), header, verify);
        a.Err? ==> r == Failure(a.fault) && users == old(users)
      ensures var a := Authenticate(old(users), header, verify);
        a.Ok? ==>
          var i := FindUserById(old(users), a.value.id).value;
          var ms := old(users)[i].movies;
          && (FindMovie(ms, pathId).None? ==> r == Failure(MovieNotFound) && users == old(users))
          && (FindMovie(ms, pathId).Some? ==>
                var k := FindMovie(ms, pathId).value;
                && r == Success(200, ms[k])
                && OnlyMoviesChanged(old(users), users, i)
                && users[i].movies == RemoveAt(ms, k))
    {
      var gate := Authenticate(users, header, verify);
      if gate.Err? {
        return Failure(gate.fault);
      }
      var i := FindUserById(users, gate.value.id).value;
      var ms := users[i].movies;
      var found := FindMovie(ms, pathId);
      if found.None? {
        return Failure(MovieNotFound);
      }
      var k := found.value;
      users := SetMovies(users, i, RemoveAt(ms, k));
      r := Success(200, ms[k]);
    }
  }

  /**
   * Signing up as a client sees it: register alice, fail to register her again,
   * log in with the right password and not with a wrong one, and authenticate
   * with the token received. The oracles are constrained only as far as the
   * session needs: the digest of a password matches it, the verifier gives
   * back what the signer signed, and tokens have no spaces.
   */
  method SignUpSession(hash: string -> string, matches: (string, string) -> bool,
                       sign: Identity -> string, verify: string -> Option<Identity>)
    returns (store: Store, header: Option<string>)
    requires forall p :: matches(p, hash(p))
    requires forall c :: verify(sign(c)) == Some(c)
    requires forall c :: sign(c) != [] && ' ' !in sign(c)
    ensures store.Valid() && store.users == [User(1, "alice", hash("pw1"), [])]
    ensures Authenticate(store.users, header, verify) == Ok(Identity(1, "alice"))
  {
    store := new Store();
    var registered := store.Register(Some("alice"), Some("pw1"), hash, 1);
    assert registered == Success(201, Identity(1, "alice"));
    var again := store.Register(Some("alice"), Some("other"), hash, 2);
    assert again.Status() == 409;
    assert store.users == [User(1, "alice", hash("pw1"), [])];

    var login := store.Login(Some("alice"), Some("pw1"), matches, sign);
    assert login == Success(200, sign(Identity(1, "alice")));
    var wrong := store.Login(Some("alice"), Some("pw2"), matches, sign);
    assert matches("pw2", hash("pw1")) || wrong == Failure(InvalidCredentials);

    var token := login.body;
    header := Some(Scheme + token);
    BearerRoundTrip(token, []);
    assert Scheme + token + [] == Scheme + token;
    assert BearerToken(header) == Some(token);
    assert FindUserById(store.users, 1) == Some(0);
  }

  /**
   * A watchlist round as the signed-up client sees it: add "Dune" with only a
   * title, list it, delete it, and no longer find it.
   */
  method WatchlistSession(store: Store, header: Option<string>, verify: string -> Option<Identity>, digest: string)
    requires store.Valid() && store.users == [User(1, "alice", digest, [])]
    requires Authenticate(store.users, header, verify) == Ok(Identity(1, "alice"))
    modifies store
  {
    var alice := Identity(1, "alice");
    assert FindUserById(store.users, 1) == Some(0);
    var added := store.AddMovie(header, verify, MovieFields(Some("Dune"), None, None, None), 7);
    var dune := Movie(7, "Dune", "Unknown", "", false);
    assert added == Success(201, dune);
    assert |store.users| == 1 && store.users[0].movies == [] + [dune];
    assert store.users[0].id == 1 && store.users[0].username == "alice" && store.users[0].password == digest;
    assert store.users[0] == User(1, "alice", digest, [dune]);
    assert store.users == [User(1, "alice", digest, [dune])];

    assert FindUserById(store.users, 1) == Some(0);
    assert Authenticate(store.users, header, verify) == Ok(alice);
    var listed := store.ListMovies(header, verify, None);
    assert listed == Success(200, [dune]);

    assert FindMovie([dune], Some(7)) == Some(0);
    var deleted := store.DeleteMovie(header, verify, Some(7));
    assert deleted == Success(200, dune);
    assert |store.users| == 1 && store.users[0].movies == RemoveAt([dune], 0) == [];
    assert store.users[0].id == 1 && store.users[0].username == "alice" && store.users[0].password == digest;
    assert store.users[0] == User(1, "alice", digest, []);
    assert store.users == [User(1, "alice", digest, [])];
    assert FindUserById(store.users, 1) == Some(0);
    assert Authenticate(store.users, header, verify) == Ok(alice);
    var gone := store.GetMovie(header, verify, Some(7));
    assert gone == Failure(MovieNotFound);
  }
}
