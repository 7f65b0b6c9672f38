/** The records the server keeps in memory, the request fields it reads and the replies it sends. */
module Records {
  import opened Wrappers

  /** Numeric identifier of a user or a movie, as `generateId` produces one. */
  type Id = int

  datatype Movie = Movie(id: Id, title: string, language: string, overview: string, watched: bool)

  /** A stored user; `password` holds the digest produced at registration, never the plaintext. */
  datatype User = User(id: Id, username: string, password: string, movies: seq<Movie>)

  /**
   * The public face of a user, `{id, username}`: the registration reply, the
   * token payload signed at login and the principal the auth gate attaches.
   */
  datatype Identity = Identity(id: Id, username: string)

  function IdentityOf(u: User): Identity
  {
    Identity(u.id, u.username)
  }

  /**
   * The movie fields of a POST or PATCH body; None is a field the body leaves
   * out (`undefined`).
   */
  datatype MovieFields = MovieFields(
    title: Option<string>,
    language: Option<string>,
    overview: Option<string>,
    watched: Option<bool>)

  /** JavaScript truthiness of an optional string field: present and non-empty. */
  predicate Truthy(f: Option<string>)
  {
    f.Some? && f.value != ""
  }

  /** Every way a request can be refused, with the status code and message it is sent with. */
  datatype Fault =
    | MissingCredentials
    | UsernameTaken
    | InvalidCredentials
    | TokenMissing
    | TokenInvalid
    | UserGone
    | TitleRequired
    | InvalidStatus
    | MovieNotFound
  {
    function Status(): int
    {
      match this
      case MissingCredentials => 400
      case UsernameTaken => 409
      case InvalidCredentials => 401
      case TokenMissing => 401
      case TokenInvalid => 401
      case UserGone => 401
      case TitleRequired => 400
      case InvalidStatus => 400
      case MovieNotFound => 404
    }

    function Message(): string
    {
      match this
      case MissingCredentials => "username and password are required."
      case UsernameTaken => "Username already taken."
      case InvalidCredentials => "Invalid username or password."
      case TokenMissing => "Token missing. Please login."
      case TokenInvalid => "Invalid or expired token."
      case UserGone => "User no longer exists."
      case TitleRequired => "Movie title is required."
      case InvalidStatus => "Invalid status. Use \"watched\" or \"unwatched\"."
      case MovieNotFound => "Movie not found."
    }
  }

  /** The outcome of a decision that can fail (the gate, the login check, the status filter). */
  datatype Result<T> = Ok(value: T) | Err(fault: Fault)

  /** What a route sends back: a success code with its payload, or a fault. */
  datatype Reply<T> = Success(code: int, body: T) | Failure(fault: Fault)
  {
    function Status(): int
    {
      match this
      case Success(c, _) => c
      case Failure(f) => f.Status()
    }
  }
}
