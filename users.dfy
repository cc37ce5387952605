/**
 * The `users` collection both servers share: documents in insertion order,
 * `findOne` returning the first match, `updateOne` changing the first match,
 * `insertOne` appending with a fresh `_id`.
 */
module Users {
  import opened Prelude
  import opened Text
  import opened Tokens

  /** bcrypt, idealised: a salted hash that compares equal with exactly the
      password it was made from. The work factor and one-wayness are not modelled. */
  datatype PasswordHash = PasswordHash(salt: nat, ofPassword: string)

  /** `bcrypt.hash(password, 12)` with the random salt as a parameter. */
  function Hash(password: string, salt: nat): PasswordHash
  {
    PasswordHash(salt, password)
  }

  /** `bcrypt.compare(password, hash)`. */
  predicate PasswordMatches(password: string, hash: PasswordHash)
  {
    hash.ofPassword == password
  }

  /** The progress record stored with each user: completed and unlocked phase numbers. */
  datatype Progress = Progress(completed: seq<nat>, unlocked: seq<nat>)

  /** A user document. `id` is the document's ObjectId, written as a number. */
  datatype User = User(
    id: nat,
    email: string,
    password: PasswordHash,
    firstName: string,
    lastName: string,
    studentId: string,
    createdAt: int,
    currentPhase: nat,
    progress: Progress,
    lastLogin: Option<int>,
    refreshToken: Option<Jwt>)

  /** A user as the servers send it out: the document without `password` and `refreshToken`. */
  datatype PublicUser = PublicUser(
    id: nat,
    email: string,
    firstName: string,
    lastName: string,
    studentId: string,
    createdAt: int,
    currentPhase: nat,
    progress: Progress,
    lastLogin: Option<int>)

  /** `delete user.password; delete user.refreshToken` on a copy of the document. */
  function Sanitize(u: User): PublicUser
  {
    PublicUser(u.id, u.email, u.firstName, u.lastName, u.studentId, u.createdAt,
               u.currentPhase, u.progress, u.lastLogin)
  }

  /** The document `insertOne` stores at registration: phase 1 current, phase 1 unlocked, nothing completed. */
  function NewUser(id: nat, email: string, password: PasswordHash, firstName: string,
                   lastName: string, studentId: string, now: int): User
  {
    User(id, email, password, firstName, lastName, studentId, now, 1,
         Progress([], [1]), None, None)
  }

  /** `users.findOne({ email })`: the position of the first document with that email. */
  function FindByEmail(users: seq<User>, email: string): (r: Option<nat>)
    ensures r.Some? ==> r.value < |users| && users[r.value].email == email
    ensures r.Some? ==> forall j :: 0 <= j < r.value ==> users[j].email != email
    ensures r.None? <==> forall j :: 0 <= j < |users| ==> users[j].email != email
  {
    if |users| == 0 then None
    else if users[0].email == email then Some(0)
    else
      match FindByEmail(users[1..], email)
      case None => None
      case Some(k) => Some(k + 1)
  }

  predicate HasEmail(users: seq<User>, email: string)
  {
    exists j :: 0 <= j < |users| && users[j].email == email
  }

  /** The text form of an ObjectId, as `_id.toString()` writes it. */
  function IdText(id: nat): string
  {
    NatToString(id)
  }

  /** `users.findOne({ _id: new ObjectId(idText), refreshToken: token })`: the first
      document whose id is written `idText` and whose stored refresh token is `token`. */
  function FindByIdAndToken(users: seq<User>, idText: string, token: Jwt): (r: Option<nat>)
    ensures r.Some? ==> r.value < |users| && IdText(users[r.value].id) == idText && users[r.value].refreshToken == Some(token)
    ensures r.None? <==> forall j :: 0 <= j < |users| ==> !(IdText(users[j].id) == idText && users[j].refreshToken == Some(token))
  {
    if |users| == 0 then None
    else if IdText(users[0].id) == idText && users[0].refreshToken == Some(token) then Some(0)
    else
      match FindByIdAndToken(users[1..], idText, token)
      case None => None
      case Some(k) => Some(k + 1)
  }

  /** `users.updateOne({ _id: id }, { $set: ... })`: replaces the first document with that id. */
  function ReplaceFirstById(users: seq<User>, id: nat, u: User): (r: seq<User>)
    ensures |r| == |users|
    ensures forall j :: 0 <= j < |users| ==> r[j] == (if users[j].id == id && (forall k :: 0 <= k < j ==> users[k].id != id) then u else users[j])
  {
    if |users| == 0 then []
    else if users[0].id == id then [u] + users[1..]
    else [users[0]] + ReplaceFirstById(users[1..], id, u)
  }

  /** Every `_id` is below the next one to be handed out and no two documents share one. */
  predicate IdsValid(users: seq<User>, nextId: nat)
  {
    && (forall j :: 0 <= j < |users| ==> users[j].id < nextId)
    && (forall i, j :: 0 <= i < j < |users| ==> users[i].id != users[j].id)
  }

  /** With unique ids, updating by id changes exactly the document at position k. */
  lemma ReplaceAtUniqueId(users: seq<User>, nextId: nat, k: nat, u: User)
    requires IdsValid(users, nextId) && k < |users|
    ensures ReplaceFirstById(users, users[k].id, u) == users[k := u]
  {
    var r := ReplaceFirstById(users, users[k].id, u);
    forall j | 0 <= j < |users| ensures r[j] == users[k := u][j] {
      if j == k {
        assert forall i :: 0 <= i < j ==> users[i].id != users[k].id;
      }
    }
  }

  /** Appending a document with the next id keeps the ids valid. */
  lemma InsertKeepsIdsValid(users: seq<User>, nextId: nat, u: User)
    requires IdsValid(users, nextId) && u.id == nextId
    ensures IdsValid(users + [u], nextId + 1)
  {
  }

  /** Replacing a document by one with the same id keeps the ids valid. */
  lemma ReplaceKeepsIdsValid(users: seq<User>, nextId: nat, k: nat, u: User)
    requires IdsValid(users, nextId) && k < |users| && u.id == users[k].id
    ensures IdsValid(users[k := u], nextId)
  {
  }
}

/** What a handler sends back: a status code and either an error message or a result. */
module Api {
  import opened Tokens
  import opened Users

  datatype Reply =
    | Failure(status: nat, message: string)
    | CodeSent(code: string)
    | CodeVerified
    | EmailAvailable
    | UserCreated(user: PublicUser)
    | LoggedIn(user: PublicUser, tokens: TokenPair)
    | TokensRefreshed(tokens: TokenPair)

  function Status(r: Reply): nat
  {
    match r
    case Failure(status, _) => status
    case UserCreated(_) => 201
    case _ => 200
  }
}
