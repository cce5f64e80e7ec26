/**
 * The `Utilisateur` table and the per-browser session object that the
 * authentication, logout and account routes read and update in place, and
 * the abstract form of the texts stored in the `token` column.
 */
module Accounts {
  import opened Common

  datatype Role = Etudiant | Admin

  /**
   * A bcrypt hash. The random salt makes two hashes of one password
   * differ; `bcrypt.compare` accepts exactly the hashed password.
   */
  datatype PasswordHash = Bcrypt(password: string, salt: nat)

  predicate PasswordMatches(candidate: string, hash: PasswordHash)
  {
    hash.password == candidate
  }

  /** Claims of a session token: section 4.1 of RFC 7519 (`iss`, `aud`, `exp`, `iat`) plus the user's id, email and role. */
  datatype Claims = Claims(userId: int, email: string, role: Role, issuedAt: int, expiresAt: int, issuer: string, audience: string)

  /**
   * A token as text: a JSON Web Token, signed with the server secret or
   * not, or any other text (the random hex string of a new account, the
   * empty string of a logged-out account). Signing is deterministic, so
   * two token texts are equal exactly when their claims and signer are.
   */
  datatype TokenText = Jwt(claims: Claims, serverSigned: bool) | Raw(text: string)

  /** The empty string that logout and the inactivity check write to `token`. */
  const Cleared: TokenText := Raw("")

  datatype Account = Account(
    id: int,
    nom: string,
    prenom: string,
    email: string,
    password: PasswordHash,
    role: Role,
    estActif: bool,
    estEnLigne: bool,
    token: TokenText,
    langue: Option<string>,
    resetToken: Option<string>,
    resetTokenExpire: Option<int>,
    codeVerification: Option<string>,
    numero: Option<string>,
    dateNaissance: Option<string>,
    pays: Option<string>,
    ville: Option<string>,
    imageUrl: Option<string>,
    modifieA: int)

  /** An account as the routes send it back: every column except the password hash. */
  datatype PublicAccount = PublicAccount(
    id: int,
    nom: string,
    prenom: string,
    email: string,
    role: Role,
    estActif: bool,
    estEnLigne: bool,
    token: TokenText,
    langue: Option<string>,
    resetToken: Option<string>,
    resetTokenExpire: Option<int>,
    codeVerification: Option<string>,
    numero: Option<string>,
    dateNaissance: Option<string>,
    pays: Option<string>,
    ville: Option<string>,
    imageUrl: Option<string>,
    modifieA: int)

  /** `const { motdepasse: _, ...rest } = user` */
  function WithoutPassword(a: Account): PublicAccount
  {
    PublicAccount(a.id, a.nom, a.prenom, a.email, a.role, a.estActif, a.estEnLigne, a.token, a.langue,
      a.resetToken, a.resetTokenExpire, a.codeVerification, a.numero, a.dateNaissance, a.pays, a.ville,
      a.imageUrl, a.modifieA)
  }

  /** The `email` column is unique. */
  predicate EmailsUnique(rows: map<int, Account>)
  {
    forall a, b :: a in rows && b in rows && rows[a].email == rows[b].email ==> a == b
  }

  /** Every row sits under its own id, and ids are below the next auto-increment value. */
  predicate IdsConsistent(rows: map<int, Account>, nextId: int)
  {
    1 <= nextId && forall id :: id in rows ==> rows[id].id == id && 0 < id < nextId
  }

  /** `WHERE email = …`: the id of the account with that exact email, if any. */
  function AccountWithEmail(rows: map<int, Account>, email: string): (r: Option<int>)
    requires EmailsUnique(rows)
    ensures r.Some? ==> r.value in rows && rows[r.value].email == email
    ensures r.None? ==> forall id :: id in rows ==> rows[id].email != email
  {
    if exists id :: id in rows && rows[id].email == email then
      Some(var id :| id in rows && rows[id].email == email; id)
    else None
  }

  /** Rewriting one row without touching its id or email keeps the table well formed. */
  lemma UpdateKeepsTable(rows: map<int, Account>, nextId: int, id: int, a: Account)
    requires IdsConsistent(rows, nextId) && EmailsUnique(rows)
    requires id in rows && a.id == id && a.email == rows[id].email
    ensures IdsConsistent(rows[id := a], nextId) && EmailsUnique(rows[id := a])
  {
  }

  /** The `Utilisateur` table, with its auto-increment counter. */
  class UserStore {
    var rows: map<int, Account>
    var nextId: int

    ghost predicate Valid()
      reads this
    {
      IdsConsistent(rows, nextId) && EmailsUnique(rows)
    }

    constructor ()
      ensures Valid() && rows == map[] && nextId == 1
    {
      rows := map[];
      nextId := 1;
    }

    /** Replaces row `id` by `a`, which keeps the row's id and email. */
    method Put(id: int, a: Account)
      requires Valid() && id in rows && a.id == id && a.email == rows[id].email
      modifies this
      ensures Valid() && rows == old(rows)[id := a] && nextId == old(nextId)
    {
      UpdateKeepsTable(rows, nextId, id, a);
      rows := rows[id := a];
    }

    /** `prisma.utilisateur.create`: `a` is stored under the next auto-increment id. */
    method Insert(a: Account)
      requires Valid() && a.id == nextId && AccountWithEmail(rows, a.email).None?
      modifies this
      ensures Valid() && rows == old(rows)[old(nextId) := a] && nextId == old(nextId) + 1
      ensures old(nextId) !in old(rows)
    {
      rows := rows[nextId := a];
      nextId := nextId + 1;
    }
  }

  /**
   * `req.session` (express-session). `destroy()` removes it from the
   * store; the next request of that browser starts from an empty session.
   */
  class Session {
    var userId: Option<int>
    var lastActivity: Option<int>
    var destroyed: bool

    constructor ()
      ensures userId == None && lastActivity == None && !destroyed
    {
      userId := None;
      lastActivity := None;
      destroyed := false;
    }

    method Destroy()
      modifies this
      ensures destroyed && userId == None && lastActivity == None
    {
      destroyed := true;
      userId := None;
      lastActivity := None;
    }
  }

  /** `if (req.session.userId)`: a logged-in session (ids start at 1, so 0 reads as absent). */
  predicate LoggedIn(userId: Option<int>)
  {
    NonZero(userId)
  }
}
