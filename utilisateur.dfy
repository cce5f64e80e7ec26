/**
 * The account router: sign-up (`/creer`, `/creerAdmin`), the language
 * preference (`GET`/`PUT /:id/language`), the password change, the mobile
 * password-reset flow (a 6-digit code, then a 64-character hex token) and
 * the account-confirmation flow (a 6-digit code that activates the account).
 */
module Utilisateur {
  import opened Common
  import opened Accounts
  import opened Connexion

  // ---------------------------------------------------------------------
  // The email pattern `/^[^\s@]+@[^\s@]+\.[^\s@]+$/`
  // ---------------------------------------------------------------------

  /** `[^\s@]+`: a non-empty run of characters that are neither white space nor '@'. */
  predicate Plain(s: string)
  {
    |s| > 0 && forall k | 0 <= k < |s| :: !IsJsSpace(s[k]) && s[k] != '@'
  }

  /** `s` reads as `local "@" domain "." tld`, with its '@' at `i` and that '.' at `j`. */
  predicate EmailSplit(s: string, i: int, j: int)
  {
    0 <= i < j < |s| && s[i] == '@' && s[j] == '.'
    && Plain(s[..i]) && Plain(s[i + 1..j]) && Plain(s[j + 1..])
  }

  /** `emailRegex.test(s)` */
  predicate EmailRegex(s: string)
  {
    exists i, j | 0 <= i < j < |s| :: EmailSplit(s, i, j)
  }

  /** `s[i]` is the only '@' of `s`. */
  predicate OnlyAt(s: string, i: int)
  {
    0 <= i < |s| && s[i] == '@' && forall k | 0 <= k < |s| && k != i :: s[k] != '@'
  }

  /** Some '.' lies strictly between positions `lo` and `hi`. */
  predicate DotBetween(s: string, lo: int, hi: int)
  {
    exists j | lo < j < hi && 0 <= j < |s| :: s[j] == '.'
  }

  /**
   * The pattern in plain words: no white space, exactly one '@' with text
   * before it, and after it a '.' with text on both sides.
   */
  lemma {:induction false} EmailRegexMeans(s: string)
    ensures EmailRegex(s) <==> HasNoSpace(s) && exists i | 0 < i < |s| :: OnlyAt(s, i) && DotBetween(s, i + 1, |s| - 1)
  {
    if EmailRegex(s) {
      var i, j :| 0 <= i < j < |s| && EmailSplit(s, i, j);
      forall k | 0 <= k < |s|
        ensures !IsJsSpace(s[k]) && (k != i ==> s[k] != '@')
      {
        if k < i {
          assert s[..i][k] == s[k];
        } else if i < k < j {
          assert s[i + 1..j][k - i - 1] == s[k];
        } else if j < k {
          assert s[j + 1..][k - j - 1] == s[k];
        }
      }
      assert |s[..i]| > 0 && |s[i + 1..j]| > 0 && |s[j + 1..]| > 0;
      assert OnlyAt(s, i) && DotBetween(s, i + 1, |s| - 1);
    }
    if HasNoSpace(s) && exists i | 0 < i < |s| :: OnlyAt(s, i) && DotBetween(s, i + 1, |s| - 1) {
      var i :| 0 < i < |s| && OnlyAt(s, i) && DotBetween(s, i + 1, |s| - 1);
      var j :| i + 1 < j < |s| - 1 && 0 <= j < |s| && s[j] == '.';
      PlainSlice(s, i, 0, i);
      PlainSlice(s, i, i + 1, j);
      PlainSlice(s, i, j + 1, |s|);
      assert EmailSplit(s, i, j);
    }
  }

  /** A non-empty slice of a space-free text that avoids its only '@' is plain. */
  lemma PlainSlice(s: string, at: int, lo: int, hi: int)
    requires HasNoSpace(s) && OnlyAt(s, at) && 0 <= lo < hi <= |s| && !(lo <= at < hi)
    ensures Plain(s[lo..hi])
  {
    forall k | 0 <= k < hi - lo
      ensures !IsJsSpace(s[lo..hi][k]) && s[lo..hi][k] != '@'
    {
      assert s[lo..hi][k] == s[lo + k];
    }
  }

  /** `email.toLowerCase().trim()`: the key the reset and confirmation routes look accounts up by. */
  function LookupKey(email: string): string
  {
    Trim(ToLower(email))
  }

  /** An email that passes the pattern is only lowercased by the lookup. */
  lemma LookupKeyOfValidEmail(email: string)
    requires EmailRegex(email)
    ensures LookupKey(email) == ToLower(email)
  {
    EmailRegexMeans(email);
    assert HasNoSpace(ToLower(email)) by {
      forall k | 0 <= k < |email|
        ensures !IsJsSpace(ToLower(email)[k])
      {
        assert !IsJsSpace(email[k]);
      }
    }
    TrimWithoutSpace(ToLower(email));
  }

  // ---------------------------------------------------------------------
  // Codes and random tokens
  // ---------------------------------------------------------------------

  /** `/^\d{6}$/.test(code)` */
  predicate SixDigits(s: string)
  {
    |s| == 6 && AllDigits(s)
  }

  function DigitChar(d: int): char
    requires 0 <= d < 10
  {
    ('0' as int + d) as char
  }

  /** The value of a decimal digit string. */
  function DecimalValue(s: string): nat
  {
    if s == [] then 0
    else DecimalValue(s[..|s| - 1]) * 10 + (if IsDigit(s[|s| - 1]) then s[|s| - 1] as int - '0' as int else 0)
  }

  /** `n.toString()` for a natural number: a digit string whose value is `n`. */
  function DecimalString(n: nat): (r: string)
    ensures r != [] && AllDigits(r) && DecimalValue(r) == n
  {
    if n < 10 then [DigitChar(n)]
    else
      var prefix := DecimalString(n / 10);
      AppendDigit(prefix, n % 10);
      prefix + [DigitChar(n % 10)]
  }

  /** Writing one more digit after a digit string multiplies its value by ten and adds the digit. */
  lemma AppendDigit(prefix: string, d: int)
    requires AllDigits(prefix) && 0 <= d < 10
    ensures AllDigits(prefix + [DigitChar(d)])
    ensures DecimalValue(prefix + [DigitChar(d)]) == DecimalValue(prefix) * 10 + d
  {
    assert (prefix + [DigitChar(d)])[..|prefix|] == prefix;
  }

  /** Numbers from `lo` to `10 * lo - 1` are written with `digits` digits, for `lo` = 10^(digits - 1). */
  lemma {:induction false} DecimalLength(n: nat, lo: nat, digits: nat)
    requires digits >= 1 && lo == Power10(digits - 1) && lo <= n < 10 * lo
    ensures |DecimalString(n)| == digits
  {
    if digits == 1 {
      assert lo == 1 && n < 10;
    } else {
      var lo' := Power10(digits - 2);
      assert lo == 10 * lo' && lo' >= 1;
      DropLastDigit(n, lo');
      DecimalLength(n / 10, lo', digits - 1);
    }
  }

  /** Dropping the last digit of a number in `[10 * lo, 100 * lo)` lands in `[lo, 10 * lo)`. */
  lemma DropLastDigit(n: nat, lo: nat)
    requires 1 <= lo && 10 * lo <= n < 100 * lo
    ensures lo <= n / 10 < 10 * lo
  {
    var q, d := n / 10, n % 10;
    assert n == 10 * q + d && 0 <= d < 10;
  }

  function Power10(k: nat): (r: nat)
    ensures r >= 1
  {
    if k == 0 then 1 else 10 * Power10(k - 1)
  }

  /**
   * `Math.floor(100000 + Math.random() * 900000).toString()`: every value
   * the generator can produce is written with exactly six digits, so it
   * passes the code pattern of the verification routes.
   */
  lemma GeneratedCodeIsSixDigits(n: nat)
    requires 100000 <= n <= 999999
    ensures SixDigits(DecimalString(n))
  {
    assert Power10(5) == 100000;
    DecimalLength(n, 100000, 6);
  }

  /** A byte, as `crypto.randomBytes` yields them. */
  type Byte = b: int | 0 <= b < 256

  const HexDigits := "0123456789abcdef"

  predicate IsHexDigit(c: char)
  {
    '0' <= c <= '9' || 'a' <= c <= 'f'
  }

  function HexValue(c: char): (v: int)
    ensures 0 <= v < 16
    ensures IsHexDigit(c) ==> HexDigits[v] == c
  {
    if '0' <= c <= '9' then c as int - '0' as int
    else if 'a' <= c <= 'f' then c as int - 'a' as int + 10
    else 0
  }

  /** `buffer.toString("hex")`: two lowercase hex digits per byte. */
  function Hex(bytes: seq<Byte>): (r: string)
    ensures |r| == 2 * |bytes|
    ensures forall k | 0 <= k < |r| :: IsHexDigit(r[k])
  {
    if bytes == [] then []
    else [HexDigits[bytes[0] / 16], HexDigits[bytes[0] % 16]] + Hex(bytes[1..])
  }

  /** Reads a hex text back into bytes, two digits at a time. */
  function Unhex(s: string): seq<Byte>
  {
    if |s| < 2 then [] else [HexValue(s[0]) * 16 + HexValue(s[1])] + Unhex(s[2..])
  }

  /** The hex text of a token determines its bytes: no two random values share a text. */
  lemma {:induction false} HexRoundTrip(bytes: seq<Byte>)
    ensures Unhex(Hex(bytes)) == bytes
  {
    if bytes != [] {
      var r := Hex(bytes);
      assert r[2..] == Hex(bytes[1..]);
      assert HexValue(HexDigits[bytes[0] / 16]) == bytes[0] / 16 by { HexDigitValue(bytes[0] / 16); }
      assert HexValue(HexDigits[bytes[0] % 16]) == bytes[0] % 16 by { HexDigitValue(bytes[0] % 16); }
      HexRoundTrip(bytes[1..]);
    }
  }

  lemma HexDigitValue(d: int)
    requires 0 <= d < 16
    ensures HexValue(HexDigits[d]) == d
  {
  }

  // ---------------------------------------------------------------------
  // Sign-up: POST /creer and POST /creerAdmin
  // ---------------------------------------------------------------------

  /** The body fields both sign-up routes read. */
  datatype SignupForm = SignupForm(
    nom: Option<string>,
    prenom: Option<string>,
    email: Option<string>,
    motdepasse: Option<string>,
    numero: Option<string>,
    dateNaissance: Option<string>,
    pays: Option<string>,
    ville: Option<string>)

  predicate RequiredFilled(f: SignupForm)
  {
    Filled(f.nom) && Filled(f.prenom) && Filled(f.email) && Filled(f.motdepasse)
  }

  /** `if (field) userData.field = field`: a falsy optional field is not stored. */
  function IfFilled(s: Option<string>): (r: Option<string>)
    ensures r.Some? <==> Filled(s)
    ensures r.Some? ==> r == s
  {
    if Filled(s) then s else None
  }

  /** The stored `imageUrl`: the uploaded file's name under `/upload/utilisateur/`, or null. */
  function ImagePath(file: Option<string>): (r: Option<string>)
    ensures r.Some? <==> file.Some?
    ensures r.Some? ==> StartsWith(r.value, "/upload/utilisateur/") && r.value[|"/upload/utilisateur/"|..] == file.value
  {
    if file.Some? then Some("/upload/utilisateur/" + file.value) else None
  }

  /**
   * The row `prisma.utilisateur.create` stores for a form that passed the
   * checks. `estActif` and `estEnLigne` take the column defaults (off).
   */
  function NewAccount(id: int, f: SignupForm, role: Role, langue: Option<string>, file: Option<string>,
                      salt: nat, tokenBytes: seq<Byte>, now: int): Account
    requires RequiredFilled(f)
  {
    Account(id, f.nom.value, f.prenom.value, f.email.value, Bcrypt(f.motdepasse.value, salt), role,
      false, false, Raw(Hex(tokenBytes)), langue, None, None, None,
      IfFilled(f.numero), IfFilled(f.dateNaissance), IfFilled(f.pays), IfFilled(f.ville), ImagePath(file), now)
  }

  datatype CreateReply =
    | CreateMissingFields     // 400
    | CreateDuplicateEmail    // 400 "Un utilisateur existe déjà avec cet email."
    | Created(user: PublicAccount)    // 201, the row without `motdepasse`

  function CreateStatus(r: CreateReply): int
  {
    match r
    case CreateMissingFields => 400
    case CreateDuplicateEmail => 400
    case Created(_) => 201
  }

  /** The part both sign-up routes share once their required fields are present. */
  method Register(store: UserStore, f: SignupForm, role: Role, langue: Option<string>, file: Option<string>,
                  salt: nat, tokenBytes: seq<Byte>, now: int) returns (r: CreateReply)
    requires store.Valid() && RequiredFilled(f) && |tokenBytes| == 16
    modifies store
    ensures store.Valid()
    ensures AccountWithEmail(old(store.rows), f.email.value).Some? ==>
      r == CreateDuplicateEmail && store.rows == old(store.rows) && store.nextId == old(store.nextId)
    ensures AccountWithEmail(old(store.rows), f.email.value).None? ==>
      var a := NewAccount(old(store.nextId), f, role, langue, file, salt, tokenBytes, now);
      && old(store.nextId) !in old(store.rows)
      && store.rows == old(store.rows)[old(store.nextId) := a] && store.nextId == old(store.nextId) + 1
      && r == Created(WithoutPassword(a))
  {
    if AccountWithEmail(store.rows, f.email.value).Some? {
      return CreateDuplicateEmail;
    }
    var a := NewAccount(store.nextId, f, role, langue, file, salt, tokenBytes, now);
    store.Insert(a);
    r := Created(WithoutPassword(a));
  }

  /**
   * `POST /creer`: a student account whose `langue` is the body's `code`.
   * `salt` and `tokenBytes` stand for bcrypt's salt and `randomBytes(16)`.
   */
  method Creer(store: UserStore, f: SignupForm, code: Option<string>, file: Option<string>,
               salt: nat, tokenBytes: seq<Byte>, now: int) returns (r: CreateReply)
    requires store.Valid() && |tokenBytes| == 16
    modifies store
    ensures store.Valid()
    ensures !RequiredFilled(f) || !Filled(code) ==>
      r == CreateMissingFields && store.rows == old(store.rows) && store.nextId == old(store.nextId)
    ensures RequiredFilled(f) && Filled(code) && AccountWithEmail(old(store.rows), f.email.value).Some? ==>
      r == CreateDuplicateEmail && store.rows == old(store.rows) && store.nextId == old(store.nextId)
    ensures RequiredFilled(f) && Filled(code) && AccountWithEmail(old(store.rows), f.email.value).None? ==>
      var id := old(store.nextId);
      var a := NewAccount(id, f, Etudiant, code, file, salt, tokenBytes, now);
      && id !in old(store.rows) && store.rows == old(store.rows)[id := a] && store.nextId == id + 1
      && a.role == Etudiant && a.langue == code && !a.estActif
      && PasswordMatches(f.motdepasse.value, a.password)
      && r == Created(WithoutPassword(a))
  {
    if !RequiredFilled(f) || !Filled(code) {
      return CreateMissingFields;
    }
    r := Register(store, f, Etudiant, code, file, salt, tokenBytes, now);
  }

  /** `POST /creerAdmin`: as `/creer` without `code`; the account is an administrator with no language. */
  method CreerAdmin(store: UserStore, f: SignupForm, file: Option<string>,
                    salt: nat, tokenBytes: seq<Byte>, now: int) returns (r: CreateReply)
    requires store.Valid() && |tokenBytes| == 16
    modifies store
    ensures store.Valid()
    ensures !RequiredFilled(f) ==>
      r == CreateMissingFields && store.rows == old(store.rows) && store.nextId == old(store.nextId)
    ensures RequiredFilled(f) && AccountWithEmail(old(store.rows), f.email.value).Some? ==>
      r == CreateDuplicateEmail && store.rows == old(store.rows) && store.nextId == old(store.nextId)
    ensures RequiredFilled(f) && AccountWithEmail(old(store.rows), f.email.value).None? ==>
      var id := old(store.nextId);
      var a := NewAccount(id, f, Admin, None, file, salt, tokenBytes, now);
      && id !in old(store.rows) && store.rows == old(store.rows)[id := a] && store.nextId == id + 1
      && a.role == Admin && a.langue == None && !a.estActif
      && PasswordMatches(f.motdepasse.value, a.password)
      && r == Created(WithoutPassword(a))
  {
    if !RequiredFilled(f) {
      return CreateMissingFields;
    }
    r := Register(store, f, Admin, None, file, salt, tokenBytes, now);
  }

  /**
   * The random token a new account is created with is no signed token, so
   * `GET /verify-token` accepts nothing for the account until it logs in.
   */
  lemma NewAccountHasNoSession(rows: map<int, Account>, id: int, f: SignupForm, role: Role, langue: Option<string>,
                               file: Option<string>, salt: nat, tokenBytes: seq<Byte>, now: nat, t: TokenText)
    requires RequiredFilled(f) && id !in rows && t.Jwt? && t.claims.userId == id
    ensures !Accepted(rows[id := NewAccount(id, f, role, langue, file, salt, tokenBytes, now)], t, now)
  {
  }

  // ---------------------------------------------------------------------
  // GET and PUT /:id/language
  // ---------------------------------------------------------------------

  /** `["fr", "en"].includes(language.toLowerCase())` */
  predicate IsSupportedLanguage(language: string)
  {
    ToLower(language) == "fr" || ToLower(language) == "en"
  }

  /** The supported spellings, listed out: "fr" and "en" in any letter case. */
  lemma SupportedLanguagesListed(language: string)
    ensures IsSupportedLanguage(language) <==>
      language in {"fr", "fR", "Fr", "FR", "en", "eN", "En", "EN"}
  {
    if IsSupportedLanguage(language) {
      var l := ToLower(language);
      assert |language| == 2;
      assert LowerChar(language[0]) == l[0] && LowerChar(language[1]) == l[1];
      assert language == [language[0], language[1]];
    }
  }

  /**
   * The route's token test as written: a `"Bearer "` header whose text
   * after the first space equals the stored token. `Bearer(t)` stands for
   * a header whose `split(" ")[1]` is the text of `t`.
   */
  predicate LanguageTokenOkAsWritten(stored: TokenText, h: AuthHeader)
  {
    h.Bearer? && stored == h.token
  }

  /** The text up to the first space, or all of it. */
  function UpToSpace(s: string): (r: string)
    ensures r <= s && ' ' !in r
    ensures |r| < |s| ==> s[|r|] == ' '
  {
    if s == [] || s[0] == ' ' then [] else [s[0]] + UpToSpace(s[1..])
  }

  /** The text after the first space. */
  function AfterFirstSpace(s: string): string
    requires ' ' in s
  {
    if s[0] == ' ' then s[1..] else AfterFirstSpace(s[1..])
  }

  /** `s.split(" ")[1]` for a text that holds a space. */
  function SecondField(s: string): (r: string)
    requires ' ' in s
    ensures ' ' !in r
  {
    UpToSpace(AfterFirstSpace(s))
  }

  lemma {:induction false} AfterPrefix(p: string, rest: string)
    requires ' ' !in p
    ensures ' ' in p + [' '] + rest && AfterFirstSpace(p + [' '] + rest) == rest
  {
    var s := p + [' '] + rest;
    assert s[|p|] == ' ';
    if p != [] {
      assert s[0] == p[0] && s[1..] == p[1..] + [' '] + rest;
      AfterPrefix(p[1..], rest);
    }
  }

  /**
   * A header `"Bearer " + rest` presents the empty token exactly when
   * `rest` is empty or starts with a space. Node hands header values over
   * without trailing white space, so the reachable form is two spaces
   * followed by anything, as in `"Bearer  x"`.
   */
  lemma EmptyTokenHeaders(rest: string)
    ensures ' ' in "Bearer " + rest
    ensures SecondField("Bearer " + rest) == "" <==> rest == [] || rest[0] == ' '
  {
    assert "Bearer " + rest == "Bearer" + [' '] + rest;
    AfterPrefix("Bearer", rest);
  }

  /**
   * As written, the header `"Bearer  x"` (two spaces) passes the prefix
   * test and presents the empty text, which is the token of every
   * logged-out account: anyone can read or change the language of a
   * logged-out account.
   */
  lemma LoggedOutLanguageOpenAsWritten(a: Account, x: string)
    requires a.token == Cleared
    ensures var header := "Bearer " + " " + x;
      && StartsWith(header, "Bearer ") && ' ' in header && SecondField(header) == Cleared.text
      && LanguageTokenOkAsWritten(a.token, Bearer(Raw(SecondField(header))))
  {
    var header := "Bearer " + " " + x;
    assert header == "Bearer " + (" " + x);
    EmptyTokenHeaders(" " + x);
    assert header[..7] == "Bearer ";
  }

  /** The intended token test: the header presents the account's token, and that token is not empty. */
  predicate LanguageTokenOk(stored: TokenText, h: AuthHeader)
  {
    h.Bearer? && h.token != Cleared && stored == h.token
  }

  /**
   * Under the intended test only the holder of a live token gets through,
   * and a logged-out account accepts no header at all.
   */
  lemma LanguageTokenOkMeans(stored: TokenText, h: AuthHeader)
    ensures LanguageTokenOk(stored, h) <==> stored != Cleared && h == Bearer(stored)
    ensures stored == Cleared ==> !LanguageTokenOk(stored, h)
    ensures LanguageTokenOk(stored, h) ==> LanguageTokenOkAsWritten(stored, h)
  {
  }

  datatype LanguageReply =
    | LanguageMissing         // 400 "Le champ language est obligatoire."
    | LanguageUnsupported     // 400 "Langue non supportée."
    | LanguageUnauthorized    // 401 "Token d'autorisation requis."
    | LanguageUserNotFound    // 404
    | LanguageForbidden       // 403 "Token invalide."
    | LanguageFound(userId: int, language: Option<string>, nom: string, prenom: string)    // 200
    | LanguageUpdated(userId: int, newLanguage: string, updatedAt: int, nom: string, prenom: string)   // 200

  function LanguageStatus(r: LanguageReply): int
  {
    match r
    case LanguageMissing => 400
    case LanguageUnsupported => 400
    case LanguageUnauthorized => 401
    case LanguageUserNotFound => 404
    case LanguageForbidden => 403
    case LanguageFound(_, _, _, _) => 200
    case LanguageUpdated(_, _, _, _, _) => 200
  }

  /** `GET /:id/language`: reads the stored language of the account whose token the header presents. */
  function GetLanguage(rows: map<int, Account>, id: int, h: AuthHeader): (r: LanguageReply)
    ensures !h.Bearer? ==> r == LanguageUnauthorized
    ensures h.Bearer? && id !in rows ==> r == LanguageUserNotFound
    ensures h.Bearer? && id in rows && !LanguageTokenOk(rows[id].token, h) ==> r == LanguageForbidden
    ensures r.LanguageFound? <==> id in rows && LanguageTokenOk(rows[id].token, h)
    ensures r.LanguageFound? ==>
      r == LanguageFound(id, rows[id].langue, rows[id].nom, rows[id].prenom)
  {
    if !h.Bearer? then LanguageUnauthorized
    else if id !in rows then LanguageUserNotFound
    else if !LanguageTokenOk(rows[id].token, h) then LanguageForbidden
    else LanguageFound(id, rows[id].langue, rows[id].nom, rows[id].prenom)
  }

  /**
   * `PUT /:id/language` at clock `now`: the language is checked before the
   * header; the stored value is the lowercased request value.
   */
  method UpdateLanguage(store: UserStore, id: int, language: Option<string>, h: AuthHeader, now: int)
    returns (r: LanguageReply)
    requires store.Valid()
    modifies store
    ensures store.Valid() && store.nextId == old(store.nextId)
    ensures !r.LanguageUpdated? ==> store.rows == old(store.rows)
    ensures !Filled(language) ==> r == LanguageMissing
    ensures Filled(language) && !IsSupportedLanguage(language.value) ==> r == LanguageUnsupported
    ensures Filled(language) && IsSupportedLanguage(language.value) ==>
      && (!h.Bearer? ==> r == LanguageUnauthorized)
      && (h.Bearer? && id !in old(store.rows) ==> r == LanguageUserNotFound)
      && (h.Bearer? && id in old(store.rows) && !LanguageTokenOk(old(store.rows)[id].token, h) ==> r == LanguageForbidden)
    ensures r.LanguageUpdated? <==>
      Filled(language) && IsSupportedLanguage(language.value) && id in old(store.rows)
      && LanguageTokenOk(old(store.rows)[id].token, h)
    ensures r.LanguageUpdated? ==>
      var a := old(store.rows)[id];
      var l := ToLower(language.value);
      && (l == "fr" || l == "en")
      && store.rows == old(store.rows)[id := a.(langue := Some(l), modifieA := now)]
      && r == LanguageUpdated(id, l, now, a.nom, a.prenom)
  {
    if !Filled(language) {
      return LanguageMissing;
    }
    if !IsSupportedLanguage(language.value) {
      return LanguageUnsupported;
    }
    if !h.Bearer? {
      return LanguageUnauthorized;
    }
    if id !in store.rows {
      return LanguageUserNotFound;
    }
    var a := store.rows[id];
    if !LanguageTokenOk(a.token, h) {
      return LanguageForbidden;
    }
    var l := ToLower(language.value);
    store.Put(id, a.(langue := Some(l), modifieA := now));
    r := LanguageUpdated(id, l, now, a.nom, a.prenom);
  }

  // ---------------------------------------------------------------------
  // PUT /:id/mot-de-passe
  // ---------------------------------------------------------------------

  datatype PasswordReply =
    | PasswordFieldsMissing   // 400
    | PasswordUserNotFound    // 404
    | PasswordIncorrect       // 400 "L'ancien mot de passe est incorrect."
    | PasswordChanged         // 200

  function PasswordStatus(r: PasswordReply): int
  {
    match r
    case PasswordFieldsMissing => 400
    case PasswordUserNotFound => 404
    case PasswordIncorrect => 400
    case PasswordChanged => 200
  }

  /**
   * `PUT /:id/mot-de-passe`: the new password replaces the old one when the
   * old one is given correctly; afterwards only the new password matches.
   */
  method ChangePassword(store: UserStore, id: int, ancien: Option<string>, nouveau: Option<string>, salt: nat)
    returns (r: PasswordReply)
    requires store.Valid()
    modifies store
    ensures store.Valid() && store.nextId == old(store.nextId)
    ensures r != PasswordChanged ==> store.rows == old(store.rows)
    ensures !Filled(ancien) || !Filled(nouveau) ==> r == PasswordFieldsMissing
    ensures Filled(ancien) && Filled(nouveau) && id !in old(store.rows) ==> r == PasswordUserNotFound
    ensures Filled(ancien) && Filled(nouveau) && id in old(store.rows) ==>
      var a := old(store.rows)[id];
      && (!PasswordMatches(ancien.value, a.password) ==> r == PasswordIncorrect)
      && (PasswordMatches(ancien.value, a.password) ==>
            && r == PasswordChanged
            && store.rows == old(store.rows)[id := a.(password := Bcrypt(nouveau.value, salt))]
            && forall p :: PasswordMatches(p, store.rows[id].password) <==> p == nouveau.value)
  {
    if !Filled(ancien) || !Filled(nouveau) {
      return PasswordFieldsMissing;
    }
    if id !in store.rows {
      return PasswordUserNotFound;
    }
    var a := store.rows[id];
    if !PasswordMatches(ancien.value, a.password) {
      return PasswordIncorrect;
    }
    store.Put(id, a.(password := Bcrypt(nouveau.value, salt)));
    r := PasswordChanged;
  }

  // ---------------------------------------------------------------------
  // Password reset: POST /forgot-password-mobile, POST /verify-reset-code-mobile
  // ---------------------------------------------------------------------

  /** The reset code lives 10 minutes. */
  const ResetCodeLifetime := 10 * 60 * 1000
  /** The temporary reset token lives 15 minutes. */
  const ResetTokenLifetime := 15 * 60 * 1000

  datatype ForgotReply =
    | ForgotEmailMissing      // 400 "Email requis."
    | ForgotEmailInvalid      // 400 "Format d'email invalide."
    | ForgotMaybeSent         // 200 "Si cet email existe, …", without `success`
    | ForgotSent              // 200 "Code de réinitialisation envoyé avec succès.", `success: true`
    | ForgotFailed            // 500 "Une erreur est survenue. …"

  function ForgotStatus(r: ForgotReply): int
  {
    match r
    case ForgotEmailMissing => 400
    case ForgotEmailInvalid => 400
    case ForgotMaybeSent => 200
    case ForgotSent => 200
    case ForgotFailed => 500
  }

  /**
   * `POST /forgot-password-mobile` at clock `now`. `code` is the generated
   * number; `mailFails` is `sendPasswordResetCode` throwing, after the code
   * has already been stored. The two 200 replies tell a known email from an
   * unknown one.
   */
  method ForgotPasswordMobile(store: UserStore, email: Option<string>, code: nat, now: int, mailFails: bool)
    returns (r: ForgotReply)
    requires store.Valid() && 100000 <= code <= 999999
    modifies store
    ensures store.Valid() && store.nextId == old(store.nextId)
    ensures !Filled(email) ==> r == ForgotEmailMissing && store.rows == old(store.rows)
    ensures Filled(email) && !EmailRegex(email.value) ==> r == ForgotEmailInvalid && store.rows == old(store.rows)
    ensures Filled(email) && EmailRegex(email.value) ==>
      var found := AccountWithEmail(old(store.rows), LookupKey(email.value));
      && (found.None? ==> r == ForgotMaybeSent && store.rows == old(store.rows))
      && (found.Some? ==>
            var a := old(store.rows)[found.value];
            && SixDigits(DecimalString(code))
            && store.rows == old(store.rows)[found.value := a.(resetToken := Some(DecimalString(code)),
                                                                resetTokenExpire := Some(now + ResetCodeLifetime))]
            && r == (if mailFails then ForgotFailed else ForgotSent))
  {
    if !Filled(email) {
      return ForgotEmailMissing;
    }
    if !EmailRegex(email.value) {
      return ForgotEmailInvalid;
    }
    var found := AccountWithEmail(store.rows, LookupKey(email.value));
    if found.None? {
      return ForgotMaybeSent;
    }
    var a := store.rows[found.value];
    var resetCode := DecimalString(code);
    GeneratedCodeIsSixDigits(code);
    store.Put(found.value, a.(resetToken := Some(resetCode), resetTokenExpire := Some(now + ResetCodeLifetime)));
    if mailFails {
      return ForgotFailed;
    }
    r := ForgotSent;
  }

  /** Where a presented code stands against an account's stored reset state. */
  datatype ResetStage = NoPendingCode | CodeExpired | CodeMismatch | CodeAccepted

  /**
   * The checks of `/verify-reset-code-mobile` on a found account, in the
   * route's order: a pending code and expiry, then expiry (strictly after),
   * then equality. An expired code is reported expired whatever was presented.
   */
  function ResetCheck(a: Account, code: string, now: int): (s: ResetStage)
    ensures s == CodeAccepted <==>
      a.resetToken == Some(code) && code != "" && a.resetTokenExpire.Some? && now <= a.resetTokenExpire.value
    ensures Filled(a.resetToken) && a.resetTokenExpire.Some? && now > a.resetTokenExpire.value ==> s == CodeExpired
    ensures s == NoPendingCode <==> !Filled(a.resetToken) || a.resetTokenExpire.None?
  {
    if !Filled(a.resetToken) || a.resetTokenExpire.None? then NoPendingCode
    else if now > a.resetTokenExpire.value then CodeExpired
    else if a.resetToken.value != code then CodeMismatch
    else CodeAccepted
  }

  datatype VerifyResetReply =
    | ResetFieldsMissing      // 400 "Email et code requis."
    | ResetEmailInvalid       // 400 "Format d'email invalide."
    | ResetCodeMalformed      // 400 "Le code doit contenir exactement 6 chiffres."
    | ResetUnknownAccount     // 400 "Code invalide ou expiré."
    | ResetNothingPending     // 400 "Aucun code de réinitialisation en cours. …"
    | ResetExpired            // 400 "Code expiré. …"
    | ResetWrongCode          // 400 "Code invalide."
    | ResetVerified(resetToken: string, expiresIn: int)   // 200

  function VerifyResetStatus(r: VerifyResetReply): int
  {
    match r
    case ResetVerified(_, _) => 200
    case _ => 400
  }

  /**
   * `POST /verify-reset-code-mobile` at clock `now`. `tokenBytes` stands for
   * `randomBytes(32)`. An expired code is cleared; an accepted one is
   * replaced by a 64-character hex token valid 15 minutes.
   */
  method VerifyResetCodeMobile(store: UserStore, email: Option<string>, code: Option<string>, now: int, tokenBytes: seq<Byte>)
    returns (r: VerifyResetReply)
    requires store.Valid() && |tokenBytes| == 32
    modifies store
    ensures store.Valid() && store.nextId == old(store.nextId)
    ensures !Filled(email) || !Filled(code) ==> r == ResetFieldsMissing && store.rows == old(store.rows)
    ensures Filled(email) && Filled(code) && !EmailRegex(email.value) ==> r == ResetEmailInvalid && store.rows == old(store.rows)
    ensures Filled(email) && Filled(code) && EmailRegex(email.value) && !SixDigits(code.value) ==>
      r == ResetCodeMalformed && store.rows == old(store.rows)
    ensures Filled(email) && Filled(code) && EmailRegex(email.value) && SixDigits(code.value) ==>
      var found := AccountWithEmail(old(store.rows), LookupKey(email.value));
      && (found.None? ==> r == ResetUnknownAccount && store.rows == old(store.rows))
      && (found.Some? ==>
            var id := found.value;
            var a := old(store.rows)[id];
            var stage := ResetCheck(a, code.value, now);
            && (stage == NoPendingCode ==> r == ResetNothingPending && store.rows == old(store.rows))
            && (stage == CodeExpired ==>
                  r == ResetExpired && store.rows == old(store.rows)[id := a.(resetToken := None, resetTokenExpire := None)])
            && (stage == CodeMismatch ==> r == ResetWrongCode && store.rows == old(store.rows))
            && (stage == CodeAccepted ==>
                  var t := Hex(tokenBytes);
                  && |t| == 64
                  && store.rows == old(store.rows)[id := a.(resetToken := Some(t), resetTokenExpire := Some(now + ResetTokenLifetime))]
                  && r == ResetVerified(t, ResetTokenLifetime / 1000)))
  {
    if !Filled(email) || !Filled(code) {
      return ResetFieldsMissing;
    }
    if !EmailRegex(email.value) {
      return ResetEmailInvalid;
    }
    if !SixDigits(code.value) {
      return ResetCodeMalformed;
    }
    var found := AccountWithEmail(store.rows, LookupKey(email.value));
    if found.None? {
      return ResetUnknownAccount;
    }
    var id := found.value;
    var a := store.rows[id];
    var stage := ResetCheck(a, code.value, now);
    if stage == NoPendingCode {
      return ResetNothingPending;
    }
    if stage == CodeExpired {
      store.Put(id, a.(resetToken := None, resetTokenExpire := None));
      return ResetExpired;
    }
    if stage == CodeMismatch {
      return ResetWrongCode;
    }
    var t := Hex(tokenBytes);
    store.Put(id, a.(resetToken := Some(t), resetTokenExpire := Some(now + ResetTokenLifetime)));
    r := ResetVerified(t, ResetTokenLifetime / 1000);
  }

  /**
   * The code stored by `/forgot-password-mobile` at `sent` is accepted by
   * `/verify-reset-code-mobile` up to and including `sent + 10 min`, and
   * reported expired after that, whatever code is then presented.
   */
  lemma ResetCodeWindow(a: Account, n: nat, sent: int, t: int, presented: string)
    requires 100000 <= n <= 999999
    ensures var b := a.(resetToken := Some(DecimalString(n)), resetTokenExpire := Some(sent + ResetCodeLifetime));
      && SixDigits(DecimalString(n))
      && (t <= sent + ResetCodeLifetime ==> ResetCheck(b, DecimalString(n), t) == CodeAccepted)
      && (t > sent + ResetCodeLifetime ==> ResetCheck(b, presented, t) == CodeExpired)
  {
    GeneratedCodeIsSixDigits(n);
  }

  /**
   * Once a code has been accepted, the hex token that replaced it can never
   * be matched by a code that passes the 6-digit pattern: a code is good once.
   */
  lemma AcceptedCodeIsSpent(a: Account, tokenBytes: seq<Byte>, issued: int, code: string, t: int)
    requires |tokenBytes| == 32 && SixDigits(code)
    ensures ResetCheck(a.(resetToken := Some(Hex(tokenBytes)), resetTokenExpire := Some(issued + ResetTokenLifetime)), code, t)
            != CodeAccepted
  {
  }

  /** An expired code, once cleared, leaves nothing pending: the next attempt must start over. */
  lemma ExpiredCodeCleared(a: Account, code: string, t: int)
    ensures ResetCheck(a.(resetToken := None, resetTokenExpire := None), code, t) == NoPendingCode
  {
  }

  // ---------------------------------------------------------------------
  // Account confirmation: POST /send-confirmation-code, POST /verify-confirmation-code
  // ---------------------------------------------------------------------

  datatype SendConfirmationReply =
    | SendEmailMissing        // 400
    | SendEmailInvalid        // 400
    | SendMaybeSent           // 200 "Si ce compte existe, un code a été envoyé."
    | SendSent                // 200 "Code de confirmation envoyé avec succès."
    | SendFailed              // 500

  function SendConfirmationStatus(r: SendConfirmationReply): int
  {
    match r
    case SendEmailMissing => 400
    case SendEmailInvalid => 400
    case SendMaybeSent => 200
    case SendSent => 200
    case SendFailed => 500
  }

  /**
   * `POST /send-confirmation-code`: stores a new 6-digit `codeVerification`
   * with no expiry; `mailFails` is `sendAccountConfirmationCode` throwing
   * after the code is stored.
   */
  method SendConfirmationCode(store: UserStore, email: Option<string>, code: nat, mailFails: bool)
    returns (r: SendConfirmationReply)
    requires store.Valid() && 100000 <= code <= 999999
    modifies store
    ensures store.Valid() && store.nextId == old(store.nextId)
    ensures !Filled(email) ==> r == SendEmailMissing && store.rows == old(store.rows)
    ensures Filled(email) && !EmailRegex(email.value) ==> r == SendEmailInvalid && store.rows == old(store.rows)
    ensures Filled(email) && EmailRegex(email.value) ==>
      var found := AccountWithEmail(old(store.rows), LookupKey(email.value));
      && (found.None? ==> r == SendMaybeSent && store.rows == old(store.rows))
      && (found.Some? ==>
            var a := old(store.rows)[found.value];
            && SixDigits(DecimalString(code))
            && store.rows == old(store.rows)[found.value := a.(codeVerification := Some(DecimalString(code)))]
            && r == (if mailFails then SendFailed else SendSent))
  {
    if !Filled(email) {
      return SendEmailMissing;
    }
    if !EmailRegex(email.value) {
      return SendEmailInvalid;
    }
    var found := AccountWithEmail(store.rows, LookupKey(email.value));
    if found.None? {
      return SendMaybeSent;
    }
    var a := store.rows[found.value];
    GeneratedCodeIsSixDigits(code);
    store.Put(found.value, a.(codeVerification := Some(DecimalString(code))));
    if mailFails {
      return SendFailed;
    }
    r := SendSent;
  }

  datatype VerifyConfirmationReply =
    | ConfirmFieldsMissing    // 400
    | ConfirmEmailInvalid     // 400
    | ConfirmCodeMalformed    // 400
    | ConfirmInvalid          // 400 "Code invalide." (unknown account or other code)
    | Confirmed               // 200 "Compte confirmé avec succès."

  function VerifyConfirmationStatus(r: VerifyConfirmationReply): int
  {
    if r == Confirmed then 200 else 400
  }

  /**
   * `POST /verify-confirmation-code`: a matching code activates the account
   * and stays stored, so presenting it again succeeds again.
   */
  method VerifyConfirmationCode(store: UserStore, email: Option<string>, code: Option<string>)
    returns (r: VerifyConfirmationReply)
    requires store.Valid()
    modifies store
    ensures store.Valid() && store.nextId == old(store.nextId)
    ensures !Filled(email) || !Filled(code) ==> r == ConfirmFieldsMissing && store.rows == old(store.rows)
    ensures Filled(email) && Filled(code) && !EmailRegex(email.value) ==> r == ConfirmEmailInvalid && store.rows == old(store.rows)
    ensures Filled(email) && Filled(code) && EmailRegex(email.value) && !SixDigits(code.value) ==>
      r == ConfirmCodeMalformed && store.rows == old(store.rows)
    ensures Filled(email) && Filled(code) && EmailRegex(email.value) && SixDigits(code.value) ==>
      var found := AccountWithEmail(old(store.rows), LookupKey(email.value));
      && (found.None? || old(store.rows)[found.value].codeVerification != code ==>
            r == ConfirmInvalid && store.rows == old(store.rows))
      && (found.Some? && old(store.rows)[found.value].codeVerification == code ==>
            var a := old(store.rows)[found.value];
            && r == Confirmed
            && store.rows == old(store.rows)[found.value := a.(estActif := true)]
            && store.rows[found.value].codeVerification == code)
  {
    if !Filled(email) || !Filled(code) {
      return ConfirmFieldsMissing;
    }
    if !EmailRegex(email.value) {
      return ConfirmEmailInvalid;
    }
    if !SixDigits(code.value) {
      return ConfirmCodeMalformed;
    }
    var found := AccountWithEmail(store.rows, LookupKey(email.value));
    if found.None? || store.rows[found.value].codeVerification != code {
      return ConfirmInvalid;
    }
    var a := store.rows[found.value];
    store.Put(found.value, a.(estActif := true));
    r := Confirmed;
  }
}
