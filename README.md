# Study-abroad platform backend — a Dafny model of its core routes

This project models the Express/Prisma REST backend of a study-abroad
platform. The database becomes in-memory tables: maps of records keyed by
id, with link tables as sets of pairs. Each route handler becomes a
deterministic step over the request, the tables, the cookie session and
the clock.

The model covers the following parts.

- **Authentication and session lifecycle.**
  - Login (`POST /connexion`), `GET /verify-token` and `POST /refresh-token`.
  - The inactivity middleware and logout.
  - The unmounted `protectedStatic` gate and the session-cookie options.
  - Tokens are JSON Web Tokens (section 4.1 of RFC 7519), represented by their claims and a "signed by the server" flag.
  - The central invariant: only the token stored on an account is accepted. Login and refresh rotate it; logout and inactivity clear it.
- **Account routes.**
  - Sign-up (`/creer`, `/creerAdmin`).
  - The language preference.
  - The password change.
  - The password-reset code lifecycle: a 6-digit code for 10 minutes, then a 64-hex-digit token for 15 minutes.
  - The account-confirmation code.
- **Catalogue tables**: formations, countries (pays), cities (ville), universities, themes with their details and links, and adverts (publicités).
  - Validators and default filling.
  - Name and pair uniqueness.
  - Like/unlike favourites.
  - Dependency guards on deletes.
  - Replace-all link updates and cascades.
  - The toggle.
  - Pagination arithmetic.
  - Ordered listings.
  - Distinct-in-order lists.
- **The Cloudinary helper**: extraction of the public id from a delivery URL, and the choice of the old image to destroy.

Each core source file is one module:

| module | file |
|---|---|
| `Connexion` | `connexion.dfy` |
| `Deconnexion` | `deconnexion.dfy` |
| `Utilisateur` | `utilisateur.dfy` |
| `App` | `app.dfy` |
| `Formation` | `formation.dfy` |
| `Pays` | `pays.dfy` |
| `Ville` | `ville.dfy` |
| `Universite` | `universite.dfy` |
| `Theme` | `theme.dfy` |
| `Publicite` | `publicite.dfy` |
| `CloudinaryConfig` | `cloudinary.dfy` |

Two more modules are shared:

- `Common`: JavaScript truthiness, text helpers, pagination.
- `Accounts`: the `Utilisateur` table and the session object.

State that handlers update in place is a `class` with `modifies` clauses, for example `UserStore`, `Session`, `PaysStore` and `ThemeStore`. Pure validators, defaults and listings are functions with lemmas about them.

## Model

| member | source | states |
|---|---|---|
| Accounts.AccountWithEmail | routes/users/Connexion.js:31-34 | the row found by email has that email; when none is found, no row has it |
| Accounts.UserStore.Put | routes/users/Connexion.js:79-83 | rewriting one row without changing its id or email keeps ids consistent and emails unique; only that row changes |
| Accounts.UserStore.Insert | routes/users/Utilisateur.js:95-98 | a new account goes under the next auto-increment id, which was free, and the table stays well formed |
| Accounts.Session.Destroy | routes/users/Deconnexion.js:51 | after `destroy()` the session holds no user and no last activity |
| Connexion.Sign | routes/users/Connexion.js:58-69 | the token carries the account's id, email and role, the issuer and audience, and a lifetime of exactly 7 days |
| Connexion.JwtVerify | routes/users/Connexion.js:123 | a token decodes iff it is server-signed and either expiry is ignored or the current second is before `exp`; an expiry error only arises when expiry is checked |
| Connexion.PresentedToken | routes/users/Connexion.js:112-120 | the header's token, with an optional "Bearer " prefix stripped; an empty token counts as missing |
| Connexion.VerifyToken | routes/users/Connexion.js:110-198 | success iff the presented token is server-signed, unexpired and equal to the stored token of an existing account, with that account's id, email and role; "Token manquant" iff no token; "Token expiré" iff a signed token is past `exp`; "Utilisateur introuvable" iff a valid token names no account; "Token invalide" iff the token is not server-signed or differs from the stored one |
| Connexion.OneAcceptedTokenPerAccount | routes/users/Connexion.js:140-146 | two accepted tokens of one account are the same token |
| Connexion.ClearedAcceptsNothing | routes/users/Deconnexion.js:41-48 | once the stored token is cleared, no token of that account is accepted |
| Connexion.StoredTokenReplaces | routes/users/Connexion.js:79-83 | after a new token is stored, every other token of the account is rejected at any time |
| Connexion.IssuedTokenAccepted | routes/users/Connexion.js:65-83 | a token just signed and stored passes verification |
| Connexion.SameSecondSameToken | routes/users/Connexion.js:239-243 | re-signing gives the same token iff it happens in the same second, so a refresh rotates the token exactly when the second changed |
| Connexion.Login | routes/users/Connexion.js:19-102 | missing fields → 400; unknown email → 404; inactive → 403 (before the password); wrong password → 401; none of these writes anything. On success the session's `userId` is set (before the write), `lastActivity` is kept, the stored token becomes the new one, and the reply is the account without its password plus the token and an expiry 7 days on |
| Connexion.RefreshToken | routes/users/Connexion.js:206-273 | missing token → 401; a foreign or malformed token → 500; a missing account or a token other than the stored one → 401 with no write; otherwise the stored token is replaced by a new one, whatever the old token's expiry |
| Deconnexion.HandleInactivity | routes/users/Deconnexion.js:17-78 | no session → 500; a bypassed path or no `userId` → next with nothing changed; idle beyond 30 minutes → token cleared, `estEnLigne` false, session destroyed, 401 and no next; otherwise `lastActivity` := now and next |
| Deconnexion.Logout | routes/users/Deconnexion.js:89-146 | no session → 500; not logged in → 200 and nothing written; logged in → token cleared, `estEnLigne` false, session destroyed, 200, or 500 when destroy fails |
| Deconnexion.PostDeconnexion | routes/users/Deconnexion.js:81-89 | a logout that arrives after the inactivity limit gets the middleware's 401, not logout's 200 |
| Deconnexion.LogoutPathChecked | routes/users/Deconnexion.js:26-28 | the logout path is not one of the bypassed paths |
| Deconnexion.FreshSessionNeverIdle | routes/users/Deconnexion.js:35-38 | a session without `lastActivity` is never idle |
| App.SessionConfig | app.js:17-30 | the cookie is secure iff `SESSION_ENV` is "production"; max age is one hour; SameSite is Lax; no resave; uninitialised sessions are saved; rolling stays off |
| App.ProtectedStatic | app.js:33-52 | no `userId` → redirect "/" with nothing changed; idle beyond 30 minutes → the session is destroyed with no response and no next (a redirect only when destroy fails); otherwise `lastActivity` := now and next. Unlike the router middleware, it clears no token |
| Utilisateur.EmailRegexMeans | routes/users/Utilisateur.js:903-906 | the email pattern holds iff the text has no white space and a single "@" that is not first, followed by a "." with text on both sides |
| Utilisateur.LookupKeyOfValidEmail | routes/users/Utilisateur.js:910 | for an email that passes the pattern, the lookup key is just its lower-case form |
| Utilisateur.GeneratedCodeIsSixDigits | routes/users/Utilisateur.js:927 | every code drawn from 100000..999999 is written with exactly six digits |
| Utilisateur.HexRoundTrip | routes/users/Utilisateur.js:1037 | hex encoding of random bytes is injective: decoding the text gives back the bytes |
| Utilisateur.Hex | routes/users/Utilisateur.js:1037 | the text has two hex digits per byte (the sign-up token at line 70 is made the same way) |
| Utilisateur.ImagePath | routes/users/Utilisateur.js:72-75 | a path exists iff a file was sent, and it is "/upload/utilisateur/" followed by the file name |
| Utilisateur.Register | routes/users/Utilisateur.js:56-107 | an email already used → 400 with no write; otherwise the new account is stored under the next id and sent back without its password |
| Utilisateur.Creer | routes/users/Utilisateur.js:33-114 | missing nom, prenom, email, motdepasse or code → 400; an existing email → 400; otherwise a new ETUDIANT account with `langue` = code, inactive and offline; only that row is added |
| Utilisateur.CreerAdmin | routes/users/Utilisateur.js:116-186 | like `/creer` without `code`; the new account has role ADMIN |
| Utilisateur.NewAccountHasNoSession | routes/users/Utilisateur.js:70 | the random token stored at sign-up is not a signed token, so verify-token accepts nothing for a new account |
| Utilisateur.SupportedLanguagesListed | routes/users/Utilisateur.js:817 | a language is accepted iff it is "fr" or "en" in any letter case |
| Utilisateur.LanguageTokenOkMeans | routes/users/Utilisateur.js:775 | the corrected token test passes iff the stored token is not empty and the header is "Bearer " plus that token; it implies the test as written (the PUT route repeats the test at line 853) |
| Utilisateur.EmptyTokenHeaders | routes/users/Utilisateur.js:753 | `split(" ")[1]` of "Bearer " + rest is empty iff rest is empty or starts with a space |
| Utilisateur.LoggedOutLanguageOpenAsWritten | routes/users/Utilisateur.js:765-782 | as written, the header "Bearer  x" (two spaces) passes the prefix test and presents the empty text that a logged-out account stores |
| Utilisateur.GetLanguage | routes/users/Utilisateur.js:742-799 | no "Bearer " header → 401; unknown id → 404; a header the corrected token test refuses → 403; the stored language, name and first name exactly when the account exists and the test passes |
| Utilisateur.UpdateLanguage | routes/users/Utilisateur.js:802-894 | missing → 400; unsupported → 400; the same header checks as GET; on success only that account's `langue` changes, to the lower-cased value; nothing is written otherwise |
| Utilisateur.ChangePassword | routes/users/Utilisateur.js:445-497 | missing fields → 400; unknown id → 404; wrong old password → 400; otherwise only that account's password hash changes, to the new password |
| Utilisateur.ForgotPasswordMobile | routes/users/Utilisateur.js:896-960 | missing or malformed email → 400; an unknown email → 200 without `success` and no write; a known email stores the 6-digit code with expiry now + 10 minutes (before sending) and answers `success` |
| Utilisateur.ResetCheck | routes/users/Utilisateur.js:1006-1035 | the code is accepted iff a code and an expiry are stored, now is not after the expiry, and the code equals the stored one; a stored but expired code is reported expired whatever was presented |
| Utilisateur.VerifyResetCodeMobile | routes/users/Utilisateur.js:962-1063 | bad input → 400 with no write; unknown account → 400; no pending code → 400; expired → both fields cleared and 400; mismatch → 400 with no write; a match stores a 64-hex token with expiry now + 15 minutes and returns it with `expiresIn` 900 |
| Utilisateur.ResetCodeWindow | routes/users/Utilisateur.js:927-934 | a freshly sent code is accepted up to and including 10 minutes later and rejected after (expiry compared at line 1014) |
| Utilisateur.AcceptedCodeIsSpent | routes/users/Utilisateur.js:1037-1046 | once a code is accepted, no 6-digit code can match the stored value again |
| Utilisateur.ExpiredCodeCleared | routes/users/Utilisateur.js:1016-1027 | after an expired code is cleared, any further attempt finds no pending code |
| Utilisateur.SendConfirmationCode | routes/users/Utilisateur.js:1065-1123 | a known email gets a new 6-digit `codeVerification` with no expiry; an unknown email gets the same 200 "Si ce compte existe…" reply with no write |
| Utilisateur.VerifyConfirmationCode | routes/users/Utilisateur.js:1125-1182 | a matching code sets `estActif` and leaves `codeVerification` in place; any failure writes nothing |
| Formation.ParseAction | routes/formation/formation.js:1108-1113 | the action is Like iff the text is exactly "like", and Unlike iff exactly "unlike" |
| Formation.LikeEffect | routes/formation/formation.js:1143-1217 | like puts the pair in the favourites, unlike takes it out; no other pair changes |
| Formation.LikeIdempotent | routes/formation/formation.js:1150-1204 | repeating an action changes nothing more |
| Formation.LikeUnlikeRestores | routes/formation/formation.js:1150-1217 | like then unlike, or unlike then like, restores the original favourites |
| Formation.PrismaErrorStatus | routes/formation/formation.js:1223-1235 | P2002 → 400, P2025 → 404, anything else → 500 |
| Formation.KeepingNamesNeverClashes | routes/formation/formation.js:413-430 | sending back a formation's own names, or none, never triggers the name clash |
| Formation.IfTruthy | routes/formation/formation.js:55-67 | an optional column is set iff its value is truthy, and then to that value |
| Formation.FormationStore.Creer | routes/formation/formation.js:10-86 | missing names → 400; a name already used in any of the three columns → 400; otherwise one row is added with only its truthy optional columns |
| Formation.FormationStore.Modifier | routes/formation/formation.js:381-468 | unknown id → 404; a changed name that another formation has → 400; otherwise truthy names are replaced and every column the body carries is written (null clears it) |
| Formation.FormationStore.ToggleLike | routes/formation/formation.js:1096-1243 | missing user or bad action → 400; unknown formation or user → 404; like of an existing favourite → 200 `alreadyLiked`; unlike of a missing one → 200 `wasNotLiked`; otherwise exactly that pair is added (201) or removed (200); error codes map as in `PrismaErrorStatus` |
| Formation.FormationStore.Associer | routes/formation/formation.js:537-606 | an existing (universite, formation) pair → 400 with no write; otherwise that pair is created with its truthy fields |
| Formation.FormationStore.ModifierAssociation | routes/formation/formation.js:609-678 | a missing pair → 404; otherwise each field the body carries is written, and a falsy capacity or date clears the column |
| Formation.FormationStore.Dissocier | routes/formation/formation.js:681-712 | a missing pair → 404; otherwise exactly that pair is removed |
| Formation.FormationStore.CreerDetails | routes/formation/formation.js:831-903 | missing content → 400; unknown formation → 404; an existing detail is updated and a missing one created, both answered 201 |
| Formation.FormationStore.ModifierDetails | routes/formation/formation.js:938-988 | unknown formation or no detail → 404; otherwise every field the body carries is written |
| Formation.FormationStore.SupprimerDetails | routes/formation/formation.js:991-1028 | unknown formation or no detail → 404; otherwise only that detail is removed |
| Formation.FormationWindow | routes/formation/formation.js:92-103 | skip = (page − 1) × limit and take = limit, with defaults page 1 and limit 20 |
| Formation.CountBy | routes/formation/formation.js:1464-1490 | the counts map holds exactly the non-empty values present, each with its number of rows |
| Formation.OccurrencesSplit | routes/formation/formation.js:1466-1470 | counting a column value is additive over concatenation of row lists |
| Common.PageCountIsLeast | routes/formation/formation.js:147 | with a positive limit, `ceil(total / limit)` is the least number of pages holding all rows |
| Common.RowOnPage | routes/formation/formation.js:102-147 | every row of the result lies on exactly one page, between 1 and the page count |
| Common.ListingWindow | routes/formation/formation.js:92-103 | page and limit default to 1 and the route's limit; skip is (page − 1) × limit and take is the limit; with no query the first page starts at row 0 |
| Common.PageOf | routes/formation/formation.js:102-103 | a non-negative `take` gives the rows `skip`, `skip + 1`, … of the result, as many as `take` and what remains after `skip` allow; a negative `take` gives, in order, up to `-take` rows ending `skip` rows before the end |
| Common.NegativeTakeFromEnd | routes/universite/universite.js:139 | a negative `take` equals the forward page of the reversed result with `-take` rows, reversed back, as Prisma reads it |
| Common.PageCount | routes/formation/formation.js:147 | there is no page count exactly when the limit is 0 (division by zero) |
| Common.TakeOf | routes/universite/universite.js:742 | `take: n` with no skip returns the first n rows (a prefix), or the last −n rows when n is negative; its length is the smaller of that count and the result's length |
| Pays.CreateCheck | routes/pays/pays.js:28-74 | creation passes iff the ten fields are filled, the continent is one of the five exact names, and a truthy cost lies in 1..5 and a truthy popularity in 1..100 |
| Pays.NewPays | routes/pays/pays.js:89-104 | the stored cost is the given one when truthy, else 3; the popularity likewise with 50; both end up in range |
| Pays.UpdateCheck | routes/pays/pays.js:466-496 | an update passes iff any truthy continent is one of the five names, a given cost lies in 1..5 and a given popularity in 1..100, and neither is null; a cost of 0 is refused |
| Pays.Apply | routes/pays/pays.js:512-525 | the id is kept; each of the ten text columns (nom, nomEn, nomFr, drapeau, continent, avantages…, langue, monnaie) is written when given and kept when left out; a given cost or popularity is written and an absent one kept; `region` is kept when left out, cleared by `null` and written when given; an update with no field defined changes nothing |
| Pays.SingleDeleteCounterexample | routes/pays/pays.js:624-634 | a country linked to three cities passes the single delete's guard as written |
| Pays.SingleDeleteNeverBlockedAsWritten | routes/pays/pays.js:624-634 | as written, the single delete's guard never blocks |
| Pays.BulkDeleteCounterexample | routes/pays/pays.js:678-684 | a country with only a favourite passes the bulk guard as written |
| Pays.HasDependentsIsPositiveTotal | routes/pays/pays.js:624-631 | the corrected guard blocks iff the sum of the four counts is positive; whatever the bulk guard as written blocks, it blocks too (the bulk guard is at lines 678-684) |
| Pays.BlockedIds | routes/pays/pays.js:678-698 | the blocked ids are exactly the listed existing countries with dependents |
| Pays.BulkOfOneAgreesWithSingle | routes/pays/pays.js:654-698 | a bulk delete of one id blocks iff the single delete of that id does (single delete at lines 604-634) |
| Pays.ListingLanguage | routes/pays/pays.js:304-316 | the language of the existing account whose id was given, when it has one; "fr" in every other case |
| Pays.View | routes/pays/pays.js:319-353 | in English, `nomEn` and `avantagesEn` are shown; otherwise `nomFr \|\| nom` and `avantagesFr \|\| avantages` |
| Pays.OnContinent | routes/pays/pays.js:322-325 | the countries kept are exactly those on the requested continent |
| Pays.Views | routes/pays/pays.js:336-353 | one view per country, in order, each shown as `View` says |
| Pays.ContinentListing | routes/pays/pays.js:275-374 | missing continent → 400; an unknown one (after upper-casing) → 400; a known one always gets the listing: the countries on that continent, each shown in the listing language |
| Pays.ContinentCaseIgnored | routes/pays/pays.js:295-325 | any two spellings of a continent that upper-case alike get the same reply |
| Pays.PopularLimit | routes/pays/pays.js:394-403 | the limit is accepted iff absent or within 1..100, and defaults to 10 |
| Pays.PaysStore.Creer | routes/pays/pays.js:10-118 | a failed check → 400 with no write; a used name → 400; otherwise one row with the default cost and popularity; ranges are kept |
| Pays.PaysStore.Modifier | routes/pays/pays.js:436-559 | unknown id → 404; a failed check or a rename to a used name → 400; an update with no field defined (a `region: null` counts as defined) → 400; otherwise only that row changes, as `Apply` says; ranges are kept |
| Pays.PaysStore.Supprimer | routes/pays/pays.js:599-651 | unknown id → 404; a country with dependents → 400 with no write (corrected guard); otherwise only that row goes |
| Pays.PaysStore.SupprimerPlusieurs | routes/pays/pays.js:654-716 | a missing or empty id list → 400; any blocked id (corrected guard, see ## Findings) → 400 and nothing deleted; otherwise every listed country goes |
| Ville.CoordinateCheck | routes/ville/ville.js:29-46 | passes iff a truthy latitude lies in −90..90, a truthy longitude in −180..180, and a truthy population is not negative (the update repeats the checks at lines 579-596) |
| Ville.Missing | routes/ville/ville.js:70-72 | the reported ids are exactly the listed ids that name no country |
| Ville.ElementsCount | routes/ville/ville.js:69 | a list has as many distinct ids as entries iff none repeats |
| Ville.CountMismatchMeans | routes/ville/ville.js:63-78 | the count test fails iff some id is unknown or some id repeats |
| Ville.RepeatedIdRefused | routes/ville/ville.js:69-78 | any list of existing country ids with a repeat is refused, with an empty list of missing ids |
| Ville.Apply | routes/ville/ville.js:621-632 | truthy names are written and others kept; latitude, longitude and population are kept when left out, cleared by `null` or 0 and written otherwise; an update with nothing given changes nothing |
| Ville.EquatorLatitudeDropped | routes/ville/ville.js:627-628 | a latitude of 0 is stored as null |
| Ville.LinksTo | routes/ville/ville.js:650-653 | the new links are exactly (id, city) for the listed ids |
| Ville.LinksOfOthers | routes/ville/ville.js:646-649 | the kept links are exactly those of other cities |
| Ville.LinkFilterOf | routes/ville/ville.js:160-179 | a continent filter replaces the country-name filter |
| Ville.ContinentOverridesPays | routes/ville/ville.js:160-179 | with both given, the result is the same as with the continent alone |
| Ville.Filter | routes/ville/ville.js:148-186 | the rows kept are exactly the selected cities: search text, the country or continent filter, and each population bound that is present in the query, "0" included |
| Ville.ZeroMinimumDropsUnknownPopulation | routes/ville/ville.js:182-186 | a minimum population of "0" still filters: a city with no population is not selected |
| Ville.Lire | routes/ville/ville.js:139-237 | a negative skip → 500 and nothing else fails; otherwise page and limit (1 and 50 by default), `total` = the number of selected cities, the cities = exactly that page of the selected cities (`PageOf`), `totalPages` = ceil(total / limit) |
| Ville.VilleStore.Creer | routes/ville/ville.js:10-134 | missing names → 400; then, in this order, a bad coordinate or population → 400 with its reason, a clashing name → 400, unknown or repeated country ids → 400 listing the missing ids, each with no write; the city is created iff every check passes, with links to exactly the listed countries |
| Ville.VilleStore.Modifier | routes/ville/ville.js:561-701 | unknown id → 404; then, in this order, a bad coordinate → 400 with its reason, a clashing rename → 400, unknown or repeated country ids in a non-empty list → 400, each with no write; when every check passes the row becomes `Apply` of the update; a non-empty list replaces the city's links with exactly those ids, an empty or non-list value removes them all, an omitted one keeps them; other cities' links never change |
| Ville.VilleStore.Associer | routes/ville/ville.js:704-756 | unknown city or country → 404; an existing link → 400; otherwise exactly that link is added |
| Ville.VilleStore.Dissocier | routes/ville/ville.js:759-787 | a missing link → 404; otherwise exactly that link is removed |
| Ville.VilleStore.Supprimer | routes/ville/ville.js:792-836 | unknown id → 404; a city some university is linked to (counted by `UniversityCount` on the university-city links) → 400 with that count and no write; otherwise the city and its links go |
| Ville.VilleStore.SupprimerPlusieurs | routes/ville/ville.js:839-892 | a missing or empty list → 400; any listed city with a linked university → 400 with no write; otherwise the listed cities and their links go |
| Universite.Norme | routes/universite/universite.js:53-60 | the normalised form holds no combining mark and no capital letter |
| Universite.StripMarks | routes/universite/universite.js:55-56 | every combining mark is removed and every other character kept as many times as it occurs |
| Universite.StripMarksConcat | routes/universite/universite.js:55-56 | stripping distributes over concatenation, so the characters kept stay in their order |
| Universite.NormeIdempotent | routes/universite/universite.js:53-60 | normalising twice is normalising once |
| Universite.NewUniversite | routes/universite/universite.js:53-88 | the new row stores nom and pays with their normalised forms and `dernierSync` = now; `siteWeb` is set iff given non-empty and `classement` iff non-zero; the institution type stays unset |
| Universite.Apply | routes/universite/universite.js:377-414 | `dernierSync` is always refreshed; a truthy nom, nomEn, nomFr or pays is written (nom and pays with their normalised forms) and the current one kept otherwise; siteWeb, domaine, idRor, statut and the descriptions are kept when left out, cleared by `null` and written when given; latitude, longitude, fondee and classement are kept when left out, cleared by `null` or 0 and written otherwise; the id, fournisseur and type are kept |
| Universite.ApplyKeepsNorme | routes/universite/universite.js:377-396 | after any update, `nomNorme` and `paysNorme` are the normal forms of nom and pays |
| Universite.OnlyNomSkipsCheckAsWritten | routes/universite/universite.js:358-374 | as written, renaming a university to the name another one has in the same country passes the check |
| Universite.PairCheckedWidens | routes/universite/universite.js:358-362 | the corrected check runs whenever the check as written runs |
| Universite.PairCheckKeepsUnique | routes/universite/universite.js:358-374 | an update that passes the corrected check keeps (nom, pays) unique |
| Universite.Lire | routes/universite/universite.js:108-177 | a negative skip → 500 and nothing else fails; otherwise the universities = exactly that page (`PageOf`, 1 and 20 by default) of the rows matching the country, domain, provider and each ranking bound present, "0" included; `total` and `pages` = ceil(total / limit) |
| Universite.SampleUuid | routes/universite/universite.js:637-640 | the 8-4-4-4-12 pattern accepts a mixed-case UUID and refuses a country name |
| Universite.TypeFilter | routes/universite/universite.js:663-665 | the type filters only when it is "public" or "prive" |
| Universite.UnknownTypeIgnored | routes/universite/universite.js:663-665 | any other type gives the same listing as no type |
| Universite.CountryName | routes/universite/universite.js:637-660 | a UUID-shaped id is looked up, and is 404 when unknown; any other value is a country name |
| Universite.Pays1 | routes/universite/universite.js:621-838 | 404 iff the id is UUID-shaped and names no country; otherwise the first `limit` (50 by default) matching rows (`TakeOf`): each is a row of that country matching the type, city and programme filters, at most `limit` of them, and every matching row when the limit is at least the table size |
| Universite.LikedCount | routes/universite/universite.js:954-968 | the count equals the number of listed programmes whose `hasLike` holds (so at most the number listed, and 0 without a user) |
| Universite.DistinctValues | routes/universite/universite.js:1005-1018 | the list has no repeats and holds exactly the non-empty values present |
| Universite.DistinctValuesPrefix | routes/universite/universite.js:1005-1018 | later rows never reorder or remove values already listed |
| Universite.Stats | routes/universite/universite.js:954-1018 | `totalFormations` is the number listed; `formationsAimees` the number with `hasLike`; levels and domains are distinct and hold exactly the non-empty values present |
| Universite.UniversiteStore.Creer | routes/universite/universite.js:10-103 | missing fields → 400; an existing (nom, pays) → 400; otherwise one row is added; pairs stay unique |
| Universite.UniversiteStore.Modifier | routes/universite/universite.js:325-430 | unknown id → 404; a changed pair that another university has → 400 (corrected check, see ## Findings); the update is applied (`Apply`, only that row changes) iff neither happens; any other reply writes nothing; pairs and normal forms stay consistent |
| Universite.UniversiteStore.Supprimer | routes/universite/universite.js:435-465 | unknown id → 404; otherwise the university and its city links go |
| Universite.UniversiteStore.SupprimerPlusieurs | routes/universite/universite.js:468-494 | a missing or empty list → 400; otherwise the listed universities and their links go |
| Universite.UniversiteStore.AssocierVille | routes/universite/universite.js:537-584 | an existing link → 400; an unknown university or city → the foreign-key error with no write; otherwise exactly that link is added |
| Universite.UniversiteStore.DissocierVille | routes/universite/universite.js:587-618 | a missing link → 404; otherwise exactly that link is removed |
| Universite.UniversityCount | routes/ville/ville.js:815 | the count a city's delete guard reads is 0 iff no university is linked to the city |
| Theme.NewTheme | routes/themeLienDetailTheme/themeLienDetailTheme.js:24-45 | `contenuEn` defaults to `contenuFr` and is never empty |
| Theme.NewLiens | routes/themeLienDetailTheme/themeLienDetailTheme.js:359-367 | one link per url, in order, all pointing at the detail (the update creates them the same way at lines 584-592) |
| Theme.ReplacedLinks | routes/themeLienDetailTheme/themeLienDetailTheme.js:577-594 | after the replacement, the detail's links are exactly the new urls, and every other detail's links are unchanged |
| Theme.LiensOutside | routes/themeLienDetailTheme/themeLienDetailTheme.js:645-652 | exactly the links of details outside the removed set are kept, unchanged (theme deletion cascades the same way, line 301) |
| Theme.LinksOf | routes/themeLienDetailTheme/themeLienDetailTheme.js:577-594 | exactly the links of one detail, unchanged |
| Theme.ThemeStore.CreerTheme | routes/themeLienDetailTheme/themeLienDetailTheme.js:14-74 | missing `contenuFr` or `paysId` → 400; unknown pays → 404; otherwise the theme is added |
| Theme.ThemeStore.ModifierTheme | routes/themeLienDetailTheme/themeLienDetailTheme.js:206-274 | unknown theme or pays → 404; otherwise only the truthy fields change |
| Theme.ThemeStore.SupprimerTheme | routes/themeLienDetailTheme/themeLienDetailTheme.js:279-316 | unknown → 404; otherwise the theme, its details and their links go |
| Theme.ThemeStore.CreerDetail | routes/themeLienDetailTheme/themeLienDetailTheme.js:325-397 | missing fields → 400; unknown theme → 404; otherwise the detail and one link per url are added |
| Theme.ThemeStore.ModifierDetail | routes/themeLienDetailTheme/themeLienDetailTheme.js:532-623 | unknown detail or theme → 404; a list of urls replaces the detail's links exactly (an empty list removes all); no list keeps them; other details' links never change |
| Theme.ThemeStore.ReplaceLinks | routes/themeLienDetailTheme/themeLienDetailTheme.js:577-594 | the detail's old links are deleted and one new link per url is created: afterwards its links are exactly the new urls, the other details' links are unchanged, and the link invariant holds |
| Theme.ThemeStore.SupprimerDetail | routes/themeLienDetailTheme/themeLienDetailTheme.js:628-664 | unknown → 404; otherwise the detail and all its links go |
| Theme.ThemeStore.CreerLien | routes/themeLienDetailTheme/themeLienDetailTheme.js:673-730 | missing url or detail → 400; unknown detail → 404; otherwise one link is added |
| Theme.ThemeStore.ModifierLien | routes/themeLienDetailTheme/themeLienDetailTheme.js:854-921 | unknown link or detail → 404; otherwise only that link changes |
| Theme.ThemeStore.SupprimerLien | routes/themeLienDetailTheme/themeLienDetailTheme.js:926-956 | unknown → 404; otherwise only that link goes |
| Theme.ThemeStore.SupprimerLiens | routes/themeLienDetailTheme/themeLienDetailTheme.js:959-985 | a missing or empty id list → 400; otherwise the listed links go |
| Publicite.PubId | routes/publicite/publicite.js:47 | the generated id starts with "pub_"; the suffix is the up-to-nine-character random text |
| Publicite.NewPublicite | routes/publicite/publicite.js:25-61 | the id, `titre`, `categorie`, `urlCible` and `urlImage` are stored as given, a truthy `cibleGeo` as given and a falsy one as null; `titreEn`/`titreFr` default to `titre`, description to "", the translated descriptions to the description, `estActif` to true and `priorite` to 0; both timestamps are the creation time |
| Publicite.Apply | routes/publicite/publicite.js:207-223 | each text field (titre, titreEn, titreFr, description, descriptionEn, descriptionFr, urlCible, categorie) changes only when truthy; `urlImage`, `estActif`, `priorite` and `cibleGeo` whenever defined; `modifieA` always; id and `creeA` never |
| Publicite.FalsyFlagsWritten | routes/publicite/publicite.js:219-220 | false and 0 are stored, while an empty title is ignored |
| Publicite.Toggled | routes/publicite/publicite.js:369-375 | only `estActif` (negated) and `modifieA` change |
| Publicite.ToggleTwice | routes/publicite/publicite.js:369-375 | two toggles restore the flag |
| Publicite.Insert | routes/publicite/publicite.js:118-121 | inserting into an ordered list keeps it ordered and adds exactly that advert |
| Publicite.Sort | routes/publicite/publicite.js:118-121 | the result is ordered by `priorite` descending, then `creeA` descending, and is a permutation of the input |
| Publicite.Filter | routes/publicite/publicite.js:92-100 | the adverts kept are exactly those matching the category and the active flag |
| Publicite.Lire | routes/publicite/publicite.js:78-145 | 500 iff the skip is negative or a truthy `search` is given (its `mode: 'insensitive'` argument does not exist on the MySQL connector); otherwise the adverts = exactly that page (`PageOf`, 1 and 50 by default) of the selected adverts in listing order; the page is ordered and holds only selected adverts; `totalPages` = ceil(total / take) |
| Publicite.ActiveIn | routes/publicite/publicite.js:328-332 | exactly the active adverts of the category |
| Publicite.Actives | routes/publicite/publicite.js:323-351 | exactly the first `limite` (10 by default) active adverts of the category in listing order (`TakeOf`): ordered, all active in the category, as many as the limit and the matches allow, and every match when the limit reaches the table size |
| Publicite.PubliciteStore.Recuperer | routes/publicite/publicite.js:148-174 | 404 iff the id is unknown; otherwise the advert stored under that id |
| Publicite.PubliciteStore.Creer | routes/publicite/publicite.js:13-75 | missing titre, urlCible or categorie → 400; a generated id already used → 500 with no write; otherwise the advert with its defaults is stored under the generated id |
| Publicite.PubliciteStore.Modifier | routes/publicite/publicite.js:177-237 | unknown → 404 with no write; otherwise only that advert changes, as `Apply` says |
| Publicite.PubliciteStore.Supprimer | routes/publicite/publicite.js:240-270 | unknown → 404; otherwise only that advert goes |
| Publicite.PubliciteStore.Basculer | routes/publicite/publicite.js:354-388 | unknown → 404 with no write; otherwise only that advert's flag flips and `modifieA` is refreshed |
| CloudinaryConfig.ExtractPublicIdFromUrl | utils/cloudinaryConfig.js:94-103 | a result implies the URL contains "/upload/", and the id sits right before the URL's last ".", which is followed only by letters |
| CloudinaryConfig.ExtractRoundTrip | utils/cloudinaryConfig.js:97 | a URL made of a prefix, "/upload/", a version segment and `id.ext` gives back exactly `id`, folder included |
| CloudinaryConfig.ExtractRoundTripUnversioned | utils/cloudinaryConfig.js:97 | the same without the version segment, for an id not starting with "v" |
| CloudinaryConfig.ExampleVersionedUrl | utils/cloudinaryConfig.js:96-98 | ".../upload/v123/utilisateurs/abc.jpg" gives "utilisateurs/abc" |
| CloudinaryConfig.ExampleInnerDotKept | utils/cloudinaryConfig.js:97 | "/upload/a.b.png" gives "a.b": only the last extension is dropped |
| CloudinaryConfig.ExampleDigitInExtension | utils/cloudinaryConfig.js:97 | an extension ending in a digit ("abc.jp2") yields no id |
| CloudinaryConfig.NoMarkerNoId | utils/cloudinaryConfig.js:97-98 | without "/upload/" there is no id |
| CloudinaryConfig.NoLetterAtEndNoId | utils/cloudinaryConfig.js:97-98 | a URL that does not end in a letter (".jp2") has no id |
| CloudinaryConfig.OldImageToDestroy | utils/cloudinaryConfig.js:69-84 | an old image is destroyed only when its URL is non-empty and contains "cloudinary.com", and then under its extracted public id |
| CloudinaryConfig.HandleImageUpload | utils/cloudinaryConfig.js:29-91 | no file → null; a successful upload returns its secure URL and destroys at most the old image named by `OldImageToDestroy` |

## Left out

- Hashing, signing and randomness are not computed.
  - bcrypt is a record of the password and a salt.
  - A JWT is a record of its claims and a signature flag.
  - Random codes, random bytes and database-generated ids are parameters, constrained to their ranges or lengths.
  - Theme link ids come from a counter.
- Email sending is a parameter saying whether the send fails.
- I/O and plumbing are not modelled: multer uploads, the file system, the Cloudinary network calls (`upload_stream`, `destroy`, `ping`), express-session's store, and Promise concurrency.
- Listing order is modelled only for adverts. The other listings keep table order, because their `orderBy` columns (popularity, name) would need collation rules that this model does not have.
- Text matching is simplified:
  - the database is MySQL (the default `DATABASE_URL` in `app.js`); Prisma's `contains` is plain substring matching;
  - MySQL's default collation, which makes comparisons case- and accent-insensitive, is not modelled: the model compares exactly wherever the routes compare text in the database. That covers the name-clash lookups (formation creation and update, city creation, `Pays.NomUsed`, `Universite.PairTaken`), the `categorie` filter of adverts and the `pays` filter of `pays1`;
  - a `contains` with `mode: 'insensitive'` (the advert search of `GET /lire`) is refused by Prisma on MySQL, so that route answers 500 for any truthy `search`;
  - `toLowerCase`/`toUpperCase` cover ASCII letters only;
  - `normalize("NFD")` is not modelled: accented precomposed letters are not decomposed.
- Numbers are simplified:
  - query and body numbers are already-parsed integers, so `parseInt`/`parseFloat` failures (NaN) are not modelled; a query bound is present whenever its text is non-empty, so "0" filters;
  - a negative `skip` is taken to make Prisma throw, which the listings answer with 500; a negative `take` reads from the end of the result, as `Common.NegativeTakeFromEnd` states;
  - latitude and longitude are whole numbers;
  - the `proches` bounding-box geometry is left out.
- Ville.VilleStore.Modifier: models the relational `pays` id list only as a set of links. The ordering of `paysVilles` in the reply is not kept.
- Cascades:
  - theme, detail, university and city deletes remove dependent rows as the routes' comments and `deleteMany` calls say;
  - the database schema is not part of this model, so foreign-key failures are modelled only for the university–city association;
  - in formation, a missing foreign key on association creation is not modelled.
- Formation delete and bulk delete are not modelled, nor the formation read/search routes or the `liked-formations` listing itself. Its statistics loop (`CountBy`) is modelled.
- These pays routes are not modelled: `PUT /:id/popularite`, the read/search routes and `verifier-nom`.
- Pays.PaysStore.Modifier: a `null` on a required text column (nom, continent…) is written as the column's current value, because the database would refuse it. A continent written in lower case on update is refused, as on creation.
- Ville.VilleStore.Creer: a `paysIds` value that is not a list is treated as absent, and its own error path is not modelled.
- The `pays1` side lists of cities and programmes, and the GET-by-id and search routes of every catalogue, are not modelled.
- The statistics routes (`/stats/...`, including the raw-SQL city statistics and the randomly filled monthly account statistics) are not modelled.
- User routes other than those modelled are not modelled: listing, search, profile update, delete and `verifier-email`.
- Publicite.NewPublicite: `cibleGeo` is stored as the given text rather than as parsed JSON, so a malformed value, which makes `JSON.parse` throw a 500, is not modelled.
- Connexion.Login: `tokenExpiry` is login time + 7 × 24 hours in milliseconds. Calendar `setDate` arithmetic (daylight-saving changes) is not modelled.
- Catch-all 500 replies for database failures are modelled only where a route maps a specific error itself:
  - Prisma error codes in the like route;
  - session-destroy errors;
  - the token write in login;
  - a duplicate generated advert id.
- The SPA catch-all, the static mounts and router mounting in `app.js` are not modelled, apart from the fact that `protectedStatic` guards none of them.

## Findings

| source | as written | input that shows it | evidently intended | confidence | as-written member | corrected member |
|---|---|---|---|---|---|---|
| routes/pays/pays.js:624-634 | the single delete adds `_count.favoris`, which the query does not select; the sum is NaN and `NaN > 0` is false, so the guard never blocks | a country with 3 linked cities (guides 0, letters 0, cities 3) is deleted | block when any guide, letter, favourite or city refers to the country | not executed | Pays.SingleDeleteCounterexample | Pays.HasDependentsIsPositiveTotal |
| routes/pays/pays.js:678-684 | the bulk guard compares the unselected `_count.favoris` (undefined) with 0, so favourites never block | a country whose only dependent is a favourite passes the bulk guard | favourites block as the error message lists them | not executed | Pays.BulkDeleteCounterexample | Pays.BulkOfOneAgreesWithSingle |
| routes/universite/universite.js:358-374 | the (nom, pays) uniqueness query runs only when both nom and pays are in the body | renaming university "a" (X, P) to the name Y that university "b" already has in P, sending only `nom` | check the pair the row will have whenever it changes | not executed; relies on no unique index on (nom, pays) in the schema | Universite.OnlyNomSkipsCheckAsWritten | Universite.PairCheckKeepsUnique |
| routes/users/Utilisateur.js:753-782 | the language routes compare `split(" ")[1]` of the header with the stored token; after logout the stored token is "" and a header with two spaces after "Bearer" gives "" | GET or PUT `/:id/language` with header "Bearer  x" (two spaces) on a logged-out account is accepted; the bare "Bearer " never arrives, because Node drops trailing white space from header values | a logged-out account's language needs a live token | not executed | Utilisateur.LoggedOutLanguageOpenAsWritten | Utilisateur.LanguageTokenOkMeans |
