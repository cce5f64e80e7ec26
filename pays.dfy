/**
 * The country router: creation and update with their validators and
 * defaults, the per-continent listing in the user's language, the
 * `populaires` limit, and the dependency guards of the single and bulk
 * deletes.
 */
module Pays {
  import opened Common
  import opened Accounts

  const Continents: seq<string> := ["AFRIQUE", "AMERIQUE", "ASIE", "EUROPE", "OCEANIE"]

  datatype Pays = Pays(
    id: string,
    nom: string,
    nomEn: string,
    nomFr: string,
    drapeau: string,
    continent: string,
    region: Option<string>,
    avantages: string,
    avantagesEn: string,
    avantagesFr: string,
    popularite: int,
    cout: int,
    langue: string,
    monnaie: string)

  /** The body of `POST /creer`. */
  datatype PaysForm = PaysForm(
    nom: Option<string>,
    nomEn: Option<string>,
    nomFr: Option<string>,
    drapeau: Option<string>,
    continent: Option<string>,
    region: Option<string>,
    avantages: Option<string>,
    avantagesEn: Option<string>,
    avantagesFr: Option<string>,
    popularite: Option<int>,
    cout: Option<int>,
    langue: Option<string>,
    monnaie: Option<string>)

  /** The ten fields creation requires to be truthy. */
  predicate RequiredFilled(f: PaysForm)
  {
    && Filled(f.nom) && Filled(f.nomEn) && Filled(f.nomFr) && Filled(f.drapeau) && Filled(f.continent)
    && Filled(f.avantages) && Filled(f.avantagesEn) && Filled(f.avantagesFr) && Filled(f.langue) && Filled(f.monnaie)
  }

  /** Why a creation or an update is refused before any write. */
  datatype Rejection =
    | MissingFields           // 400
    | BadContinent            // 400 "Le continent doit être l'un des suivants : …"
    | BadCout                 // 400 "Le coût doit être compris entre 1 et 5."
    | BadPopularite           // 400 "La popularité doit être comprise entre 1 et 100."
    | NameTaken               // 400
    | NothingToUpdate         // 400 "Aucune donnée à mettre à jour fournie."

  /**
   * The validators of `POST /creer`, in the route's order. `cout` and
   * `popularite` are range-checked only when truthy.
   */
  function CreateCheck(f: PaysForm): (r: Option<Rejection>)
    ensures r.None? <==>
      && RequiredFilled(f) && f.continent.value in Continents
      && (NonZero(f.cout) ==> 1 <= f.cout.value <= 5)
      && (NonZero(f.popularite) ==> 1 <= f.popularite.value <= 100)
    ensures RequiredFilled(f) && f.continent.value !in Continents ==> r == Some(BadContinent)
  {
    if !RequiredFilled(f) then Some(MissingFields)
    else if f.continent.value !in Continents then Some(BadContinent)
    else if NonZero(f.cout) && (f.cout.value < 1 || f.cout.value > 5) then Some(BadCout)
    else if NonZero(f.popularite) && (f.popularite.value < 1 || f.popularite.value > 100) then Some(BadPopularite)
    else None
  }

  /** The stored row of an accepted creation: `popularite || 50`, `cout || 3`. */
  function NewPays(id: string, f: PaysForm): (p: Pays)
    requires CreateCheck(f).None?
    ensures 1 <= p.cout <= 5 && 1 <= p.popularite <= 100
    ensures p.cout == (if NonZero(f.cout) then f.cout.value else 3)
    ensures p.popularite == (if NonZero(f.popularite) then f.popularite.value else 50)
    ensures p.continent in Continents
  {
    Pays(id, f.nom.value, f.nomEn.value, f.nomFr.value, f.drapeau.value, f.continent.value, f.region,
      f.avantages.value, f.avantagesEn.value, f.avantagesFr.value,
      if NonZero(f.popularite) then f.popularite.value else 50,
      if NonZero(f.cout) then f.cout.value else 3,
      f.langue.value, f.monnaie.value)
  }

  /**
   * The body of `PUT /:id`; `None` is a field left out. `region` is the
   * one nullable column, so `null` can be sent for it and is stored.
   */
  datatype PaysUpdate = PaysUpdate(
    nom: Option<string>,
    nomEn: Option<string>,
    nomFr: Option<string>,
    drapeau: Option<string>,
    continent: Option<string>,
    region: Field<string>,
    avantages: Option<string>,
    avantagesEn: Option<string>,
    avantagesFr: Option<string>,
    popularite: Field<int>,
    cout: Field<int>,
    langue: Option<string>,
    monnaie: Option<string>)

  /** No field of the update is defined. */
  predicate EmptyUpdate(u: PaysUpdate)
  {
    && u.nom.None? && u.nomEn.None? && u.nomFr.None? && u.drapeau.None? && u.continent.None? && u.region.Absent?
    && u.avantages.None? && u.avantagesEn.None? && u.avantagesFr.None? && u.popularite.Absent? && u.cout.Absent?
    && u.langue.None? && u.monnaie.None?
  }

  /**
   * `x !== undefined && (x < lo || x > hi)`: a defined value outside the
   * range, where `null` compares as 0 and so is outside too.
   */
  predicate DefinedOutOf(x: Field<int>, lo: int, hi: int)
  {
    match x
    case Absent => false
    case Null => !(lo <= 0 <= hi)
    case Given(v) => v < lo || v > hi
  }

  /** The update's validators that do not need the table, in the route's order. */
  function UpdateCheck(u: PaysUpdate): (r: Option<Rejection>)
    ensures r.None? <==>
      && (Filled(u.continent) ==> u.continent.value in Continents)
      && (u.cout.Given? ==> 1 <= u.cout.value <= 5) && !u.cout.Null?
      && (u.popularite.Given? ==> 1 <= u.popularite.value <= 100) && !u.popularite.Null?
    ensures u.cout == Given(0) ==> r.Some?
  {
    if Filled(u.continent) && u.continent.value !in Continents then Some(BadContinent)
    else if DefinedOutOf(u.cout, 1, 5) then Some(BadCout)
    else if DefinedOutOf(u.popularite, 1, 100) then Some(BadPopularite)
    else None
  }

  function Pick<T>(given: Option<T>, current: T): T
  {
    if given.Some? then given.value else current
  }

  /** The row after an update that passed its checks: each defined field is written as given. */
  function Apply(p: Pays, u: PaysUpdate): (q: Pays)
    requires UpdateCheck(u).None?
    ensures q.id == p.id
    ensures u.cout.Absent? ==> q.cout == p.cout
    ensures u.cout.Given? ==> q.cout == u.cout.value
    ensures u.popularite.Absent? ==> q.popularite == p.popularite
    ensures u.popularite.Given? ==> q.popularite == u.popularite.value
    ensures q.region == u.region.Over(p.region)
    ensures q.nom == u.nom.GetOr(p.nom) && q.nomEn == u.nomEn.GetOr(p.nomEn) && q.nomFr == u.nomFr.GetOr(p.nomFr)
    ensures q.drapeau == u.drapeau.GetOr(p.drapeau) && q.continent == u.continent.GetOr(p.continent)
    ensures q.avantages == u.avantages.GetOr(p.avantages) && q.avantagesEn == u.avantagesEn.GetOr(p.avantagesEn)
    ensures q.avantagesFr == u.avantagesFr.GetOr(p.avantagesFr)
    ensures q.langue == u.langue.GetOr(p.langue) && q.monnaie == u.monnaie.GetOr(p.monnaie)
    ensures EmptyUpdate(u) ==> q == p
  {
    Pays(p.id, Pick(u.nom, p.nom), Pick(u.nomEn, p.nomEn), Pick(u.nomFr, p.nomFr), Pick(u.drapeau, p.drapeau),
      Pick(u.continent, p.continent), u.region.Over(p.region),
      Pick(u.avantages, p.avantages), Pick(u.avantagesEn, p.avantagesEn), Pick(u.avantagesFr, p.avantagesFr),
      if u.popularite.Given? then u.popularite.value else p.popularite,
      if u.cout.Given? then u.cout.value else p.cout,
      Pick(u.langue, p.langue), Pick(u.monnaie, p.monnaie))
  }

  /** Some country is called `nom`. */
  predicate NomUsed(rows: map<string, Pays>, nom: string)
  {
    exists id | id in rows :: rows[id].nom == nom
  }

  /** Every stored cost and popularity lies in its range. */
  predicate InRanges(rows: map<string, Pays>)
  {
    forall id | id in rows :: 1 <= rows[id].cout <= 5 && 1 <= rows[id].popularite <= 100
  }

  // ---------------------------------------------------------------------
  // Dependencies and the delete guards
  // ---------------------------------------------------------------------

  /** How many guides, motivation letters, favourites and city links refer to a country. */
  datatype Dependents = Dependents(guides: nat, lettres: nat, favoris: nat, villes: nat)

  function DependentsOf(deps: map<string, Dependents>, id: string): Dependents
  {
    if id in deps then deps[id] else Dependents(0, 0, 0, 0)
  }

  /** A JavaScript number, where adding `undefined` gives `NaN`. */
  datatype JsNumber = Num(n: int) | NaN

  function JsAdd(a: JsNumber, b: JsNumber): JsNumber
  {
    if a.Num? && b.Num? then Num(a.n + b.n) else NaN
  }

  /** `x > 0`, which is false for `NaN`. */
  predicate JsPositive(x: JsNumber)
  {
    x.Num? && x.n > 0
  }

  /**
   * The single delete's guard as written: the four counts are added, but
   * `favoris` is not among the selected counts, so that term is `undefined`.
   */
  predicate SingleDeleteBlockedAsWritten(d: Dependents)
  {
    JsPositive(JsAdd(JsAdd(JsAdd(Num(d.guides), Num(d.lettres)), NaN), Num(d.villes)))
  }

  /** As written, the single delete's guard never blocks a deletion. */
  lemma SingleDeleteNeverBlockedAsWritten(d: Dependents)
    ensures !SingleDeleteBlockedAsWritten(d)
  {
  }

  /** A country with three linked cities passes the single delete's guard as written. */
  lemma SingleDeleteCounterexample()
    ensures HasDependents(Dependents(0, 0, 0, 3)) && !SingleDeleteBlockedAsWritten(Dependents(0, 0, 0, 3))
  {
  }

  /** The bulk delete's guard as written: the `favoris` term compares `undefined` and is false. */
  predicate BulkDeleteBlockedAsWritten(d: Dependents)
  {
    d.guides > 0 || d.lettres > 0 || false || d.villes > 0
  }

  /** A country with only a favourite passes the bulk delete's guard as written. */
  lemma BulkDeleteCounterexample()
    ensures HasDependents(Dependents(0, 0, 1, 0)) && !BulkDeleteBlockedAsWritten(Dependents(0, 0, 1, 0))
  {
  }

  /** The intended guard of both deletes: the country is referred to by anything at all. */
  predicate HasDependents(d: Dependents)
  {
    d.guides > 0 || d.lettres > 0 || d.favoris > 0 || d.villes > 0
  }

  /** The intended guard blocks exactly when the total of the four counts is positive. */
  lemma HasDependentsIsPositiveTotal(d: Dependents)
    ensures HasDependents(d) <==> JsPositive(JsAdd(JsAdd(JsAdd(Num(d.guides), Num(d.lettres)), Num(d.favoris)), Num(d.villes)))
    ensures BulkDeleteBlockedAsWritten(d) ==> HasDependents(d)
  {
  }

  /** The countries of a bulk delete that the intended guard keeps. */
  function BlockedIds(rows: map<string, Pays>, deps: map<string, Dependents>, ids: seq<string>): (r: set<string>)
    ensures forall id :: id in r <==> id in ids && id in rows && HasDependents(DependentsOf(deps, id))
  {
    set id | id in ids && id in rows && HasDependents(DependentsOf(deps, id))
  }

  /** A bulk delete of one id blocks exactly when the single delete of that id does. */
  lemma BulkOfOneAgreesWithSingle(rows: map<string, Pays>, deps: map<string, Dependents>, id: string)
    requires id in rows
    ensures BlockedIds(rows, deps, [id]) == {} <==> !HasDependents(DependentsOf(deps, id))
  {
    if HasDependents(DependentsOf(deps, id)) {
      assert id in BlockedIds(rows, deps, [id]);
    }
  }

  // ---------------------------------------------------------------------
  // Listings
  // ---------------------------------------------------------------------

  /** A country as the continent listing shows it. */
  datatype PaysView = PaysView(id: string, nom: string, nomOriginal: string, avantages: string, continent: string)

  /** `langueUtilisateur`: the account's language when it has one, else "fr". */
  function ListingLanguage(users: map<int, Account>, userId: Option<int>): (l: string)
    ensures NonZero(userId) && userId.value in users && Filled(users[userId.value].langue) ==>
      l == users[userId.value].langue.value
    ensures !(NonZero(userId) && userId.value in users && Filled(users[userId.value].langue)) ==> l == "fr"
  {
    if NonZero(userId) && userId.value in users && Filled(users[userId.value].langue)
    then users[userId.value].langue.value else "fr"
  }

  /** `nomEn` in English, otherwise `nomFr || nom`; the same for `avantages`. */
  function View(p: Pays, english: bool): (v: PaysView)
    ensures v.id == p.id && v.nomOriginal == p.nom && v.continent == p.continent
    ensures english ==> v.nom == p.nomEn && v.avantages == p.avantagesEn
    ensures !english ==> v.nom == (if p.nomFr != "" then p.nomFr else p.nom)
    ensures !english ==> v.avantages == (if p.avantagesFr != "" then p.avantagesFr else p.avantages)
  {
    PaysView(p.id, if english then p.nomEn else if p.nomFr != "" then p.nomFr else p.nom, p.nom,
      if english then p.avantagesEn else if p.avantagesFr != "" then p.avantagesFr else p.avantages,
      p.continent)
  }

  /** The countries of `rows` on `continent`, in table order. */
  function OnContinent(rows: seq<Pays>, continent: string): (r: seq<Pays>)
    ensures |r| <= |rows|
    ensures forall p :: p in r <==> p in rows && p.continent == continent
  {
    if rows == [] then []
    else
      assert rows == [rows[0]] + rows[1..];
      (if rows[0].continent == continent then [rows[0]] else []) + OnContinent(rows[1..], continent)
  }

  /** Each row shown in the listing language. */
  function Views(rows: seq<Pays>, english: bool): (r: seq<PaysView>)
    ensures |r| == |rows| && forall k | 0 <= k < |rows| :: r[k] == View(rows[k], english)
  {
    seq(|rows|, k requires 0 <= k < |rows| => View(rows[k], english))
  }

  datatype ContinentReply =
    | ContinentMissing        // 400 "Le paramètre 'continent' est requis"
    | ContinentInvalid        // 400
    | ContinentListed(pays: seq<PaysView>, total: int, langue: string)   // 200

  /**
   * `GET /continent?continent=…&userId=…`: the continent is matched
   * ignoring case; the rows are shown in English only for an account whose
   * language is "en".
   */
  function ContinentListing(rows: seq<Pays>, users: map<int, Account>, continent: Option<string>, userId: Option<int>)
    : (r: ContinentReply)
    ensures !Filled(continent) ==> r == ContinentMissing
    ensures Filled(continent) && ToUpper(continent.value) !in Continents ==> r == ContinentInvalid
    ensures Filled(continent) && ToUpper(continent.value) in Continents ==> r.ContinentListed?
    ensures r.ContinentListed? ==>
      && Filled(continent) && ToUpper(continent.value) in Continents
      && r.langue == ListingLanguage(users, userId) && r.total == |r.pays|
      && r.pays == Views(OnContinent(rows, ToUpper(continent.value)), r.langue == "en")
  {
    if !Filled(continent) then ContinentMissing
    else if ToUpper(continent.value) !in Continents then ContinentInvalid
    else
      var langue := ListingLanguage(users, userId);
      var shown := Views(OnContinent(rows, ToUpper(continent.value)), langue == "en");
      ContinentListed(shown, |shown|, langue)
  }

  /** Two spellings of a continent that differ only in case give the same reply. */
  lemma ContinentCaseIgnored(rows: seq<Pays>, users: map<int, Account>, a: string, b: string, userId: Option<int>)
    requires ToUpper(a) == ToUpper(b)
    ensures ContinentListing(rows, users, Some(a), userId) == ContinentListing(rows, users, Some(b), userId)
  {
    assert |a| == |ToUpper(a)| == |ToUpper(b)| == |b|;
  }

  /** `GET /populaires/:limite?`: the number of countries to return, 10 by default; `None` is the 400 reply. */
  function PopularLimit(limite: Option<int>): (r: Option<int>)
    ensures r.Some? <==> (limite.None? || 1 <= limite.value <= 100)
    ensures r.Some? ==> 1 <= r.value <= 100 && r.value == limite.GetOr(10)
  {
    var limit := if limite.Some? then limite.value else 10;
    if limit < 1 || limit > 100 then None else Some(limit)
  }

  // ---------------------------------------------------------------------
  // The store
  // ---------------------------------------------------------------------

  datatype PaysReply =
    | Rejected(why: Rejection)        // 400
    | PaysNotFound                    // 404
    | PaysCreated(pays: Pays)         // 201
    | PaysUpdated(pays: Pays)         // 200
    | DeleteBlocked(dependents: Dependents)   // 400 "Impossible de supprimer ce pays. …"
    | PaysDeleted                     // 200
    | BadIdList                       // 400 "Une liste d'IDs valide est requise."
    | BulkBlocked(ids: set<string>)   // 400 "Impossible de supprimer certains pays …"
    | BulkDeleted(count: int)         // 200

  class PaysStore {
    var pays: map<string, Pays>

    /** Rows sit under their own id, with costs and popularities in range. */
    ghost predicate Valid()
      reads this
    {
      (forall id | id in pays :: pays[id].id == id) && InRanges(pays)
    }

    constructor ()
      ensures Valid() && pays == map[]
    {
      pays := map[];
    }

    /** `POST /creer`: `newId` is the identifier the database generates. */
    method Creer(newId: string, f: PaysForm) returns (r: PaysReply)
      requires Valid() && newId !in pays
      modifies this
      ensures Valid()
      ensures CreateCheck(f).Some? ==> r == Rejected(CreateCheck(f).value) && pays == old(pays)
      ensures CreateCheck(f).None? && NomUsed(old(pays), f.nom.value) ==> r == Rejected(NameTaken) && pays == old(pays)
      ensures CreateCheck(f).None? && !NomUsed(old(pays), f.nom.value) ==>
        r == PaysCreated(NewPays(newId, f)) && pays == old(pays)[newId := NewPays(newId, f)]
    {
      var check := CreateCheck(f);
      if check.Some? {
        return Rejected(check.value);
      }
      if NomUsed(pays, f.nom.value) {
        return Rejected(NameTaken);
      }
      var p := NewPays(newId, f);
      pays := pays[newId := p];
      r := PaysCreated(p);
    }

    /**
     * `PUT /:id`: the country must exist; the continent (when truthy),
     * cost and popularity (when defined) are checked, then a new name
     * already in use, then that something is to be written.
     */
    method Modifier(id: string, u: PaysUpdate) returns (r: PaysReply)
      requires Valid()
      modifies this
      ensures Valid()
      ensures !r.PaysUpdated? ==> pays == old(pays)
      ensures id !in old(pays) ==> r == PaysNotFound
      ensures id in old(pays) && UpdateCheck(u).Some? ==> r == Rejected(UpdateCheck(u).value)
      ensures id in old(pays) && UpdateCheck(u).None? ==>
        var cur := old(pays)[id];
        var renamed := Filled(u.nom) && u.nom.value != cur.nom && NomUsed(old(pays), u.nom.value);
        && (renamed ==> r == Rejected(NameTaken))
        && (!renamed && EmptyUpdate(u) ==> r == Rejected(NothingToUpdate))
        && (!renamed && !EmptyUpdate(u) ==> r == PaysUpdated(Apply(cur, u)) && pays == old(pays)[id := Apply(cur, u)])
    {
      if id !in pays {
        return PaysNotFound;
      }
      var cur := pays[id];
      var check := UpdateCheck(u);
      if check.Some? {
        return Rejected(check.value);
      }
      if Filled(u.nom) && u.nom.value != cur.nom && NomUsed(pays, u.nom.value) {
        return Rejected(NameTaken);
      }
      if EmptyUpdate(u) {
        return Rejected(NothingToUpdate);
      }
      var p := Apply(cur, u);
      pays := pays[id := p];
      r := PaysUpdated(p);
    }

    /**
     * `DELETE /:id` with the intended guard: a country anything refers to
     * is kept. `deps` are the counts the database reports.
     */
    method Supprimer(id: string, deps: map<string, Dependents>) returns (r: PaysReply)
      requires Valid()
      modifies this
      ensures Valid()
      ensures id !in old(pays) ==> r == PaysNotFound && pays == old(pays)
      ensures id in old(pays) && HasDependents(DependentsOf(deps, id)) ==>
        r == DeleteBlocked(DependentsOf(deps, id)) && pays == old(pays)
      ensures id in old(pays) && !HasDependents(DependentsOf(deps, id)) ==> r == PaysDeleted && pays == old(pays) - {id}
    {
      if id !in pays {
        return PaysNotFound;
      }
      var d := DependentsOf(deps, id);
      if HasDependents(d) {
        return DeleteBlocked(d);
      }
      pays := pays - {id};
      r := PaysDeleted;
    }

    /**
     * `DELETE /` with `{ids}` and the intended guard: nothing is deleted
     * when any listed country has dependents; otherwise every listed
     * country is deleted and counted once.
     */
    method SupprimerPlusieurs(ids: Option<seq<string>>, deps: map<string, Dependents>) returns (r: PaysReply)
      requires Valid()
      modifies this
      ensures Valid()
      ensures ids.None? || ids.value == [] ==> r == BadIdList && pays == old(pays)
      ensures ids.Some? && ids.value != [] && BlockedIds(old(pays), deps, ids.value) != {} ==>
        r == BulkBlocked(BlockedIds(old(pays), deps, ids.value)) && pays == old(pays)
      ensures ids.Some? && ids.value != [] && BlockedIds(old(pays), deps, ids.value) == {} ==>
        var gone := set id | id in ids.value && id in old(pays);
        && r == BulkDeleted(|gone|) && pays == old(pays) - gone
        && forall id | id in gone :: !HasDependents(DependentsOf(deps, id))
    {
      if ids.None? || ids.value == [] {
        return BadIdList;
      }
      var blocked := BlockedIds(pays, deps, ids.value);
      if blocked != {} {
        return BulkBlocked(blocked);
      }
      var gone := set id | id in ids.value && id in pays;
      pays := pays - gone;
      r := BulkDeleted(|gone|);
    }
  }
}
