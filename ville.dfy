/**
 * The city router: creation and update with their coordinate, population
 * and name checks, the city-country link table, the `/lire` filters, and
 * the university guard on deletion.
 */
module Ville {
  import opened Common
  import Pays
  import Universite

  /** Coordinates are taken as already-parsed whole numbers. */
  datatype Ville = Ville(
    id: string,
    nom: string,
    nomEn: string,
    nomFr: string,
    latitude: Option<int>,
    longitude: Option<int>,
    population: Option<int>)

  /** A `(paysId, villeId)` row of the `paysVille` table. */
  datatype PaysVille = PaysVille(paysId: string, villeId: string)

  /** Why a creation or an update is refused. */
  datatype Rejection =
    | MissingNames            // 400 "Les champs nom, nomEn et nomFr sont obligatoires."
    | BadLatitude             // 400
    | BadLongitude            // 400
    | NegativePopulation      // 400
    | NameTaken               // 400 "Une ville existe déjà avec ce nom dans l'une des langues."
    | UnknownPays(paysNonTrouves: seq<string>)   // 400 "Certains pays n'existent pas." with the missing ids
    | SomePaysUnknown         // 400 "Certains pays n'existent pas." (update, no list)

  /**
   * The three value checks creation and update share: a truthy latitude
   * outside [-90, 90], a truthy longitude outside [-180, 180], a truthy
   * negative population.
   */
  function CoordinateCheck(latitude: Option<int>, longitude: Option<int>, population: Option<int>): (r: Option<Rejection>)
    ensures r.None? <==>
      && (NonZero(latitude) ==> -90 <= latitude.value <= 90)
      && (NonZero(longitude) ==> -180 <= longitude.value <= 180)
      && (NonZero(population) ==> population.value >= 0)
    ensures r.Some? ==> r.value in {BadLatitude, BadLongitude, NegativePopulation}
  {
    if NonZero(latitude) && (latitude.value < -90 || latitude.value > 90) then Some(BadLatitude)
    else if NonZero(longitude) && (longitude.value < -180 || longitude.value > 180) then Some(BadLongitude)
    else if NonZero(population) && population.value < 0 then Some(NegativePopulation)
    else None
  }

  /** The ids of `ids` that name no country, in the list's order, repeats kept. */
  function Missing(ids: seq<string>, known: set<string>): (r: seq<string>)
    ensures forall id :: id in r <==> id in ids && id !in known
    ensures |r| <= |ids|
  {
    if ids == [] then []
    else
      assert ids == [ids[0]] + ids[1..];
      (if ids[0] in known then [] else [ids[0]]) + Missing(ids[1..], known)
  }

  function Elements(ids: seq<string>): set<string>
  {
    set id | id in ids
  }

  /** A list has as many distinct elements as entries exactly when none repeats. */
  lemma {:induction false} ElementsCount(ids: seq<string>)
    ensures |Elements(ids)| <= |ids|
    ensures |Elements(ids)| == |ids| <==> Distinct(ids)
  {
    if ids == [] {
      assert Elements(ids) == {};
    } else {
      var rest := ids[1..];
      ElementsCount(rest);
      assert Elements(ids) == {ids[0]} + Elements(rest) by {
        assert ids == [ids[0]] + rest;
      }
      DistinctCons(ids);
      if ids[0] in rest {
        assert Elements(ids) == Elements(rest);
      } else {
        assert |Elements(ids)| == |Elements(rest)| + 1;
      }
    }
  }

  /** A non-empty list has no repeats exactly when its head is not in its tail and its tail has none. */
  lemma DistinctCons(ids: seq<string>)
    requires ids != []
    ensures Distinct(ids) <==> ids[0] !in ids[1..] && Distinct(ids[1..])
  {
    var rest := ids[1..];
    if ids[0] in rest {
      var j :| 0 <= j < |rest| && rest[j] == ids[0];
      assert ids[0] == ids[j + 1];
    } else if Distinct(rest) {
      forall i, j | 0 <= i < j < |ids|
        ensures ids[i] != ids[j]
      {
        if i == 0 {
          assert ids[j] == rest[j - 1];
        } else {
          assert ids[i] == rest[i - 1] && ids[j] == rest[j - 1];
        }
      }
    } else {
      var i, j :| 0 <= i < j < |rest| && rest[i] == rest[j];
      assert ids[i + 1] == ids[j + 1];
    }
  }

  /**
   * `paysExistants.length !== paysIds.length`: the number of distinct
   * listed ids that name a country differs from the list's length.
   */
  predicate CountMismatch(ids: seq<string>, known: set<string>)
  {
    |Elements(ids) * known| != |ids|
  }

  /**
   * The count comparison refuses a list exactly when some id names no
   * country or some id is repeated; in the latter case the list of missing
   * ids sent back may be empty.
   */
  lemma CountMismatchMeans(ids: seq<string>, known: set<string>)
    ensures CountMismatch(ids, known) <==> Missing(ids, known) != [] || !Distinct(ids)
  {
    ElementsCount(ids);
    var e := Elements(ids);
    SubsetSize(e * known, e);
    if Missing(ids, known) != [] {
      var id := Missing(ids, known)[0];
      assert id in e && id !in e * known;
    } else {
      assert e * known == e;
    }
  }

  /**
   * A list of existing ids with a repeat is refused, and the list of
   * missing ids sent back with the refusal is empty.
   */
  lemma RepeatedIdRefused(ids: seq<string>, known: set<string>)
    requires forall id | id in ids :: id in known
    requires !Distinct(ids)
    ensures CountMismatch(ids, known) && Missing(ids, known) == []
  {
    CountMismatchMeans(ids, known);
    if Missing(ids, known) != [] {
      assert Missing(ids, known)[0] in Missing(ids, known);
    }
  }

  /** The body of `POST /creer`. */
  datatype VilleForm = VilleForm(
    nom: Option<string>,
    nomEn: Option<string>,
    nomFr: Option<string>,
    latitude: Option<int>,
    longitude: Option<int>,
    population: Option<int>,
    paysIds: Option<seq<string>>)

  /** Some city has this `nom`, this `nomEn` or this `nomFr`, each compared with its own column. */
  predicate NameClash(villes: map<string, Ville>, nom: string, nomEn: string, nomFr: string)
  {
    exists id | id in villes :: villes[id].nom == nom || villes[id].nomEn == nomEn || villes[id].nomFr == nomFr
  }

  /**
   * The update's uniqueness query: another city matches one of the truthy
   * names given, each in its own column.
   */
  predicate RenameClash(villes: map<string, Ville>, self: string, nom: Option<string>, nomEn: Option<string>, nomFr: Option<string>)
  {
    exists id | id in villes && id != self ::
      (Filled(nom) && villes[id].nom == nom.value) || (Filled(nomEn) && villes[id].nomEn == nomEn.value)
      || (Filled(nomFr) && villes[id].nomFr == nomFr.value)
  }

  /** The update gives a truthy name different from the city's own, which triggers the uniqueness query. */
  predicate Renaming(v: Ville, u: VilleUpdate)
  {
    (Filled(u.nom) && u.nom.value != v.nom) || (Filled(u.nomEn) && u.nomEn.value != v.nomEn)
    || (Filled(u.nomFr) && u.nomFr.value != v.nomFr)
  }

  /** `paysIds` in an update: left out, something that is not a list, or a list. */
  datatype PaysIdsInput = Omitted | NotAList | List(ids: seq<string>)

  /** The body of `PUT /:id`. */
  datatype VilleUpdate = VilleUpdate(
    nom: Option<string>,
    nomEn: Option<string>,
    nomFr: Option<string>,
    latitude: Field<int>,
    longitude: Field<int>,
    population: Field<int>,
    paysIds: PaysIdsInput)

  /** The row after an accepted update: truthy names and defined numbers are written. */
  function Apply(v: Ville, u: VilleUpdate): (w: Ville)
    ensures w.id == v.id
    ensures w.nom == (if Filled(u.nom) then u.nom.value else v.nom)
    ensures w.nomEn == (if Filled(u.nomEn) then u.nomEn.value else v.nomEn)
    ensures w.nomFr == (if Filled(u.nomFr) then u.nomFr.value else v.nomFr)
    ensures NumberWrite(u.latitude, v.latitude, w.latitude) && NumberWrite(u.longitude, v.longitude, w.longitude)
    ensures NumberWrite(u.population, v.population, w.population)
    ensures (u.latitude.Absent? && u.longitude.Absent? && u.population.Absent? && !Filled(u.nom) && !Filled(u.nomEn) && !Filled(u.nomFr)) ==> w == v
  {
    Ville(v.id,
      if Filled(u.nom) then u.nom.value else v.nom,
      if Filled(u.nomEn) then u.nomEn.value else v.nomEn,
      if Filled(u.nomFr) then u.nomFr.value else v.nomFr,
      Written(u.latitude, v.latitude), Written(u.longitude, v.longitude), Written(u.population, v.population))
  }

  /** A city on the equator loses its latitude: 0 is falsy and is written as null. */
  lemma EquatorLatitudeDropped(v: Ville, u: VilleUpdate)
    requires u.latitude == Given(0)
    ensures Apply(v, u).latitude == None
  {
  }

  /** The links of city `villeId` to the countries `ids`. */
  function LinksTo(villeId: string, ids: seq<string>): (r: set<PaysVille>)
    ensures forall l :: l in r <==> l.villeId == villeId && l.paysId in ids
  {
    set p | p in ids :: PaysVille(p, villeId)
  }

  /** The links that do not belong to city `villeId`. */
  function LinksOfOthers(links: set<PaysVille>, villeId: string): (r: set<PaysVille>)
    ensures forall l :: l in r <==> l in links && l.villeId != villeId
  {
    set l | l in links && l.villeId != villeId
  }

  // ---------------------------------------------------------------------
  // `/lire`
  // ---------------------------------------------------------------------

  /** The query string of `GET /lire`. */
  datatype VilleQuery = VilleQuery(
    pays: Option<string>,
    continent: Option<string>,
    populationMin: Option<int>,
    populationMax: Option<int>,
    search: Option<string>,
    page: Option<int>,
    limite: Option<int>)

  /** The condition `/lire` puts on a city's countries. */
  datatype LinkFilter = AnyCountry | CountryNameContains(part: string) | CountryOnContinent(continent: string)

  /** The continent filter, written after the country filter, replaces it. */
  function LinkFilterOf(q: VilleQuery): (f: LinkFilter)
    ensures Filled(q.continent) ==> f == CountryOnContinent(ToUpper(q.continent.value))
    ensures !Filled(q.continent) && Filled(q.pays) ==> f == CountryNameContains(q.pays.value)
    ensures !Filled(q.continent) && !Filled(q.pays) ==> f == AnyCountry
  {
    var f := if Filled(q.pays) then CountryNameContains(q.pays.value) else AnyCountry;
    if Filled(q.continent) then CountryOnContinent(ToUpper(q.continent.value)) else f
  }

  /** When both a country and a continent are asked for, only the continent filters. */
  lemma ContinentOverridesPays(q: VilleQuery)
    requires Filled(q.pays) && Filled(q.continent)
    ensures LinkFilterOf(q) == LinkFilterOf(q.(pays := None))
  {
  }

  /** Some country linked to the city satisfies the filter. */
  predicate LinkMatches(v: Ville, links: set<PaysVille>, pays: map<string, Pays.Pays>, f: LinkFilter)
  {
    match f
    case AnyCountry => true
    case CountryNameContains(part) =>
      exists l | l in links && l.villeId == v.id && l.paysId in pays :: Includes(pays[l.paysId].nom, part)
    case CountryOnContinent(c) =>
      exists l | l in links && l.villeId == v.id && l.paysId in pays :: pays[l.paysId].continent == c
  }

  /** The whole `where` of `/lire` for one city. */
  predicate Selected(v: Ville, links: set<PaysVille>, pays: map<string, Pays.Pays>, q: VilleQuery)
  {
    && (Filled(q.search) ==> Includes(v.nom, q.search.value) || Includes(v.nomEn, q.search.value) || Includes(v.nomFr, q.search.value))
    && LinkMatches(v, links, pays, LinkFilterOf(q))
    && (q.populationMin.Some? ==> v.population.Some? && v.population.value >= q.populationMin.value)
    && (q.populationMax.Some? ==> v.population.Some? && v.population.value <= q.populationMax.value)
  }

  function Filter(rows: seq<Ville>, links: set<PaysVille>, pays: map<string, Pays.Pays>, q: VilleQuery): (r: seq<Ville>)
    ensures |r| <= |rows|
    ensures forall v :: v in r <==> v in rows && Selected(v, links, pays, q)
  {
    if rows == [] then []
    else
      assert rows == [rows[0]] + rows[1..];
      (if Selected(rows[0], links, pays, q) then [rows[0]] else []) + Filter(rows[1..], links, pays, q)
  }

  datatype ListReply =
    | ListFailed                                          // 500: Prisma refuses a negative skip
    | Listed(villes: seq<Ville>, page: int, limite: int, total: int, totalPages: Option<int>)   // 200

  /**
   * `GET /lire` over the table `rows` in its listing order: page 1 and 50
   * rows by default; `total` counts every selected city.
   */
  function Lire(rows: seq<Ville>, links: set<PaysVille>, pays: map<string, Pays.Pays>, q: VilleQuery): (r: ListReply)
    ensures r.ListFailed? <==> Skip(q.page.GetOr(1), q.limite.GetOr(50)) < 0
    ensures r.Listed? ==>
      && r.page == q.page.GetOr(1) && r.limite == q.limite.GetOr(50)
      && r.total == |Filter(rows, links, pays, q)|
      && r.villes == PageOf(Filter(rows, links, pays, q), ListingWindow(q.page, q.limite, 50))
      && r.totalPages == PageCount(r.total, r.limite)
      && forall v | v in r.villes :: v in rows && Selected(v, links, pays, q)
  {
    var w := ListingWindow(q.page, q.limite, 50);
    if w.skip < 0 then ListFailed
    else
      var all := Filter(rows, links, pays, q);
      var page := PageOf(all, w);
      assert forall v | v in page :: v in all;
      Listed(page, w.page, w.limit, |all|, PageCount(|all|, w.limit))
  }

  /**
   * A bound of 0 still filters: the query value "0" is a non-empty string,
   * so a city whose population is unknown is left out.
   */
  lemma ZeroMinimumDropsUnknownPopulation(v: Ville, links: set<PaysVille>, pays: map<string, Pays.Pays>, q: VilleQuery)
    requires q.populationMin == Some(0) && v.population.None?
    ensures !Selected(v, links, pays, q)
  {
  }

  // ---------------------------------------------------------------------
  // The store
  // ---------------------------------------------------------------------

  datatype VilleReply =
    | Rejected(why: Rejection)            // 400
    | VilleNotFound                       // 404 "Ville non trouvée."
    | PaysNotFound                        // 404 "Pays non trouvé."
    | VilleCreated(ville: Ville)          // 201
    | VilleUpdated(ville: Ville)          // 200
    | AlreadyLinked                       // 400 "Cette ville est déjà associée à ce pays."
    | Linked                              // 201
    | LinkNotFound                        // 404 "Association ville-pays non trouvée."
    | Unlinked                            // 200
    | HasUniversities(universites: nat)         // 400 "Impossible de supprimer cette ville. …"
    | VilleDeleted                        // 200
    | BadIdList                           // 400 "Une liste d'IDs valide est requise."
    | SomeHaveUniversities(ids: set<string>)   // 400
    | VillesDeleted(count: int)           // 200

  function VilleStatus(r: VilleReply): int
  {
    match r
    case Rejected(_) => 400
    case VilleNotFound => 404
    case PaysNotFound => 404
    case VilleCreated(_) => 201
    case VilleUpdated(_) => 200
    case AlreadyLinked => 400
    case Linked => 201
    case LinkNotFound => 404
    case Unlinked => 200
    case HasUniversities(_) => 400
    case VilleDeleted => 200
    case BadIdList => 400
    case SomeHaveUniversities(_) => 400
    case VillesDeleted(_) => 200
  }

  class VilleStore {
    var villes: map<string, Ville>
    var links: set<PaysVille>

    /** Rows sit under their own id and every link names a stored city. */
    ghost predicate Valid()
      reads this
    {
      && (forall id | id in villes :: villes[id].id == id)
      && (forall l | l in links :: l.villeId in villes)
    }

    constructor ()
      ensures Valid() && villes == map[] && links == {}
    {
      villes := map[];
      links := {};
    }

    /**
     * `POST /creer`. `newId` is the id the database generates and `known`
     * the ids of the countries table.
     */
    method Creer(newId: string, f: VilleForm, known: set<string>) returns (r: VilleReply)
      requires Valid() && newId !in villes
      modifies this
      ensures Valid()
      ensures !r.VilleCreated? ==> villes == old(villes) && links == old(links)
      ensures !(Filled(f.nom) && Filled(f.nomEn) && Filled(f.nomFr)) ==> r == Rejected(MissingNames)
      ensures r.VilleCreated? <==>
        && Filled(f.nom) && Filled(f.nomEn) && Filled(f.nomFr)
        && CoordinateCheck(f.latitude, f.longitude, f.population).None?
        && !NameClash(old(villes), f.nom.value, f.nomEn.value, f.nomFr.value)
        && (f.paysIds.Some? ==> !CountMismatch(f.paysIds.value, known))
      ensures r.VilleCreated? ==>
        var v := Ville(newId, f.nom.value, f.nomEn.value, f.nomFr.value, Stored(f.latitude), Stored(f.longitude), Stored(f.population));
        && r.ville == v && villes == old(villes)[newId := v]
        && links == old(links) + (if f.paysIds.Some? then LinksTo(newId, f.paysIds.value) else {})
      ensures Filled(f.nom) && Filled(f.nomEn) && Filled(f.nomFr)
              && CoordinateCheck(f.latitude, f.longitude, f.population).Some? ==>
        r == Rejected(CoordinateCheck(f.latitude, f.longitude, f.population).value)
      ensures Filled(f.nom) && Filled(f.nomEn) && Filled(f.nomFr)
              && CoordinateCheck(f.latitude, f.longitude, f.population).None?
              && NameClash(old(villes), f.nom.value, f.nomEn.value, f.nomFr.value) ==>
        r == Rejected(NameTaken)
      ensures Filled(f.nom) && Filled(f.nomEn) && Filled(f.nomFr)
              && CoordinateCheck(f.latitude, f.longitude, f.population).None?
              && !NameClash(old(villes), f.nom.value, f.nomEn.value, f.nomFr.value)
              && f.paysIds.Some? && CountMismatch(f.paysIds.value, known) ==>
        r == Rejected(UnknownPays(Missing(f.paysIds.value, known)))
    {
      if !(Filled(f.nom) && Filled(f.nomEn) && Filled(f.nomFr)) {
        return Rejected(MissingNames);
      }
      var check := CoordinateCheck(f.latitude, f.longitude, f.population);
      if check.Some? {
        return Rejected(check.value);
      }
      if NameClash(villes, f.nom.value, f.nomEn.value, f.nomFr.value) {
        return Rejected(NameTaken);
      }
      if f.paysIds.Some? && f.paysIds.value != [] && CountMismatch(f.paysIds.value, known) {
        return Rejected(UnknownPays(Missing(f.paysIds.value, known)));
      }
      var v := Ville(newId, f.nom.value, f.nomEn.value, f.nomFr.value, Stored(f.latitude), Stored(f.longitude), Stored(f.population));
      villes := villes[newId := v];
      if f.paysIds.Some? {
        links := links + LinksTo(newId, f.paysIds.value);
      }
      r := VilleCreated(v);
    }

    /**
     * `PUT /:id`: a list of countries replaces the city's links (after the
     * same count check as creation), anything else given for `paysIds`
     * removes them all, and leaving it out keeps them.
     */
    method Modifier(id: string, u: VilleUpdate, known: set<string>) returns (r: VilleReply)
      requires Valid()
      modifies this
      ensures Valid()
      ensures !r.VilleUpdated? ==> villes == old(villes) && links == old(links)
      ensures id !in old(villes) ==> r == VilleNotFound
      ensures id in old(villes) && CoordinateCheck(Checked(u.latitude), Checked(u.longitude), Checked(u.population)).Some? ==>
        r == Rejected(CoordinateCheck(Checked(u.latitude), Checked(u.longitude), Checked(u.population)).value)
      ensures r.VilleUpdated? ==>
        && id in old(villes)
        && CoordinateCheck(Checked(u.latitude), Checked(u.longitude), Checked(u.population)).None?
        && !(Renaming(old(villes)[id], u) && RenameClash(old(villes), id, u.nom, u.nomEn, u.nomFr))
        && r.ville == Apply(old(villes)[id], u) && villes == old(villes)[id := r.ville]
      ensures (id in old(villes) && CoordinateCheck(Checked(u.latitude), Checked(u.longitude), Checked(u.population)).None?
               && Renaming(old(villes)[id], u) && RenameClash(old(villes), id, u.nom, u.nomEn, u.nomFr)) ==> r == Rejected(NameTaken)
      ensures r.VilleUpdated? && u.paysIds.Omitted? ==> links == old(links)
      ensures r.VilleUpdated? && u.paysIds.List? && u.paysIds.ids != [] ==>
        !CountMismatch(u.paysIds.ids, known) && links == LinksOfOthers(old(links), id) + LinksTo(id, u.paysIds.ids)
      ensures r.VilleUpdated? && (u.paysIds.NotAList? || u.paysIds == List([])) ==> links == LinksOfOthers(old(links), id)
      ensures id in old(villes) && CoordinateCheck(Checked(u.latitude), Checked(u.longitude), Checked(u.population)).None?
              && !(Renaming(old(villes)[id], u) && RenameClash(old(villes), id, u.nom, u.nomEn, u.nomFr))
              && u.paysIds.List? && u.paysIds.ids != [] && CountMismatch(u.paysIds.ids, known) ==>
        r == Rejected(SomePaysUnknown)
      ensures id in old(villes) && CoordinateCheck(Checked(u.latitude), Checked(u.longitude), Checked(u.population)).None?
              && !(Renaming(old(villes)[id], u) && RenameClash(old(villes), id, u.nom, u.nomEn, u.nomFr))
              && !(u.paysIds.List? && u.paysIds.ids != [] && CountMismatch(u.paysIds.ids, known)) ==>
        r.VilleUpdated?
    {
      if id !in villes {
        return VilleNotFound;
      }
      var cur := villes[id];
      var check := CoordinateCheck(Checked(u.latitude), Checked(u.longitude), Checked(u.population));
      if check.Some? {
        return Rejected(check.value);
      }
      if Renaming(cur, u) && RenameClash(villes, id, u.nom, u.nomEn, u.nomFr) {
        return Rejected(NameTaken);
      }
      if u.paysIds.List? && u.paysIds.ids != [] && CountMismatch(u.paysIds.ids, known) {
        return Rejected(SomePaysUnknown);
      }
      var v := Apply(cur, u);
      villes := villes[id := v];
      if u.paysIds.List? && u.paysIds.ids != [] {
        links := LinksOfOthers(links, id) + LinksTo(id, u.paysIds.ids);
      } else if !u.paysIds.Omitted? {
        links := LinksOfOthers(links, id);
      }
      r := VilleUpdated(v);
    }

    /** `POST /:villeId/associer-pays/:paysId`. */
    method Associer(villeId: string, paysId: string, known: set<string>) returns (r: VilleReply)
      requires Valid()
      modifies this
      ensures Valid() && villes == old(villes)
      ensures villeId !in old(villes) ==> r == VilleNotFound && links == old(links)
      ensures villeId in old(villes) && paysId !in known ==> r == PaysNotFound && links == old(links)
      ensures villeId in old(villes) && paysId in known && PaysVille(paysId, villeId) in old(links) ==>
        r == AlreadyLinked && links == old(links)
      ensures villeId in old(villes) && paysId in known && PaysVille(paysId, villeId) !in old(links) ==>
        r == Linked && links == old(links) + {PaysVille(paysId, villeId)}
    {
      if villeId !in villes {
        return VilleNotFound;
      }
      if paysId !in known {
        return PaysNotFound;
      }
      if PaysVille(paysId, villeId) in links {
        return AlreadyLinked;
      }
      links := links + {PaysVille(paysId, villeId)};
      r := Linked;
    }

    /** `DELETE /:villeId/dissocier-pays/:paysId`: the link is deleted when it exists. */
    method Dissocier(villeId: string, paysId: string) returns (r: VilleReply)
      requires Valid()
      modifies this
      ensures Valid() && villes == old(villes)
      ensures links == old(links) - {PaysVille(paysId, villeId)}
      ensures r == (if PaysVille(paysId, villeId) in old(links) then Unlinked else LinkNotFound)
    {
      if PaysVille(paysId, villeId) !in links {
        return LinkNotFound;
      }
      links := links - {PaysVille(paysId, villeId)};
      r := Unlinked;
    }

    /**
     * `DELETE /:id`: a city some university is linked to is kept;
     * otherwise the city goes, and its country links with it. `uLinks` is
     * the university-city link table the count is read from.
     */
    method Supprimer(id: string, uLinks: set<Universite.VilleUniversite>) returns (r: VilleReply)
      requires Valid()
      modifies this
      ensures Valid()
      ensures id !in old(villes) ==> r == VilleNotFound && villes == old(villes) && links == old(links)
      ensures id in old(villes) && Universite.UniversityCount(uLinks, id) > 0 ==>
        r == HasUniversities(Universite.UniversityCount(uLinks, id)) && villes == old(villes) && links == old(links)
      ensures id in old(villes) && Universite.UniversityCount(uLinks, id) == 0 ==>
        r == VilleDeleted && villes == old(villes) - {id} && links == LinksOfOthers(old(links), id)
    {
      if id !in villes {
        return VilleNotFound;
      }
      var count := Universite.UniversityCount(uLinks, id);
      if count > 0 {
        return HasUniversities(count);
      }
      villes := villes - {id};
      links := LinksOfOthers(links, id);
      r := VilleDeleted;
    }

    /** `DELETE /` with `{ids}`: nothing goes when any listed city has a university. */
    method SupprimerPlusieurs(ids: Option<seq<string>>, uLinks: set<Universite.VilleUniversite>) returns (r: VilleReply)
      requires Valid()
      modifies this
      ensures Valid()
      ensures ids.None? || ids.value == [] ==> r == BadIdList && villes == old(villes) && links == old(links)
      ensures ids.Some? && ids.value != [] ==>
        var blocked := set id | id in ids.value && id in old(villes) && Universite.UniversityCount(uLinks, id) > 0;
        var gone := set id | id in ids.value && id in old(villes);
        && (blocked != {} ==> r == SomeHaveUniversities(blocked) && villes == old(villes) && links == old(links))
        && (blocked == {} ==> r == VillesDeleted(|gone|) && villes == old(villes) - gone
                              && links == set l | l in old(links) && l.villeId !in gone)
    {
      if ids.None? || ids.value == [] {
        return BadIdList;
      }
      var blocked := set id | id in ids.value && id in villes && Universite.UniversityCount(uLinks, id) > 0;
      if blocked != {} {
        return SomeHaveUniversities(blocked);
      }
      var gone := set id | id in ids.value && id in villes;
      villes := villes - gone;
      links := set l | l in links && l.villeId !in gone;
      r := VillesDeleted(|gone|);
    }
  }
}
