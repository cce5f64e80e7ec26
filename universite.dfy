/**
 * The university router: creation and update with the (name, country)
 * uniqueness check and the normalised search columns, the university-city
 * link table, the `/lire`, `pays1` and per-university formation listings.
 */
module Universite {
  import opened Common
  import Pays

  datatype Universite = Universite(
    id: string,
    nom: string,
    nomEn: string,
    nomFr: string,
    pays: string,
    nomNorme: string,
    paysNorme: string,
    fournisseur: string,
    siteWeb: Option<string>,
    domaine: Option<string>,
    idRor: Option<string>,
    latitude: Option<int>,
    longitude: Option<int>,
    description: Option<string>,
    descriptionEn: Option<string>,
    descriptionFr: Option<string>,
    fondee: Option<int>,
    statut: Option<string>,
    classement: Option<int>,
    typeEtablissement: Option<string>,
    dernierSync: int)

  /** A `(universiteId, villeId)` row of the `villeUniversite` table. */
  datatype VilleUniversite = VilleUniversite(universiteId: string, villeId: string)

  // ---------------------------------------------------------------------
  // Normalised names
  // ---------------------------------------------------------------------

  /** A combining diacritical mark, U+0300 to U+036F. */
  predicate IsMark(c: char)
  {
    '\U{0300}' <= c <= '\U{036F}'
  }

  /**
   * `.replace(/[̀-ͯ]/g, "")`: every mark goes and nothing else does;
   * `StripMarksKeepsCounts` and `StripMarksConcat` add that the other
   * characters keep their number and their order.
   */
  function StripMarks(s: string): (r: string)
    ensures |r| <= |s|
    ensures forall c :: c in r <==> c in s && !IsMark(c)
  {
    if s == [] then []
    else
      assert s == [s[0]] + s[1..];
      (if IsMark(s[0]) then [] else [s[0]]) + StripMarks(s[1..])
  }

  /** Each character other than a mark occurs as often after stripping as before. */
  lemma {:induction false} StripMarksKeepsCounts(s: string)
    ensures forall c :: multiset(StripMarks(s))[c] == if IsMark(c) then 0 else multiset(s)[c]
  {
    if s != [] {
      assert s == [s[0]] + s[1..];
      StripMarksKeepsCounts(s[1..]);
    }
  }

  /** Marks are removed piece by piece, so the characters kept stay in their order. */
  lemma {:induction false} StripMarksConcat(a: string, b: string)
    ensures StripMarks(a + b) == StripMarks(a) + StripMarks(b)
  {
    if a == [] {
      assert a + b == b;
    } else {
      assert (a + b)[0] == a[0] && (a + b)[1..] == a[1..] + b;
      StripMarksConcat(a[1..], b);
    }
  }

  /** The normalised form kept in `nomNorme` and `paysNorme`. */
  function Norme(s: string): (r: string)
    ensures forall c :: c in r ==> !IsMark(c) && !('A' <= c <= 'Z')
  {
    StripMarks(ToLower(s))
  }

  lemma {:induction false} StripMarksUnmarked(s: string)
    requires forall c :: c in s ==> !IsMark(c)
    ensures StripMarks(s) == s
  {
    if s != [] {
      assert s == [s[0]] + s[1..];
      StripMarksUnmarked(s[1..]);
    }
  }

  lemma ToLowerLowered(s: string)
    requires forall c :: c in s ==> !('A' <= c <= 'Z')
    ensures ToLower(s) == s
  {
    forall i | 0 <= i < |s|
      ensures ToLower(s)[i] == s[i]
    {
      assert s[i] in s;
    }
  }

  /** Normalising a normalised name changes nothing. */
  lemma NormeIdempotent(s: string)
    ensures Norme(Norme(s)) == Norme(s)
  {
    var n := Norme(s);
    ToLowerLowered(n);
    StripMarksUnmarked(n);
  }

  // ---------------------------------------------------------------------
  // Creation and update
  // ---------------------------------------------------------------------

  /** The body of `POST /creer`. */
  datatype UniversiteForm = UniversiteForm(
    nom: Option<string>,
    nomEn: Option<string>,
    nomFr: Option<string>,
    pays: Option<string>,
    fournisseur: Option<string>,
    siteWeb: Option<string>,
    domaine: Option<string>,
    idRor: Option<string>,
    latitude: Option<int>,
    longitude: Option<int>,
    description: Option<string>,
    descriptionEn: Option<string>,
    descriptionFr: Option<string>,
    fondee: Option<int>,
    statut: Option<string>,
    classement: Option<int>)

  predicate RequiredFilled(f: UniversiteForm)
  {
    Filled(f.nom) && Filled(f.nomEn) && Filled(f.nomFr) && Filled(f.pays) && Filled(f.fournisseur)
  }

  /** `if (x) data.x = x`: an optional text column set only when truthy. */
  function IfFilled(s: Option<string>): (r: Option<string>)
    ensures r.Some? <==> Filled(s)
    ensures r.Some? ==> r == s
  {
    if Filled(s) then s else None
  }

  /** The row of an accepted creation, synchronised at `now`. */
  function NewUniversite(id: string, f: UniversiteForm, now: int): (u: Universite)
    requires RequiredFilled(f)
    ensures u.id == id && u.nom == f.nom.value && u.pays == f.pays.value
    ensures u.nomNorme == Norme(u.nom) && u.paysNorme == Norme(u.pays) && u.dernierSync == now
    ensures u.siteWeb.Some? <==> Filled(f.siteWeb)
    ensures u.classement.Some? <==> NonZero(f.classement)
    ensures u.typeEtablissement.None?
  {
    Universite(id, f.nom.value, f.nomEn.value, f.nomFr.value, f.pays.value, Norme(f.nom.value), Norme(f.pays.value),
      f.fournisseur.value, IfFilled(f.siteWeb), IfFilled(f.domaine), IfFilled(f.idRor), Stored(f.latitude), Stored(f.longitude),
      IfFilled(f.description), IfFilled(f.descriptionEn), IfFilled(f.descriptionFr), Stored(f.fondee), IfFilled(f.statut),
      Stored(f.classement), None, now)
  }

  /** The body of `PUT /:id`. */
  datatype UniversiteUpdate = UniversiteUpdate(
    nom: Option<string>,
    nomEn: Option<string>,
    nomFr: Option<string>,
    pays: Option<string>,
    siteWeb: Field<string>,
    domaine: Field<string>,
    idRor: Field<string>,
    latitude: Field<int>,
    longitude: Field<int>,
    description: Field<string>,
    descriptionEn: Field<string>,
    descriptionFr: Field<string>,
    fondee: Field<int>,
    statut: Field<string>,
    classement: Field<int>)

  function TruthyOr(s: Option<string>, current: string): string
  {
    if Filled(s) then s.value else current
  }

  /**
   * The row after an update at `now`: truthy names are written (with their
   * normalised forms), other defined fields as given, and `dernierSync` is
   * always refreshed.
   */
  function Apply(cur: Universite, u: UniversiteUpdate, now: int): (v: Universite)
    ensures v.id == cur.id && v.dernierSync == now && v.typeEtablissement == cur.typeEtablissement
    ensures v.nom == TruthyOr(u.nom, cur.nom) && v.pays == TruthyOr(u.pays, cur.pays)
    ensures v.nomNorme == (if Filled(u.nom) then Norme(u.nom.value) else cur.nomNorme)
    ensures v.paysNorme == (if Filled(u.pays) then Norme(u.pays.value) else cur.paysNorme)
    ensures v.siteWeb == u.siteWeb.Over(cur.siteWeb) && v.classement == Written(u.classement, cur.classement)
    ensures v.nomEn == TruthyOr(u.nomEn, cur.nomEn) && v.nomFr == TruthyOr(u.nomFr, cur.nomFr)
    ensures v.fournisseur == cur.fournisseur
    ensures v.domaine == u.domaine.Over(cur.domaine) && v.idRor == u.idRor.Over(cur.idRor) && v.statut == u.statut.Over(cur.statut)
    ensures v.description == u.description.Over(cur.description)
    ensures v.descriptionEn == u.descriptionEn.Over(cur.descriptionEn) && v.descriptionFr == u.descriptionFr.Over(cur.descriptionFr)
    ensures NumberWrite(u.latitude, cur.latitude, v.latitude) && NumberWrite(u.longitude, cur.longitude, v.longitude)
    ensures NumberWrite(u.fondee, cur.fondee, v.fondee) && NumberWrite(u.classement, cur.classement, v.classement)
  {
    Universite(cur.id, TruthyOr(u.nom, cur.nom), TruthyOr(u.nomEn, cur.nomEn), TruthyOr(u.nomFr, cur.nomFr),
      TruthyOr(u.pays, cur.pays),
      if Filled(u.nom) then Norme(u.nom.value) else cur.nomNorme,
      if Filled(u.pays) then Norme(u.pays.value) else cur.paysNorme,
      cur.fournisseur, u.siteWeb.Over(cur.siteWeb), u.domaine.Over(cur.domaine), u.idRor.Over(cur.idRor),
      Written(u.latitude, cur.latitude), Written(u.longitude, cur.longitude),
      u.description.Over(cur.description), u.descriptionEn.Over(cur.descriptionEn), u.descriptionFr.Over(cur.descriptionFr),
      Written(u.fondee, cur.fondee), u.statut.Over(cur.statut), Written(u.classement, cur.classement),
      cur.typeEtablissement, now)
  }

  /** The rows keep their normalised columns in step with their names. */
  lemma ApplyKeepsNorme(cur: Universite, u: UniversiteUpdate, now: int)
    requires cur.nomNorme == Norme(cur.nom) && cur.paysNorme == Norme(cur.pays)
    ensures var v := Apply(cur, u, now); v.nomNorme == Norme(v.nom) && v.paysNorme == Norme(v.pays)
  {
  }

  /** Another university than `self` is called `nom` in `pays`. */
  predicate PairTaken(rows: map<string, Universite>, self: string, nom: string, pays: string)
  {
    exists id | id in rows && id != self :: rows[id].nom == nom && rows[id].pays == pays
  }

  /** No two universities share a (name, country) pair. */
  predicate PairsUnique(rows: map<string, Universite>)
  {
    forall a, b | a in rows && b in rows && a != b :: rows[a].nom != rows[b].nom || rows[a].pays != rows[b].pays
  }

  /**
   * When the update's uniqueness query runs as written: only when both a
   * name and a country are given and one of them differs.
   */
  predicate PairCheckedAsWritten(cur: Universite, u: UniversiteUpdate)
  {
    Filled(u.nom) && Filled(u.pays) && (u.nom.value != cur.nom || u.pays.value != cur.pays)
  }

  /** The (name, country) pair the row will have after the update. */
  function NewPair(cur: Universite, u: UniversiteUpdate): (p: (string, string))
    ensures p == (Apply(cur, u, 0).nom, Apply(cur, u, 0).pays)
  {
    (TruthyOr(u.nom, cur.nom), TruthyOr(u.pays, cur.pays))
  }

  /** The intended check: the pair the row ends up with is checked whenever it changes. */
  predicate PairChecked(cur: Universite, u: UniversiteUpdate)
  {
    NewPair(cur, u) != (cur.nom, cur.pays)
  }

  function Sample(id: string, nom: string, pays: string): Universite
  {
    Universite(id, nom, nom, nom, pays, nom, pays, "ror", None, None, None, None, None, None, None, None,
      None, None, None, None, 0)
  }

  /**
   * As written, renaming a university to the name of another one in the
   * same country without resending the country skips the check and leaves
   * two rows with the same pair.
   */
  lemma OnlyNomSkipsCheckAsWritten()
    ensures var a := Sample("a", "X", "P");
            var b := Sample("b", "Y", "P");
            var u := UniversiteUpdate(Some("X"), None, None, None, Absent, Absent, Absent, Absent, Absent, Absent,
                                      Absent, Absent, Absent, Absent, Absent);
            var rows := map["a" := a, "b" := b];
            && PairsUnique(rows) && !PairCheckedAsWritten(b, u) && !PairsUnique(rows["b" := Apply(b, u, 1)])
  {
    var a := Sample("a", "X", "P");
    var b := Sample("b", "Y", "P");
    var u := UniversiteUpdate(Some("X"), None, None, None, Absent, Absent, Absent, Absent, Absent, Absent,
                              Absent, Absent, Absent, Absent, Absent);
    var after := map["a" := a, "b" := b]["b" := Apply(b, u, 1)];
    assert after["a"].nom == after["b"].nom && after["a"].pays == after["b"].pays;
  }

  /** Whenever the check runs as written, the intended check runs too. */
  lemma PairCheckedWidens(cur: Universite, u: UniversiteUpdate)
    ensures PairCheckedAsWritten(cur, u) ==> PairChecked(cur, u)
  {
  }

  /** An update that passed the intended check keeps the pairs unique. */
  lemma PairCheckKeepsUnique(rows: map<string, Universite>, id: string, u: UniversiteUpdate, now: int)
    requires PairsUnique(rows) && id in rows && (forall k | k in rows :: rows[k].id == k)
    requires PairChecked(rows[id], u) ==> !PairTaken(rows, id, NewPair(rows[id], u).0, NewPair(rows[id], u).1)
    ensures PairsUnique(rows[id := Apply(rows[id], u, now)])
  {
    var after := rows[id := Apply(rows[id], u, now)];
    forall a, b | a in after && b in after && a != b
      ensures after[a].nom != after[b].nom || after[a].pays != after[b].pays
    {
      if a == id || b == id {
        var other := if a == id then b else a;
        if !PairChecked(rows[id], u) {
          assert (after[id].nom, after[id].pays) == (rows[id].nom, rows[id].pays);
        } else {
          assert !(rows[other].nom == NewPair(rows[id], u).0 && rows[other].pays == NewPair(rows[id], u).1);
        }
      }
    }
  }

  // ---------------------------------------------------------------------
  // Listings
  // ---------------------------------------------------------------------

  /** The query of `GET /lire`. */
  datatype UniversiteQuery = UniversiteQuery(
    page: Option<int>,
    limit: Option<int>,
    pays: Option<string>,
    domaine: Option<string>,
    fournisseur: Option<string>,
    classementMin: Option<int>,
    classementMax: Option<int>)

  predicate Selected(u: Universite, q: UniversiteQuery)
  {
    && (Filled(q.pays) ==> Includes(u.pays, q.pays.value))
    && (Filled(q.domaine) ==> u.domaine.Some? && Includes(u.domaine.value, q.domaine.value))
    && (Filled(q.fournisseur) ==> u.fournisseur == q.fournisseur.value)
    && (q.classementMin.Some? ==> u.classement.Some? && u.classement.value >= q.classementMin.value)
    && (q.classementMax.Some? ==> u.classement.Some? && u.classement.value <= q.classementMax.value)
  }

  function Filter<T(!new)>(rows: seq<T>, keep: T -> bool): (r: seq<T>)
    ensures |r| <= |rows|
    ensures forall x :: x in r <==> x in rows && keep(x)
  {
    if rows == [] then []
    else
      assert rows == [rows[0]] + rows[1..];
      (if keep(rows[0]) then [rows[0]] else []) + Filter(rows[1..], keep)
  }

  datatype ListReply =
    | ListFailed                  // 500: Prisma refuses a negative skip
    | Listed(universites: seq<Universite>, total: int, page: int, limit: int, pages: Option<int>)

  /** `GET /lire` over the table in its listing order: page 1 and 20 rows by default. */
  function Lire(rows: seq<Universite>, q: UniversiteQuery): (r: ListReply)
    ensures r.ListFailed? <==> Skip(q.page.GetOr(1), q.limit.GetOr(20)) < 0
    ensures r.Listed? ==>
      && r.page == q.page.GetOr(1) && r.limit == q.limit.GetOr(20)
      && r.total == |Filter(rows, u => Selected(u, q))|
      && r.universites == PageOf(Filter(rows, u => Selected(u, q)), ListingWindow(q.page, q.limit, 20))
      && r.pages == PageCount(r.total, r.limit)
      && forall u | u in r.universites :: u in rows && Selected(u, q)
  {
    var w := ListingWindow(q.page, q.limit, 20);
    if w.skip < 0 then ListFailed
    else
      var all := Filter(rows, u => Selected(u, q));
      var page := PageOf(all, w);
      assert forall u | u in page :: u in all;
      Listed(page, |all|, w.page, w.limit, PageCount(|all|, w.limit))
  }

  const HexDigitChars := "0123456789abcdefABCDEF"

  /** The groups of 8, 4, 4, 4 and 12 hex digits of `/^[0-9a-f]{8}-…-[0-9a-f]{12}$/i`. */
  predicate IsUuid(s: string)
  {
    && |s| == 36
    && (forall i | 0 <= i < 36 :: (s[i] == '-') == (i in {8, 13, 18, 23}))
    && (forall i | 0 <= i < 36 && i !in {8, 13, 18, 23} :: s[i] in HexDigitChars)
  }

  lemma SampleUuid()
    ensures IsUuid("123e4567-E89B-12d3-a456-426614174000")
    ensures !IsUuid("France")
  {
  }

  /** The query of `GET /pays1/:paysId`. */
  datatype Pays1Query = Pays1Query(
    paysId: string,
    typeEtablissement: Option<string>,
    villeId: Option<string>,
    formationId: Option<string>,
    limit: Option<int>)

  /** The institution type filters only when it is "public" or "prive". */
  function TypeFilter(t: Option<string>): (r: Option<string>)
    ensures r.Some? <==> t == Some("public") || t == Some("prive")
    ensures r.Some? ==> r == t
  {
    if Filled(t) && t.value in ["public", "prive"] then t else None
  }

  /**
   * The country name the universities are selected by: a UUID-shaped
   * `paysId` names a row of the countries table (`None`: 404), anything
   * else is itself the name.
   */
  function CountryName(pays: map<string, Pays.Pays>, paysId: string): (r: Option<string>)
    ensures !IsUuid(paysId) ==> r == Some(paysId)
    ensures IsUuid(paysId) ==> (r.Some? <==> paysId in pays) && (r.Some? ==> r.value == pays[paysId].nom)
  {
    if IsUuid(paysId) then (if paysId in pays then Some(pays[paysId].nom) else None) else Some(paysId)
  }

  /** The `where` of `pays1` for one university, given the type filter that applies. */
  predicate Pays1Selected(u: Universite, country: string, villeLinks: set<VilleUniversite>, formationLinks: set<(string, string)>,
                          typ: Option<string>, villeId: Option<string>, formationId: Option<string>)
  {
    && u.pays == country
    && (typ.Some? ==> u.typeEtablissement == typ)
    && (Filled(villeId) ==> VilleUniversite(u.id, villeId.value) in villeLinks)
    && (Filled(formationId) ==> (u.id, formationId.value) in formationLinks)
  }

  function Pays1Filter(rows: seq<Universite>, country: string, villeLinks: set<VilleUniversite>, formationLinks: set<(string, string)>,
                       typ: Option<string>, villeId: Option<string>, formationId: Option<string>): (r: seq<Universite>)
    ensures |r| <= |rows|
    ensures forall u :: u in r <==> u in rows && Pays1Selected(u, country, villeLinks, formationLinks, typ, villeId, formationId)
  {
    if rows == [] then []
    else
      assert rows == [rows[0]] + rows[1..];
      (if Pays1Selected(rows[0], country, villeLinks, formationLinks, typ, villeId, formationId) then [rows[0]] else [])
      + Pays1Filter(rows[1..], country, villeLinks, formationLinks, typ, villeId, formationId)
  }

  datatype Pays1Reply = CountryNotFound | Pays1Listed(universites: seq<Universite>)

  /** `GET /pays1/:paysId` over the table in its listing order, 50 rows by default. */
  function Pays1(rows: seq<Universite>, pays: map<string, Pays.Pays>, villeLinks: set<VilleUniversite>,
                 formationLinks: set<(string, string)>, q: Pays1Query): (r: Pays1Reply)
    ensures r.CountryNotFound? <==> IsUuid(q.paysId) && q.paysId !in pays
    ensures r.Pays1Listed? ==>
      var all := Pays1Filter(rows, CountryName(pays, q.paysId).value, villeLinks, formationLinks, TypeFilter(q.typeEtablissement), q.villeId, q.formationId);
      && r.universites == TakeOf(all, q.limit.GetOr(50))
      && (q.limit.GetOr(50) >= 0 ==> |r.universites| <= q.limit.GetOr(50))
      && (forall u | u in r.universites :: u in rows
            && Pays1Selected(u, CountryName(pays, q.paysId).value, villeLinks, formationLinks, TypeFilter(q.typeEtablissement), q.villeId, q.formationId))
      && (q.limit.GetOr(50) >= |rows| ==>
            forall u | u in rows
              && Pays1Selected(u, CountryName(pays, q.paysId).value, villeLinks, formationLinks, TypeFilter(q.typeEtablissement), q.villeId, q.formationId)
              :: u in r.universites)
  {
    var country := CountryName(pays, q.paysId);
    if country.None? then CountryNotFound
    else
      var all := Pays1Filter(rows, country.value, villeLinks, formationLinks, TypeFilter(q.typeEtablissement), q.villeId, q.formationId);
      var shown := TakeOf(all, q.limit.GetOr(50));
      assert forall u | u in shown :: u in all;
      assert q.limit.GetOr(50) >= |rows| ==> shown == all;
      Pays1Listed(shown)
  }

  /** An unknown type of institution does not narrow the listing. */
  lemma UnknownTypeIgnored(rows: seq<Universite>, pays: map<string, Pays.Pays>, villeLinks: set<VilleUniversite>,
                           formationLinks: set<(string, string)>, q: Pays1Query)
    requires q.typeEtablissement.Some? && q.typeEtablissement.value !in ["public", "prive"]
    ensures Pays1(rows, pays, villeLinks, formationLinks, q) == Pays1(rows, pays, villeLinks, formationLinks, q.(typeEtablissement := None))
  {
  }

  // ---------------------------------------------------------------------
  // `GET /:id/formations`
  // ---------------------------------------------------------------------

  /** A programme offered by the university, with the columns the statistics read. */
  datatype Offer = Offer(formationId: string, niveau: Option<string>, domaine: Option<string>)

  /** `hasLike`: a user id was given and that user has the programme among their favourites. */
  predicate HasLike(userId: Option<int>, favoris: set<(int, string)>, formationId: string)
  {
    userId.Some? && (userId.value, formationId) in favoris
  }

  /** `formationsAimees`: the number of listed programmes whose `hasLike` is true. */
  function LikedCount(offers: seq<Offer>, userId: Option<int>, favoris: set<(int, string)>): (n: nat)
    ensures n == |set k | 0 <= k < |offers| && HasLike(userId, favoris, offers[k].formationId)|
    ensures n <= |offers|
    ensures userId.None? ==> n == 0
  {
    if offers == [] then 0
    else
      var init := offers[..|offers| - 1];
      var last := offers[|offers| - 1];
      LikedIndicesSnoc(offers, userId, favoris);
      LikedCount(init, userId, favoris) + (if HasLike(userId, favoris, last.formationId) then 1 else 0)
  }

  /** The liked indices of a list are those of all but its last entry, plus the last one when it is liked. */
  lemma LikedIndicesSnoc(offers: seq<Offer>, userId: Option<int>, favoris: set<(int, string)>)
    requires offers != []
    ensures var init := offers[..|offers| - 1];
      var liked := set k | 0 <= k < |offers| && HasLike(userId, favoris, offers[k].formationId);
      var before := set k | 0 <= k < |init| && HasLike(userId, favoris, init[k].formationId);
      if HasLike(userId, favoris, offers[|init|].formationId)
      then liked == before + {|init|} && |init| !in before
      else liked == before
  {
    var init := offers[..|offers| - 1];
    var liked := set k | 0 <= k < |offers| && HasLike(userId, favoris, offers[k].formationId);
    var before := set k | 0 <= k < |init| && HasLike(userId, favoris, init[k].formationId);
    forall k | 0 <= k < |init|
      ensures k in liked <==> k in before
    {
      assert offers[k] == init[k];
    }
  }

  /** `[...new Set(values.filter(Boolean))]`: the distinct non-empty values in order of first occurrence. */
  function DistinctValues(values: seq<Option<string>>): (r: seq<string>)
    ensures Distinct(r)
    ensures forall v :: v in r <==> v != "" && Some(v) in values
  {
    if values == [] then []
    else
      var init := values[..|values| - 1];
      var last := values[|values| - 1];
      assert values == init + [last];
      var d := DistinctValues(init);
      if last.Some? && last.value != "" && last.value !in d then d + [last.value] else d
  }

  /** Later rows never reorder or remove the values already seen. */
  lemma {:induction false} DistinctValuesPrefix(xs: seq<Option<string>>, ys: seq<Option<string>>)
    ensures DistinctValues(xs) <= DistinctValues(xs + ys)
    decreases |ys|
  {
    if ys == [] {
      assert xs + ys == xs;
    } else {
      var init := ys[..|ys| - 1];
      DistinctValuesPrefix(xs, init);
      assert (xs + ys)[..|xs + ys| - 1] == xs + init;
    }
  }

  function Levels(offers: seq<Offer>): (r: seq<Option<string>>)
    ensures |r| == |offers| && forall k | 0 <= k < |r| :: r[k] == offers[k].niveau
  {
    seq(|offers|, k requires 0 <= k < |offers| => offers[k].niveau)
  }

  function Domains(offers: seq<Offer>): (r: seq<Option<string>>)
    ensures |r| == |offers| && forall k | 0 <= k < |r| :: r[k] == offers[k].domaine
  {
    seq(|offers|, k requires 0 <= k < |offers| => offers[k].domaine)
  }

  datatype FormationStats = FormationStats(totalFormations: int, formationsAimees: int,
                                           niveauxDisponibles: seq<string>, domainesDisponibles: seq<string>)

  /** The `stats` of the reply, over the programmes listed. */
  function Stats(offers: seq<Offer>, userId: Option<int>, favoris: set<(int, string)>): (s: FormationStats)
    ensures s.totalFormations == |offers| && 0 <= s.formationsAimees <= |offers|
    ensures s.formationsAimees == |set k | 0 <= k < |offers| && HasLike(userId, favoris, offers[k].formationId)|
    ensures userId.None? ==> s.formationsAimees == 0
    ensures forall v :: v in s.niveauxDisponibles <==> v != "" && exists k | 0 <= k < |offers| :: offers[k].niveau == Some(v)
    ensures forall v :: v in s.domainesDisponibles <==> v != "" && exists k | 0 <= k < |offers| :: offers[k].domaine == Some(v)
    ensures Distinct(s.niveauxDisponibles) && Distinct(s.domainesDisponibles)
  {
    var levels := DistinctValues(Levels(offers));
    assert forall v :: Some(v) in Levels(offers) <==> exists k | 0 <= k < |offers| :: offers[k].niveau == Some(v) by {
      forall v | Some(v) in Levels(offers)
        ensures exists k | 0 <= k < |offers| :: offers[k].niveau == Some(v)
      {
        var k :| 0 <= k < |Levels(offers)| && Levels(offers)[k] == Some(v);
      }
    }
    assert forall v :: Some(v) in Domains(offers) <==> exists k | 0 <= k < |offers| :: offers[k].domaine == Some(v) by {
      forall v | Some(v) in Domains(offers)
        ensures exists k | 0 <= k < |offers| :: offers[k].domaine == Some(v)
      {
        var k :| 0 <= k < |Domains(offers)| && Domains(offers)[k] == Some(v);
      }
    }
    FormationStats(|offers|, LikedCount(offers, userId, favoris), levels, DistinctValues(Domains(offers)))
  }

  // ---------------------------------------------------------------------
  // The store
  // ---------------------------------------------------------------------

  datatype UniversiteReply =
    | MissingFields                 // 400 "Les champs nom, nomEn, nomFr, pays et fournisseur sont obligatoires."
    | PairExists                    // 400 "… avec ce nom existe déjà dans ce pays."
    | UniversiteNotFound            // 404
    | UniversiteCreated(universite: Universite)   // 201
    | UniversiteUpdated(universite: Universite)   // 200
    | UniversiteDeleted             // 200
    | BadIdList                     // 400 "Une liste d'IDs valide est requise."
    | UniversitesDeleted(count: int)   // 200
    | AlreadyLinked                 // 400 "Cette association université-ville existe déjà."
    | Linked                        // 201
    | LinkTargetMissing             // 500: the database refuses a link to a missing row
    | LinkNotFound                  // 404 "Association université-ville non trouvée."
    | Unlinked                      // 200

  /** Rows sit under their own id, no two share a (name, country) pair, and the normalised columns follow the names. */
  ghost predicate RowsValid(rows: map<string, Universite>)
  {
    && (forall id | id in rows :: rows[id].id == id)
    && PairsUnique(rows)
    && (forall id | id in rows :: rows[id].nomNorme == Norme(rows[id].nom) && rows[id].paysNorme == Norme(rows[id].pays))
  }

  /** A new row with a fresh id, a free pair and normalised columns keeps the table valid. */
  lemma InsertKeepsRowsValid(rows: map<string, Universite>, u: Universite)
    requires RowsValid(rows) && u.id !in rows && !PairTaken(rows, u.id, u.nom, u.pays)
    requires u.nomNorme == Norme(u.nom) && u.paysNorme == Norme(u.pays)
    ensures RowsValid(rows[u.id := u])
  {
    var after := rows[u.id := u];
    forall a, b | a in after && b in after && a != b
      ensures after[a].nom != after[b].nom || after[a].pays != after[b].pays
    {
      if a == u.id {
        assert b in rows && b != u.id;
      } else if b == u.id {
        assert a in rows && a != u.id;
      }
    }
    forall k | k in after
      ensures after[k].id == k && after[k].nomNorme == Norme(after[k].nom) && after[k].paysNorme == Norme(after[k].pays)
    {
      if k != u.id {
        assert after[k] == rows[k];
      }
    }
  }

  /** An update that passes the corrected pair check keeps the table valid. */
  lemma UpdateKeepsRowsValid(rows: map<string, Universite>, id: string, u: UniversiteUpdate, now: int)
    requires RowsValid(rows) && id in rows
    requires PairChecked(rows[id], u) ==> !PairTaken(rows, id, NewPair(rows[id], u).0, NewPair(rows[id], u).1)
    ensures RowsValid(rows[id := Apply(rows[id], u, now)])
  {
    var after := rows[id := Apply(rows[id], u, now)];
    PairCheckKeepsUnique(rows, id, u, now);
    ApplyKeepsNorme(rows[id], u, now);
    forall k | k in after
      ensures after[k].id == k && after[k].nomNorme == Norme(after[k].nom) && after[k].paysNorme == Norme(after[k].pays)
    {
      if k != id {
        assert after[k] == rows[k];
      }
    }
  }

  class UniversiteStore {
    var universites: map<string, Universite>
    var villeLinks: set<VilleUniversite>

    /**
     * Rows sit under their own id, no two share a (name, country) pair,
     * the normalised columns follow the names, and every link names a
     * stored university.
     */
    ghost predicate Valid()
      reads this
    {
      && RowsValid(universites)
      && (forall l | l in villeLinks :: l.universiteId in universites)
    }

    constructor ()
      ensures Valid() && universites == map[] && villeLinks == {}
    {
      universites := map[];
      villeLinks := {};
    }

    /** `POST /creer` at clock `now`; `newId` is the id the database generates. */
    method Creer(newId: string, f: UniversiteForm, now: int) returns (r: UniversiteReply)
      requires Valid() && newId !in universites
      modifies this
      ensures Valid() && villeLinks == old(villeLinks)
      ensures !RequiredFilled(f) ==> r == MissingFields && universites == old(universites)
      ensures RequiredFilled(f) && PairTaken(old(universites), newId, f.nom.value, f.pays.value) ==>
        r == PairExists && universites == old(universites)
      ensures RequiredFilled(f) && !PairTaken(old(universites), newId, f.nom.value, f.pays.value) ==>
        r == UniversiteCreated(NewUniversite(newId, f, now)) && universites == old(universites)[newId := NewUniversite(newId, f, now)]
    {
      if !RequiredFilled(f) {
        return MissingFields;
      }
      if PairTaken(universites, newId, f.nom.value, f.pays.value) {
        return PairExists;
      }
      var u := NewUniversite(newId, f, now);
      InsertKeepsRowsValid(universites, u);
      universites := universites[newId := u];
      r := UniversiteCreated(u);
    }

    /** `PUT /:id` at clock `now`, with the intended (name, country) check. */
    method Modifier(id: string, u: UniversiteUpdate, now: int) returns (r: UniversiteReply)
      requires Valid()
      modifies this
      ensures Valid() && villeLinks == old(villeLinks)
      ensures id !in old(universites) ==> r == UniversiteNotFound && universites == old(universites)
      ensures id in old(universites) && PairChecked(old(universites)[id], u)
              && PairTaken(old(universites), id, NewPair(old(universites)[id], u).0, NewPair(old(universites)[id], u).1) ==>
        r == PairExists && universites == old(universites)
      ensures r.UniversiteUpdated? ==>
        id in old(universites) && r.universite == Apply(old(universites)[id], u, now)
        && universites == old(universites)[id := r.universite]
      ensures id in old(universites)
              && !(PairChecked(old(universites)[id], u)
                   && PairTaken(old(universites), id, NewPair(old(universites)[id], u).0, NewPair(old(universites)[id], u).1)) ==>
        r.UniversiteUpdated?
      ensures !r.UniversiteUpdated? ==> universites == old(universites)
    {
      if id !in universites {
        return UniversiteNotFound;
      }
      var cur := universites[id];
      var pair := NewPair(cur, u);
      if PairChecked(cur, u) && PairTaken(universites, id, pair.0, pair.1) {
        return PairExists;
      }
      UpdateKeepsRowsValid(universites, id, u, now);
      var v := Apply(cur, u, now);
      universites := universites[id := v];
      r := UniversiteUpdated(v);
    }

    /** `DELETE /:id`: the university goes, and its city links with it. */
    method Supprimer(id: string) returns (r: UniversiteReply)
      requires Valid()
      modifies this
      ensures Valid()
      ensures id !in old(universites) ==> r == UniversiteNotFound && universites == old(universites) && villeLinks == old(villeLinks)
      ensures id in old(universites) ==>
        r == UniversiteDeleted && universites == old(universites) - {id}
        && villeLinks == set l | l in old(villeLinks) && l.universiteId != id
    {
      if id !in universites {
        return UniversiteNotFound;
      }
      universites := universites - {id};
      villeLinks := set l | l in villeLinks && l.universiteId != id;
      r := UniversiteDeleted;
    }

    /** `DELETE /` with `{ids}`: every listed university goes, counted once. */
    method SupprimerPlusieurs(ids: Option<seq<string>>) returns (r: UniversiteReply)
      requires Valid()
      modifies this
      ensures Valid()
      ensures ids.None? || ids.value == [] ==> r == BadIdList && universites == old(universites) && villeLinks == old(villeLinks)
      ensures ids.Some? && ids.value != [] ==>
        var gone := set id | id in ids.value && id in old(universites);
        && r == UniversitesDeleted(|gone|) && universites == old(universites) - gone
        && villeLinks == set l | l in old(villeLinks) && l.universiteId !in gone
    {
      if ids.None? || ids.value == [] {
        return BadIdList;
      }
      var gone := set id | id in ids.value && id in universites;
      universites := universites - gone;
      villeLinks := set l | l in villeLinks && l.universiteId !in gone;
      r := UniversitesDeleted(|gone|);
    }

    /**
     * `POST /:universiteId/ville/:villeId`: a pair already linked is
     * refused; the link must name a stored university and one of `villes`.
     */
    method AssocierVille(universiteId: string, villeId: string, villes: set<string>) returns (r: UniversiteReply)
      requires Valid()
      modifies this
      ensures Valid() && universites == old(universites)
      ensures VilleUniversite(universiteId, villeId) in old(villeLinks) ==> r == AlreadyLinked && villeLinks == old(villeLinks)
      ensures VilleUniversite(universiteId, villeId) !in old(villeLinks) ==>
        if universiteId in universites && villeId in villes
        then r == Linked && villeLinks == old(villeLinks) + {VilleUniversite(universiteId, villeId)}
        else r == LinkTargetMissing && villeLinks == old(villeLinks)
    {
      var link := VilleUniversite(universiteId, villeId);
      if link in villeLinks {
        return AlreadyLinked;
      }
      if universiteId !in universites || villeId !in villes {
        return LinkTargetMissing;
      }
      villeLinks := villeLinks + {link};
      r := Linked;
    }

    /** `DELETE /:universiteId/ville/:villeId`. */
    method DissocierVille(universiteId: string, villeId: string) returns (r: UniversiteReply)
      requires Valid()
      modifies this
      ensures Valid() && universites == old(universites)
      ensures villeLinks == old(villeLinks) - {VilleUniversite(universiteId, villeId)}
      ensures r == (if VilleUniversite(universiteId, villeId) in old(villeLinks) then Unlinked else LinkNotFound)
    {
      var link := VilleUniversite(universiteId, villeId);
      if link !in villeLinks {
        return LinkNotFound;
      }
      villeLinks := villeLinks - {link};
      r := Unlinked;
    }
  }

  /**
   * How many universities are linked to city `villeId`: the
   * `_count.villeUniversites` the city's delete guard reads.
   */
  function UniversityCount(villeLinks: set<VilleUniversite>, villeId: string): (n: nat)
    ensures n == 0 <==> forall l | l in villeLinks :: l.villeId != villeId
  {
    var s := set l | l in villeLinks && l.villeId == villeId;
    assert (exists l | l in villeLinks :: l.villeId == villeId) ==> s != {} by {
      if exists l | l in villeLinks :: l.villeId == villeId {
        var l :| l in villeLinks && l.villeId == villeId;
        assert l in s;
      }
    }
    |s|
  }
}
