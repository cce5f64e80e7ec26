/**
 * The advertising router: creation with its defaults, partial update,
 * the active/inactive toggle, lookups and deletion by id, the paginated
 * listing and the per-category listing of active advertisements, both
 * ordered by priority then recency.
 */
module Publicite {
  import opened Common
  import Utilisateur

  /** An advertisement; `cibleGeo` keeps the JSON text it was given. */
  datatype Publicite = Publicite(
    id: string,
    titre: string,
    titreEn: string,
    titreFr: string,
    description: string,
    descriptionEn: string,
    descriptionFr: string,
    urlImage: Option<string>,
    urlCible: string,
    categorie: string,
    estActif: bool,
    priorite: int,
    cibleGeo: Option<string>,
    creeA: int,
    modifieA: int)

  /** The body of `POST /creer`; `None` is a field left out. */
  datatype PubliciteForm = PubliciteForm(
    titre: Option<string>,
    titreEn: Option<string>,
    titreFr: Option<string>,
    description: Option<string>,
    descriptionEn: Option<string>,
    descriptionFr: Option<string>,
    urlImage: Option<string>,
    urlCible: Option<string>,
    categorie: Option<string>,
    estActif: Option<bool>,
    priorite: Option<int>,
    cibleGeo: Option<string>)

  predicate RequiredFilled(f: PubliciteForm)
  {
    Filled(f.titre) && Filled(f.urlCible) && Filled(f.categorie)
  }

  function Or(s: Option<string>, fallback: string): (r: string)
    ensures Filled(s) ==> r == s.value
    ensures !Filled(s) ==> r == fallback
  {
    if Filled(s) then s.value else fallback
  }

  /** `` `pub_${Date.now()}_${suffix}` ``, where the suffix is up to nine random base-36 characters. */
  function PubId(now: nat, suffix: string): (id: string)
    ensures StartsWith(id, "pub_")
  {
    "pub_" + Utilisateur.DecimalString(now) + "_" + suffix
  }

  /**
   * The row of an accepted creation at `now`: the titles default to
   * `titre`, the description to "", its translations to the description,
   * `estActif` to true and `priorite` to 0 when left out.
   */
  function NewPublicite(id: string, f: PubliciteForm, now: int): (p: Publicite)
    requires RequiredFilled(f)
    ensures p.titre == f.titre.value && p.titreEn == Or(f.titreEn, f.titre.value) && p.titreFr == Or(f.titreFr, f.titre.value)
    ensures p.description == Or(f.description, "")
    ensures p.descriptionEn == Or(f.descriptionEn, p.description) && p.descriptionFr == Or(f.descriptionFr, p.description)
    ensures p.estActif == f.estActif.GetOr(true) && p.priorite == f.priorite.GetOr(0)
    ensures p.cibleGeo.Some? <==> Filled(f.cibleGeo)
    ensures p.cibleGeo.Some? ==> p.cibleGeo == f.cibleGeo
    ensures p.id == id && p.categorie == f.categorie.value && p.urlCible == f.urlCible.value && p.urlImage == f.urlImage
    ensures p.creeA == now && p.modifieA == now
  {
    var description := Or(f.description, "");
    Publicite(id, f.titre.value, Or(f.titreEn, f.titre.value), Or(f.titreFr, f.titre.value), description,
      Or(f.descriptionEn, description), Or(f.descriptionFr, description), f.urlImage, f.urlCible.value, f.categorie.value,
      f.estActif.GetOr(true), f.priorite.GetOr(0), if Filled(f.cibleGeo) then f.cibleGeo else None, now, now)
  }

  /** The body of `PUT /modifier/:id`. */
  datatype PubliciteUpdate = PubliciteUpdate(
    titre: Option<string>,
    titreEn: Option<string>,
    titreFr: Option<string>,
    description: Option<string>,
    descriptionEn: Option<string>,
    descriptionFr: Option<string>,
    urlImage: Field<string>,
    urlCible: Option<string>,
    categorie: Option<string>,
    estActif: Option<bool>,
    priorite: Option<int>,
    cibleGeo: Field<string>)

  /**
   * The row after an update at `now`: text fields are written when truthy,
   * `urlImage`, `estActif`, `priorite` and `cibleGeo` whenever defined (so
   * false and 0 are stored), and `modifieA` always.
   */
  function Apply(p: Publicite, u: PubliciteUpdate, now: int): (q: Publicite)
    ensures q.id == p.id && q.creeA == p.creeA && q.modifieA == now
    ensures q.titre == Or(u.titre, p.titre) && q.urlCible == Or(u.urlCible, p.urlCible) && q.categorie == Or(u.categorie, p.categorie)
    ensures q.titreEn == Or(u.titreEn, p.titreEn) && q.titreFr == Or(u.titreFr, p.titreFr)
    ensures q.description == Or(u.description, p.description)
    ensures q.descriptionEn == Or(u.descriptionEn, p.descriptionEn) && q.descriptionFr == Or(u.descriptionFr, p.descriptionFr)
    ensures q.estActif == u.estActif.GetOr(p.estActif) && q.priorite == u.priorite.GetOr(p.priorite)
    ensures q.urlImage == u.urlImage.Over(p.urlImage)
    ensures u.cibleGeo.Absent? ==> q.cibleGeo == p.cibleGeo
    ensures !u.cibleGeo.Absent? ==> (q.cibleGeo.Some? <==> TextTruthy(u.cibleGeo))
    ensures TextTruthy(u.cibleGeo) ==> q.cibleGeo == Some(u.cibleGeo.value)
  {
    p.(titre := Or(u.titre, p.titre), titreEn := Or(u.titreEn, p.titreEn), titreFr := Or(u.titreFr, p.titreFr),
       description := Or(u.description, p.description), descriptionEn := Or(u.descriptionEn, p.descriptionEn),
       descriptionFr := Or(u.descriptionFr, p.descriptionFr), urlImage := u.urlImage.Over(p.urlImage),
       urlCible := Or(u.urlCible, p.urlCible), categorie := Or(u.categorie, p.categorie),
       estActif := u.estActif.GetOr(p.estActif), priorite := u.priorite.GetOr(p.priorite),
       cibleGeo := if u.cibleGeo.Absent? then p.cibleGeo else if TextTruthy(u.cibleGeo) then Some(u.cibleGeo.value) else None,
       modifieA := now)
  }

  /** An empty title never replaces the stored one, but `estActif: false` and `priorite: 0` are written. */
  lemma FalsyFlagsWritten(p: Publicite, u: PubliciteUpdate, now: int)
    requires u.titre == Some("") && u.estActif == Some(false) && u.priorite == Some(0)
    ensures Apply(p, u, now).titre == p.titre && !Apply(p, u, now).estActif && Apply(p, u, now).priorite == 0
  {
  }

  /** `PATCH /toggle/:id`: the flag flips and `modifieA` moves to `now`; nothing else changes. */
  function Toggled(p: Publicite, now: int): (q: Publicite)
    ensures q.estActif == !p.estActif && q.modifieA == now
    ensures q.(estActif := p.estActif, modifieA := p.modifieA) == p
  {
    p.(estActif := !p.estActif, modifieA := now)
  }

  /** Two toggles restore the flag. */
  lemma ToggleTwice(p: Publicite, t1: int, t2: int)
    ensures Toggled(Toggled(p, t1), t2) == p.(modifieA := t2)
  {
  }

  // ---------------------------------------------------------------------
  // Order and listings
  // ---------------------------------------------------------------------

  /** `orderBy: [{priorite: 'desc'}, {creeA: 'desc'}]`: `a` may come before `b`. */
  predicate Before(a: Publicite, b: Publicite)
  {
    a.priorite > b.priorite || (a.priorite == b.priorite && a.creeA >= b.creeA)
  }

  predicate Ordered(s: seq<Publicite>)
  {
    forall i, j | 0 <= i < j < |s| :: Before(s[i], s[j])
  }

  function Insert(x: Publicite, s: seq<Publicite>): (r: seq<Publicite>)
    requires Ordered(s)
    ensures Ordered(r) && multiset(r) == multiset(s) + multiset{x}
  {
    if s == [] then [x]
    else if Before(x, s[0]) then [x] + s
    else
      var rest := Insert(x, s[1..]);
      assert s == [s[0]] + s[1..];
      HeadBeforeRest(x, s, rest);
      [s[0]] + rest
  }

  /** When `x` does not go first, the head of `s` may come before every row of `x` inserted into its tail. */
  lemma HeadBeforeRest(x: Publicite, s: seq<Publicite>, rest: seq<Publicite>)
    requires s != [] && Ordered(s) && !Before(x, s[0])
    requires multiset(rest) == multiset(s[1..]) + multiset{x}
    ensures forall k | 0 <= k < |rest| :: Before(s[0], rest[k])
  {
    forall k | 0 <= k < |rest|
      ensures Before(s[0], rest[k])
    {
      var y := rest[k];
      assert y in multiset(rest);
      if y != x {
        assert y in multiset(s[1..]);
        var j :| 0 <= j < |s[1..]| && s[1..][j] == y;
        assert s[j + 1] == y;
      }
    }
  }

  /** The rows in listing order, ties kept in table order. */
  function Sort(s: seq<Publicite>): (r: seq<Publicite>)
    ensures Ordered(r) && multiset(r) == multiset(s)
  {
    if s == [] then []
    else
      assert s == [s[0]] + s[1..];
      Insert(s[0], Sort(s[1..]))
  }

  /** The query of `GET /lire`. */
  datatype PubliciteQuery = PubliciteQuery(
    page: Option<int>,
    limite: Option<int>,
    categorie: Option<string>,
    estActif: Option<string>,
    search: Option<string>)

  predicate Selected(p: Publicite, q: PubliciteQuery)
  {
    && (Filled(q.categorie) ==> p.categorie == q.categorie.value)
    && (q.estActif.Some? ==> p.estActif == (q.estActif.value == "true"))
  }

  function Filter(rows: seq<Publicite>, q: PubliciteQuery): (r: seq<Publicite>)
    ensures multiset(r) <= multiset(rows)
    ensures forall p :: p in r <==> p in rows && Selected(p, q)
  {
    if rows == [] then []
    else
      assert rows == [rows[0]] + rows[1..];
      (if Selected(rows[0], q) then [rows[0]] else []) + Filter(rows[1..], q)
  }

  datatype ListReply =
    | ListFailed          // 500: Prisma refuses a negative skip, or the `mode` argument of a search on MySQL
    | Listed(publicites: seq<Publicite>, page: int, limite: int, total: int, totalPages: Option<int>)

  /**
   * `GET /lire`: page 1 and 50 rows by default, in listing order. A truthy
   * `search` builds `contains` filters with `mode: 'insensitive'`, an
   * argument the MySQL connector does not have, so Prisma rejects the query.
   */
  function Lire(rows: seq<Publicite>, q: PubliciteQuery): (r: ListReply)
    ensures r.ListFailed? <==> Skip(q.page.GetOr(1), q.limite.GetOr(50)) < 0 || Filled(q.search)
    ensures r.Listed? ==>
      && r.page == q.page.GetOr(1) && r.limite == q.limite.GetOr(50)
      && r.total == |Filter(rows, q)|
      && r.publicites == PageOf(Sort(Filter(rows, q)), ListingWindow(q.page, q.limite, 50))
      && Ordered(r.publicites) && (forall p | p in r.publicites :: p in rows && Selected(p, q))
      && r.totalPages == PageCount(r.total, r.limite)
  {
    var w := ListingWindow(q.page, q.limite, 50);
    if w.skip < 0 || Filled(q.search) then ListFailed
    else
      var all := Sort(Filter(rows, q));
      SortKeeps(Filter(rows, q));
      PageOrdered(all, w);
      Listed(PageOf(all, w), w.page, w.limit, |all|, PageCount(|all|, w.limit))
  }

  /** Sorting keeps the length and the members. */
  lemma SortKeeps(s: seq<Publicite>)
    ensures |Sort(s)| == |s| && forall p :: p in Sort(s) <==> p in s
  {
    var r := Sort(s);
    assert |multiset(r)| == |multiset(s)|;
    forall p
      ensures p in r <==> p in s
    {
      assert p in r <==> p in multiset(r);
      assert p in s <==> p in multiset(s);
    }
  }

  /** A page of an ordered sequence is ordered and holds only its rows. */
  lemma PageOrdered(s: seq<Publicite>, w: Window)
    requires Ordered(s) && 0 <= w.skip
    ensures Ordered(PageOf(s, w)) && forall p | p in PageOf(s, w) :: p in s
  {
    var r := PageOf(s, w);
    var start := if w.take >= 0 then w.skip else |s| - w.skip - |r|;
    assert forall k | 0 <= k < |r| :: 0 <= start + k < |s| && r[k] == s[start + k];
    forall a, b | 0 <= a < b < |r|
      ensures Before(r[a], r[b])
    {
      assert r[a] == s[start + a] && r[b] == s[start + b];
    }
    forall p | p in r
      ensures p in s
    {
      var k :| 0 <= k < |r| && r[k] == p;
      assert s[start + k] == p;
    }
  }

  /** A slice of an ordered sequence is ordered. */
  lemma OrderedSlice(s: seq<Publicite>, i: int, j: int)
    requires Ordered(s) && 0 <= i <= j <= |s|
    ensures Ordered(s[i..j])
  {
    forall a, b | 0 <= a < b < j - i
      ensures Before(s[i..j][a], s[i..j][b])
    {
      assert s[i..j][a] == s[i + a] && s[i..j][b] == s[i + b];
    }
  }

  /** Taking from either end of an ordered sequence keeps it ordered. */
  lemma TakeOrdered(s: seq<Publicite>, n: int)
    requires Ordered(s)
    ensures Ordered(TakeOf(s, n)) && forall p | p in TakeOf(s, n) :: p in s
  {
    var r := TakeOf(s, n);
    if n >= 0 {
      assert r == s[0..|r|];
      OrderedSlice(s, 0, |r|);
    } else {
      OrderedSlice(s, |s| - |r|, |s|);
    }
  }

  /** The active advertisements of `categorie`. */
  function ActiveIn(rows: seq<Publicite>, categorie: string): (r: seq<Publicite>)
    ensures |r| <= |rows| && multiset(r) <= multiset(rows)
    ensures forall p :: p in r <==> p in rows && p.categorie == categorie && p.estActif
  {
    if rows == [] then []
    else
      assert rows == [rows[0]] + rows[1..];
      (if rows[0].categorie == categorie && rows[0].estActif then [rows[0]] else []) + ActiveIn(rows[1..], categorie)
  }

  /** `GET /actives/:categorie`: at most `limite` (10 by default) active entries of the category, in listing order. */
  function Actives(rows: seq<Publicite>, categorie: string, limite: Option<int>): (r: seq<Publicite>)
    ensures r == TakeOf(Sort(ActiveIn(rows, categorie)), limite.GetOr(10))
    ensures forall p | p in r :: p in rows && p.categorie == categorie && p.estActif
    ensures Ordered(r)
    ensures limite.GetOr(10) >= 0 ==> |r| == Min(limite.GetOr(10), |ActiveIn(rows, categorie)|)
    ensures limite.GetOr(10) >= |rows| ==> forall p | p in rows && p.categorie == categorie && p.estActif :: p in r
  {
    var all := Sort(ActiveIn(rows, categorie));
    SortKeeps(ActiveIn(rows, categorie));
    TakeOrdered(all, limite.GetOr(10));
    var r := TakeOf(all, limite.GetOr(10));
    assert limite.GetOr(10) >= |rows| ==> r == all;
    r
  }

  // ---------------------------------------------------------------------
  // The store
  // ---------------------------------------------------------------------

  datatype PubliciteReply =
    | MissingFields                 // 400 "Champs obligatoires manquants"
    | CreateFailed                  // 500: the generated id is already used
    | PubliciteNotFound             // 404 "Publicité non trouvée"
    | Found(publicite: Publicite)   // 200
    | Created(publicite: Publicite) // 201
    | Updated(publicite: Publicite) // 200
    | Deleted                       // 200

  class PubliciteStore {
    var rows: map<string, Publicite>

    ghost predicate Valid()
      reads this
    {
      forall id | id in rows :: rows[id].id == id
    }

    constructor ()
      ensures Valid() && rows == map[]
    {
      rows := map[];
    }

    /** `GET /recuperer/:id`: the stored advert, or 404 for an unknown id. */
    function Recuperer(id: string): (r: PubliciteReply)
      reads this
      requires Valid()
      ensures r.Found? || r.PubliciteNotFound?
      ensures r.PubliciteNotFound? <==> id !in rows
      ensures r.Found? ==> r.publicite.id == id && r.publicite in rows.Values
    {
      if id in rows then Found(rows[id]) else PubliciteNotFound
    }

    /** `POST /creer` at clock `now`; `suffix` is the random part of the id. */
    method Creer(f: PubliciteForm, now: nat, suffix: string) returns (r: PubliciteReply)
      requires Valid()
      modifies this
      ensures Valid()
      ensures !RequiredFilled(f) ==> r == MissingFields && rows == old(rows)
      ensures RequiredFilled(f) && PubId(now, suffix) in old(rows) ==> r == CreateFailed && rows == old(rows)
      ensures RequiredFilled(f) && PubId(now, suffix) !in old(rows) ==>
        var p := NewPublicite(PubId(now, suffix), f, now);
        r == Created(p) && rows == old(rows)[p.id := p]
    {
      if !RequiredFilled(f) {
        return MissingFields;
      }
      var id := PubId(now, suffix);
      if id in rows {
        return CreateFailed;
      }
      var p := NewPublicite(id, f, now);
      rows := rows[id := p];
      r := Created(p);
    }

    /** `PUT /modifier/:id` at clock `now`. */
    method Modifier(id: string, u: PubliciteUpdate, now: int) returns (r: PubliciteReply)
      requires Valid()
      modifies this
      ensures Valid()
      ensures id !in old(rows) ==> r == PubliciteNotFound && rows == old(rows)
      ensures id in old(rows) ==> r == Updated(Apply(old(rows)[id], u, now)) && rows == old(rows)[id := Apply(old(rows)[id], u, now)]
    {
      if id !in rows {
        return PubliciteNotFound;
      }
      var p := Apply(rows[id], u, now);
      rows := rows[id := p];
      r := Updated(p);
    }

    /** `DELETE /suprimer/:id`. */
    method Supprimer(id: string) returns (r: PubliciteReply)
      requires Valid()
      modifies this
      ensures Valid()
      ensures r == (if id in old(rows) then Deleted else PubliciteNotFound)
      ensures rows == old(rows) - {id}
    {
      if id !in rows {
        return PubliciteNotFound;
      }
      rows := rows - {id};
      r := Deleted;
    }

    /** `PATCH /toggle/:id` at clock `now`. */
    method Basculer(id: string, now: int) returns (r: PubliciteReply)
      requires Valid()
      modifies this
      ensures Valid()
      ensures id !in old(rows) ==> r == PubliciteNotFound && rows == old(rows)
      ensures id in old(rows) ==> r == Updated(Toggled(old(rows)[id], now)) && rows == old(rows)[id := Toggled(old(rows)[id], now)]
    {
      if id !in rows {
        return PubliciteNotFound;
      }
      var p := Toggled(rows[id], now);
      rows := rows[id := p];
      r := Updated(p);
    }
  }
}
