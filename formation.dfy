/**
 * The formation (study programme) router: creation and update with their
 * name-uniqueness checks, the formation–university association, the
 * one-to-one detail record, the like/unlike favourites, the listing window
 * and the per-level and per-domain counts of a user's favourites.
 */
module Formation {
  import opened Common

  /** The descriptive columns a request may set besides the three names. */
  const DescriptiveColumns: seq<string> := ["niveau", "domaine", "duree", "diplome", "langueEnseignement",
    "coutAnnuel", "description", "descriptionEn", "descriptionFr", "prerequis", "debouches"]

  /** A formation row; `columns` holds the non-null descriptive columns by name. */
  datatype Formation = Formation(id: string, nom: string, nomEn: string, nomFr: string, columns: map<string, string>)

  function Lookup(m: map<string, string>, k: string): Option<string>
  {
    if k in m then Some(m[k]) else None
  }

  /** A body field by name; a name the body does not carry is `undefined`. */
  function FieldOf(body: map<string, Field<string>>, k: string): Field<string>
  {
    if k in body then body[k] else Absent
  }

  /** One row of `universiteFormation`, keyed by (universiteId, formationId). */
  datatype Association = Association(
    capacite: Option<int>,
    fraisInscription: Option<string>,
    dateDebut: Option<string>,
    dateFin: Option<string>,
    langueEnseignement: Option<string>)

  /** The body of the association routes. */
  datatype AssociationForm = AssociationForm(
    capacite: Field<int>,
    fraisInscription: Field<string>,
    dateDebut: Field<string>,
    dateFin: Field<string>,
    langueEnseignement: Field<string>)

  /** The `detailFormation` row of a formation. */
  datatype Detail = Detail(
    contenuFr: Option<string>,
    contenuEn: Option<string>,
    lienFr: Option<string>,
    lienEn: Option<string>,
    videoFr: Option<string>,
    videoEn: Option<string>)

  datatype DetailForm = DetailForm(
    contenuFr: Field<string>,
    contenuEn: Field<string>,
    lienFr: Field<string>,
    lienEn: Field<string>,
    videoFr: Field<string>,
    videoEn: Field<string>)

  /** A truthy text field, or nothing: `if (x) data.x = x` on creation. */
  function IfTruthy(f: Field<string>): (r: Option<string>)
    ensures r.Some? <==> TextTruthy(f)
    ensures r.Some? ==> r.value == f.value
  {
    if TextTruthy(f) then Some(f.value) else None
  }

  /** `if (x !== undefined) data.x = x ? convert(x) : null`: a falsy value clears the column. */
  function TruthyOver<T>(f: Field<T>, truthy: bool, current: Option<T>): (r: Option<T>)
    ensures f.Absent? ==> r == current
    ensures !f.Absent? ==> (r.Some? <==> f.Given? && truthy) && (r.Some? ==> r.value == f.value)
  {
    if f.Absent? then current else if f.Given? && truthy then Some(f.value) else None
  }

  // ---------------------------------------------------------------------
  // Likes
  // ---------------------------------------------------------------------

  datatype LikeAction = Like | Unlike

  /** `action` must be exactly "like" or "unlike". */
  function ParseAction(action: Option<string>): (r: Option<LikeAction>)
    ensures r == Some(Like) <==> action == Some("like")
    ensures r == Some(Unlike) <==> action == Some("unlike")
  {
    if action == Some("like") then Some(Like)
    else if action == Some("unlike") then Some(Unlike)
    else None
  }

  /** The favourites table after an action on one (user, formation) pair. */
  function LikeEffect(favoris: set<(int, string)>, pair: (int, string), action: LikeAction): (r: set<(int, string)>)
    ensures action == Like ==> pair in r
    ensures action == Unlike ==> pair !in r
    ensures forall q :: q != pair ==> (q in r <==> q in favoris)
  {
    if action == Like then favoris + {pair} else favoris - {pair}
  }

  /** Repeating an action changes nothing more. */
  lemma LikeIdempotent(favoris: set<(int, string)>, pair: (int, string), action: LikeAction)
    ensures LikeEffect(LikeEffect(favoris, pair, action), pair, action) == LikeEffect(favoris, pair, action)
  {
  }

  /** Liking then unliking a formation that was not a favourite restores the table, and the other way round. */
  lemma LikeUnlikeRestores(favoris: set<(int, string)>, pair: (int, string))
    ensures pair !in favoris ==> LikeEffect(LikeEffect(favoris, pair, Like), pair, Unlike) == favoris
    ensures pair in favoris ==> LikeEffect(LikeEffect(favoris, pair, Unlike), pair, Like) == favoris
  {
  }

  /** The status of a Prisma error caught by the like route: P2002 (duplicate key) and P2025 (missing record). */
  function PrismaErrorStatus(code: string): (status: int)
    ensures status == 400 <==> code == "P2002"
    ensures status == 404 <==> code == "P2025"
    ensures status in {400, 404, 500}
  {
    if code == "P2002" then 400 else if code == "P2025" then 404 else 500
  }

  datatype LikeReply =
    | LikeUserMissing         // 400 "L'ID utilisateur est requis."
    | LikeBadAction           // 400
    | LikeFormationNotFound   // 404
    | LikeUserNotFound        // 404
    | AlreadyLiked            // 200, `alreadyLiked: true`
    | Liked                   // 201
    | WasNotLiked             // 200, `wasNotLiked: true`
    | Unliked                 // 200
    | LikeStoreError(status: int)   // the write threw: 400, 404 or 500

  function LikeStatus(r: LikeReply): int
  {
    match r
    case LikeUserMissing => 400
    case LikeBadAction => 400
    case LikeFormationNotFound => 404
    case LikeUserNotFound => 404
    case AlreadyLiked => 200
    case Liked => 201
    case WasNotLiked => 200
    case Unliked => 200
    case LikeStoreError(s) => s
  }

  // ---------------------------------------------------------------------
  // Names
  // ---------------------------------------------------------------------

  /** `findFirst({ OR: [{nom}, {nomEn}, {nomFr}] })`: some formation shares one of the three names. */
  predicate NameTaken(rows: map<string, Formation>, nom: string, nomEn: string, nomFr: string)
  {
    exists id | id in rows :: rows[id].nom == nom || rows[id].nomEn == nomEn || rows[id].nomFr == nomFr
  }

  /**
   * The update's check: another formation already carries one of the names
   * the request changes. Names that are falsy or unchanged drop out of the
   * `OR`, and an empty `OR` matches no row.
   */
  predicate RenameClash(rows: map<string, Formation>, id: string, cur: Formation,
                        nom: Option<string>, nomEn: Option<string>, nomFr: Option<string>)
  {
    exists other | other in rows && other != id ::
      || (Filled(nom) && nom.value != cur.nom && rows[other].nom == nom.value)
      || (Filled(nomEn) && nomEn.value != cur.nomEn && rows[other].nomEn == nomEn.value)
      || (Filled(nomFr) && nomFr.value != cur.nomFr && rows[other].nomFr == nomFr.value)
  }

  /** Sending a formation's own names back never clashes, whatever other formations are called. */
  lemma KeepingNamesNeverClashes(rows: map<string, Formation>, id: string, cur: Formation)
    ensures !RenameClash(rows, id, cur, Some(cur.nom), Some(cur.nomEn), Some(cur.nomFr))
    ensures !RenameClash(rows, id, cur, None, None, None)
  {
  }

  /** The descriptive columns after an update: each column the body carries is set, or cleared by `null`. */
  ghost predicate ColumnsUpdated(before: map<string, string>, body: map<string, Field<string>>, after: map<string, string>)
  {
    forall k :: Lookup(after, k) == (if k in DescriptiveColumns then FieldOf(body, k).Over(Lookup(before, k)) else Lookup(before, k))
  }

  // ---------------------------------------------------------------------
  // The store
  // ---------------------------------------------------------------------

  datatype CreateReply = CreateMissingNames | CreateNameTaken | Created(formation: Formation)
  datatype UpdateReply = UpdateNotFound | UpdateNameTaken | Updated(formation: Formation)
  datatype AssociationReply = AssociationExists | AssociationNotFound | AssociationCreated(a: Association)
                            | AssociationUpdated(a: Association) | AssociationDeleted
  datatype DetailReply = DetailContentMissing | DetailFormationNotFound | DetailNotFound
                       | DetailCreated(d: Detail) | DetailUpdated(d: Detail) | DetailDeleted

  function CreateStatus(r: CreateReply): int
  {
    match r
    case CreateMissingNames => 400
    case CreateNameTaken => 400
    case Created(_) => 201
  }

  function AssociationStatus(r: AssociationReply): int
  {
    match r
    case AssociationExists => 400
    case AssociationNotFound => 404
    case AssociationCreated(_) => 201
    case AssociationUpdated(_) => 200
    case AssociationDeleted => 200
  }

  /** `POST /creer/:id/details` answers 201 whether it created or updated the detail. */
  function DetailStatus(r: DetailReply): int
  {
    match r
    case DetailContentMissing => 400
    case DetailFormationNotFound => 404
    case DetailNotFound => 404
    case DetailCreated(_) => 201
    case DetailUpdated(_) => 201
    case DetailDeleted => 200
  }

  class FormationStore {
    var formations: map<string, Formation>
    var favoris: set<(int, string)>
    var associations: map<(string, string), Association>
    var details: map<string, Detail>

    /** Rows sit under their own id; favourites and details belong to existing formations. */
    ghost predicate Valid()
      reads this
    {
      && (forall id | id in formations :: formations[id].id == id)
      && (forall p | p in favoris :: p.1 in formations)
      && details.Keys <= formations.Keys
    }

    constructor ()
      ensures Valid() && formations == map[] && favoris == {} && associations == map[] && details == map[]
    {
      formations := map[];
      favoris := {};
      associations := map[];
      details := map[];
    }

    /**
     * `POST /creer`. `newId` is the identifier the database generates;
     * descriptive columns are stored only when truthy.
     */
    method Creer(newId: string, nom: Option<string>, nomEn: Option<string>, nomFr: Option<string>,
                 body: map<string, Field<string>>) returns (r: CreateReply)
      requires Valid() && newId !in formations
      modifies this
      ensures Valid()
      ensures favoris == old(favoris) && associations == old(associations) && details == old(details)
      ensures !Filled(nom) || !Filled(nomEn) || !Filled(nomFr) ==> r == CreateMissingNames && formations == old(formations)
      ensures Filled(nom) && Filled(nomEn) && Filled(nomFr) && NameTaken(old(formations), nom.value, nomEn.value, nomFr.value) ==>
        r == CreateNameTaken && formations == old(formations)
      ensures Filled(nom) && Filled(nomEn) && Filled(nomFr) && !NameTaken(old(formations), nom.value, nomEn.value, nomFr.value) ==>
        var f := Formation(newId, nom.value, nomEn.value, nomFr.value,
                           map k | k in DescriptiveColumns && TextTruthy(FieldOf(body, k)) :: FieldOf(body, k).value);
        && r == Created(f) && formations == old(formations)[newId := f]
        && forall k :: Lookup(f.columns, k).Some? <==> k in DescriptiveColumns && TextTruthy(FieldOf(body, k))
    {
      if !Filled(nom) || !Filled(nomEn) || !Filled(nomFr) {
        return CreateMissingNames;
      }
      if NameTaken(formations, nom.value, nomEn.value, nomFr.value) {
        return CreateNameTaken;
      }
      var f := Formation(newId, nom.value, nomEn.value, nomFr.value,
                         map k | k in DescriptiveColumns && TextTruthy(FieldOf(body, k)) :: FieldOf(body, k).value);
      formations := formations[newId := f];
      r := Created(f);
    }

    /**
     * `PUT /:id`: the names are replaced when truthy, every descriptive
     * column the body carries is written (`null` clears it), and a changed
     * name another formation already has is refused.
     */
    method Modifier(id: string, nom: Option<string>, nomEn: Option<string>, nomFr: Option<string>,
                    body: map<string, Field<string>>) returns (r: UpdateReply)
      requires Valid()
      modifies this
      ensures Valid()
      ensures favoris == old(favoris) && associations == old(associations) && details == old(details)
      ensures id !in old(formations) ==> r == UpdateNotFound && formations == old(formations)
      ensures id in old(formations) && RenameClash(old(formations), id, old(formations)[id], nom, nomEn, nomFr) ==>
        r == UpdateNameTaken && formations == old(formations)
      ensures id in old(formations) && !RenameClash(old(formations), id, old(formations)[id], nom, nomEn, nomFr) ==>
        var cur := old(formations)[id];
        && r.Updated? && formations == old(formations)[id := r.formation]
        && r.formation.id == id
        && r.formation.nom == (if Filled(nom) then nom.value else cur.nom)
        && r.formation.nomEn == (if Filled(nomEn) then nomEn.value else cur.nomEn)
        && r.formation.nomFr == (if Filled(nomFr) then nomFr.value else cur.nomFr)
        && ColumnsUpdated(cur.columns, body, r.formation.columns)
    {
      if id !in formations {
        return UpdateNotFound;
      }
      var cur := formations[id];
      if RenameClash(formations, id, cur, nom, nomEn, nomFr) {
        return UpdateNameTaken;
      }
      var columns := cur.columns;
      var i := 0;
      while i < |DescriptiveColumns|
        invariant 0 <= i <= |DescriptiveColumns|
        invariant forall k :: Lookup(columns, k) == (if k in DescriptiveColumns[..i] then FieldOf(body, k).Over(Lookup(cur.columns, k)) else Lookup(cur.columns, k))
      {
        var k := DescriptiveColumns[i];
        assert DescriptiveColumns[..i + 1] == DescriptiveColumns[..i] + [k];
        var field := FieldOf(body, k);
        if field.Null? {
          columns := columns - {k};
        } else if field.Given? {
          columns := columns[k := field.value];
        }
        i := i + 1;
      }
      assert DescriptiveColumns[..i] == DescriptiveColumns;
      var f := Formation(id, if Filled(nom) then nom.value else cur.nom,
                             if Filled(nomEn) then nomEn.value else cur.nomEn,
                             if Filled(nomFr) then nomFr.value else cur.nomFr, columns);
      formations := formations[id := f];
      r := Updated(f);
    }

    /**
     * `POST /:formationId/like` with `{userId, action}`. `users` are the
     * existing account ids; `writeError` is the Prisma error code the
     * create or delete throws, if it does.
     */
    method ToggleLike(users: set<int>, formationId: string, userId: Option<int>, action: Option<string>,
                      writeError: Option<string>) returns (r: LikeReply)
      requires Valid()
      modifies this
      ensures Valid()
      ensures formations == old(formations) && associations == old(associations) && details == old(details)
      ensures !(r.Liked? || r.Unliked?) ==> favoris == old(favoris)
      ensures !NonZero(userId) ==> r == LikeUserMissing
      ensures NonZero(userId) && ParseAction(action).None? ==> r == LikeBadAction
      ensures NonZero(userId) && ParseAction(action).Some? ==>
        var u := userId.value;
        var pair := (u, formationId);
        var act := ParseAction(action).value;
        && (formationId !in old(formations) ==> r == LikeFormationNotFound)
        && (formationId in old(formations) && u !in users ==> r == LikeUserNotFound)
        && (formationId in old(formations) && u in users ==>
              && (act == Like && pair in old(favoris) ==> r == AlreadyLiked)
              && (act == Unlike && pair !in old(favoris) ==> r == WasNotLiked)
              && ((act == Like) != (pair in old(favoris)) ==>
                    && (writeError.Some? ==> r == LikeStoreError(PrismaErrorStatus(writeError.value)))
                    && (writeError.None? ==> r == (if act == Like then Liked else Unliked)
                                             && favoris == LikeEffect(old(favoris), pair, act))))
    {
      if !NonZero(userId) {
        return LikeUserMissing;
      }
      var act := ParseAction(action);
      if act.None? {
        return LikeBadAction;
      }
      if formationId !in formations {
        return LikeFormationNotFound;
      }
      var u := userId.value;
      if u !in users {
        return LikeUserNotFound;
      }
      var pair := (u, formationId);
      var existing := pair in favoris;
      if act.value == Like {
        if existing {
          return AlreadyLiked;
        }
        if writeError.Some? {
          return LikeStoreError(PrismaErrorStatus(writeError.value));
        }
        favoris := favoris + {pair};
        r := Liked;
      } else {
        if !existing {
          return WasNotLiked;
        }
        if writeError.Some? {
          return LikeStoreError(PrismaErrorStatus(writeError.value));
        }
        favoris := favoris - {pair};
        r := Unliked;
      }
    }

    /** `POST /:formationId/universite/:universiteId`: a pair may be associated once. */
    method Associer(universiteId: string, formationId: string, form: AssociationForm) returns (r: AssociationReply)
      requires Valid()
      modifies this
      ensures Valid()
      ensures formations == old(formations) && favoris == old(favoris) && details == old(details)
      ensures (universiteId, formationId) in old(associations) ==> r == AssociationExists && associations == old(associations)
      ensures (universiteId, formationId) !in old(associations) ==>
        var a := Association(if IntTruthy(form.capacite) then Some(form.capacite.value) else None,
                             IfTruthy(form.fraisInscription), IfTruthy(form.dateDebut), IfTruthy(form.dateFin),
                             IfTruthy(form.langueEnseignement));
        r == AssociationCreated(a) && associations == old(associations)[(universiteId, formationId) := a]
    {
      var key := (universiteId, formationId);
      if key in associations {
        return AssociationExists;
      }
      var a := Association(if IntTruthy(form.capacite) then Some(form.capacite.value) else None,
                           IfTruthy(form.fraisInscription), IfTruthy(form.dateDebut), IfTruthy(form.dateFin),
                           IfTruthy(form.langueEnseignement));
      associations := associations[key := a];
      r := AssociationCreated(a);
    }

    /**
     * `PUT /:formationId/universite/:universiteId`: every field the body
     * carries is written; a falsy capacity or date clears the column.
     */
    method ModifierAssociation(universiteId: string, formationId: string, form: AssociationForm) returns (r: AssociationReply)
      requires Valid()
      modifies this
      ensures Valid()
      ensures formations == old(formations) && favoris == old(favoris) && details == old(details)
      ensures (universiteId, formationId) !in old(associations) ==> r == AssociationNotFound && associations == old(associations)
      ensures (universiteId, formationId) in old(associations) ==>
        var cur := old(associations)[(universiteId, formationId)];
        var a := Association(TruthyOver(form.capacite, IntTruthy(form.capacite), cur.capacite),
                             form.fraisInscription.Over(cur.fraisInscription),
                             TruthyOver(form.dateDebut, TextTruthy(form.dateDebut), cur.dateDebut),
                             TruthyOver(form.dateFin, TextTruthy(form.dateFin), cur.dateFin),
                             form.langueEnseignement.Over(cur.langueEnseignement));
        r == AssociationUpdated(a) && associations == old(associations)[(universiteId, formationId) := a]
    {
      var key := (universiteId, formationId);
      if key !in associations {
        return AssociationNotFound;
      }
      var cur := associations[key];
      var a := Association(TruthyOver(form.capacite, IntTruthy(form.capacite), cur.capacite),
                           form.fraisInscription.Over(cur.fraisInscription),
                           TruthyOver(form.dateDebut, TextTruthy(form.dateDebut), cur.dateDebut),
                           TruthyOver(form.dateFin, TextTruthy(form.dateFin), cur.dateFin),
                           form.langueEnseignement.Over(cur.langueEnseignement));
      associations := associations[key := a];
      r := AssociationUpdated(a);
    }

    /** `DELETE /:formationId/universite/:universiteId` */
    method Dissocier(universiteId: string, formationId: string) returns (r: AssociationReply)
      requires Valid()
      modifies this
      ensures Valid()
      ensures formations == old(formations) && favoris == old(favoris) && details == old(details)
      ensures (universiteId, formationId) !in old(associations) ==> r == AssociationNotFound && associations == old(associations)
      ensures (universiteId, formationId) in old(associations) ==>
        r == AssociationDeleted && associations == old(associations) - {(universiteId, formationId)}
    {
      var key := (universiteId, formationId);
      if key !in associations {
        return AssociationNotFound;
      }
      associations := associations - {key};
      r := AssociationDeleted;
    }

    /**
     * `POST /creer/:id/details`: updates the formation's detail when it has
     * one (links and videos only when the body carries them), creates it
     * otherwise (links and videos only when truthy).
     */
    method CreerDetails(id: string, form: DetailForm) returns (r: DetailReply)
      requires Valid()
      modifies this
      ensures Valid()
      ensures formations == old(formations) && favoris == old(favoris) && associations == old(associations)
      ensures !TextTruthy(form.contenuFr) || !TextTruthy(form.contenuEn) ==> r == DetailContentMissing && details == old(details)
      ensures TextTruthy(form.contenuFr) && TextTruthy(form.contenuEn) && id !in old(formations) ==>
        r == DetailFormationNotFound && details == old(details)
      ensures TextTruthy(form.contenuFr) && TextTruthy(form.contenuEn) && id in old(formations) ==>
        && id in details
        && details == old(details)[id := details[id]]
        && details[id].contenuFr == Some(form.contenuFr.value) && details[id].contenuEn == Some(form.contenuEn.value)
        && (id in old(details) ==>
              var cur := old(details)[id];
              && r == DetailUpdated(details[id])
              && details[id].lienFr == form.lienFr.Over(cur.lienFr) && details[id].lienEn == form.lienEn.Over(cur.lienEn)
              && details[id].videoFr == form.videoFr.Over(cur.videoFr) && details[id].videoEn == form.videoEn.Over(cur.videoEn))
        && (id !in old(details) ==>
              && r == DetailCreated(details[id])
              && details[id].lienFr == IfTruthy(form.lienFr) && details[id].lienEn == IfTruthy(form.lienEn)
              && details[id].videoFr == IfTruthy(form.videoFr) && details[id].videoEn == IfTruthy(form.videoEn))
    {
      if !TextTruthy(form.contenuFr) || !TextTruthy(form.contenuEn) {
        return DetailContentMissing;
      }
      if id !in formations {
        return DetailFormationNotFound;
      }
      var d: Detail;
      if id in details {
        var cur := details[id];
        d := Detail(Some(form.contenuFr.value), Some(form.contenuEn.value),
                    form.lienFr.Over(cur.lienFr), form.lienEn.Over(cur.lienEn),
                    form.videoFr.Over(cur.videoFr), form.videoEn.Over(cur.videoEn));
        r := DetailUpdated(d);
      } else {
        d := Detail(Some(form.contenuFr.value), Some(form.contenuEn.value),
                    IfTruthy(form.lienFr), IfTruthy(form.lienEn), IfTruthy(form.videoFr), IfTruthy(form.videoEn));
        r := DetailCreated(d);
      }
      details := details[id := d];
    }

    /** `PUT /modifier/:id/details`: every field the body carries is written; there must be a detail already. */
    method ModifierDetails(id: string, form: DetailForm) returns (r: DetailReply)
      requires Valid()
      modifies this
      ensures Valid()
      ensures formations == old(formations) && favoris == old(favoris) && associations == old(associations)
      ensures id !in old(formations) ==> r == DetailFormationNotFound && details == old(details)
      ensures id in old(formations) && id !in old(details) ==> r == DetailNotFound && details == old(details)
      ensures id in old(formations) && id in old(details) ==>
        var cur := old(details)[id];
        var d := Detail(form.contenuFr.Over(cur.contenuFr), form.contenuEn.Over(cur.contenuEn),
                        form.lienFr.Over(cur.lienFr), form.lienEn.Over(cur.lienEn),
                        form.videoFr.Over(cur.videoFr), form.videoEn.Over(cur.videoEn));
        r == DetailUpdated(d) && details == old(details)[id := d]
    {
      if id !in formations {
        return DetailFormationNotFound;
      }
      if id !in details {
        return DetailNotFound;
      }
      var cur := details[id];
      var d := Detail(form.contenuFr.Over(cur.contenuFr), form.contenuEn.Over(cur.contenuEn),
                      form.lienFr.Over(cur.lienFr), form.lienEn.Over(cur.lienEn),
                      form.videoFr.Over(cur.videoFr), form.videoEn.Over(cur.videoEn));
      details := details[id := d];
      r := DetailUpdated(d);
    }

    /** `DELETE /suprimer/:id/details` */
    method SupprimerDetails(id: string) returns (r: DetailReply)
      requires Valid()
      modifies this
      ensures Valid()
      ensures formations == old(formations) && favoris == old(favoris) && associations == old(associations)
      ensures id !in old(formations) ==> r == DetailFormationNotFound && details == old(details)
      ensures id in old(formations) && id !in old(details) ==> r == DetailNotFound && details == old(details)
      ensures id in old(formations) && id in old(details) ==> r == DetailDeleted && details == old(details) - {id}
    {
      if id !in formations {
        return DetailFormationNotFound;
      }
      if id !in details {
        return DetailNotFound;
      }
      details := details - {id};
      r := DetailDeleted;
    }
  }

  // ---------------------------------------------------------------------
  // Listing and favourite statistics
  // ---------------------------------------------------------------------

  /** `GET /lire` and `GET /avec-details/lire`: page 1 and 20 rows unless the query says otherwise. */
  function FormationWindow(page: Option<int>, limit: Option<int>): (w: Window)
    ensures page.None? && limit.None? ==> w.skip == 0 && w.take == 20
    ensures w.take == limit.GetOr(20) && w.skip == (page.GetOr(1) - 1) * limit.GetOr(20)
  {
    ListingWindow(page, limit, 20)
  }

  /** How many of `rows` carry the value `v` in `column`. */
  function Occurrences(rows: seq<Formation>, column: string, v: string): nat
  {
    if rows == [] then 0
    else Occurrences(rows[..|rows| - 1], column, v) + (if Lookup(rows[|rows| - 1].columns, column) == Some(v) then 1 else 0)
  }

  /**
   * The `forEach` of the favourite statistics: each truthy value of
   * `column` among the user's liked formations, with its number of rows.
   */
  method CountBy(rows: seq<Formation>, column: string) returns (counts: map<string, nat>)
    ensures "" !in counts
    ensures forall v :: v != "" ==> (v in counts <==> Occurrences(rows, column, v) > 0)
    ensures forall v | v in counts :: counts[v] == Occurrences(rows, column, v)
  {
    counts := map[];
    for i := 0 to |rows|
      invariant "" !in counts
      invariant forall v :: v != "" ==> (v in counts <==> Occurrences(rows[..i], column, v) > 0)
      invariant forall v | v in counts :: counts[v] == Occurrences(rows[..i], column, v)
    {
      assert rows[..i + 1][..i] == rows[..i];
      var value := Lookup(rows[i].columns, column);
      if value.Some? && value.value != "" {
        var v := value.value;
        counts := counts[v := if v in counts then counts[v] + 1 else 1];
      }
    }
    assert rows[..|rows|] == rows;
  }

  /** Counting a list and then one more row adds one to that row's value only. */
  lemma {:induction false} OccurrencesSplit(a: seq<Formation>, b: seq<Formation>, column: string, v: string)
    ensures Occurrences(a + b, column, v) == Occurrences(a, column, v) + Occurrences(b, column, v)
  {
    if b != [] {
      assert (a + b)[..|a + b| - 1] == a + b[..|b| - 1];
      OccurrencesSplit(a, b[..|b| - 1], column, v);
    } else {
      assert a + b == a;
    }
  }
}
