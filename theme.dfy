/**
 * The theme router: a country's themes, each theme's details, and each
 * detail's links, with the existence checks on the parent row and the
 * replacement of a detail's links.
 */
module Theme {
  import opened Common

  datatype Theme = Theme(id: string, contenuFr: string, contenuEn: string, paysId: string)

  datatype Detail = Detail(id: string, contenuFr: string, contenuEn: string, themeId: string)

  /** A link row; its id is the next number the store hands out. */
  datatype Lien = Lien(id: nat, url: string, detailThemeId: string)

  /** `liens` in a body: left out or falsy, something that is not a list, or a list of urls. */
  datatype LiensInput = NoLiens | NotAList | Urls(urls: seq<string>)

  /** The body of `POST /theme/creer`. */
  datatype ThemeForm = ThemeForm(contenuFr: Option<string>, contenuEn: Option<string>, paysId: Option<string>)

  /** The stored theme of an accepted creation: `contenuEn || contenuFr`. */
  function NewTheme(id: string, f: ThemeForm): (t: Theme)
    requires Filled(f.contenuFr) && Filled(f.paysId)
    ensures t.contenuFr == f.contenuFr.value && t.paysId == f.paysId.value && t.contenuEn != ""
    ensures t.contenuEn == (if Filled(f.contenuEn) then f.contenuEn.value else f.contenuFr.value)
  {
    Theme(id, f.contenuFr.value, if Filled(f.contenuEn) then f.contenuEn.value else f.contenuFr.value, f.paysId.value)
  }

  function TruthyOr(s: Option<string>, current: string): (r: string)
    ensures Filled(s) ==> r == s.value
    ensures !Filled(s) ==> r == current
  {
    if Filled(s) then s.value else current
  }

  /** The links `createMany` adds for `urls`, numbered from `start`. */
  function NewLiens(start: nat, detailId: string, urls: seq<string>): (m: map<nat, Lien>)
    ensures forall k :: k in m <==> start <= k < start + |urls|
    ensures forall k | k in m :: m[k] == Lien(k, urls[k - start], detailId)
  {
    if urls == [] then map[]
    else
      var last := start + |urls| - 1;
      NewLiens(start, detailId, urls[..|urls| - 1])[last := Lien(last, urls[|urls| - 1], detailId)]
  }

  /** The links of `liens` that belong to none of `detailIds`. */
  function LiensOutside(liens: map<nat, Lien>, detailIds: set<string>): (m: map<nat, Lien>)
    ensures forall k :: k in m <==> k in liens && liens[k].detailThemeId !in detailIds
    ensures forall k | k in m :: m[k] == liens[k]
  {
    map k | k in liens && liens[k].detailThemeId !in detailIds :: liens[k]
  }

  /** The links of detail `detailId`. */
  function LinksOf(liens: map<nat, Lien>, detailId: string): (m: map<nat, Lien>)
    ensures forall k :: k in m <==> k in liens && liens[k].detailThemeId == detailId
    ensures forall k | k in m :: m[k] == liens[k]
  {
    map k | k in liens && liens[k].detailThemeId == detailId :: liens[k]
  }

  /**
   * Replacing a detail's links with fresh ones numbered from `start` leaves
   * that detail with exactly the new urls and every other detail with the
   * links it had.
   */
  lemma ReplacedLinks(liens: map<nat, Lien>, id: string, start: nat, urls: seq<string>)
    requires forall k | k in liens :: k < start
    ensures var after := LiensOutside(liens, {id}) + NewLiens(start, id, urls);
            && LinksOf(after, id) == NewLiens(start, id, urls)
            && forall d | d != id :: LinksOf(after, d) == LinksOf(liens, d)
  {
    var after := LiensOutside(liens, {id}) + NewLiens(start, id, urls);
    forall d | d != id
      ensures LinksOf(after, d) == LinksOf(liens, d)
    {
      assert LinksOf(after, d).Keys == LinksOf(liens, d).Keys;
    }
    assert LinksOf(after, id).Keys == NewLiens(start, id, urls).Keys;
  }

  /** Links numbered from `start` on, all for an existing detail, keep every link under its id, below the counter and on a detail. */
  lemma AppendedLinksValid(liens: map<nat, Lien>, details: map<string, Detail>, start: nat, id: string, urls: seq<string>)
    requires forall k | k in liens :: liens[k].id == k && k < start && liens[k].detailThemeId in details
    requires id in details
    ensures var after := liens + NewLiens(start, id, urls);
      forall k | k in after :: after[k].id == k && k < start + |urls| && after[k].detailThemeId in details
  {
  }

  /** Replacing the links of an existing detail keeps the same invariant, with the counter moved past the new links. */
  lemma ReplacedLinksValid(liens: map<nat, Lien>, details: map<string, Detail>, start: nat, id: string, urls: seq<string>)
    requires forall k | k in liens :: liens[k].id == k && k < start && liens[k].detailThemeId in details
    requires id in details
    ensures var after := LiensOutside(liens, {id}) + NewLiens(start, id, urls);
      forall k | k in after :: after[k].id == k && k < start + |urls| && after[k].detailThemeId in details
  {
    AppendedLinksValid(LiensOutside(liens, {id}), details, start, id, urls);
  }

  datatype ThemeReply =
    | MissingFields             // 400 "Les champs … sont obligatoires."
    | PaysMissing               // 404 "Le pays spécifié n'existe pas."
    | ThemeMissing              // 404 "Le thème spécifié n'existe pas." / "Thème non trouvé."
    | DetailMissing             // 404 "Le détail de thème spécifié n'existe pas." / "Détail de thème non trouvé."
    | LienMissing               // 404 "Lien non trouvé."
    | ThemeCreated(theme: Theme)          // 201
    | ThemeUpdated(theme: Theme)          // 200
    | DetailCreated(detail: Detail)       // 201
    | DetailUpdated(detail: Detail)       // 200
    | LienCreated(lien: Lien)             // 201
    | LienUpdated(lien: Lien)             // 200
    | Deleted                             // 200
    | BadIdList                           // 400 "Une liste d'IDs valide est requise."
    | LiensDeleted(count: int)            // 200

  class ThemeStore {
    var themes: map<string, Theme>
    var details: map<string, Detail>
    var liens: map<nat, Lien>
    var nextLien: nat

    /** Rows sit under their ids; every detail names a theme and every link a detail. */
    ghost predicate Valid()
      reads this
    {
      && (forall id | id in themes :: themes[id].id == id)
      && (forall id | id in details :: details[id].id == id && details[id].themeId in themes)
      && (forall k | k in liens :: liens[k].id == k && k < nextLien && liens[k].detailThemeId in details)
    }

    constructor ()
      ensures Valid() && themes == map[] && details == map[] && liens == map[] && nextLien == 0
    {
      themes := map[];
      details := map[];
      liens := map[];
      nextLien := 0;
    }

    /** `POST /theme/creer`; `pays` holds the ids of the countries table. */
    method CreerTheme(newId: string, f: ThemeForm, pays: set<string>) returns (r: ThemeReply)
      requires Valid() && newId !in themes
      modifies this
      ensures Valid() && details == old(details) && liens == old(liens) && nextLien == old(nextLien)
      ensures !(Filled(f.contenuFr) && Filled(f.paysId)) ==> r == MissingFields && themes == old(themes)
      ensures Filled(f.contenuFr) && Filled(f.paysId) && f.paysId.value !in pays ==> r == PaysMissing && themes == old(themes)
      ensures Filled(f.contenuFr) && Filled(f.paysId) && f.paysId.value in pays ==>
        r == ThemeCreated(NewTheme(newId, f)) && themes == old(themes)[newId := NewTheme(newId, f)]
    {
      if !(Filled(f.contenuFr) && Filled(f.paysId)) {
        return MissingFields;
      }
      if f.paysId.value !in pays {
        return PaysMissing;
      }
      var t := NewTheme(newId, f);
      themes := themes[newId := t];
      r := ThemeCreated(t);
    }

    /** `PUT /theme/:id`: only truthy fields are written; a truthy `paysId` must name a country. */
    method ModifierTheme(id: string, f: ThemeForm, pays: set<string>) returns (r: ThemeReply)
      requires Valid()
      modifies this
      ensures Valid() && details == old(details) && liens == old(liens) && nextLien == old(nextLien)
      ensures id !in old(themes) ==> r == ThemeMissing && themes == old(themes)
      ensures id in old(themes) && Filled(f.paysId) && f.paysId.value !in pays ==> r == PaysMissing && themes == old(themes)
      ensures id in old(themes) && (Filled(f.paysId) ==> f.paysId.value in pays) ==>
        var t := old(themes)[id];
        var t' := Theme(id, TruthyOr(f.contenuFr, t.contenuFr), TruthyOr(f.contenuEn, t.contenuEn), TruthyOr(f.paysId, t.paysId));
        r == ThemeUpdated(t') && themes == old(themes)[id := t']
    {
      if id !in themes {
        return ThemeMissing;
      }
      if Filled(f.paysId) && f.paysId.value !in pays {
        return PaysMissing;
      }
      var t := themes[id];
      var t' := Theme(id, TruthyOr(f.contenuFr, t.contenuFr), TruthyOr(f.contenuEn, t.contenuEn), TruthyOr(f.paysId, t.paysId));
      themes := themes[id := t'];
      r := ThemeUpdated(t');
    }

    /** `DELETE /theme/:id`: the theme goes, with its details and their links. */
    method SupprimerTheme(id: string) returns (r: ThemeReply)
      requires Valid()
      modifies this
      ensures Valid() && nextLien == old(nextLien)
      ensures id !in old(themes) ==> r == ThemeMissing && themes == old(themes) && details == old(details) && liens == old(liens)
      ensures id in old(themes) ==>
        var gone := set d | d in old(details) && old(details)[d].themeId == id;
        && r == Deleted && themes == old(themes) - {id}
        && details == old(details) - gone && liens == LiensOutside(old(liens), gone)
    {
      if id !in themes {
        return ThemeMissing;
      }
      var gone := set d | d in details && details[d].themeId == id;
      themes := themes - {id};
      details := details - gone;
      liens := LiensOutside(liens, gone);
      r := Deleted;
    }

    /**
     * `POST /detail/creer`: the detail, then one link per url when `liens`
     * is a non-empty list.
     */
    method CreerDetail(newId: string, contenuFr: Option<string>, contenuEn: Option<string>, themeId: Option<string>,
                       input: LiensInput) returns (r: ThemeReply)
      requires Valid() && newId !in details
      modifies this
      ensures Valid() && themes == old(themes)
      ensures !(Filled(contenuFr) && Filled(contenuEn) && Filled(themeId)) ==>
        r == MissingFields && details == old(details) && liens == old(liens) && nextLien == old(nextLien)
      ensures Filled(contenuFr) && Filled(contenuEn) && Filled(themeId) && themeId.value !in themes ==>
        r == ThemeMissing && details == old(details) && liens == old(liens) && nextLien == old(nextLien)
      ensures Filled(contenuFr) && Filled(contenuEn) && Filled(themeId) && themeId.value in themes ==>
        var d := Detail(newId, contenuFr.value, contenuEn.value, themeId.value);
        var urls := if input.Urls? then input.urls else [];
        && r == DetailCreated(d) && details == old(details)[newId := d]
        && liens == old(liens) + NewLiens(old(nextLien), newId, urls) && nextLien == old(nextLien) + |urls|
    {
      if !(Filled(contenuFr) && Filled(contenuEn) && Filled(themeId)) {
        return MissingFields;
      }
      if themeId.value !in themes {
        return ThemeMissing;
      }
      var d := Detail(newId, contenuFr.value, contenuEn.value, themeId.value);
      details := details[newId := d];
      var urls := if input.Urls? then input.urls else [];
      AppendedLinksValid(liens, details, nextLien, newId, urls);
      liens := liens + NewLiens(nextLien, newId, urls);
      nextLien := nextLien + |urls|;
      r := DetailCreated(d);
    }

    /**
     * `PUT /detail/:id`: truthy fields are written; a list of urls replaces
     * this detail's links with exactly those urls, anything else leaves
     * them; other details' links are never touched.
     */
    method ModifierDetail(id: string, contenuFr: Option<string>, contenuEn: Option<string>, themeId: Option<string>,
                          input: LiensInput) returns (r: ThemeReply)
      requires Valid()
      modifies this
      ensures Valid() && themes == old(themes)
      ensures id !in old(details) ==> r == DetailMissing && details == old(details) && liens == old(liens)
      ensures id in old(details) && Filled(themeId) && themeId.value !in themes ==>
        r == ThemeMissing && details == old(details) && liens == old(liens)
      ensures id in old(details) && (Filled(themeId) ==> themeId.value in themes) ==>
        var d := old(details)[id];
        var d' := Detail(id, TruthyOr(contenuFr, d.contenuFr), TruthyOr(contenuEn, d.contenuEn), TruthyOr(themeId, d.themeId));
        && r == DetailUpdated(d') && details == old(details)[id := d']
        && (input.Urls? ==> liens == LiensOutside(old(liens), {id}) + NewLiens(old(nextLien), id, input.urls)
                            && nextLien == old(nextLien) + |input.urls|)
        && (!input.Urls? ==> liens == old(liens) && nextLien == old(nextLien))
      ensures input.Urls? && r.DetailUpdated? ==>
        LinksOf(liens, id) == NewLiens(old(nextLien), id, input.urls)
        && forall d | d != id :: LinksOf(liens, d) == LinksOf(old(liens), d)
    {
      if id !in details {
        return DetailMissing;
      }
      if Filled(themeId) && themeId.value !in themes {
        return ThemeMissing;
      }
      var d := details[id];
      var d' := Detail(id, TruthyOr(contenuFr, d.contenuFr), TruthyOr(contenuEn, d.contenuEn), TruthyOr(themeId, d.themeId));
      details := details[id := d'];
      if input.Urls? {
        ReplaceLinks(id, input.urls);
      }
      r := DetailUpdated(d');
    }

    /** The links of detail `id` become exactly `urls`, numbered from the counter on. */
    method ReplaceLinks(id: string, urls: seq<string>)
      requires Valid() && id in details
      modifies this
      ensures Valid() && themes == old(themes) && details == old(details)
      ensures liens == LiensOutside(old(liens), {id}) + NewLiens(old(nextLien), id, urls)
      ensures nextLien == old(nextLien) + |urls|
      ensures LinksOf(liens, id) == NewLiens(old(nextLien), id, urls)
      ensures forall d | d != id :: LinksOf(liens, d) == LinksOf(old(liens), d)
    {
      ReplacedLinks(liens, id, nextLien, urls);
      ReplacedLinksValid(liens, details, nextLien, id, urls);
      liens := LiensOutside(liens, {id}) + NewLiens(nextLien, id, urls);
      nextLien := nextLien + |urls|;
    }

    /** `DELETE /detail/:id`: the detail's links, then the detail. */
    method SupprimerDetail(id: string) returns (r: ThemeReply)
      requires Valid()
      modifies this
      ensures Valid() && themes == old(themes) && nextLien == old(nextLien)
      ensures id !in old(details) ==> r == DetailMissing && details == old(details) && liens == old(liens)
      ensures id in old(details) ==> r == Deleted && details == old(details) - {id} && liens == LiensOutside(old(liens), {id})
    {
      if id !in details {
        return DetailMissing;
      }
      liens := LiensOutside(liens, {id});
      details := details - {id};
      r := Deleted;
    }

    /** `POST /lien/creer`. */
    method CreerLien(url: Option<string>, detailThemeId: Option<string>) returns (r: ThemeReply)
      requires Valid()
      modifies this
      ensures Valid() && themes == old(themes) && details == old(details)
      ensures !(Filled(url) && Filled(detailThemeId)) ==> r == MissingFields && liens == old(liens) && nextLien == old(nextLien)
      ensures Filled(url) && Filled(detailThemeId) && detailThemeId.value !in details ==>
        r == DetailMissing && liens == old(liens) && nextLien == old(nextLien)
      ensures Filled(url) && Filled(detailThemeId) && detailThemeId.value in details ==>
        var l := Lien(old(nextLien), url.value, detailThemeId.value);
        r == LienCreated(l) && liens == old(liens)[old(nextLien) := l] && nextLien == old(nextLien) + 1
    {
      if !(Filled(url) && Filled(detailThemeId)) {
        return MissingFields;
      }
      if detailThemeId.value !in details {
        return DetailMissing;
      }
      var l := Lien(nextLien, url.value, detailThemeId.value);
      liens := liens[nextLien := l];
      nextLien := nextLien + 1;
      r := LienCreated(l);
    }

    /** `PUT /lien/:id`: truthy fields are written; a truthy `detailThemeId` must name a detail. */
    method ModifierLien(id: nat, url: Option<string>, detailThemeId: Option<string>) returns (r: ThemeReply)
      requires Valid()
      modifies this
      ensures Valid() && themes == old(themes) && details == old(details) && nextLien == old(nextLien)
      ensures id !in old(liens) ==> r == LienMissing && liens == old(liens)
      ensures id in old(liens) && Filled(detailThemeId) && detailThemeId.value !in details ==> r == DetailMissing && liens == old(liens)
      ensures id in old(liens) && (Filled(detailThemeId) ==> detailThemeId.value in details) ==>
        var l := old(liens)[id];
        var l' := Lien(id, TruthyOr(url, l.url), TruthyOr(detailThemeId, l.detailThemeId));
        r == LienUpdated(l') && liens == old(liens)[id := l']
    {
      if id !in liens {
        return LienMissing;
      }
      if Filled(detailThemeId) && detailThemeId.value !in details {
        return DetailMissing;
      }
      var l := liens[id];
      var l' := Lien(id, TruthyOr(url, l.url), TruthyOr(detailThemeId, l.detailThemeId));
      liens := liens[id := l'];
      r := LienUpdated(l');
    }

    /** `DELETE /lien/:id`. */
    method SupprimerLien(id: nat) returns (r: ThemeReply)
      requires Valid()
      modifies this
      ensures Valid() && themes == old(themes) && details == old(details) && nextLien == old(nextLien)
      ensures r == (if id in old(liens) then Deleted else LienMissing)
      ensures liens == old(liens) - {id}
    {
      if id !in liens {
        return LienMissing;
      }
      liens := liens - {id};
      r := Deleted;
    }

    /** `DELETE /lien` with `{ids}`: a non-empty list is required; every listed link goes, counted once. */
    method SupprimerLiens(ids: Option<seq<nat>>) returns (r: ThemeReply)
      requires Valid()
      modifies this
      ensures Valid() && themes == old(themes) && details == old(details) && nextLien == old(nextLien)
      ensures ids.None? || ids.value == [] ==> r == BadIdList && liens == old(liens)
      ensures ids.Some? && ids.value != [] ==>
        var gone := set k | k in ids.value && k in old(liens);
        r == LiensDeleted(|gone|) && liens == old(liens) - gone
    {
      if ids.None? || ids.value == [] {
        return BadIdList;
      }
      var gone := set k | k in ids.value && k in liens;
      liens := liens - gone;
      r := LiensDeleted(|gone|);
    }
  }
}
