/**
 A whole run over an entity library: visits and listings, then reconciliation.  What the run
 met is kept; what it did not meet, and should have, is exactly what goes.  And over every
 history, tracks show the payload their items carry.
 */
module EntityRuns {
  import opened Prelude
  import opened EntitySync
  import opened EntitySyncTheorems
  import opened EntityReconciliation
  import O = EntityOutcomes

  // ----- the passes of a run ----------------------------------------------------------------------

  /** A visit or listing at or after an instant. */
  ghost predicate Since(a: Act, started: Time) {
    match a
    case Visits(v) => v.at >= started
    case Lists(l) => l.at >= started
    case _ => false
  }

  /** The act meets the item: a visit that brings a payload and does not raise, or a listing of another kind. */
  ghost predicate Meets(a: Act, k: ItemKey) {
    match a
    case Visits(v) => k == ItemKey(TrackKind, v.key) && !v.raises && v.metadata.Some?
    case Lists(l) => k == l.k && l.k.kind != TrackKind
    case _ => false
  }

  ghost predicate Met(run: seq<Act>, k: ItemKey) { exists i :: 0 <= i < |run| && Meets(run[i], k) }

  ghost function Passes(db: Db, run: seq<Act>): Db {
    if run == [] then db else Perform(Passes(db, run[..|run| - 1]), run[|run| - 1])
  }

  lemma ActStamps(db: Db, a: Act, k: ItemKey, started: Time)
    requires Since(a, started)
    ensures var d := Perform(db, a);
            && (Meets(a, k) ==> k in d.items && d.items[k].lastSeen.Some? && d.items[k].lastSeen.value >= started)
            && (!Meets(a, k) ==> (k in d.items <==> k in db.items) && (k in db.items ==> d.items[k] == db.items[k]))
  {
    hide EntityUnchanged, LocalEdited, Heals, EntriesOf, LinkedTrack;
  }

  lemma {:induction false} MetIsFresh(db: Db, run: seq<Act>, k: ItemKey, started: Time)
    requires forall i :: 0 <= i < |run| ==> Since(run[i], started)
    ensures var m := Passes(db, run);
            && (Met(run, k) ==> k in m.items && m.items[k].lastSeen.Some? && m.items[k].lastSeen.value >= started)
            && (!Met(run, k) ==> (k in m.items <==> k in db.items) && (k in db.items ==> m.items[k] == db.items[k]))
  {
    hide Perform, Meets, Since;
    if run != [] {
      var front, a := run[..|run| - 1], run[|run| - 1];
      assert forall i :: 0 <= i < |front| ==> front[i] == run[i];
      MetIsFresh(db, front, k, started);
      ActStamps(Passes(db, front), a, k, started);
      assert Met(run, k) <==> Met(front, k) || Meets(a, k);
    }
  }

  // ----- and its end ------------------------------------------------------------------------------

  /** An active, saved item of a listed kind, seen before the run and not met by it. */
  ghost predicate Lapsed(db: Db, p: Policy, run: seq<Act>, started: Time, k: ItemKey) {
    && k.kind in p.enabled && k in db.items && db.items[k].state == Active && db.items[k].saved
    && (match db.items[k].lastSeen case None => false case Some(seen) => seen < started)
    && !Met(run, k)
  }

  /** The item newly goes missing, is demoted, or is gone. */
  ghost predicate Lost(m: Db, d: Db, k: ItemKey)
    requires k in m.items
  {
    || k !in d.items
    || (d.items[k].state == Missing && m.items[k].state == Active)
    || (m.items[k].saved && !d.items[k].saved)
  }

  lemma SelectedAreLapsed(db: Db, p: Policy, run: seq<Act>, started: Time)
    requires forall i :: 0 <= i < |run| ==> Since(run[i], started)
    ensures forall k :: k in SelectedKeys(Passes(db, run), p, started) <==> Lapsed(db, p, run, started, k)
  {
    hide Passes, Met;
    forall k ensures k in SelectedKeys(Passes(db, run), p, started) <==> Lapsed(db, p, run, started, k) {
      MetIsFresh(db, run, k, started);
    }
  }

  /** An item gone without being selected went with an entity that a selected item of its kind names. */
  lemma {:induction false} DroppedArtistIsNamed(db: Db, ks: seq<ItemKey>, id: Id)
    requires DropsArtist(db, ks, id)
    ensures exists i :: 0 <= i < |ks| && ks[i].kind == ArtistKind && ks[i] in db.items && db.items[ks[i]].entity == Some(id)
  {
    if DropsArtist(db, ks[..|ks| - 1], id) {
      DroppedArtistIsNamed(db, ks[..|ks| - 1], id);
      var i :| 0 <= i < |ks| - 1 && ks[..|ks| - 1][i].kind == ArtistKind && ks[..|ks| - 1][i] in db.items
               && db.items[ks[..|ks| - 1][i]].entity == Some(id);
      assert ks[i] == ks[..|ks| - 1][i];
    } else {
      assert Names(db, ks[|ks| - 1], ArtistKind, id);
    }
  }

  lemma GoneWithNamesake(db: Db, p: Policy, ks: seq<ItemKey>, k: ItemKey)
    requires k in db.items && Gone(db, p, ks, k)
    ensures k.kind != TrackKind && exists j :: j in ks && Namesakes(db, j, k)
  {
    if k.kind == ArtistKind {
      DroppedArtistIsNamed(db, ks, db.items[k].entity.value);
      var i :| 0 <= i < |ks| && ks[i].kind == ArtistKind && ks[i] in db.items && db.items[ks[i]].entity == db.items[k].entity;
      assert Namesakes(db, ks[i], k);
    } else if k in ks {
      assert Namesakes(db, k, k);
    } else {
      var i :| 0 <= i < |ks| && Names(db, ks[i], k.kind, db.items[k].entity.value);
      assert Namesakes(db, ks[i], k);
    }
  }

  /** Items of one kind linked to the same entity. */
  ghost predicate Namesakes(m: Db, j: ItemKey, k: ItemKey) {
    && j.kind == k.kind && j in m.items && k in m.items
    && m.items[j].entity.Some? && m.items[j].entity == m.items[k].entity
  }

  /** The library row of a track item, before and after. */
  ghost predicate SamePlace(m: Db, d: Db, k: ItemKey)
    requires k in m.items
  {
    k.kind == TrackKind && m.items[k].entity.Some? ==> (m.items[k].entity.value in d.members <==> m.items[k].entity.value in m.members)
  }

  lemma EndOfOne(m: Db, p: Policy, started: Time, ks: seq<ItemKey>, k: ItemKey)
    requires Enumerates(ks, SelectedKeys(m, p, started)) && k in m.items
    ensures var d := ReconcileRows(m, p, ks);
            && (k !in ks && k in d.items ==> d.items[k] == m.items[k])
            && (k !in ks && k !in d.items ==> k.kind != TrackKind && exists j :: j in ks && Namesakes(m, j, k))
            && (k in ks ==> Lost(m, d, k))
            && (forall t :: t in d.members <==> t in m.members && !Named(m, ks, TrackKind, t))
  {
    ReconciliationIsExact(m, p, started, ks, k);
    if Gone(m, p, ks, k) {
      GoneWithNamesake(m, p, ks, k);
    }
    hide Gone, ReconcileRows, DropsArtist, AlbumsAre, ArtistsAre, PlaylistsAre, StaysReferenced, Named;
  }

  /**
   A full run takes away exactly what it did not meet.  Let the passes of a run visit and list
   whatever they do, from its start on, and reconciliation follow.  An item of any kind then
   goes missing, is demoted or is gone if and only if it was active and saved, of a listed
   kind, last seen before the run, and not met by it -- or it went with the entity of such an
   item.  Every item that was met keeps all its columns unless it went that way, and a track
   item always does, and keeps its library row.
   */
  lemma RunTakesWhatItDidNotMeet(db: Db, p: Policy, run: seq<Act>, started: Time, ks: seq<ItemKey>, k: ItemKey)
    requires forall i :: 0 <= i < |run| ==> Since(run[i], started)
    requires EntitySyncTheorems.WellLinked(db) && RowsAreSaved(db)
    requires Enumerates(ks, SelectedKeys(Passes(db, run), p, started))
    ensures var m := Passes(db, run);
            var d := ReconcileRows(m, p, ks);
            k in m.items ==>
              && (Lost(m, d, k) <==>
                    || Lapsed(db, p, run, started, k)
                    || (k !in d.items && k.kind != TrackKind && exists j :: Lapsed(db, p, run, started, j) && Namesakes(m, j, k)))
              && (!Lapsed(db, p, run, started, k) && k in d.items ==> d.items[k] == m.items[k] && SamePlace(m, d, k))
              && (k.kind == TrackKind ==> k in d.items)
  {
    var m := Passes(db, run);
    SelectedAreLapsed(db, p, run, started);
    PassesKeepLinks(db, run, started);
    hide Passes, Lapsed, SelectedKeys, RowsAreSaved;
    assert forall j :: j in ks <==> Lapsed(db, p, run, started, j);
    if k in m.items {
      EndOfOne(m, p, started, ks, k);
      if k.kind == TrackKind {
        TrackItemsStay(m, p, started, ks, k);
      }
      if k !in ks && k.kind == TrackKind && m.items[k].entity.Some? {
        OthersDoNotNameIt(m, ks, k);
      }
    }
  }

  lemma TrackItemsStay(m: Db, p: Policy, started: Time, ks: seq<ItemKey>, k: ItemKey)
    requires Enumerates(ks, SelectedKeys(m, p, started)) && k in m.items && k.kind == TrackKind
    ensures k in ReconcileRows(m, p, ks).items
  {
    ReconciliationIsExact(m, p, started, ks, k);
  }

  lemma OthersDoNotNameIt(m: Db, ks: seq<ItemKey>, k: ItemKey)
    requires EntitySyncTheorems.WellLinked(m) && k in m.items && k.kind == TrackKind && m.items[k].entity.Some? && k !in ks
    ensures !Named(m, ks, TrackKind, m.items[k].entity.value)
  {
    var t := m.items[k].entity.value;
    assert References(m, k, t);
    forall i | 0 <= i < |ks| ensures !Names(m, ks[i], TrackKind, t) {
      assert Names(m, ks[i], TrackKind, t) ==> References(m, ks[i], t);
    }
  }

  lemma {:induction false} PassesKeepLinks(db: Db, run: seq<Act>, started: Time)
    requires forall i :: 0 <= i < |run| ==> Since(run[i], started)
    requires EntitySyncTheorems.WellLinked(db) && RowsAreSaved(db)
    ensures EntitySyncTheorems.WellLinked(Passes(db, run)) && RowsAreSaved(Passes(db, run))
  {
    hide EntitySyncTheorems.WellLinked, RowsAreSaved, ApplyTrack, ApplyListed;
    if run != [] {
      var front, a := run[..|run| - 1], run[|run| - 1];
      assert forall i :: 0 <= i < |front| ==> front[i] == run[i];
      PassesKeepLinks(db, front, started);
      var m := Passes(db, front);
      assert Since(a, started);
      match a
      case Visits(v) =>
        VisitKeepsLinks(m, v);
        VisitKeepsRowsSaved(m, v);
      case Lists(l) =>
        if l.k.kind != TrackKind {
          ListingKeepsMembership(m, l);
        }
    }
  }

  // ----- tracks show their payload --------------------------------------------------------------------

  /** What a payload says of a track's title and album. */
  type Reading = string -> (string, Option<Id>)

  /** Payloads mean what they say: the visit's metadata is the reading of its raw payload. */
  ghost predicate Honest(means: Reading, a: Act) {
    a.Visits? && a.v.metadata.Some? ==> means(a.v.metadata.value.raw) == (a.v.metadata.value.text, a.v.metadata.value.album)
  }

  /** The item's track, never edited, shows the payload the item carries. */
  ghost predicate ShowsIts(db: Db, means: Reading, k: ItemKey, t: Id) {
    References(db, k, t) && t in db.tracks && db.tracks[t].editedAt.None? ==>
      db.items[k].fingerprint.Some? && means(db.items[k].fingerprint.value) == (db.tracks[t].text, db.tracks[t].album)
  }

  ghost predicate AllShow(db: Db, means: Reading) { forall k, t :: ShowsIts(db, means, k, t) }

  /** Only the visited item and its track change, and they still agree. */
  lemma VisitedItemShows(db: Db, means: Reading, v: Visit, t: Id)
    requires EntitySyncTheorems.WellLinked(db) && AllShow(db, means) && Honest(means, Visits(v))
    ensures ShowsIts(ApplyTrack(db, v), means, ItemKey(TrackKind, v.key), t)
  {
    var k, d := ItemKey(TrackKind, v.key), ApplyTrack(db, v);
    assert ShowsIts(db, means, k, t);
    if v.raises || v.metadata.None? {
      O.NothingIsApplied(db, v);
    } else if id :| O.Links(db, v, id) {
      var m := v.metadata.value;
      hide ApplyTrack;
      assert ShowsIts(db, means, k, id);
      if O.Stamps(db, v, m) {
        O.StampFollowsTheArtist(db, v, m, id);
      } else if O.Stands(db, v, m, id) {
        O.EditKeepsTheTrack(db, v, m, id);
      } else {
        O.RewriteShowsThePayload(db, v, m, id);
      }
    } else {
      hide ApplyTrack;
      O.ImportShowsThePayload(db, v, v.metadata.value);
    }
  }

  lemma VisitKeepsOthers(db: Db, v: Visit, k: ItemKey, t: Id)
    requires EntitySyncTheorems.WellLinked(db) && k != ItemKey(TrackKind, v.key) && References(ApplyTrack(db, v), k, t)
    ensures References(db, k, t) && ApplyTrack(db, v).items[k] == db.items[k]
    ensures t in ApplyTrack(db, v).tracks ==> t in db.tracks && ApplyTrack(db, v).tracks[t] == db.tracks[t]
  {
    VisitTouchesOneItem(db, v);
    VisitedTrackIsOwn(db, v);
    OnlyItsTrack(db, v, t);
    hide ApplyTrack, TrackOf, LinkedTrack;
    assert References(db, k, t);
    assert t < db.nextId;
  }

  lemma OnlyItsTrack(db: Db, v: Visit, t: Id)
    requires t != TrackOf(db, v) || LinkedTrack(db, ItemKey(TrackKind, v.key)).Some?
    ensures var d := ApplyTrack(db, v); t != TrackOf(db, v) ==> (t in d.tracks <==> t in db.tracks) && (t in db.tracks ==> d.tracks[t] == db.tracks[t])
  {
    hide EntityUnchanged, LocalEdited, Heals;
  }

  lemma VisitKeepsShowing(db: Db, means: Reading, v: Visit)
    requires EntitySyncTheorems.WellLinked(db) && AllShow(db, means) && Honest(means, Visits(v))
    ensures AllShow(ApplyTrack(db, v), means)
  {
    hide ApplyTrack, EntitySyncTheorems.WellLinked;
    var d := ApplyTrack(db, v);
    forall k, t ensures ShowsIts(d, means, k, t) {
      if k == ItemKey(TrackKind, v.key) {
        VisitedItemShows(db, means, v, t);
      } else if References(d, k, t) {
        VisitKeepsOthers(db, v, k, t);
        assert ShowsIts(db, means, k, t);
      }
    }
  }

  /** A row's reconciliation leaves the links and payloads of the items that stay. */
  lemma RowKeepsPayloads(db: Db, p: Policy, k: ItemKey)
    ensures var d := ReconcileRow(db, p, k);
            d.tracks == db.tracks && forall j :: j in d.items ==>
              j in db.items && d.items[j].entity == db.items[j].entity && d.items[j].fingerprint == db.items[j].fingerprint
  {
    hide AlbumUsed, ArtistUsed, TrackReferenced;
  }

  lemma {:induction false} RowsKeepPayloads(db: Db, p: Policy, ks: seq<ItemKey>)
    ensures var d := ReconcileRows(db, p, ks);
            d.tracks == db.tracks && forall j :: j in d.items ==>
              j in db.items && d.items[j].entity == db.items[j].entity && d.items[j].fingerprint == db.items[j].fingerprint
  {
    hide ReconcileRow;
    if ks != [] {
      RowsKeepPayloads(db, p, ks[..|ks| - 1]);
      RowKeepsPayloads(ReconcileRows(db, p, ks[..|ks| - 1]), p, ks[|ks| - 1]);
    }
  }

  lemma OtherActKeepsShowing(db: Db, means: Reading, a: Act)
    requires !a.Visits? && AllShow(db, means)
    ensures AllShow(Perform(db, a), means)
  {
    if a.Reconciles? {
      RowsKeepPayloads(db, a.p, a.order);
    }
    hide ReconcileRows, EntityUnchanged, EntriesOf;
    var d := Perform(db, a);
    forall k, t ensures ShowsIts(d, means, k, t) {
      assert ShowsIts(db, means, k, t);
    }
  }

  /**
   Over every history of visits, listings, reconciliations, edits and deletions: a track no
   user ever edited has the title and album of the payload its item carries as fingerprint.
   (Its artist may have been corrected by a later payload under the same version.)
   */
  lemma {:induction false} TracksShowTheirPayload(means: Reading, acts: seq<Act>)
    requires forall i :: 0 <= i < |acts| ==> Honest(means, acts[i])
    ensures AllShow(After(acts), means)
  {
    hide Perform, AllShow, Honest;
    if acts == [] {
      NothingShows(means);
    } else {
      var front, a := acts[..|acts| - 1], acts[|acts| - 1];
      assert forall i :: 0 <= i < |front| ==> front[i] == acts[i];
      TracksShowTheirPayload(means, front);
      MembershipFollowsItems(front);
      assert Honest(means, a);
      if a.Visits? {
        VisitKeepsShowing(After(front), means, a.v);
        VisitsPerform(After(front), a.v);
      } else {
        OtherActKeepsShowing(After(front), means, a);
      }
    }
  }

  lemma VisitsPerform(db: Db, v: Visit)
    ensures Perform(db, Visits(v)) == ApplyTrack(db, v)
  {
  }

  lemma NothingShows(means: Reading)
    ensures AllShow(EMPTY, means)
  {
  }
}
