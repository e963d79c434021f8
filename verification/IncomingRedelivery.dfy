/**
 Repeated deliveries: when a delivery changes nothing in any state, when delivering twice in
 a row is delivering once, and what a delivery repeated later in a run still does.
 */
module IncomingRedelivery {
  import opened Prelude
  import opened Incoming
  import opened IncomingTheorems

  // ----- when a delivery changes nothing ---------------------------------------------------------------------

  /** The object is cached with this audience. */
  predicate CachedAs(db: Db, o: Obj) { o.id in db.objects && db.objects[o.id] == CachedPublic(o) }

  predicate ReferenceKnown(db: Db, o: Obj) { Truthy(Reference(o)) && Resolve(db.rows, Reference(o).value).Some? }

  /** A known target takes the object: its owner does not block the author, there is an audience and an entity. */
  predicate Admissible(w: World, db: Db, actor: string, o: Obj)
    requires ReferenceKnown(db, o)
  {
    var t := db.rows[Resolve(db.rows, Reference(o).value).value];
    && !(t.owner.Some? && w.blocks(t.owner.value, actor))
    && HasAudience(o.public, o.mentions) && ResolveEntity(w, db, t.entity).Some?
  }

  /** The row under the object's id, and the cache, read as mirroring the object would leave them. */
  predicate ReadsAsMirrored(db: Db, actor: string, o: Obj) {
    && CachedAs(db, o) && Existing(db.rows, o.id).Some?
    && var row := db.rows[Existing(db.rows, o.id).value];
       && row.kind == MirrorKind(o) && row.actor == actor && row.visibility == MirrorVisibility(CachedPublic(o), o.mentions)
       && row.parent == MirrorParent(db, o) && row.content == ContentOf(o) && row.language == o.language
       && NewMentions(row.mentions, o.mentions) == {} && row.deletedAt.None?
  }

  predicate MirrorAbsorbed(db: Db, actor: string, o: Obj, mirrors: Mirroring) {
    match mirrors
    case Refused => true
    case CachedOnly => CachedAs(db, o)
    case AsActivity => ReadsAsMirrored(db, actor, o)
  }

  /** Admitting the object would change nothing. */
  predicate AdmissionAbsorbed(w: World, db: Db, actor: string, o: Obj, attributed: bool, mirrors: Mirroring) {
    IsUrl(actor) && IsUrl(o.id) && attributed ==>
      if ReferenceKnown(db, o) && Existing(db.rows, o.id).Some? then true
      else if ReferenceKnown(db, o) && Admissible(w, db, actor, o) then false
      else MirrorAbsorbed(db, actor, o, mirrors)
  }

  /** Revising row `n` by the object would change nothing. */
  predicate RevisionAbsorbed(w: World, db: Db, n: nat, o: Obj)
    requires n < |db.rows|
  {
    Revised(w, db, db.rows[n], o) == db.rows[n] && (db.rows[n].entity.Mirror? ==> CachedAs(db, o))
  }

  /** The guard under which a delivery changes nothing, by kind. */
  predicate Absorbed(w: World, db: Db, d: Delivery) {
    match d
    case Create(actor, o, cut, admitted, attributed, mirrors) =>
      cut || !admitted || AdmissionAbsorbed(w, db, actor, o, attributed, mirrors)
    case Update(actor, o, cut, admitted, attributed, mirrors) =>
      var at := FindRemote(db.rows, o.id, actor);
      cut || !attributed || o.id == "" ||
      (if at.Some? then RevisionAbsorbed(w, db, at.value, o)
       else !admitted || AdmissionAbsorbed(w, db, actor, o, attributed, mirrors))
    case Announce(actor, id, uri, public, mentions, cut, admitted, now) =>
      var target := Resolve(db.rows, uri);
      cut || !admitted || !IsUrl(actor) || !IsUrl(uri) || id == "" || Existing(db.rows, id).Some? || target.None?
      || var t := db.rows[target.value];
         t.deletedAt.Some? || (t.owner.Some? && w.blocks(t.owner.value, actor)) || !HasAudience(public, mentions)
    case Delete(actor, gone, _) =>
      var at := FindRemote(db.rows, gone, actor);
      gone == "" || at.None? || db.rows[at.value].deletedAt.Some?
    case Undo(actor, inner, announce, _) =>
      var at := FindRemote(db.rows, inner, actor);
      inner == "" || !announce || at.None? || db.rows[at.value].kind != Boost || db.rows[at.value].deletedAt.Some?
  }

  lemma MirroringIsANoOpIff(db: Db, actor: string, o: Obj, mirrors: Mirroring)
    requires IsUrl(actor) && IsUrl(o.id)
    ensures MirrorPost(db, actor, o, true, mirrors) == db <==> MirrorAbsorbed(db, actor, o, mirrors)
  {
    hide IsUrl, MirrorKind, MirrorParent, MirrorVisibility, ContentOf, CachedPublic, NewMentions;
    var one, at := MirrorPost(db, actor, o, true, mirrors), Existing(db.rows, o.id);
    if mirrors == AsActivity && at.Some? {
      var row := db.rows[at.value];
      NewMentionsAreNew(row.mentions, o.mentions);
      assert one.rows == db.rows <==> one.rows[at.value] == row;
    }
  }

  lemma NewMentionsAreNew(have: set<Mention>, ms: set<Mention>)
    ensures have + NewMentions(have, ms) == have <==> NewMentions(have, ms) == {}
  {
    forall m | m in NewMentions(have, ms) ensures m !in have {
    }
  }

  lemma AdmissionIsANoOpIff(w: World, db: Db, actor: string, o: Obj, attributed: bool, mirrors: Mirroring)
    ensures Admit(w, db, actor, o, attributed, mirrors) == db <==> AdmissionAbsorbed(w, db, actor, o, attributed, mirrors)
  {
    hide IsUrl, MirrorAbsorbed, HasAudience, ContentOf, MaterializedVisibility, MirrorPost;
    if IsUrl(actor) && IsUrl(o.id) && attributed {
      MirroringIsANoOpIff(db, actor, o, mirrors);
    } else {
      NotMirroredAtAll(db, actor, o, attributed, mirrors);
    }
  }

  lemma NotMirroredAtAll(db: Db, actor: string, o: Obj, attributed: bool, mirrors: Mirroring)
    requires !(IsUrl(actor) && IsUrl(o.id) && attributed)
    ensures MirrorPost(db, actor, o, attributed, mirrors) == db
  {
  }

  lemma RevisingIsANoOpIff(w: World, db: Db, d: Delivery)
    requires d.Update? && FindRemote(db.rows, d.obj.id, d.actor).Some? && d.attributed && d.obj.id != ""
    ensures ApplyUpdate(w, db, d) == db <==> RevisionAbsorbed(w, db, FindRemote(db.rows, d.obj.id, d.actor).value, d.obj)
  {
    hide Revised, Admit, CachedPublic;
    var n := FindRemote(db.rows, d.obj.id, d.actor).value;
    assert ApplyUpdate(w, db, d).rows == db.rows <==> Revised(w, db, db.rows[n], d.obj) == db.rows[n];
  }

  /** In any state: a delivery changes nothing if and only if its guard says so. */
  lemma DeliveryIsANoOpIff(w: World, db: Db, d: Delivery)
    ensures Deliver(w, db, d) == db <==> Absorbed(w, db, d)
  {
    hide Admit, ApplyUpdate, AdmissionAbsorbed, RevisionAbsorbed, IsUrl, HasAudience;
    match d
    case Create(actor, o, _, _, attributed, mirrors) => AdmissionIsANoOpIff(w, db, actor, o, attributed, mirrors);
    case Update(actor, o, _, _, attributed, mirrors) =>
      AdmissionIsANoOpIff(w, db, actor, o, attributed, mirrors);
      if FindRemote(db.rows, o.id, actor).Some? && attributed && o.id != "" {
        RevisingIsANoOpIff(w, db, d);
      } else {
        UpdateOfUnknown(w, db, d);
      }
    case Announce(_, _, _, _, _, _, _, _) =>
    case _ =>
      MarkingShows(db, IdOf(d), d.actor, d.now);
  }

  lemma UpdateOfUnknown(w: World, db: Db, d: Delivery)
    requires d.Update?
    ensures FindRemote(db.rows, d.obj.id, d.actor).None? && d.admitted && d.attributed && d.obj.id != "" ==>
              ApplyUpdate(w, db, d) == Admit(w, db, d.actor, d.obj, true, d.mirrors)
    ensures (FindRemote(db.rows, d.obj.id, d.actor).None? && !d.admitted) || !d.attributed || d.obj.id == "" ==>
              ApplyUpdate(w, db, d) == db
  {
  }

  lemma MarkingShows(db: Db, id: string, actor: string, now: Time)
    ensures var at := FindRemote(db.rows, id, actor);
            Retract(db, at, now) == db <==> at.None? || db.rows[at.value].deletedAt.Some?
  {
    var at := FindRemote(db.rows, id, actor);
    if at.Some? && db.rows[at.value].deletedAt.None? {
      assert Retract(db, at, now).rows[at.value].deletedAt.Some?;
    }
  }

  // ----- delivering twice in a row: creates ---------------------------------------------------------------------

  /** A quote that also names itself as its parent, mirrored here for the first time. */
  predicate QuotesAndRepliesToItself(db: Db, o: Obj) {
    && Truthy(o.quotes) && Truthy(o.inReplyTo) && o.inReplyTo.value == o.id && o.quotes.value != o.id
    && Resolve(db.rows, o.quotes.value).None? && Resolve(db.rows, o.id).None?
  }

  /** Once an object has a row, admitting it again changes nothing, unless its thread stays unknown. */
  lemma AdmittedOnceMore(w: World, db: Db, actor: string, o: Obj, attributed: bool, mirrors: Mirroring)
    requires Existing(db.rows, o.id).Some?
    requires var ref := if Truthy(o.quotes) then o.quotes else o.inReplyTo;
             Truthy(ref) && Resolve(db.rows, ref.value).Some?
    ensures Admit(w, db, actor, o, attributed, mirrors) == db
  {
  }

  lemma MentionsSettle(have: set<Mention>, ms: set<Mention>)
    ensures NewMentions(have + NewMentions(have, ms), ms) == {}
  {
    forall m | m in ms ensures exists x :: x in have + NewMentions(have, ms) && x.handle == m.handle {
      assert m in NewMentions(have, ms) || exists x :: x in have && x.handle == m.handle;
    }
  }

  lemma MirroredOnceMore(db: Db, actor: string, o: Obj, attributed: bool, mirrors: Mirroring)
    requires Mirrored(actor, o, attributed, mirrors)
    requires WritesOnly(db.rows, MirrorPost(db, actor, o, attributed, mirrors).rows, o.id)
    ensures var d := MirrorPost(db, actor, o, attributed, mirrors);
            MirrorPost(d, actor, o, attributed, mirrors) == d <==> MirrorParent(d, o) == MirrorParent(db, o)
  {
    hide IsUrl, MirrorKind, MirrorParent, MirrorVisibility, ContentOf;
    var d := MirrorPost(db, actor, o, attributed, mirrors);
    ExistingIsStable(db.rows, d.rows, o.id);
    var n := Existing(d.rows, o.id).value;
    assert d.rows[n].parent == MirrorParent(db, o);
    MentionsSettle(if Existing(db.rows, o.id).Some? then db.rows[n].mentions else {}, o.mentions);
    hide NewMentions;
    assert d.rows[n].mentions + {} == d.rows[n].mentions;
    assert MirrorPost(d, actor, o, attributed, mirrors).rows == d.rows[n := d.rows[n].(parent := MirrorParent(d, o))];
    assert d.rows[n := d.rows[n]] == d.rows;
  }

  /** What one admission is: a materialised row under a known reference, or a mirror. */
  lemma AdmissionShape(w: World, db: Db, actor: string, o: Obj, attributed: bool, mirrors: Mirroring)
    ensures var one := Admit(w, db, actor, o, attributed, mirrors);
            || one == db
            || mirrors == CachedOnly
            || (Truthy(Reference(o)) && Resolve(db.rows, Reference(o).value).Some? && Existing(one.rows, o.id).Some?)
            || (Mirrored(actor, o, attributed, mirrors) && one == MirrorPost(db, actor, o, attributed, mirrors)
                && Existing(one.rows, o.id).Some? && (Truthy(Reference(o)) ==> Resolve(db.rows, Reference(o).value).None?))
  {
    hide IsUrl, MirrorKind, MirrorParent, MirrorVisibility, ContentOf, ResolveEntity, HasAudience, MaterializedVisibility;
    var one := Admit(w, db, actor, o, attributed, mirrors);
    AdmitWritesOnly(w, db, actor, o, attributed, mirrors);
    ExistingIsStable(db.rows, one.rows, o.id);
  }

  lemma MirrorParentSettles(db: Db, more: Db, o: Obj)
    requires WritesOnly(db.rows, more.rows, o.id) && Existing(more.rows, o.id).Some?
    requires Truthy(Reference(o)) ==> Resolve(db.rows, Reference(o).value).None? && Reference(o).value != o.id
    ensures MirrorParent(more, o) == MirrorParent(db, o) <==> !QuotesAndRepliesToItself(db, o)
  {
    hide WritesOnly, Existing;
    WritingGrows(db.rows, more.rows, o.id);
    if Truthy(o.quotes) && o.quotes.value != o.id {
      OthersResolveAlike(db.rows, more.rows, o.id, o.quotes.value);
    }
    if Truthy(o.inReplyTo) {
      if o.inReplyTo.value != o.id {
        OthersResolveAlike(db.rows, more.rows, o.id, o.inReplyTo.value);
      } else if Resolve(db.rows, o.id).Some? {
        ResolveIsStable(db.rows, more.rows, o.id);
      }
    }
  }

  lemma UnknownIsMirrored(w: World, db: Db, actor: string, o: Obj, attributed: bool, mirrors: Mirroring)
    requires Truthy(Reference(o)) ==> Resolve(db.rows, Reference(o).value).None?
    ensures Admit(w, db, actor, o, attributed, mirrors) == MirrorPost(db, actor, o, attributed, mirrors)
  {
  }

  lemma MirroringIsNoticed(db: Db, actor: string, o: Obj, attributed: bool, mirrors: Mirroring)
    requires Mirrored(actor, o, attributed, mirrors) && Existing(db.rows, o.id).None?
    ensures MirrorPost(db, actor, o, attributed, mirrors) != db
  {
  }

  /** Caching an object twice is caching it once, and does not change how its reference fares. */
  lemma CachedOnlyTwice(w: World, db: Db, actor: string, o: Obj, attributed: bool)
    requires Backed(db)
    ensures var one := Admit(w, db, actor, o, attributed, CachedOnly);
            Admit(w, one, actor, o, attributed, CachedOnly) == one
  {
    hide IsUrl, Resolve, Existing, ContentOf, HasAudience, MaterializedVisibility;
    var one := Admit(w, db, actor, o, attributed, CachedOnly);
    AdmitWritesOnly(w, db, actor, o, attributed, CachedOnly);
    WritingGrows(db.rows, one.rows, o.id);
    ExistingIsStable(db.rows, one.rows, o.id);
    var ref := Reference(o);
    if Truthy(ref) && Resolve(db.rows, ref.value).Some? {
      ResolveIsStable(db.rows, one.rows, ref.value);
    }
  }

  lemma AdmittingTwice(w: World, db: Db, actor: string, o: Obj, attributed: bool, mirrors: Mirroring)
    requires Backed(db)
    ensures var one := Admit(w, db, actor, o, attributed, mirrors);
            Admit(w, one, actor, o, attributed, mirrors) == one <==>
              !(Mirrored(actor, o, attributed, mirrors) && QuotesAndRepliesToItself(db, o))
  {
    hide Mirrored, MirrorPost, Admit, Resolve, Existing, WritesOnly, MirrorParent;
    var one := Admit(w, db, actor, o, attributed, mirrors);
    AdmissionShape(w, db, actor, o, attributed, mirrors);
    AdmitWritesOnly(w, db, actor, o, attributed, mirrors);
    WritingGrows(db.rows, one.rows, o.id);
    var ref := Reference(o);
    if mirrors == CachedOnly {
      CachedOnlyTwice(w, db, actor, o, attributed);
      NotMirrored(actor, o, attributed, mirrors);
    } else if Truthy(ref) && Resolve(db.rows, ref.value).Some? {
      ResolveIsStable(db.rows, one.rows, ref.value);
      if one != db {
        AdmittedOnceMore(w, one, actor, o, attributed, mirrors);
      }
    } else {
      UnknownIsMirrored(w, db, actor, o, attributed, mirrors);
      if Truthy(ref) && Resolve(one.rows, ref.value).Some? {
        if ref.value != o.id {
          OthersResolveAlike(db.rows, one.rows, o.id, ref.value);
        }
        if one != db {
          AdmittedOnceMore(w, one, actor, o, attributed, mirrors);
        }
      } else if one == db {
        if Mirrored(actor, o, attributed, mirrors) && QuotesAndRepliesToItself(db, o) {
          NoRemoteHere(db.rows, o.id);
          MirroringIsNoticed(db, actor, o, attributed, mirrors);
        }
      } else {
        UnknownIsMirrored(w, one, actor, o, attributed, mirrors);
        MirroredOnceMore(db, actor, o, attributed, mirrors);
        OwnIdResolves(one.rows, o.id);
        MirrorParentSettles(db, one, o);
      }
    }
  }

  lemma NotMirrored(actor: string, o: Obj, attributed: bool, mirrors: Mirroring)
    requires mirrors != AsActivity
    ensures !Mirrored(actor, o, attributed, mirrors)
  {
  }

  lemma NoRemoteHere(rows: seq<Row>, id: string)
    ensures Resolve(rows, id).None? ==> Existing(rows, id).None?
  {
    var at := Existing(rows, id);
    assert at.Some? ==> rows[at.value].sourceId == id;
  }

  lemma OwnIdResolves(rows: seq<Row>, id: string)
    requires Existing(rows, id).Some?
    ensures Resolve(rows, id).Some?
  {
    assert rows[Existing(rows, id).value].sourceId == id;
  }

  // ----- delivering twice in a row: retractions, updates and boosts ----------------------------------------------

  lemma FindRemoteIsStable(rows: seq<Row>, id: string, actor: string, n: nat, row: Row)
    requires n < |rows| && row.remote == rows[n].remote && row.sourceId == rows[n].sourceId && row.actor == rows[n].actor
    ensures FindRemote(rows[n := row], id, actor) == FindRemote(rows, id, actor)
  {
    var front := rows[..|rows| - 1];
    if n < |front| {
      assert rows[n := row][..|rows| - 1] == front[n := row];
      FindRemoteIsStable(front, id, actor, n, row);
    } else {
      assert rows[n := row][..|rows| - 1] == front;
    }
  }

  lemma RetractingTwice(db: Db, id: string, actor: string, now: Time)
    ensures var at := FindRemote(db.rows, id, actor);
            var one := Retract(db, at, now);
            FindRemote(one.rows, id, actor) == at && Retract(one, at, now) == one
            && (at.Some? ==> one.rows[at.value].kind == db.rows[at.value].kind)
  {
    var at := FindRemote(db.rows, id, actor);
    if at.Some? {
      FindRemoteIsStable(db.rows, id, actor, at.value, db.rows[at.value].(deletedAt := Some(now)));
    }
  }

  lemma UpdatingTwice(w: World, db: Db, d: Delivery)
    requires d.Update? && FindRemote(db.rows, d.obj.id, d.actor).Some?
    ensures ApplyUpdate(w, ApplyUpdate(w, db, d), d) == ApplyUpdate(w, db, d)
  {
    hide Admit, FindRemote, ContentOf, MaterializedVisibility, MirrorVisibility;
    var n := FindRemote(db.rows, d.obj.id, d.actor).value;
    var row := Revised(w, db, db.rows[n], d.obj);
    RevisedKeepsIdentity(w, db, db.rows[n], d.obj);
    FindRemoteIsStable(db.rows, d.obj.id, d.actor, n, row);
    var one := ApplyUpdate(w, db, d);
    assert one != db ==> one.rows[n] == row;
    assert Revised(w, one, row, d.obj) == row;
    assert db.rows[n := row][n := row] == db.rows[n := row];
  }

  lemma AnnouncingTwice(w: World, db: Db, d: Delivery)
    requires d.Announce?
    ensures ApplyAnnounce(w, ApplyAnnounce(w, db, d), d) == ApplyAnnounce(w, db, d)
  {
    var one := ApplyAnnounce(w, db, d);
    AnnounceWritesOnly(w, db, d);
    ExistingIsStable(db.rows, one.rows, d.id);
  }

  // ----- delivering twice in a row: missed updates --------------------------------------------------------------------------------------------

  /** A missed update whose object lands on a mirrored thread: a second delivery revises it by other rules. */
  predicate LandsOnMirror(w: World, db: Db, d: Delivery)
    requires d.Update?
  {
    var o := d.obj;
    && ReferenceKnown(db, o) && Existing(db.rows, o.id).None? && Admissible(w, db, d.actor, o)
    && var entity := db.rows[Resolve(db.rows, Reference(o).value).value].entity;
       && entity.Mirror?
       && !(MaterializedVisibility(o.public, ResolveEntity(w, db, entity).value) == MirrorVisibility(CachedPublic(o), o.mentions)
            && CachedAs(db, o))
  }

  /** A missed update mirrored over another actor's row: a second delivery drops that row's other mentions, or re-clamps it. */
  predicate TakesOverRow(w: World, db: Db, d: Delivery)
    requires d.Update?
  {
    var o := d.obj;
    && !ReferenceKnown(db, o) && d.mirrors == AsActivity && Existing(db.rows, o.id).Some?
    && var row := db.rows[Existing(db.rows, o.id).value];
       !(row.mentions + NewMentions(row.mentions, o.mentions) == o.mentions
         && (row.entity.Local? && row.entity.id in w.entities ==>
               MaterializedVisibility(o.public, w.entities[row.entity.id]) == MirrorVisibility(CachedPublic(o), o.mentions)))
  }

  /** The updates a second delivery does not repeat. */
  predicate UpdateUnsettled(w: World, db: Db, d: Delivery) {
    && d.Update? && !d.cut && d.admitted && d.attributed && IsUrl(d.actor) && IsUrl(d.obj.id)
    && FindRemote(db.rows, d.obj.id, d.actor).None?
    && (LandsOnMirror(w, db, d) || TakesOverRow(w, db, d))
  }

  /** The creates a second delivery does not repeat. */
  predicate CreateUnsettled(db: Db, d: Delivery) {
    && d.Create? && !d.cut && d.admitted && Mirrored(d.actor, d.obj, d.attributed, d.mirrors)
    && QuotesAndRepliesToItself(db, d.obj)
  }

  /** A row appended under an id no row of the actor had is the one found afterwards. */
  lemma NewRowIsFound(rows: seq<Row>, row: Row, id: string, actor: string)
    requires FindRemote(rows, id, actor).None? && row.remote && row.sourceId == id && row.actor == actor
    ensures FindRemote(rows + [row], id, actor) == Some(|rows|)
  {
    assert (rows + [row])[..|rows|] == rows;
  }

  lemma TakenRowIsFound(rows: seq<Row>, n: nat, row: Row, id: string, actor: string)
    requires n < |rows| && FindRemote(rows, id, actor).None? && row.remote && row.sourceId == id && row.actor == actor
    ensures FindRemote(rows[n := row], id, actor) == Some(n)
  {
    var more := rows[n := row];
    assert more[n] == row;
    var at := FindRemote(more, id, actor);
    assert at.Some?;
    assert forall m :: 0 <= m < |rows| && m != n ==> more[m] == rows[m];
  }

  lemma LandingTwice(w: World, db: Db, d: Delivery)
    requires d.Update? && !d.cut && d.admitted && d.attributed && IsUrl(d.actor) && IsUrl(d.obj.id)
    requires FindRemote(db.rows, d.obj.id, d.actor).None?
    requires ReferenceKnown(db, d.obj) && Existing(db.rows, d.obj.id).None? && Admissible(w, db, d.actor, d.obj)
    ensures var one := ApplyUpdate(w, db, d); ApplyUpdate(w, one, d) == one <==> !UpdateUnsettled(w, db, d)
  {
    hide IsUrl, HasAudience, ContentOf, MaterializedVisibility, MirrorVisibility, CachedPublic;
    var one := ApplyUpdate(w, db, d);
    assert d.obj.id != "" by { UrlsAreNotEmpty(d.obj.id); }
    var row := one.rows[|db.rows|];
    assert one.rows == db.rows + [row];
    NewRowIsFound(db.rows, row, d.obj.id, d.actor);
    RevisingIsANoOpIff(w, one, d);
  }

  lemma MirroringNewTwice(w: World, db: Db, d: Delivery)
    requires d.Update? && d.admitted && d.attributed && IsUrl(d.actor) && IsUrl(d.obj.id) && d.mirrors == AsActivity
    requires FindRemote(db.rows, d.obj.id, d.actor).None? && Existing(db.rows, d.obj.id).None?
    requires ApplyUpdate(w, db, d) == MirrorPost(db, d.actor, d.obj, true, d.mirrors)
    ensures var one := ApplyUpdate(w, db, d); ApplyUpdate(w, one, d) == one
  {
    hide IsUrl, HasAudience, ContentOf, MirrorVisibility, CachedPublic, MirrorKind, MirrorParent, ApplyUpdate;
    var one := ApplyUpdate(w, db, d);
    UrlsAreNotEmpty(d.obj.id);
    var row := one.rows[|db.rows|];
    NewMentionsOfNone(d.obj.mentions);
    assert one.rows == db.rows + [row];
    NewRowIsFound(db.rows, row, d.obj.id, d.actor);
    RevisingIsANoOpIff(w, one, d);
  }

  lemma NewMentionsOfNone(ms: set<Mention>)
    ensures {} + NewMentions({}, ms) == ms
  {
  }

  lemma TakingOverTwice(w: World, db: Db, d: Delivery)
    requires d.Update? && !d.cut && d.admitted && d.attributed && IsUrl(d.actor) && IsUrl(d.obj.id) && d.mirrors == AsActivity
    requires FindRemote(db.rows, d.obj.id, d.actor).None? && Existing(db.rows, d.obj.id).Some? && !ReferenceKnown(db, d.obj)
    ensures var one := ApplyUpdate(w, db, d); ApplyUpdate(w, one, d) == one <==> !UpdateUnsettled(w, db, d)
  {
    hide IsUrl, HasAudience, ContentOf, MirrorVisibility, MaterializedVisibility, CachedPublic, MirrorKind, MirrorParent, NewMentions;
    UrlsAreNotEmpty(d.obj.id);
    UpdateOfUnknown(w, db, d);
    UnknownIsMirrored(w, db, d.actor, d.obj, true, d.mirrors);
    hide ApplyUpdate, Admit;
    var one, n := ApplyUpdate(w, db, d), Existing(db.rows, d.obj.id).value;
    var row := one.rows[n];
    assert one.rows == db.rows[n := row];
    TakenRowIsFound(db.rows, n, row, d.obj.id, d.actor);
    RevisingIsANoOpIff(w, one, d);
  }

  lemma UpdatingUnknownTwice(w: World, db: Db, d: Delivery)
    requires Backed(db) && d.Update? && !d.cut && FindRemote(db.rows, d.obj.id, d.actor).None?
    ensures var one := ApplyUpdate(w, db, d); ApplyUpdate(w, one, d) == one <==> !UpdateUnsettled(w, db, d)
  {
    var o := d.obj;
    UpdateOfUnknown(w, db, d);
    if d.admitted && d.attributed && IsUrl(d.actor) && IsUrl(o.id) {
      UrlsAreNotEmpty(o.id);
      if ReferenceKnown(db, o) && Existing(db.rows, o.id).Some? {
        AdmissionIsANoOpIff(w, db, d.actor, o, true, d.mirrors);
      } else if ReferenceKnown(db, o) && Admissible(w, db, d.actor, o) {
        LandingTwice(w, db, d);
      } else {
        UnadmittedIsMirrored(w, db, d.actor, o, d.mirrors);
        MirroredUpdateTwice(w, db, d);
      }
    } else {
      AdmissionIsANoOpIff(w, db, d.actor, o, d.attributed, d.mirrors);
    }
  }

  lemma UnadmittedIsMirrored(w: World, db: Db, actor: string, o: Obj, mirrors: Mirroring)
    requires !ReferenceKnown(db, o) || (Existing(db.rows, o.id).None? && !Admissible(w, db, actor, o))
    ensures Admit(w, db, actor, o, true, mirrors) == MirrorPost(db, actor, o, true, mirrors)
  {
    hide IsUrl, MirrorPost, HasAudience;
  }

  lemma MirroredUpdateTwice(w: World, db: Db, d: Delivery)
    requires Backed(db) && d.Update? && !d.cut && d.admitted && d.attributed && IsUrl(d.actor) && IsUrl(d.obj.id)
    requires FindRemote(db.rows, d.obj.id, d.actor).None?
    requires !ReferenceKnown(db, d.obj) || (Existing(db.rows, d.obj.id).None? && !Admissible(w, db, d.actor, d.obj))
    requires ApplyUpdate(w, db, d) == MirrorPost(db, d.actor, d.obj, true, d.mirrors)
    ensures var one := ApplyUpdate(w, db, d); ApplyUpdate(w, one, d) == one <==> !UpdateUnsettled(w, db, d)
  {
    var o := d.obj;
    UrlsAreNotEmpty(o.id);
    UpdateOfUnknown(w, db, d);
    if d.mirrors == AsActivity {
      if Existing(db.rows, o.id).Some? {
        TakingOverTwice(w, db, d);
      } else {
        MirroringNewTwice(w, db, d);
      }
    } else {
      hide Admit, Admissible;
      CachingKeepsRows(db, d.actor, o, d.mirrors);
      if d.mirrors == CachedOnly {
        CachedOnlyTwice(w, db, d.actor, o, true);
      }
      UpdateOfUnknown(w, ApplyUpdate(w, db, d), d);
      hide ApplyUpdate, MirrorPost;
    }
  }

  lemma CachingKeepsRows(db: Db, actor: string, o: Obj, mirrors: Mirroring)
    requires mirrors != AsActivity
    ensures MirrorPost(db, actor, o, true, mirrors).rows == db.rows
    ensures mirrors == Refused ==> MirrorPost(db, actor, o, true, mirrors) == db
  {
  }

  /**
   Redelivery at once.  Delivering anything twice in a row is delivering it once, relays
   included -- except exactly for a create whose object is mirrored here for the first time
   while quoting an object not known here and naming itself as its own parent, and for an
   update that reveals a missed create and whose object lands on a mirrored thread or takes
   over another actor's row, as spelt out above.
   */
  lemma RedeliveryIsANoOpIff(w: World, db: Db, d: Delivery)
    requires Backed(db)
    ensures Deliver(w, Deliver(w, db, d), d) == Deliver(w, db, d) <==> !CreateUnsettled(db, d) && !UpdateUnsettled(w, db, d)
  {
    hide Admit, ApplyUpdate, ApplyAnnounce, Mirrored, QuotesAndRepliesToItself, LandsOnMirror, TakesOverRow;
    match d
    case Create(actor, o, _, _, attributed, mirrors) => AdmittingTwice(w, db, actor, o, attributed, mirrors);
    case Update(actor, o, cut, _, _, _) =>
      if FindRemote(db.rows, o.id, actor).Some? {
        UpdatingTwice(w, db, d);
      } else if !cut {
        UpdatingUnknownTwice(w, db, d);
      }
    case Announce(_, _, _, _, _, _, _, _) => AnnouncingTwice(w, db, d);
    case _ =>
      RetractingTwice(db, IdOf(d), d.actor, d.now);
  }

  // ----- redelivery later in a run -------------------------------------------------------------------------------

  /** A create the inbox takes in and may mirror. */
  predicate TakenIn(d: Delivery) {
    d.Create? && !d.cut && d.admitted && Mirrored(d.actor, d.obj, d.attributed, d.mirrors)
  }

  /** It leaves a row behind, in its thread or as a mirror. */
  lemma TakenInLeavesARow(w: World, db: Db, d: Delivery)
    requires TakenIn(d)
    ensures Existing(Deliver(w, db, d).rows, d.obj.id).Some?
  {
    hide IsUrl, HasAudience, ContentOf, MirrorVisibility, MaterializedVisibility, CachedPublic, MirrorKind, MirrorParent, NewMentions;
    var one := Deliver(w, db, d);
    AdmitWritesOnly(w, db, d.actor, d.obj, d.attributed, d.mirrors);
    ExistingIsStable(db.rows, one.rows, d.obj.id);
  }

  lemma {:induction false} RowsOutlastRuns(w: World, db: Db, run: seq<Delivery>, id: string, i: nat)
    requires i <= |run| && Existing(After(w, db, run[..i]).rows, id).Some?
    ensures Existing(After(w, db, run).rows, id) == Existing(After(w, db, run[..i]).rows, id)
  {
    hide Deliver, Existing;
    if i == |run| {
      assert run[..i] == run;
    } else {
      var front, d := run[..|run| - 1], run[|run| - 1];
      assert front[..i] == run[..i];
      RowsOutlastRuns(w, db, front, id, i);
      var m := After(w, db, front);
      DeliveryWritesOnly(w, m, d);
      WritingGrows(m.rows, Deliver(w, m, d).rows, IdOf(d));
      ExistingIsStable(m.rows, Deliver(w, m, d).rows, id);
    }
  }

  lemma RunOfOneMore(w: World, db: Db, run: seq<Delivery>, d: Delivery)
    ensures After(w, db, run + [d]) == Deliver(w, After(w, db, run), d)
  {
    assert (run + [d])[..|run|] == run;
  }

  /**
   Redelivery, over every run.  A create taken in somewhere in a run, delivered again at its
   end, changes nothing if and only if what it answers is known by then -- or its row and the
   cache still read as mirroring it leaves them, so nothing has revised or retracted it since.
   */
  lemma RedeliveredCreateIsANoOpIff(w: World, db: Db, run: seq<Delivery>, i: nat)
    requires i < |run| && TakenIn(run[i])
    ensures var end, d := After(w, db, run), run[i];
            After(w, db, run + [d]) == end <==> ReferenceKnown(end, d.obj) || ReadsAsMirrored(end, d.actor, d.obj)
  {
    hide Deliver, After, ReadsAsMirrored, ReferenceKnown, Existing, Admissible, IsUrl;
    var end, d := After(w, db, run), run[i];
    assert run[..i + 1] == run[..i] + [d];
    RunOfOneMore(w, db, run[..i], d);
    TakenInLeavesARow(w, After(w, db, run[..i]), d);
    RowsOutlastRuns(w, db, run, d.obj.id, i + 1);
    RunOfOneMore(w, db, run, d);
    DeliveryIsANoOpIff(w, end, d);
  }

  /** A boost stored somewhere in a run is stored for good: delivered again it changes nothing. */
  lemma RedeliveredBoostIsANoOp(w: World, db: Db, run: seq<Delivery>, i: nat)
    requires i < |run| && run[i].Announce? && Existing(After(w, db, run[..i + 1]).rows, run[i].id).Some?
    ensures After(w, db, run + [run[i]]) == After(w, db, run)
  {
    RowsOutlastRuns(w, db, run, run[i].id, i + 1);
    RunOfOneMore(w, db, run, run[i]);
    DeliveryIsANoOpIff(w, After(w, db, run), run[i]);
    hide Deliver, After, Existing;
  }

  /**
   For a reply to a known target, then, every create of it is absorbed once its row is
   there, wherever in whatever run it is delivered again.
   */
  lemma RepliesAbsorbTheirCreates(w: World, db: Db, run: seq<Delivery>, t: Thread, d: Delivery)
    requires Good(w, db.rows, t) && forall n :: 0 <= n < |run| ==> Concerns(run[n], t)
    requires d.Create? && IdOf(d) == t.x && Concerns(d, t) && Existing(After(w, db, run).rows, t.x).Some?
    ensures After(w, db, run + [d]) == After(w, db, run)
  {
    RunStaysGood(w, db, run, t);
    RunOfOneMore(w, db, run, d);
    if d.attributed {
      AdmitAnswersTheTarget(w, After(w, db, run), d.obj, d.mirrors, t);
    } else {
      ForgeriesAreDropped(w, After(w, db, run), d);
    }
    hide Admit, Good, After;
  }
}
