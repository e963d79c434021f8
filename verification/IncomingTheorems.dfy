/**
 What any sequence of inbound deliveries keeps: one remote row per object id, the last
 update's content however deliveries are reordered and repeated, retraction marks, relays
 and visibility.
 */
module IncomingTheorems {
  import opened Prelude
  import opened Incoming

  // ----- one row per object ------------------------------------------------------------------------------

  /** No object id has two remote rows. */
  ghost predicate OneRemoteEach(rows: seq<Row>) {
    forall i, j :: 0 <= i < j < |rows| && rows[i].remote && rows[j].remote ==> rows[i].sourceId != rows[j].sourceId
  }

  /** Rows keep their place, object id, side, owner and entity. */
  ghost predicate Grows(rows: seq<Row>, more: seq<Row>) {
    && |rows| <= |more|
    && forall i :: 0 <= i < |rows| ==>
         && more[i].remote == rows[i].remote && more[i].sourceId == rows[i].sourceId
         && more[i].owner == rows[i].owner && more[i].entity == rows[i].entity
  }

  /** The object ids a delivery can write a row for. */
  function IdOf(d: Delivery): string {
    match d
    case Create(_, o, _, _, _, _) => o.id
    case Update(_, o, _, _, _, _) => o.id
    case Announce(_, id, _, _, _, _, _, _) => id
    case Delete(_, gone, _) => gone
    case Undo(_, inner, _, _) => inner
  }

  /** A delivery writes at most one row: a remote one under its own id, new only if none was there. */
  ghost predicate WritesOnly(rows: seq<Row>, more: seq<Row>, id: string) {
    && Grows(rows, more) && |more| <= |rows| + 1
    && (forall i :: 0 <= i < |rows| && !(rows[i].remote && rows[i].sourceId == id) ==> more[i] == rows[i])
    && (|more| > |rows| ==> Existing(rows, id).None? && more[|rows|].remote && more[|rows|].sourceId == id && more[..|rows|] == rows)
  }

  lemma AdmitWritesOnly(w: World, db: Db, actor: string, o: Obj, attributed: bool, mirrors: Mirroring)
    ensures WritesOnly(db.rows, Admit(w, db, actor, o, attributed, mirrors).rows, o.id)
  {
  }

  lemma UpdateWritesOnly(w: World, db: Db, d: Delivery)
    requires d.Update?
    ensures WritesOnly(db.rows, ApplyUpdate(w, db, d).rows, d.obj.id)
  {
    hide Admit, Revised, WritesOnly;
    AdmitWritesOnly(w, db, d.actor, d.obj, d.attributed, d.mirrors);
    var at := FindRemote(db.rows, d.obj.id, d.actor);
    NoWrite(db.rows, d.obj.id);
    if at.Some? {
      RevisedKeepsIdentity(w, db, db.rows[at.value], d.obj);
      RowWrite(db.rows, at.value, Revised(w, db, db.rows[at.value], d.obj));
    }
  }

  lemma NoWrite(rows: seq<Row>, id: string)
    ensures WritesOnly(rows, rows, id)
  {
  }

  lemma RowWrite(rows: seq<Row>, n: nat, row: Row)
    requires n < |rows| && rows[n].remote
    requires row.remote && row.sourceId == rows[n].sourceId && row.owner == rows[n].owner && row.entity == rows[n].entity
    ensures WritesOnly(rows, rows[n := row], row.sourceId)
  {
  }

  lemma AnnounceWritesOnly(w: World, db: Db, d: Delivery)
    requires d.Announce?
    ensures WritesOnly(db.rows, ApplyAnnounce(w, db, d).rows, d.id)
  {
  }

  lemma DeliveryWritesOnly(w: World, db: Db, d: Delivery)
    ensures WritesOnly(db.rows, Deliver(w, db, d).rows, IdOf(d))
  {
    hide Admit, ApplyUpdate, ApplyAnnounce, WritesOnly;
    NoWrite(db.rows, IdOf(d));
    match d
    case Create(actor, o, _, _, attributed, mirrors) => AdmitWritesOnly(w, db, actor, o, attributed, mirrors);
    case Update(_, _, _, _, _, _) => UpdateWritesOnly(w, db, d);
    case Announce(_, _, _, _, _, _, _, _) => AnnounceWritesOnly(w, db, d);
    case _ =>
      var at := FindRemote(db.rows, IdOf(d), d.actor);
      if at.Some? {
        RowWrite(db.rows, at.value, db.rows[at.value].(deletedAt := Some(d.now)));
      }
  }

  lemma WriteKeepsOneRemoteEach(rows: seq<Row>, more: seq<Row>, id: string)
    requires OneRemoteEach(rows) && WritesOnly(rows, more, id)
    ensures OneRemoteEach(more)
  {
  }

  ghost function After(w: World, db: Db, run: seq<Delivery>): Db {
    if run == [] then db else Deliver(w, After(w, db, run[..|run| - 1]), run[|run| - 1])
  }

  /** Over every inbound sequence there is at most one remote row per object id. */
  lemma {:induction false} EachObjectHasOneRow(w: World, db: Db, run: seq<Delivery>)
    requires OneRemoteEach(db.rows)
    ensures OneRemoteEach(After(w, db, run).rows) && Grows(db.rows, After(w, db, run).rows)
  {
    hide Deliver, OneRemoteEach, WritesOnly;
    if run != [] {
      var front, d := run[..|run| - 1], run[|run| - 1];
      EachObjectHasOneRow(w, db, front);
      var m := After(w, db, front);
      DeliveryWritesOnly(w, m, d);
      WriteKeepsOneRemoteEach(m.rows, Deliver(w, m, d).rows, IdOf(d));
      WritingGrows(m.rows, Deliver(w, m, d).rows, IdOf(d));
    }
  }

  lemma WritingGrows(rows: seq<Row>, more: seq<Row>, id: string)
    requires WritesOnly(rows, more, id)
    ensures Grows(rows, more)
  {
  }

  // ----- the last update wins ------------------------------------------------------------------------------

  /** What readers see of a materialised object. */
  datatype View = View(content: Option<string>, language: Option<string>, mentions: set<Mention>, visibility: Visibility)

  function Shown(row: Row): View { View(row.content, row.language, row.mentions, row.visibility) }

  /** How an object shows on a row of the given entity, where the local entity has visibility `e`. */
  function ShownAs(o: Obj, entity: Entity, e: Visibility): View {
    View(if o.content == Some("") then None else o.content, o.language, o.mentions,
         match entity
         case Local(_) => if o.public then e else Mentioned
         case Mirror(_) =>
           if o.public || o.publicly then Public else if exists m :: m in o.mentions && m.user != None then Mentioned else LocalOnly)
  }

  /** The reply under study: object `x` by `actor`, answering a known row on a local entity. */
  datatype Thread = Thread(x: string, actor: string, target: string, entity: nat, e: Visibility)

  /** The target is known, hangs on a visible local entity, and its owner does not block the author. */
  ghost predicate TargetKnown(w: World, rows: seq<Row>, t: Thread) {
    && t.target != "" && t.target != t.x && IsUrl(t.x) && IsUrl(t.actor)
    && t.entity in w.entities && w.entities[t.entity] == t.e
    && Resolve(rows, t.target).Some?
    && var row := rows[Resolve(rows, t.target).value];
       row.entity == Local(t.entity) && !(row.owner.Some? && w.blocks(row.owner.value, t.actor))
  }

  /**
   Deliveries under `x` that pass the attribution test come from its author, as replies to
   the target; forged ones may come from anyone and say anything.
   */
  ghost predicate Concerns(d: Delivery, t: Thread) {
    IdOf(d) == t.x ==>
      match d
      case Create(actor, o, _, _, attributed, _) =>
        attributed ==> actor == t.actor && o.inReplyTo == Some(t.target) && !Truthy(o.quotes)
      case Update(actor, o, _, _, attributed, _) =>
        attributed ==> actor == t.actor && o.inReplyTo == Some(t.target) && !Truthy(o.quotes)
      case Announce(_, _, _, _, _, _, _, _) => false
      case Delete(actor, _, _) => true
      case Undo(actor, _, _, _) => true
  }

  /** The table's rows under `x` are one remote row of the author, or none. */
  ghost predicate Tidy(rows: seq<Row>, t: Thread) {
    forall i :: 0 <= i < |rows| && rows[i].sourceId == t.x ==>
      rows[i].remote && rows[i].actor == t.actor && rows[i].kind != Boost
      && (rows[i].entity == Local(t.entity) || rows[i].entity == Mirror(t.x))
  }

  lemma ResolveIsStable(rows: seq<Row>, more: seq<Row>, uri: string)
    requires Grows(rows, more) && Resolve(rows, uri).Some?
    ensures Resolve(more, uri) == Resolve(rows, uri)
  {
    ResolveIsFirst(rows, uri);
    ResolveIsFirst(more, uri);
    var n := Resolve(rows, uri).value;
    assert more[n].sourceId == uri;
    assert forall i :: 0 <= i < n ==> more[i].sourceId == rows[i].sourceId;
  }

  lemma {:induction false} ResolveIsFirst(rows: seq<Row>, uri: string)
    ensures Resolve(rows, uri).Some? ==> forall i :: 0 <= i < Resolve(rows, uri).value ==> rows[i].sourceId != uri
  {
    if rows != [] {
      ResolveIsFirst(rows[..|rows| - 1], uri);
    }
  }

  /** With one remote row under `x`, by its author, both lookups find it. */
  lemma LookupsAgree(rows: seq<Row>, t: Thread)
    requires OneRemoteEach(rows) && Tidy(rows, t)
    ensures FindRemote(rows, t.x, t.actor) == Existing(rows, t.x)
  {
    var a := FindRemote(rows, t.x, t.actor);
    if a.Some? {
      ExistingIsOnly(rows, a.value, t.x);
    }
  }

  /** An attributed, uncut update that is admitted and has an audience. */
  predicate Qualifies(d: Delivery) {
    d.Update? && !d.cut && d.attributed && d.admitted && HasAudience(d.obj.public, d.obj.mentions)
  }

  /** An update of `x` that is neither cut nor forged. */
  predicate Revises(d: Delivery, x: string) { d.Update? && d.obj.id == x && !d.cut && d.attributed }

  /** The effect of one delivery on the thread's reply. */
  ghost predicate Effect(rows: seq<Row>, more: seq<Row>, d: Delivery, t: Thread) {
    var was, now := Existing(rows, t.x), Existing(more, t.x);
    && (was.Some? ==>
          && now == was
          && (Revises(d, t.x) ==> Shown(more[now.value]) == ShownAs(d.obj, more[now.value].entity, t.e))
          && (!Revises(d, t.x) ==> Shown(more[now.value]) == Shown(rows[was.value])))
    && (was.None? && IdOf(d) == t.x && Qualifies(d) ==>
          now.Some? && Shown(more[now.value]) == ShownAs(d.obj, more[now.value].entity, t.e))
  }

  /** Everything the argument needs from one delivery to the next. */
  ghost predicate Good(w: World, rows: seq<Row>, t: Thread) {
    OneRemoteEach(rows) && Tidy(rows, t) && TargetKnown(w, rows, t)
  }

  lemma AdmitAnswersTheTarget(w: World, db: Db, o: Obj, mirrors: Mirroring, t: Thread)
    requires Good(w, db.rows, t) && o.id == t.x && o.inReplyTo == Some(t.target) && !Truthy(o.quotes)
    ensures var d := Admit(w, db, t.actor, o, true, mirrors);
            && (Existing(db.rows, t.x).Some? ==> d == db)
            && (Existing(db.rows, t.x).None? && HasAudience(o.public, o.mentions) ==>
                  d.rows == db.rows + [d.rows[|db.rows|]] && d.rows[|db.rows|].remote && d.rows[|db.rows|].sourceId == t.x
                  && d.rows[|db.rows|].entity == Local(t.entity)
                  && Shown(d.rows[|db.rows|]) == ShownAs(o, Local(t.entity), t.e))
            && Tidy(d.rows, t)
  {
  }

  lemma {:induction false} ExistingIsOnly(rows: seq<Row>, n: nat, id: string)
    requires OneRemoteEach(rows) && n < |rows| && rows[n].remote && rows[n].sourceId == id
    ensures Existing(rows, id) == Some(n)
  {
    assert forall m :: 0 <= m < |rows| && rows[m].remote && rows[m].sourceId == id ==> m == n;
  }

  /** A create or update that fails the attribution test changes nothing. */
  lemma ForgeriesAreDropped(w: World, db: Db, d: Delivery)
    requires (d.Create? || d.Update?) && !d.attributed
    ensures Deliver(w, db, d) == db
  {
  }

  lemma DeliveryStaysTidy(w: World, db: Db, d: Delivery, t: Thread)
    requires Good(w, db.rows, t) && Concerns(d, t)
    ensures Tidy(Deliver(w, db, d).rows, t)
  {
    hide Admit, Revised, HasAudience;
    DeliveryWritesOnly(w, db, d);
    if IdOf(d) == t.x && (d.Create? || d.Update?) && !d.attributed {
      ForgeriesAreDropped(w, db, d);
    } else if IdOf(d) == t.x && (d.Create? || d.Update?) {
      AdmitAnswersTheTarget(w, db, d.obj, d.mirrors, t);
      LookupsAgree(db.rows, t);
      if d.Update? && !d.cut && FindRemote(db.rows, t.x, t.actor).Some? {
        RevisedKeepsIdentity(w, db, db.rows[FindRemote(db.rows, t.x, t.actor).value], d.obj);
      }
    }
  }

  lemma RevisedKeepsIdentity(w: World, db: Db, row: Row, o: Obj)
    ensures var r := Revised(w, db, row, o);
            r.remote == row.remote && r.sourceId == row.sourceId && r.actor == row.actor && r.kind == row.kind
            && r.entity == row.entity && r.owner == row.owner && r.deletedAt == row.deletedAt
  {
  }

  lemma RevisedShows(w: World, db: Db, row: Row, o: Obj, t: Thread)
    requires t.entity in w.entities && w.entities[t.entity] == t.e
    requires row.entity == Local(t.entity) || row.entity == Mirror(t.x)
    ensures Shown(Revised(w, db, row, o)) == ShownAs(o, row.entity, t.e)
  {
  }

  lemma DeliveryEffect(w: World, db: Db, d: Delivery, t: Thread)
    requires Good(w, db.rows, t) && Concerns(d, t)
    ensures Effect(db.rows, Deliver(w, db, d).rows, d, t)
  {
    var more := Deliver(w, db, d).rows;
    DeliveryWritesOnly(w, db, d);
    WriteKeepsOneRemoteEach(db.rows, more, IdOf(d));
    var was := Existing(db.rows, t.x);
    if was.Some? {
      ExistingIsOnly(more, was.value, t.x);
    }
    if IdOf(d) == t.x {
      LookupsAgree(db.rows, t);
      if (d.Create? || d.Update?) && !d.attributed {
        ForgeriesAreDropped(w, db, d);
      } else if d.Create? || d.Update? {
        AdmitAnswersTheTarget(w, db, d.obj, d.mirrors, t);
        if was.None? && Qualifies(d) {
          ExistingIsOnly(more, |db.rows|, t.x);
        }
        if was.Some? {
          RevisedShows(w, db, db.rows[was.value], d.obj, t);
        }
      }
    }
    hide Admit, Revised, OneRemoteEach, TargetKnown, ShownAs, HasAudience;
  }

  lemma DeliveryStaysGood(w: World, db: Db, d: Delivery, t: Thread)
    requires Good(w, db.rows, t) && Concerns(d, t)
    ensures Good(w, Deliver(w, db, d).rows, t)
  {
    DeliveryStaysTidy(w, db, d, t);
    DeliveryWritesOnly(w, db, d);
    hide Deliver, Tidy;
    WriteKeepsOneRemoteEach(db.rows, Deliver(w, db, d).rows, IdOf(d));
    ResolveIsStable(db.rows, Deliver(w, db, d).rows, t.target);
  }

  /** The index of the last such update. */
  ghost predicate LastUpdate(run: seq<Delivery>, x: string, j: nat) {
    && j < |run| && Revises(run[j], x)
    && forall i :: j < i < |run| ==> !Revises(run[i], x)
  }

  lemma {:induction false} RunStaysGood(w: World, db: Db, run: seq<Delivery>, t: Thread)
    requires Good(w, db.rows, t) && forall i :: 0 <= i < |run| ==> Concerns(run[i], t)
    ensures Good(w, After(w, db, run).rows, t)
  {
    hide Good, Concerns, Deliver;
    if run != [] {
      var front := run[..|run| - 1];
      assert forall i :: 0 <= i < |front| ==> front[i] == run[i];
      RunStaysGood(w, db, front, t);
      DeliveryStaysGood(w, After(w, db, front), run[|run| - 1], t);
    }
  }

  /** Once some qualifying update has arrived, the reply is there. */
  lemma {:induction false} QualifyingUpdateMaterializes(w: World, db: Db, run: seq<Delivery>, t: Thread, i: nat)
    requires Good(w, db.rows, t) && forall n :: 0 <= n < |run| ==> Concerns(run[n], t)
    requires i < |run| && IdOf(run[i]) == t.x && Qualifies(run[i])
    ensures Existing(After(w, db, run).rows, t.x).Some?
  {
    hide Good, Concerns, Deliver, Qualifies, Existing;
    var front, d := run[..|run| - 1], run[|run| - 1];
    assert forall n :: 0 <= n < |front| ==> front[n] == run[n];
    RunStaysGood(w, db, front, t);
    DeliveryEffect(w, After(w, db, front), d, t);
    if i < |front| {
      QualifyingUpdateMaterializes(w, db, front, t, i);
    }
  }

  /**
   Last update wins.  For a reply to a known target on a local entity, take any sequence of
   deliveries -- creates, redeliveries, updates and deletes of the reply in any order, forged
   ones included, mixed with anything about other objects -- with at least one attributed,
   admitted update that is public or addresses a local user.  The reply then shows the content, language, mentions and
   visibility of the last update.
   */
  lemma LastUpdateWins(w: World, db: Db, run: seq<Delivery>, t: Thread, i: nat, j: nat)
    requires Good(w, db.rows, t) && forall n :: 0 <= n < |run| ==> Concerns(run[n], t)
    requires i <= j < |run| && IdOf(run[i]) == t.x && Qualifies(run[i]) && LastUpdate(run, t.x, j)
    ensures var rows, o := After(w, db, run).rows, run[j].obj;
            var at := Existing(rows, t.x);
            && at.Some? && rows[at.value].actor == t.actor
            && rows[at.value].content == (if o.content == Some("") then None else o.content)
            && rows[at.value].language == o.language && rows[at.value].mentions == o.mentions
            && (rows[at.value].entity.Local? ==> rows[at.value].visibility == if o.public then t.e else Mentioned)
            && (rows[at.value].entity.Mirror? ==>
                  rows[at.value].visibility ==
                    if o.public || o.publicly then Public else if exists m :: m in o.mentions && m.user.Some? then Mentioned else LocalOnly)
  {
    LastUpdateShows(w, db, run, t, i, j);
    hide After, Good, Concerns, Qualifies, LastUpdate;
  }

  lemma {:induction false} LastUpdateShows(w: World, db: Db, run: seq<Delivery>, t: Thread, i: nat, j: nat)
    requires Good(w, db.rows, t) && forall n :: 0 <= n < |run| ==> Concerns(run[n], t)
    requires i <= j < |run| && IdOf(run[i]) == t.x && Qualifies(run[i]) && LastUpdate(run, t.x, j)
    ensures var rows := After(w, db, run).rows;
            var at := Existing(rows, t.x);
            && at.Some? && rows[at.value].actor == t.actor
            && Shown(rows[at.value]) == ShownAs(run[j].obj, rows[at.value].entity, t.e)
  {
    hide Good, Concerns, Deliver, Qualifies, ShownAs, Shown;
    var front, d := run[..|run| - 1], run[|run| - 1];
    assert forall n :: 0 <= n < |front| ==> front[n] == run[n];
    RunStaysGood(w, db, run, t);
    RunStaysGood(w, db, front, t);
    var m := After(w, db, front);
    DeliveryEffect(w, m, d, t);
    DeliveryWritesOnly(w, m, d);
    WritingGrows(m.rows, Deliver(w, m, d).rows, IdOf(d));
    if j < |front| {
      LastUpdateShows(w, db, front, t, i, j);
    } else if i < |front| {
      QualifyingUpdateMaterializes(w, db, front, t, i);
    }
    AuthorsRow(w, After(w, db, run).rows, t);
  }

  lemma AuthorsRow(w: World, rows: seq<Row>, t: Thread)
    requires Good(w, rows, t)
    ensures Existing(rows, t.x).Some? ==> rows[Existing(rows, t.x).value].actor == t.actor
  {
  }

  // ----- retraction -------------------------------------------------------------------------------------------

  /** What an object answers: the object it quotes before the one it replies to. */
  function Reference(o: Obj): Option<string> { if Truthy(o.quotes) then o.quotes else o.inReplyTo }

  /** Everything mirroring asks for beside an unknown reference. */
  predicate Mirrored(actor: string, o: Obj, attributed: bool, mirrors: Mirroring) {
    IsUrl(actor) && IsUrl(o.id) && attributed && mirrors == AsActivity
  }

  /** Re-mirroring an object that already has a row: the one way a retraction is undone. */
  ghost predicate Remirrors(w: World, db: Db, d: Delivery) {
    && (d.Create? || d.Update?) && !d.cut && d.admitted && d.attributed && d.mirrors == AsActivity
    && IsUrl(d.actor) && IsUrl(d.obj.id)
    && (d.Update? ==> FindRemote(db.rows, d.obj.id, d.actor).None?)
    && Existing(db.rows, d.obj.id).Some?
    && (!Truthy(Reference(d.obj)) || Resolve(db.rows, Reference(d.obj).value).None?)
  }

  /** Admission leaves marks alone, except on the row it mirrors over. */
  lemma AdmissionMarks(w: World, db: Db, actor: string, o: Obj, attributed: bool, mirrors: Mirroring, n: nat)
    requires n < |db.rows|
    ensures Admit(w, db, actor, o, attributed, mirrors).rows[n].deletedAt ==
              if Mirrored(actor, o, attributed, mirrors) && Existing(db.rows, o.id) == Some(n)
                 && (!Truthy(Reference(o)) || Resolve(db.rows, Reference(o).value).None?)
              then None else db.rows[n].deletedAt
  {
    hide IsUrl, Resolve, Existing, MirrorKind, MirrorParent, MirrorVisibility, ContentOf, MaterializedVisibility,
        HasAudience;
  }

  lemma AnnouncementMarks(w: World, db: Db, d: Delivery, n: nat)
    requires d.Announce? && n < |db.rows|
    ensures ApplyAnnounce(w, db, d).rows[n] == db.rows[n]
  {
  }

  lemma UpdateMarks(w: World, db: Db, d: Delivery, n: nat)
    requires d.Update? && n < |db.rows|
    ensures ApplyUpdate(w, db, d).rows[n].deletedAt ==
              if FindRemote(db.rows, d.obj.id, d.actor).None? && d.admitted && Mirrored(d.actor, d.obj, d.attributed, d.mirrors)
                 && Existing(db.rows, d.obj.id) == Some(n)
                 && (!Truthy(Reference(d.obj)) || Resolve(db.rows, Reference(d.obj).value).None?)
              then None else db.rows[n].deletedAt
  {
    hide Admit, Revised, Resolve, Existing, FindRemote;
    AdmissionMarks(w, db, d.actor, d.obj, d.attributed, d.mirrors, n);
    var at := FindRemote(db.rows, d.obj.id, d.actor);
    if at.Some? {
      RevisedKeepsIdentity(w, db, db.rows[at.value], d.obj);
    }
    assert IsUrl("") == false;
  }

  lemma RowsStay(w: World, db: Db, d: Delivery)
    ensures |db.rows| <= |Deliver(w, db, d).rows|
  {
    hide Deliver;
    DeliveryWritesOnly(w, db, d);
  }

  /** A retraction mark is set only by the row's own actor, on that actor's own delivery. */
  lemma OnlyTheAuthorRetracts(w: World, db: Db, d: Delivery, n: nat)
    requires n < |db.rows| && db.rows[n].deletedAt.None?
    ensures n < |Deliver(w, db, d).rows|
    ensures Deliver(w, db, d).rows[n].deletedAt.Some? ==>
              && (d.Delete? || (d.Undo? && d.announce && db.rows[n].kind == Boost))
              && db.rows[n].remote && d.actor == db.rows[n].actor && IdOf(d) == db.rows[n].sourceId
              && Deliver(w, db, d).rows[n].deletedAt == Some(d.now)
  {
    RowsStay(w, db, d);
    hide Admit, ApplyUpdate, ApplyAnnounce, Resolve, Existing, FindRemote, Mirrored;
    match d
    case Create(actor, o, _, _, attributed, mirrors) => AdmissionMarks(w, db, actor, o, attributed, mirrors, n);
    case Update(_, _, _, _, _, _) => UpdateMarks(w, db, d, n);
    case Announce(_, _, _, _, _, _, _, _) => AnnouncementMarks(w, db, d, n);
    case _ =>
  }

  /**
   A retraction mark stays, with its time, under every delivery -- except exactly when an
   object whose thread is not known here is mirrored again over the retracted row.
   */
  lemma RetractionStaysIff(w: World, db: Db, d: Delivery, n: nat)
    requires n < |db.rows| && db.rows[n].deletedAt.Some?
    ensures n < |Deliver(w, db, d).rows|
    ensures Deliver(w, db, d).rows[n].deletedAt == db.rows[n].deletedAt <==>
              !((d.Create? || d.Update?) && Remirrors(w, db, d) && Existing(db.rows, IdOf(d)) == Some(n))
  {
    RowsStay(w, db, d);
    hide Admit, ApplyUpdate, ApplyAnnounce, Resolve, Existing, FindRemote, IsUrl;
    match d
    case Create(actor, o, _, _, attributed, mirrors) => AdmissionMarks(w, db, actor, o, attributed, mirrors, n);
    case Update(_, _, _, _, _, _) => UpdateMarks(w, db, d, n);
    case Announce(_, _, _, _, _, _, _, _) => AnnouncementMarks(w, db, d, n);
    case _ =>
  }

  /** For a reply to a known target, then, a retraction is final over every sequence of deliveries. */
  lemma {:induction false} RetractedReplyStaysRetracted(w: World, db: Db, run: seq<Delivery>, t: Thread)
    requires Good(w, db.rows, t) && forall n :: 0 <= n < |run| ==> Concerns(run[n], t)
    requires Existing(db.rows, t.x).Some? && db.rows[Existing(db.rows, t.x).value].deletedAt.Some?
    ensures var rows := After(w, db, run).rows;
            Existing(rows, t.x) == Existing(db.rows, t.x)
            && rows[Existing(rows, t.x).value].deletedAt == db.rows[Existing(db.rows, t.x).value].deletedAt
  {
    hide Deliver, OneRemoteEach, Tidy, Shown;
    if run != [] {
      var front, d := run[..|run| - 1], run[|run| - 1];
      assert forall n :: 0 <= n < |front| ==> front[n] == run[n];
      RetractedReplyStaysRetracted(w, db, front, t);
      RunStaysGood(w, db, front, t);
      var m := After(w, db, front);
      DeliveryEffect(w, m, d, t);
      RetractionStaysIff(w, m, d, Existing(m.rows, t.x).value);
    }
  }

  // ----- lookups as the table grows ----------------------------------------------------------------------------

  lemma {:induction false} ExistingIsFirst(rows: seq<Row>, id: string)
    ensures Existing(rows, id).Some? ==> forall i :: 0 <= i < Existing(rows, id).value && rows[i].remote ==> rows[i].sourceId != id
  {
    if rows != [] {
      ExistingIsFirst(rows[..|rows| - 1], id);
    }
  }

  lemma ExistingIsStable(rows: seq<Row>, more: seq<Row>, id: string)
    requires Grows(rows, more)
    ensures Existing(rows, id).Some? ==> Existing(more, id) == Existing(rows, id)
    ensures Existing(rows, id).None? && |more| == |rows| + 1 && more[|rows|].remote && more[|rows|].sourceId == id ==>
              Existing(more, id) == Some(|rows|)
  {
    ExistingIsFirst(rows, id);
    ExistingIsFirst(more, id);
    assert forall i :: 0 <= i < |rows| ==> more[i].sourceId == rows[i].sourceId && more[i].remote == rows[i].remote;
  }

  /** Lookups under another id do not notice a delivery's write. */
  lemma OthersResolveAlike(rows: seq<Row>, more: seq<Row>, id: string, uri: string)
    requires WritesOnly(rows, more, id) && uri != id
    ensures Resolve(more, uri) == Resolve(rows, uri)
  {
    if Resolve(rows, uri).Some? {
      ResolveIsStable(rows, more, uri);
    } else {
      assert forall i :: 0 <= i < |rows| ==> more[i].sourceId == rows[i].sourceId;
    }
  }

  // ----- the object cache ---------------------------------------------------------------------------------------

  /** Every mirrored entity is in the object cache. */
  ghost predicate Backed(db: Db) {
    forall i :: 0 <= i < |db.rows| && db.rows[i].entity.Mirror? ==> db.rows[i].entity.url in db.objects
  }

  /** Deliveries never leave a mirrored entity without its cached object. */
  lemma {:induction false} MirrorsStayBacked(w: World, db: Db, run: seq<Delivery>)
    requires Backed(db)
    ensures Backed(After(w, db, run))
  {
    hide Deliver, Backed;
    if run != [] {
      MirrorsStayBacked(w, db, run[..|run| - 1]);
      DeliveryKeepsBacked(w, After(w, db, run[..|run| - 1]), run[|run| - 1]);
    }
  }

  lemma AdmissionKeepsBacked(w: World, db: Db, actor: string, o: Obj, attributed: bool, mirrors: Mirroring)
    requires Backed(db)
    ensures Backed(Admit(w, db, actor, o, attributed, mirrors))
  {
    hide IsUrl, MirrorKind, MirrorParent, MirrorVisibility, ContentOf, HasAudience, MaterializedVisibility, NewMentions;
  }

  lemma DeliveryKeepsBacked(w: World, db: Db, d: Delivery)
    requires Backed(db)
    ensures Backed(Deliver(w, db, d))
  {
    hide Admit, Revised, IsUrl, HasAudience, FindRemote;
    match d
    case Create(actor, o, _, _, attributed, mirrors) => AdmissionKeepsBacked(w, db, actor, o, attributed, mirrors);
    case Update(actor, o, _, _, attributed, mirrors) =>
      AdmissionKeepsBacked(w, db, actor, o, attributed, mirrors);
      var at := FindRemote(db.rows, o.id, actor);
      if at.Some? {
        RevisedKeepsIdentity(w, db, db.rows[at.value], o);
      }
    case _ =>
  }

  // ----- relays ----------------------------------------------------------------------------------------------

  /** Every relayed object has its row, and none was relayed twice. */
  ghost predicate RelayedOnce(db: Db) {
    && (forall i :: 0 <= i < |db.relays| ==> Existing(db.rows, db.relays[i].objectId).Some?)
    && (forall i, j :: 0 <= i < j < |db.relays| ==> db.relays[i].objectId != db.relays[j].objectId)
  }

  /** A delivery relays at most its own object, when it first gets a row and is public. */
  lemma DeliveryRelays(w: World, db: Db, d: Delivery)
    ensures var more := Deliver(w, db, d);
            || more.relays == db.relays
            || (|more.relays| == |db.relays| + 1 && more.relays[..|db.relays|] == db.relays
                && more.relays[|db.relays|].objectId == IdOf(d) && |more.rows| == |db.rows| + 1
                && (d.Create? || d.Update?) && d.obj.public)
  {
    hide Existing, Resolve, FindRemote, Revised, ContentOf, HasAudience, MirrorKind, MirrorVisibility;
  }

  /** Over every inbound sequence, redeliveries included, each object is relayed at most once. */
  lemma {:induction false} EachObjectIsRelayedOnce(w: World, db: Db, run: seq<Delivery>)
    requires RelayedOnce(db)
    ensures RelayedOnce(After(w, db, run))
  {
    hide Deliver, RelayedOnce;
    if run != [] {
      var m, d := After(w, db, run[..|run| - 1]), run[|run| - 1];
      EachObjectIsRelayedOnce(w, db, run[..|run| - 1]);
      DeliveryKeepsRelayedOnce(w, m, d);
    }
  }

  lemma DeliveryKeepsRelayedOnce(w: World, db: Db, d: Delivery)
    requires RelayedOnce(db)
    ensures RelayedOnce(Deliver(w, db, d))
  {
    hide Deliver, Existing;
    var more := Deliver(w, db, d);
    DeliveryRelays(w, db, d);
    DeliveryWritesOnly(w, db, d);
    forall i | 0 <= i < |more.relays| ensures Existing(more.rows, more.relays[i].objectId).Some? {
      assert i < |db.relays| ==> more.relays[i] == db.relays[i];
      ExistingIsStable(db.rows, more.rows, more.relays[i].objectId);
    }
    assert forall i :: 0 <= i < |db.relays| ==> more.relays[i] == db.relays[i];
  }

  // ----- visibility --------------------------------------------------------------------------------------------

  /** What a local entity of visibility `e` may contain: nothing ranked above it, and directed posts. */
  predicate Fits(v: Visibility, e: Visibility) { Rank(v) <= Rank(e) || v == Mentioned }

  /** The row does not outrank the local entity it hangs on. */
  predicate RowFits(w: World, row: Row) {
    row.entity.Local? && row.entity.id in w.entities ==> Fits(row.visibility, w.entities[row.entity.id])
  }

  ghost predicate Contained(w: World, rows: seq<Row>) {
    forall i :: 0 <= i < |rows| ==> RowFits(w, rows[i])
  }

  /** Mirroring over a row that hangs on a narrower local entity. */
  ghost predicate Overexposes(w: World, db: Db, d: Delivery) {
    && (d.Create? || d.Update?) && Remirrors(w, db, d)
    && !RowFits(w, db.rows[Existing(db.rows, d.obj.id).value].(visibility := MirrorVisibility(CachedPublic(d.obj), d.obj.mentions)))
  }

  lemma MaterializedFits(public: bool, e: Visibility)
    ensures Fits(MaterializedVisibility(public, e), e)
  {
  }

  /** Where an admission leaves a row's visibility: as it was, except on the row it mirrors over. */
  lemma AdmissionFits(w: World, db: Db, actor: string, o: Obj, attributed: bool, mirrors: Mirroring)
    requires Contained(w, db.rows)
    ensures var at := Existing(db.rows, o.id);
            Contained(w, Admit(w, db, actor, o, attributed, mirrors).rows) <==>
              !(Mirrored(actor, o, attributed, mirrors) && at.Some?
                && (!Truthy(Reference(o)) || Resolve(db.rows, Reference(o).value).None?)
                && !RowFits(w, db.rows[at.value].(visibility := MirrorVisibility(CachedPublic(o), o.mentions))))
  {
    hide IsUrl, MirrorKind, MirrorParent, MirrorVisibility, ContentOf, MaterializedVisibility, HasAudience,
        NewMentions, Fits, CachedPublic;
    forall e: Visibility { MaterializedFits(o.public, e); }
    var one := Admit(w, db, actor, o, attributed, mirrors);
    var at := Existing(db.rows, o.id);
    if at.Some? && one.rows != db.rows {
      assert forall i :: 0 <= i < |db.rows| && i != at.value ==> one.rows[i] == db.rows[i];
    }
  }

  lemma RevisedFits(w: World, db: Db, row: Row, o: Obj)
    requires RowFits(w, row)
    ensures RowFits(w, Revised(w, db, row, o))
  {
  }

  lemma AnnouncementFits(w: World, db: Db, d: Delivery)
    requires d.Announce? && Contained(w, db.rows)
    ensures Contained(w, ApplyAnnounce(w, db, d).rows)
  {
  }

  /**
   A row never comes to outrank the local entity it hangs on, directed posts aside -- except
   exactly when its object is mirrored again, with a wider audience than the entity has.
   */
  lemma DeliveryKeepsContainedIff(w: World, db: Db, d: Delivery)
    requires Contained(w, db.rows)
    ensures Contained(w, Deliver(w, db, d).rows) <==> !Overexposes(w, db, d)
  {
    hide Admit, Revised, ApplyAnnounce, Fits, Resolve, Existing, IsUrl, MirrorVisibility, CachedPublic;
    match d
    case Create(actor, o, _, _, attributed, mirrors) => AdmissionFits(w, db, actor, o, attributed, mirrors);
    case Update(actor, o, _, _, attributed, mirrors) =>
      AdmissionFits(w, db, actor, o, attributed, mirrors);
      UrlsAreNotEmpty(o.id);
      var at := FindRemote(db.rows, o.id, actor);
      if at.Some? {
        RevisedFits(w, db, db.rows[at.value], o);
      }
    case Announce(_, _, _, _, _, _, _, _) => AnnouncementFits(w, db, d);
    case _ =>
  }

  lemma UrlsAreNotEmpty(s: string)
    ensures IsUrl(s) ==> s != ""
  {
  }

  /** So over every sequence without such a delivery, remote rows stay within their entities. */
  lemma {:induction false} RowsStayContained(w: World, db: Db, run: seq<Delivery>)
    requires Contained(w, db.rows)
    requires forall n :: 0 <= n < |run| ==> !Overexposes(w, After(w, db, run[..n]), run[n])
    ensures Contained(w, After(w, db, run).rows)
  {
    hide Deliver, Contained, Overexposes;
    if run != [] {
      var front := run[..|run| - 1];
      forall n | 0 <= n < |front| ensures !Overexposes(w, After(w, db, front[..n]), front[n]) {
        assert front[..n] == run[..n];
      }
      RowsStayContained(w, db, front);
      DeliveryKeepsContainedIff(w, After(w, db, front), run[|run| - 1]);
    }
  }
}
