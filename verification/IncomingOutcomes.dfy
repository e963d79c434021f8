/**
 What each kind of delivery leaves in the inbox, column by column, in terms of the delivery
 and of the rows it finds.
 */
module IncomingOutcomes {
  import opened Prelude
  import opened Incoming
  import opened IncomingTheorems

  // ----- what a delivery finds --------------------------------------------------------------------

  predicate Web(s: string) { "http://" <= s || "https://" <= s }

  /** What the object answers: what it quotes, else what it replies to. */
  predicate Answers(o: Obj, uri: string) {
    uri != "" && if o.quotes.Some? && o.quotes.value != "" then o.quotes == Some(uri) else o.inReplyTo == Some(uri)
  }

  /** Row `n` is the first with the object id. */
  ghost predicate First(rows: seq<Row>, uri: string, n: nat) {
    n < |rows| && rows[n].sourceId == uri && forall i :: 0 <= i < n ==> rows[i].sourceId != uri
  }

  ghost predicate Unknown(rows: seq<Row>, uri: string) { forall i :: 0 <= i < |rows| ==> rows[i].sourceId != uri }

  ghost predicate NoRemote(rows: seq<Row>, id: string) { forall i :: 0 <= i < |rows| && rows[i].remote ==> rows[i].sourceId != id }

  /** Row `n` is the first remote one with the object id. */
  ghost predicate FirstRemote(rows: seq<Row>, id: string, n: nat) {
    n < |rows| && rows[n].remote && rows[n].sourceId == id && forall i :: 0 <= i < n && rows[i].remote ==> rows[i].sourceId != id
  }

  predicate MentionsHere(ms: set<Mention>) { exists m :: m in ms && m.user != None }

  /** The entity is here with the visibility: a local one's own, a cached one's public or private. */
  predicate HasVisibility(w: World, db: Db, e: Entity, v: Visibility) {
    match e
    case Local(id) => id in w.entities && w.entities[id] == v
    case Mirror(url) => url in db.objects && v == if db.objects[url] then Public else Private
  }

  predicate Barred(w: World, row: Row, actor: string) { row.owner.Some? && w.blocks(row.owner.value, actor) }

  function Text(o: Obj): Option<string> { if o.content == Some("") then None else o.content }

  lemma FirstIsResolved(rows: seq<Row>, uri: string, n: nat)
    requires First(rows, uri, n)
    ensures Resolve(rows, uri) == Some(n)
  {
    ResolveIsFirst(rows, uri);
  }

  lemma FirstRemoteExists(rows: seq<Row>, id: string, n: nat)
    requires FirstRemote(rows, id, n)
    ensures Existing(rows, id) == Some(n)
  {
    ExistingIsFirst(rows, id);
  }

  lemma NoRemoteExists(rows: seq<Row>, id: string)
    requires NoRemote(rows, id)
    ensures Existing(rows, id).None? && forall actor :: FindRemote(rows, id, actor).None?
  {
  }

  lemma WebIsUrl(s: string)
    ensures Web(s) <==> IsUrl(s)
  {
  }

  /** A delivery that reaches the admission rules with its object. */
  predicate Arrives(d: Delivery) {
    (d.Create? || d.Update?) && !d.cut && d.admitted && d.attributed && Web(d.actor) && Web(d.obj.id)
  }

  lemma ArrivalIsAdmitted(w: World, db: Db, d: Delivery)
    requires Arrives(d) && (d.Update? ==> FindRemote(db.rows, d.obj.id, d.actor).None?)
    ensures Deliver(w, db, d) == Admit(w, db, d.actor, d.obj, true, d.mirrors)
  {
    hide Admit, FindRemote;
  }

  /** A create that is cut, not admitted or not its author's, or not of web addresses, changes nothing; nor does such an update. */
  lemma TurnedAwayDeliveries(w: World, db: Db, d: Delivery)
    requires d.Create? || d.Update?
    ensures d.cut || !d.attributed ==> Deliver(w, db, d) == db
    ensures (d.Create? || NoRemote(db.rows, d.obj.id)) && !Arrives(d) ==> Deliver(w, db, d) == db
  {
    WebIsUrl(d.actor);
    WebIsUrl(d.obj.id);
    hide IsUrl, Web;
    if NoRemote(db.rows, d.obj.id) {
      NoRemoteExists(db.rows, d.obj.id);
    }
  }

  // ----- replies and quotes -------------------------------------------------------------------------

  /**
   A reply or quote of a known row, not here yet: one row is added on the target's entity,
   under the target.  Addressed to everyone it is as visible as that entity and relayed once;
   otherwise it must address someone here, is for those mentioned, and is not relayed.
   */
  lemma AnswerGetsARow(w: World, db: Db, d: Delivery, uri: string, n: nat, e: Visibility)
    requires Arrives(d) && Answers(d.obj, uri) && First(db.rows, uri, n) && NoRemote(db.rows, d.obj.id)
    requires !Barred(w, db.rows[n], d.actor) && HasVisibility(w, db, db.rows[n].entity, e)
    requires d.obj.public || MentionsHere(d.obj.mentions)
    ensures var quote := d.obj.quotes.Some? && d.obj.quotes.value != "";
            Deliver(w, db, d) ==
              Db(db.rows + [Row(if quote then Quote else Reply, true, d.obj.id, d.actor, None, db.rows[n].entity,
                                if d.obj.public then e else Mentioned, Some(n), Text(d.obj), d.obj.language, d.obj.mentions, None)],
                 db.objects, if d.obj.public then db.relays + [Relay(d.obj.id, n)] else db.relays)
  {
    NoRemoteExists(db.rows, d.obj.id);
    ArrivalIsAdmitted(w, db, d);
    FirstIsResolved(db.rows, uri, n);
    WebIsUrl(d.actor);
    WebIsUrl(d.obj.id);
    hide IsUrl, Web, Resolve, Existing, FindRemote, MirrorPost, Deliver;
    assert HasAudience(d.obj.public, d.obj.mentions);
    assert ResolveEntity(w, db, db.rows[n].entity) == Some(e);
    assert Clamp(e) == e;
  }

  /** A create of an answer to a known row that has its row already changes nothing. */
  lemma AnswerIsAddedOnce(w: World, db: Db, d: Delivery, uri: string, n: nat, m: nat)
    requires d.Create? && Arrives(d) && Answers(d.obj, uri) && First(db.rows, uri, n) && FirstRemote(db.rows, d.obj.id, m)
    ensures Deliver(w, db, d) == db
  {
    ArrivalIsAdmitted(w, db, d);
    FirstIsResolved(db.rows, uri, n);
    FirstRemoteExists(db.rows, d.obj.id, m);
    WebIsUrl(d.actor);
    WebIsUrl(d.obj.id);
    hide IsUrl, Web, Resolve, Existing, FindRemote, MirrorPost, Deliver;
  }

  // ----- mirrors ------------------------------------------------------------------------------------

  /** The object finds no place under a known row: none is known, or its owner, audience or entity is against it. */
  ghost predicate Homeless(w: World, db: Db, actor: string, o: Obj) {
    || (forall uri :: Answers(o, uri) ==> Unknown(db.rows, uri))
    || (NoRemote(db.rows, o.id) && forall uri: string, n: nat :: Answers(o, uri) && First(db.rows, uri, n) ==>
          || Barred(w, db.rows[n], actor) || !(o.public || MentionsHere(o.mentions))
          || forall e :: !HasVisibility(w, db, db.rows[n].entity, e))
  }

  lemma HomelessIsMirrored(w: World, db: Db, actor: string, o: Obj, mirrors: Mirroring)
    requires Homeless(w, db, actor, o) && Web(actor) && Web(o.id)
    ensures Admit(w, db, actor, o, true, mirrors) == MirrorPost(db, actor, o, true, mirrors)
  {
    WebIsUrl(actor);
    WebIsUrl(o.id);
    hide IsUrl, Web, MirrorPost;
    var ref := Reference(o);
    if Truthy(ref) {
      assert Answers(o, ref.value);
      var n := Resolve(db.rows, ref.value);
      if n.Some? {
        ResolveIsFirst(db.rows, ref.value);
        assert First(db.rows, ref.value, n.value);
        NoRemoteExists(db.rows, o.id);
        var e := ResolveEntity(w, db, db.rows[n.value].entity);
        assert e.Some? ==> HasVisibility(w, db, db.rows[n.value].entity, e.value);
      }
    }
  }

  /** The first known row of what it replies to, else of what it quotes. */
  ghost predicate MirrorsUnder(rows: seq<Row>, o: Obj, parent: Option<nat>) {
    var reply := o.inReplyTo.Some? && o.inReplyTo.value != "" && !Unknown(rows, o.inReplyTo.value);
    var quote := o.quotes.Some? && o.quotes.value != "" && !Unknown(rows, o.quotes.value);
    if reply then parent.Some? && First(rows, o.inReplyTo.value, parent.value)
    else if quote then parent.Some? && First(rows, o.quotes.value, parent.value)
    else parent.None?
  }

  lemma ParentIsMirrored(db: Db, o: Obj)
    ensures MirrorsUnder(db.rows, o, MirrorParent(db, o))
  {
    if o.inReplyTo.Some? {
      ResolveIsFirst(db.rows, o.inReplyTo.value);
    }
    if o.quotes.Some? {
      ResolveIsFirst(db.rows, o.quotes.value);
    }
  }

  /** A row that mirrors the object: by its actor, as visible as the object is public, with its content, and not retracted. */
  ghost predicate MirrorsObject(db: Db, row: Row, actor: string, o: Obj) {
    var quote, reply := o.quotes.Some? && o.quotes.value != "", o.inReplyTo.Some? && o.inReplyTo.value != "";
    && row.remote && row.sourceId == o.id && row.actor == actor && row.deletedAt.None?
    && row.kind == (if quote then Quote else if reply then Reply else Post)
    && row.visibility == (if o.public || o.publicly then Public else if MentionsHere(o.mentions) then Mentioned else LocalOnly)
    && MirrorsUnder(db.rows, o, row.parent)
    && row.content == Text(o) && row.language == o.language
  }

  lemma MirrorRowMirrors(db: Db, row: Row, actor: string, o: Obj)
    requires row.remote && row.sourceId == o.id
    ensures MirrorsObject(db, row.(kind := MirrorKind(o), actor := actor, visibility := MirrorVisibility(CachedPublic(o), o.mentions),
                                   parent := MirrorParent(db, o), content := ContentOf(o), language := o.language, deletedAt := None), actor, o)
  {
    ParentIsMirrored(db, o);
    assert AddressesLocalUser(o.mentions) <==> MentionsHere(o.mentions);
    hide MentionsHere, AddressesLocalUser, MirrorsUnder, MirrorParent;
  }

  /** An object without a home that may show as an activity is cached, and a new row mirrors it on its own cached entity. */
  lemma HomelessGetsARow(w: World, db: Db, d: Delivery)
    requires Arrives(d) && Homeless(w, db, d.actor, d.obj) && d.mirrors == AsActivity && NoRemote(db.rows, d.obj.id)
    ensures var more, o := Deliver(w, db, d), d.obj;
            && more.objects == db.objects[o.id := o.public || o.publicly] && more.relays == db.relays
            && |more.rows| == |db.rows| + 1 && more.rows[..|db.rows|] == db.rows
            && var row := more.rows[|db.rows|];
               MirrorsObject(db, row, d.actor, o) && row.entity == Mirror(o.id) && row.owner.None? && row.mentions == o.mentions
  {
    var o := d.obj;
    NoRemoteExists(db.rows, o.id);
    ArrivalIsAdmitted(w, db, d);
    HomelessIsMirrored(w, db, d.actor, o, d.mirrors);
    WebIsUrl(d.actor);
    WebIsUrl(o.id);
    assert {} + NewMentions({}, o.mentions) == o.mentions;
    var base := Row(Post, true, o.id, d.actor, None, Mirror(o.id), Public, None, None, None, o.mentions, None);
    MirrorRowMirrors(db, base, d.actor, o);
    hide IsUrl, Web, Existing, FindRemote, Deliver, Admit, MirrorParent, MirrorsObject, Homeless, NewMentions, MirrorVisibility,
        MirrorKind, ContentOf;
  }

  /** And one that has a row here refreshes that row: its mentions only grow, its entity stays. */
  lemma HomelessRefreshesItsRow(w: World, db: Db, d: Delivery, n: nat)
    requires Arrives(d) && (d.Update? ==> FindRemote(db.rows, d.obj.id, d.actor).None?)
    requires Homeless(w, db, d.actor, d.obj) && d.mirrors == AsActivity && FirstRemote(db.rows, d.obj.id, n)
    ensures var more, o := Deliver(w, db, d), d.obj;
            && more.objects == db.objects[o.id := o.public || o.publicly] && more.relays == db.relays
            && |more.rows| == |db.rows| && more.rows == db.rows[n := more.rows[n]]
            && MirrorsObject(db, more.rows[n], d.actor, o)
            && more.rows[n].entity == db.rows[n].entity && more.rows[n].owner == db.rows[n].owner
            && forall m :: m in more.rows[n].mentions <==>
                 m in db.rows[n].mentions || (m in o.mentions && forall x :: x in db.rows[n].mentions ==> x.handle != m.handle)
  {
    var o := d.obj;
    FirstRemoteExists(db.rows, o.id, n);
    ArrivalIsAdmitted(w, db, d);
    HomelessIsMirrored(w, db, d.actor, o, d.mirrors);
    WebIsUrl(d.actor);
    WebIsUrl(o.id);
    MirrorRowMirrors(db, db.rows[n].(mentions := db.rows[n].mentions + NewMentions(db.rows[n].mentions, o.mentions)), d.actor, o);
    hide IsUrl, Web, Existing, FindRemote, Deliver, Admit, MirrorParent, MirrorsObject, Homeless, MirrorVisibility, MirrorKind, ContentOf;
  }

  /** One that may only be cached is cached and gets no row; one that may not be cached leaves no trace. */
  lemma HomelessIsCachedOrRefused(w: World, db: Db, d: Delivery)
    requires Arrives(d) && (d.Update? ==> FindRemote(db.rows, d.obj.id, d.actor).None?)
    requires Homeless(w, db, d.actor, d.obj) && d.mirrors != AsActivity
    ensures Deliver(w, db, d) ==
              if d.mirrors == CachedOnly then db.(objects := db.objects[d.obj.id := d.obj.public || d.obj.publicly]) else db
  {
    ArrivalIsAdmitted(w, db, d);
    HomelessIsMirrored(w, db, d.actor, d.obj, d.mirrors);
    WebIsUrl(d.actor);
    WebIsUrl(d.obj.id);
    hide IsUrl, Web, FindRemote, Deliver, Admit, Homeless;
  }

  // ----- updates, boosts and retractions ---------------------------------------------------------------

  /** Row `n` is the first remote one with the object id by the actor. */
  ghost predicate FirstBy(rows: seq<Row>, id: string, actor: string, n: nat) {
    && n < |rows| && rows[n].remote && rows[n].sourceId == id && rows[n].actor == actor
    && forall i :: 0 <= i < n && rows[i].remote && rows[i].sourceId == id ==> rows[i].actor != actor
  }

  lemma {:induction false} FirstByIsFound(rows: seq<Row>, id: string, actor: string, n: nat)
    requires FirstBy(rows, id, actor, n)
    ensures FindRemote(rows, id, actor) == Some(n)
  {
    var front := rows[..|rows| - 1];
    if n < |front| {
      FirstByIsFound(front, id, actor, n);
    }
  }

  /** An attributed update revises exactly the author's row: content, language and mentions from the object, and its audience anew. */
  lemma UpdateRevisesTheRow(w: World, db: Db, d: Delivery, n: nat)
    requires d.Update? && !d.cut && d.attributed && d.obj.id != "" && FirstBy(db.rows, d.obj.id, d.actor, n)
    ensures var more, o, row := Deliver(w, db, d), d.obj, db.rows[n];
            && more.relays == db.relays && |more.rows| == |db.rows|
            && more.objects == (if row.entity.Mirror? then db.objects[o.id := o.public || o.publicly] else db.objects)
            && more.rows == db.rows[n := row.(content := Text(o), language := o.language, mentions := o.mentions,
                                              visibility := more.rows[n].visibility)]
            && match row.entity
               case Mirror(_) =>
                 more.rows[n].visibility == if o.public || o.publicly then Public else if MentionsHere(o.mentions) then Mentioned else LocalOnly
               case Local(id) =>
                 more.rows[n].visibility ==
                   if id !in w.entities then row.visibility else if o.public then w.entities[id] else Mentioned
  {
    FirstByIsFound(db.rows, d.obj.id, d.actor, n);
    hide FindRemote, Admit;
    assert AddressesLocalUser(d.obj.mentions) <==> MentionsHere(d.obj.mentions);
    forall e: Visibility ensures Clamp(e) == e {
    }
  }

  /** A new boost of a known, live row adds one row on its entity, as visible as the row or for those mentioned. */
  lemma BoostGetsARow(w: World, db: Db, d: Delivery, n: nat)
    requires d.Announce? && !d.cut && d.admitted && Web(d.actor) && Web(d.target) && d.id != ""
    requires NoRemote(db.rows, d.id) && First(db.rows, d.target, n) && db.rows[n].deletedAt.None? && !Barred(w, db.rows[n], d.actor)
    requires d.public || MentionsHere(d.mentions)
    ensures Deliver(w, db, d) ==
              db.(rows := db.rows + [Row(Boost, true, d.id, d.actor, None, db.rows[n].entity,
                                         if d.public then db.rows[n].visibility else Mentioned, Some(n), None, None, d.mentions, None)])
  {
    NoRemoteExists(db.rows, d.id);
    FirstIsResolved(db.rows, d.target, n);
    WebIsUrl(d.actor);
    WebIsUrl(d.target);
    hide IsUrl, Web, Resolve, Existing;
    assert HasAudience(d.public, d.mentions);
  }

  /** The author's delete, or their undo of a boost, marks exactly their row, once. */
  lemma RetractionMarksTheRow(w: World, db: Db, d: Delivery, n: nat)
    requires (d.Delete? && d.gone != "") || (d.Undo? && d.announce && d.inner != "")
    requires FirstBy(db.rows, if d.Delete? then d.gone else d.inner, d.actor, n)
    ensures Deliver(w, db, d) ==
              if db.rows[n].deletedAt.None? && (d.Undo? ==> db.rows[n].kind == Boost)
              then db.(rows := db.rows[n := db.rows[n].(deletedAt := Some(d.now))]) else db
  {
    FirstByIsFound(db.rows, if d.Delete? then d.gone else d.inner, d.actor, n);
    hide FindRemote;
  }

  /** Among visibilities, nothing outranks public, and only those mentioned may be addressed across the order. */
  lemma FitsTable(v: Visibility, e: Visibility)
    ensures Fits(v, e) <==>
              || v == Mentioned || v == Private || e == Public || v == e
              || (v == LocalOnly && e == Followers)
  {
  }
}
