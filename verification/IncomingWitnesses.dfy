/**
 Inboxes that reach the exceptions of the inbound theorems: short runs of deliveries, from an
 empty inbox wherever a local row is not needed, in which the exact conditions are met.
 */
module IncomingWitnesses {
  import opened Prelude
  import opened Incoming
  import opened IncomingTheorems
  import opened IncomingRedelivery

  const EMPTY := Db([], map[], [])

  const ANN := "https://far/ann"
  const BOB := "https://far/bob"
  const POST := "https://far/post"
  const REPLY := "https://far/reply"

  function Note(id: string, answers: Option<string>, content: string, public: bool): Obj {
    Obj(id, answers, None, Some(content), None, public, public, {})
  }

  function Creates(actor: string, o: Obj): Delivery { Create(actor, o, false, true, true, AsActivity) }

  function Updates(actor: string, o: Obj): Delivery { Update(actor, o, false, true, true, AsActivity) }

  lemma RunsUnfold(w: World, db: Db, a: Delivery, b: Delivery, c: Delivery)
    ensures After(w, db, [a]) == Deliver(w, db, a)
    ensures After(w, db, [a, b]) == Deliver(w, Deliver(w, db, a), b)
    ensures After(w, db, [a, b, c]) == Deliver(w, Deliver(w, Deliver(w, db, a), b), c)
  {
    hide Deliver;
    assert [a][..0] == [] && [a, b][..1] == [a] && [a, b, c][..2] == [a, b];
  }

  /** The row a post leaves when it is mirrored into a table without one. */
  function Posted(o: Obj, visibility: Visibility, deletedAt: Option<Time>): Row {
    Row(Post, true, o.id, ANN, None, Mirror(o.id), visibility, None, o.content, None, {}, deletedAt)
  }

  lemma PostIsMirrored(w: World, o: Obj)
    requires o in {Note(POST, None, "old", true), Note(POST, None, "old", false)}
    ensures Deliver(w, EMPTY, Creates(ANN, o)) ==
              Db([Posted(o, if o.public then Public else LocalOnly, None)], map[POST := o.public], [])
  {
    assert {} + NewMentions({}, {}) == {};
  }

  lemma NothingNew(ms: set<Mention>)
    ensures ms + NewMentions(ms, ms) == ms && ms + NewMentions(ms, {}) == ms && {} + NewMentions({}, ms) == ms
  {
  }

  /** The inbox with the mirrored post alone, at some audience, retracted or not. */
  function OnlyPost(o: Obj, deletedAt: Option<Time>): Db {
    Db([Posted(o, if o.public then Public else LocalOnly, deletedAt)], map[POST := o.public], [])
  }

  lemma PostIsMirroredAgain(w: World, o: Obj, was: Obj, deletedAt: Option<Time>)
    requires o == Note(POST, None, "old", true) && was in {o, Note(POST, None, "new", true)}
    ensures Deliver(w, OnlyPost(was, deletedAt), Creates(ANN, o)) == OnlyPost(o, None)
  {
    assert Existing(OnlyPost(was, deletedAt).rows, POST) == Some(0);
    NothingNew({});
  }

  /** `RetractionStaysIff` has an exception: a post created, deleted and created again is back. */
  lemma RetractedPostComesBack(w: World, now: Time)
    ensures var o := Note(POST, None, "old", true);
            var run := [Creates(ANN, o), Delete(ANN, POST, now)];
            && After(w, EMPTY, run) == OnlyPost(o, Some(now))
            && Remirrors(w, After(w, EMPTY, run), Creates(ANN, o))
            && After(w, EMPTY, run + [Creates(ANN, o)]) == OnlyPost(o, None)
  {
    var o := Note(POST, None, "old", true);
    var create, delete := Creates(ANN, o), Delete(ANN, POST, now);
    assert [create, delete] + [create] == [create, delete, create];
    RunsUnfold(w, EMPTY, create, delete, create);
    PostIsMirrored(w, o);
    PostIsDeleted(w, o, now);
    PostIsMirroredAgain(w, o, o, Some(now));
    hide After, Deliver;
    assert Existing(OnlyPost(o, Some(now)).rows, POST) == Some(0);
  }

  lemma PostIsDeleted(w: World, o: Obj, now: Time)
    requires o == Note(POST, None, "old", true)
    ensures Deliver(w, OnlyPost(o, None), Delete(ANN, POST, now)) == OnlyPost(o, Some(now))
  {
    assert FindRemote(OnlyPost(o, None).rows, POST, ANN) == Some(0);
  }

  /** `RedeliveredCreateIsANoOpIff` has an exception: a create delivered again after an update undoes the update. */
  lemma RepeatedCreateUndoesAnUpdate(w: World)
    ensures var o, revised := Note(POST, None, "old", true), Note(POST, None, "new", true);
            var run := [Creates(ANN, o), Updates(ANN, revised)];
            && TakenIn(run[0])
            && After(w, EMPTY, run) == OnlyPost(revised, None)
            && After(w, EMPTY, run + [run[0]]) == OnlyPost(o, None)
  {
    var o, revised := Note(POST, None, "old", true), Note(POST, None, "new", true);
    var create, update := Creates(ANN, o), Updates(ANN, revised);
    assert [create, update] + [create] == [create, update, create];
    RunsUnfold(w, EMPTY, create, update, create);
    PostIsMirrored(w, o);
    PostIsRevised(w, o, revised);
    PostIsMirroredAgain(w, o, revised, None);
    hide After, Deliver;
  }

  lemma PostIsRevised(w: World, o: Obj, revised: Obj)
    requires o == Note(POST, None, "old", true) && revised == Note(POST, None, "new", true)
    ensures Deliver(w, OnlyPost(o, None), Updates(ANN, revised)) == OnlyPost(revised, None)
  {
    assert FindRemote(OnlyPost(o, None).rows, POST, ANN) == Some(0);
  }

  // ----- updates delivered twice ------------------------------------------------------------------------

  const TOLD := Note(REPLY, Some(POST), "answer", true)

  /** The private post with the reply under it. */
  function WithReply(o: Obj, visibility: Visibility): seq<Row> {
    [Posted(o, LocalOnly, None), Row(Reply, true, REPLY, ANN, None, Mirror(POST), visibility, Some(0), TOLD.content, None, {}, None)]
  }

  lemma ReplyIsRevealed(w: World, o: Obj)
    requires o == Note(POST, None, "old", false)
    ensures Deliver(w, OnlyPost(o, None), Updates(ANN, TOLD)) == Db(WithReply(o, Private), map[POST := false], [Relay(REPLY, 0)])
  {
    var rows := OnlyPost(o, None).rows;
    assert POST != REPLY;
    assert Resolve(rows, POST) == Some(0);
    assert FindRemote(rows, REPLY, ANN).None? && Existing(rows, REPLY).None?;
  }

  lemma ReplyIsRevised(w: World, o: Obj)
    requires o == Note(POST, None, "old", false)
    ensures Deliver(w, Db(WithReply(o, Private), map[POST := false], [Relay(REPLY, 0)]), Updates(ANN, TOLD)).rows == WithReply(o, Public)
  {
    var rows := WithReply(o, Private);
    assert POST != REPLY;
    assert rows[0].sourceId == POST && rows[1].sourceId == REPLY;
    assert FindRemote(rows, REPLY, ANN) == Some(1);
  }

  /**
   `RedeliveryIsANoOpIff`, updates: a public reply to a private post mirrored here, revealed by
   its update, is private; the same update again makes it public.
   */
  lemma MissedUpdateTwiceWidensTheReply(w: World)
    ensures var o, update := Note(POST, None, "old", false), Updates(ANN, TOLD);
            && After(w, EMPTY, [Creates(ANN, o), update]).rows == WithReply(o, Private)
            && After(w, EMPTY, [Creates(ANN, o), update, update]).rows == WithReply(o, Public)
  {
    var o := Note(POST, None, "old", false);
    RunsUnfold(w, EMPTY, Creates(ANN, o), Updates(ANN, TOLD), Updates(ANN, TOLD));
    PostIsMirrored(w, o);
    ReplyIsRevealed(w, o);
    ReplyIsRevised(w, o);
    hide After, Deliver;
  }

  /** The public post, by either actor, with mentions. */
  function Held(actor: string, ms: set<Mention>): Db {
    Db([Posted(Note(POST, None, "old", true), Public, None).(actor := actor, mentions := ms)], map[POST := true], [])
  }

  lemma RowIsTaken(w: World, ms: set<Mention>)
    ensures Deliver(w, Held(ANN, ms), Updates(BOB, Note(POST, None, "old", true))) == Held(BOB, ms)
  {
    var rows := Held(ANN, ms).rows;
    assert FindRemote(rows, POST, BOB).None? && Existing(rows, POST) == Some(0);
    NothingNew(ms);
  }

  lemma MentionsAreLost(w: World, ms: set<Mention>)
    ensures Deliver(w, Held(BOB, ms), Updates(BOB, Note(POST, None, "old", true))) == Held(BOB, {})
  {
    assert FindRemote(Held(BOB, ms).rows, POST, BOB) == Some(0);
  }

  lemma MentioningPostIsMirrored(w: World, ms: set<Mention>)
    ensures Deliver(w, EMPTY, Creates(ANN, Note(POST, None, "old", true).(mentions := ms))) == Held(ANN, ms)
  {
    NothingNew(ms);
  }

  /** `RedeliveryIsANoOpIff`, updates again: one that takes another actor's row over drops its mentions the second time. */
  lemma TakenOverRowLosesItsMentions(w: World, ms: set<Mention>)
    ensures var create := Creates(ANN, Note(POST, None, "old", true).(mentions := ms));
            var update := Updates(BOB, Note(POST, None, "old", true));
            && After(w, EMPTY, [create, update]) == Held(BOB, ms)
            && After(w, EMPTY, [create, update, update]) == Held(BOB, {})
  {
    var create := Creates(ANN, Note(POST, None, "old", true).(mentions := ms));
    var update := Updates(BOB, Note(POST, None, "old", true));
    RunsUnfold(w, EMPTY, create, update, update);
    MentioningPostIsMirrored(w, ms);
    RowIsTaken(w, ms);
    MentionsAreLost(w, ms);
    hide After, Deliver, Held;
  }

  // ----- a create delivered twice -----------------------------------------------------------------------

  /** The mirrored quote that names itself as its parent. */
  function SelfReply(parent: Option<nat>): Db {
    Db([Row(Quote, true, POST, ANN, None, Mirror(POST), Public, parent, Some("old"), None, {}, None)], map[POST := true], [])
  }

  lemma SelfReplyIsMirrored(w: World)
    ensures Deliver(w, EMPTY, Creates(ANN, Note(POST, Some(POST), "old", true).(quotes := Some(REPLY)))) == SelfReply(None)
  {
    NothingNew({});
  }

  lemma SelfReplyIsFound(w: World)
    ensures Deliver(w, SelfReply(None), Creates(ANN, Note(POST, Some(POST), "old", true).(quotes := Some(REPLY)))) == SelfReply(Some(0))
  {
    NothingNew({});
    var rows := SelfReply(None).rows;
    assert POST != REPLY;
    assert Resolve(rows, REPLY).None? && Resolve(rows, POST) == Some(0) && Existing(rows, POST) == Some(0);
    hide Resolve, Existing, FindRemote, NewMentions;
  }

  /** `RedeliveryIsANoOpIff`, creates: an unknown quote that names itself as its parent finds that parent the second time. */
  lemma SelfReplyFindsItselfLater(w: World)
    ensures var create := Creates(ANN, Note(POST, Some(POST), "old", true).(quotes := Some(REPLY)));
            && After(w, EMPTY, [create]) == SelfReply(None)
            && After(w, EMPTY, [create, create]) == SelfReply(Some(0))
  {
    var create := Creates(ANN, Note(POST, Some(POST), "old", true).(quotes := Some(REPLY)));
    RunsUnfold(w, EMPTY, create, create, create);
    SelfReplyIsMirrored(w);
    SelfReplyIsFound(w);
    hide After, Deliver;
  }

  // ----- a reply mirrored over --------------------------------------------------------------------------

  const HERE := "https://here/1"

  /** A local row on entity 1, and the reply it gets. */
  function NativeRow(owner: nat): Row {
    Row(Native, false, HERE, "https://here/me", Some(owner), Local(1), Followers, None, None, None, {}, None)
  }

  const ANSWER := Row(Reply, true, REPLY, ANN, None, Local(1), Followers, Some(0), Some("answer"), None, {}, None)

  lemma ReplyLands(w: World, owner: nat)
    requires 1 in w.entities && w.entities[1] == Followers && !w.blocks(owner, ANN)
    ensures Deliver(w, Db([NativeRow(owner)], map[], []), Creates(ANN, Note(REPLY, Some(HERE), "answer", true))) ==
              Db([NativeRow(owner), ANSWER], map[], [Relay(REPLY, 0)])
  {
    var rows := [NativeRow(owner)];
    assert Resolve(rows, HERE) == Some(0) && Existing(rows, REPLY).None?;
  }

  lemma ReplyIsFound(owner: nat)
    ensures Existing([NativeRow(owner), ANSWER], REPLY) == Some(1)
  {
    var rows := [NativeRow(owner), ANSWER];
    assert rows[1] == ANSWER && rows[0] == NativeRow(owner);
  }

  /**
   `DeliveryKeepsContainedIff` has an exception: a public reply under a followers-only entity,
   delivered again without its reference, is mirrored over and shown to everyone.
   */
  lemma MirroringOverWidensAReply(w: World, owner: nat)
    requires 1 in w.entities && w.entities[1] == Followers && !w.blocks(owner, ANN)
    ensures var db := Db([NativeRow(owner)], map[], []);
            var reply := Creates(ANN, Note(REPLY, Some(HERE), "answer", true));
            var again := Creates(ANN, Note(REPLY, None, "answer", true));
            && Contained(w, db.rows) && Contained(w, After(w, db, [reply]).rows)
            && Overexposes(w, After(w, db, [reply]), again)
            && !Contained(w, After(w, db, [reply, again]).rows)
  {
    var reply, again := Creates(ANN, Note(REPLY, Some(HERE), "answer", true)), Creates(ANN, Note(REPLY, None, "answer", true));
    RunsUnfold(w, Db([NativeRow(owner)], map[], []), reply, again, again);
    ReplyLands(w, owner);
    ReplyIsFound(owner);
    var one := Db([NativeRow(owner), ANSWER], map[], [Relay(REPLY, 0)]);
    hide Deliver, Existing, After;
    DeliveryKeepsContainedIff(w, one, again);
    assert Overexposes(w, one, again);
  }
}
