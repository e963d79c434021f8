/**
 Inbound federation: remote replies, quotes, posts and boosts materialised as activity
 rows, revised by `Update` and retracted by `Delete` and `Undo` (sections 7.2 to 7.4, 7.11
 and 7.12 of W3C ActivityPub, on the receiving side).

 A row's id is its position in the table; rows are never removed.  What other services
 decide about a delivery -- admission, moderation, attribution, whether its object may be
 mirrored -- comes with the delivery.
 */
module Incoming {
  import opened Prelude

  type Time = int

  datatype Visibility = Private | Mentioned | LocalOnly | Followers | Public

  function Rank(v: Visibility): nat {
    match v
    case Private => 0
    case Mentioned => 1
    case LocalOnly => 2
    case Followers => 3
    case Public => 4
  }

  datatype Mention = Mention(handle: string, user: Option<nat>)

  datatype Obj = Obj(
    id: string, inReplyTo: Option<string>, quotes: Option<string>,
    content: Option<string>, language: Option<string>, public: bool, publicly: bool, mentions: set<Mention>)

  /** Whether an object may be cached here, and whether it then shows as an activity too. */
  datatype Mirroring = Refused | CachedOnly | AsActivity

  /** The entity a row hangs on: a local one, or the cached remote object the row mirrors. */
  datatype Entity = Local(id: nat) | Mirror(url: string)

  datatype Kind = Native | Reply | Quote | Post | Boost

  datatype Row = Row(
    kind: Kind, remote: bool, sourceId: string, actor: string, owner: Option<nat>, entity: Entity,
    visibility: Visibility, parent: Option<nat>, content: Option<string>, language: Option<string>,
    mentions: set<Mention>, deletedAt: Option<Time>)

  /** A public remote item forwarded to the followers of its thread. */
  datatype Relay = Relay(objectId: string, target: nat)

  datatype Db = Db(rows: seq<Row>, objects: map<string, bool>, relays: seq<Relay>)

  /** Facts that deliveries do not change: local entities' visibilities and local users' blocks. */
  datatype World = World(entities: map<nat, Visibility>, blocks: (nat, string) -> bool)

  datatype Delivery =
    | Create(actor: string, obj: Obj, cut: bool, admitted: bool, attributed: bool, mirrors: Mirroring)
    | Update(actor: string, obj: Obj, cut: bool, admitted: bool, attributed: bool, mirrors: Mirroring)
    | Announce(actor: string, id: string, target: string, public: bool, mentions: set<Mention>, cut: bool, admitted: bool, now: Time)
    | Delete(actor: string, gone: string, now: Time)
    | Undo(actor: string, inner: string, announce: bool, now: Time)

  // ----- lookups -------------------------------------------------------------------------------------

  /** `_resolve_object_activity`: the first row known under an object id. */
  function Resolve(rows: seq<Row>, uri: string): (n: Option<nat>)
    ensures n.Some? ==> n.value < |rows| && rows[n.value].sourceId == uri
    ensures n.None? ==> forall i :: 0 <= i < |rows| ==> rows[i].sourceId != uri
  {
    if rows == [] then None
    else
      var n := Resolve(rows[..|rows| - 1], uri);
      if n.Some? then n else if rows[|rows| - 1].sourceId == uri then Some(|rows| - 1) else None
  }

  /** The first remote row under an object id. */
  function Existing(rows: seq<Row>, id: string): (n: Option<nat>)
    ensures n.Some? ==> n.value < |rows| && rows[n.value].remote && rows[n.value].sourceId == id
    ensures n.None? ==> forall i :: 0 <= i < |rows| && rows[i].remote ==> rows[i].sourceId != id
  {
    if rows == [] then None
    else
      var n := Existing(rows[..|rows| - 1], id);
      if n.Some? then n
      else if rows[|rows| - 1].remote && rows[|rows| - 1].sourceId == id then Some(|rows| - 1) else None
  }

  /** `_find_remote_object`: the first remote row under an object id by its own actor. */
  function FindRemote(rows: seq<Row>, id: string, actor: string): (n: Option<nat>)
    ensures n.Some? ==> n.value < |rows| && rows[n.value].remote && rows[n.value].sourceId == id && rows[n.value].actor == actor
    ensures n.None? ==> forall i :: 0 <= i < |rows| && rows[i].remote && rows[i].sourceId == id ==> rows[i].actor != actor
  {
    if rows == [] then None
    else
      var n, last := FindRemote(rows[..|rows| - 1], id, actor), rows[|rows| - 1];
      if n.Some? then n
      else if last.remote && last.sourceId == id && last.actor == actor then Some(|rows| - 1) else None
  }

  predicate AddressesLocalUser(ms: set<Mention>) { exists m :: m in ms && m.user.Some? }

  predicate HasAudience(public: bool, ms: set<Mention>) { public || AddressesLocalUser(ms) }

  function ResolveEntity(w: World, db: Db, e: Entity): Option<Visibility> {
    match e
    case Local(id) => if id in w.entities then Some(w.entities[id]) else None
    case Mirror(url) => if url in db.objects then Some(if db.objects[url] then Public else Private) else None
  }

  function Clamp(entity: Visibility): Visibility {
    if Rank(Public) <= Rank(entity) then Public else entity
  }

  function MaterializedVisibility(public: bool, entity: Visibility): Visibility {
    if public then Clamp(entity) else Mentioned
  }

  function MirrorVisibility(public: bool, ms: set<Mention>): Visibility {
    if public then Public else if AddressesLocalUser(ms) then Mentioned else LocalOnly
  }

  /** A cached object is public when it or the activity delivering it is. */
  predicate CachedPublic(o: Obj) { o.public || o.publicly }

  /** The mentions whose handles are not on the row yet. */
  function NewMentions(have: set<Mention>, ms: set<Mention>): set<Mention> {
    set m | m in ms && forall x :: x in have ==> x.handle != m.handle
  }

  function ContentOf(o: Obj): Option<string> { if Truthy(o.content) then o.content else None }

  predicate IsUrl(s: string) { StartsWith(s, "http://") || StartsWith(s, "https://") }

  // ----- materialising ---------------------------------------------------------------------------------

  datatype Made = Made(db: Db, row: Option<nat>)

  /** `_materialize_remote_object` with its insertion and relay. */
  function MaterializeObject(w: World, db: Db, actor: string, o: Obj, target: nat, kind: Kind): Made
    requires target < |db.rows|
  {
    var t := db.rows[target];
    var entity := ResolveEntity(w, db, t.entity);
    if Existing(db.rows, o.id).Some? then Made(db, Existing(db.rows, o.id))
    else if t.owner.Some? && w.blocks(t.owner.value, actor) then Made(db, None)
    else if !HasAudience(o.public, o.mentions) || entity.None? then Made(db, None)
    else
      var row := Row(kind, true, o.id, actor, None, t.entity, MaterializedVisibility(o.public, entity.value), Some(target),
                     ContentOf(o), o.language, o.mentions, None);
      Made(db.(rows := db.rows + [row], relays := if o.public then db.relays + [Relay(o.id, target)] else db.relays), Some(|db.rows|))
  }

  /** `materialize_remote_reply` and `materialize_remote_quote`. */
  function Materialize(w: World, db: Db, actor: string, o: Obj, attributed: bool): Made {
    var quote := Truthy(o.quotes);
    var ref := if quote then o.quotes else o.inReplyTo;
    if !IsUrl(actor) || !IsUrl(o.id) || !Truthy(ref) || !attributed then Made(db, None)
    else
      var target := Resolve(db.rows, ref.value);
      if target.None? then Made(db, None)
      else MaterializeObject(w, db, actor, o, target.value, if quote then Quote else Reply)
  }

  function MirrorKind(o: Obj): Kind {
    if Truthy(o.quotes) then Quote else if Truthy(o.inReplyTo) then Reply else Post
  }

  function MirrorParent(db: Db, o: Obj): Option<nat> {
    var viaReply := if Truthy(o.inReplyTo) then Resolve(db.rows, o.inReplyTo.value) else None;
    if viaReply.Some? then viaReply else if Truthy(o.quotes) then Resolve(db.rows, o.quotes.value) else None
  }

  /** `materialize_remote_post`: cache the object and upsert the row mirroring it. */
  function MirrorPost(db: Db, actor: string, o: Obj, attributed: bool, mirrors: Mirroring): Db {
    if !IsUrl(actor) || !IsUrl(o.id) || !attributed || mirrors == Refused then db
    else if mirrors == CachedOnly then db.(objects := db.objects[o.id := CachedPublic(o)])
    else
      var parent := MirrorParent(db, o);
      var at := Existing(db.rows, o.id);
      var base := if at.Some? then db.rows[at.value]
                  else Row(Post, true, o.id, actor, None, Mirror(o.id), Public, None, None, None, {}, None);
      var row := base.(kind := MirrorKind(o), actor := actor, visibility := MirrorVisibility(CachedPublic(o), o.mentions), parent := parent,
                       content := ContentOf(o), language := o.language,
                       mentions := base.mentions + NewMentions(base.mentions, o.mentions), deletedAt := None);
      db.(rows := if at.Some? then db.rows[at.value := row] else db.rows + [row], objects := db.objects[o.id := CachedPublic(o)])
  }

  /** A `Create`, or the replay of one an `Update` reveals as missed. */
  function Admit(w: World, db: Db, actor: string, o: Obj, attributed: bool, mirrors: Mirroring): Db {
    var made := if Truthy(o.quotes) || Truthy(o.inReplyTo) then Materialize(w, db, actor, o, attributed) else Made(db, None);
    if made.row.Some? then made.db else MirrorPost(made.db, actor, o, attributed, mirrors)
  }

  /** The columns an `Update` refreshes. */
  function Revised(w: World, db: Db, row: Row, o: Obj): Row {
    var visibility := match row.entity
      case Mirror(_) => MirrorVisibility(CachedPublic(o), o.mentions)
      case Local(_) =>
        var e := ResolveEntity(w, db, row.entity);
        if e.Some? then MaterializedVisibility(o.public, e.value) else row.visibility;
    row.(visibility := visibility, content := ContentOf(o), language := o.language, mentions := o.mentions)
  }

  function ApplyUpdate(w: World, db: Db, d: Delivery): Db
    requires d.Update?
  {
    var at := FindRemote(db.rows, d.obj.id, d.actor);
    if (at.None? && !d.admitted) || !d.attributed || d.obj.id == "" then db
    else if at.None? then Admit(w, db, d.actor, d.obj, d.attributed, d.mirrors)
    else
      var row := db.rows[at.value];
      db.(rows := db.rows[at.value := Revised(w, db, row, d.obj)],
          objects := if row.entity.Mirror? then db.objects[d.obj.id := CachedPublic(d.obj)] else db.objects)
  }

  function ApplyAnnounce(w: World, db: Db, d: Delivery): Db
    requires d.Announce?
  {
    var target := Resolve(db.rows, d.target);
    if !IsUrl(d.actor) || !IsUrl(d.target) || d.id == "" || Existing(db.rows, d.id).Some? || target.None? then db
    else
      var t := db.rows[target.value];
      if t.deletedAt.Some? || (t.owner.Some? && w.blocks(t.owner.value, d.actor)) || !HasAudience(d.public, d.mentions) then db
      else
        db.(rows := db.rows + [Row(Boost, true, d.id, d.actor, None, t.entity, if d.public then t.visibility else Mentioned,
                                   target, None, None, d.mentions, None)])
  }

  function Retract(db: Db, at: Option<nat>, now: Time): Db
    requires at.Some? ==> at.value < |db.rows|
  {
    if at.None? || db.rows[at.value].deletedAt.Some? then db
    else db.(rows := db.rows[at.value := db.rows[at.value].(deletedAt := Some(now))])
  }

  /** `sync_remote_activity`. */
  function Deliver(w: World, db: Db, d: Delivery): Db {
    match d
    case Create(actor, o, cut, admitted, attributed, mirrors) =>
      if cut || !admitted then db else Admit(w, db, actor, o, attributed, mirrors)
    case Update(_, _, cut, _, _, _) => if cut then db else ApplyUpdate(w, db, d)
    case Announce(_, _, _, _, _, cut, admitted, _) => if cut || !admitted then db else ApplyAnnounce(w, db, d)
    case Delete(actor, gone, now) => if gone == "" then db else Retract(db, FindRemote(db.rows, gone, actor), now)
    case Undo(actor, inner, announce, now) =>
      var at := FindRemote(db.rows, inner, actor);
      if inner == "" || !announce || at.None? || db.rows[at.value].kind != Boost then db else Retract(db, at, now)
  }

  // ----- the inbox, as it runs --------------------------------------------------------------------------

  class Inbox {
    var rows: seq<Row>
    var objects: map<string, bool>
    var relays: seq<Relay>

    function Tables(): Db
      reads this
    {
      Db(rows, objects, relays)
    }

    constructor (rows: seq<Row>)
      ensures Tables() == Db(rows, map[], [])
    {
      this.rows, objects, relays := rows, map[], [];
    }

    method MaterializeRemoteObject(w: World, actor: string, o: Obj, target: nat, kind: Kind) returns (row: Option<nat>)
      requires target < |rows|
      modifies this`rows, this`relays
      ensures Made(Tables(), row) == MaterializeObject(w, old(Tables()), actor, o, target, kind)
    {
      row := Existing(rows, o.id);
      if row.Some? {
        return;
      }
      var t := rows[target];
      if t.owner.Some? && w.blocks(t.owner.value, actor) {
        return None;
      }
      if !o.public && !AddressesLocalUser(o.mentions) {
        return None;
      }
      var entity := ResolveEntity(w, Tables(), t.entity);
      if entity.None? {
        return None;
      }
      row := Some(|rows|);
      rows := rows + [Row(kind, true, o.id, actor, None, t.entity, MaterializedVisibility(o.public, entity.value), Some(target),
                          ContentOf(o), o.language, o.mentions, None)];
      if o.public {
        relays := relays + [Relay(o.id, target)];
      }
    }

    method MaterializeRemotePost(actor: string, o: Obj, attributed: bool, mirrors: Mirroring)
      modifies this`rows, this`objects
      ensures Tables() == MirrorPost(old(Tables()), actor, o, attributed, mirrors)
    {
      if !IsUrl(actor) || !IsUrl(o.id) || !attributed || mirrors == Refused {
        return;
      }
      objects := objects[o.id := CachedPublic(o)];
      if mirrors == CachedOnly {
        return;
      }
      var parent := MirrorParent(Tables(), o);
      var at := Existing(rows, o.id);
      if at.None? {
        at := Some(|rows|);
        rows := rows + [Row(Post, true, o.id, actor, None, Mirror(o.id), Public, None, None, None, {}, None)];
      }
      var row := rows[at.value];
      row := row.(kind := MirrorKind(o), actor := actor);
      row := row.(visibility := MirrorVisibility(CachedPublic(o), o.mentions), parent := parent);
      row := row.(content := ContentOf(o), language := o.language);
      row := row.(deletedAt := None);
      row := row.(mentions := row.mentions + NewMentions(row.mentions, o.mentions));
      rows := rows[at.value := row];
    }

    method AdmitObject(w: World, actor: string, o: Obj, attributed: bool, mirrors: Mirroring)
      modifies this
      ensures Tables() == Admit(w, old(Tables()), actor, o, attributed, mirrors)
    {
      var made: Option<nat> := None;
      var quote := Truthy(o.quotes);
      var ref := if quote then o.quotes else o.inReplyTo;
      if IsUrl(actor) && IsUrl(o.id) && Truthy(ref) && attributed {
        var target := Resolve(rows, ref.value);
        if target.Some? {
          made := MaterializeRemoteObject(w, actor, o, target.value, if quote then Quote else Reply);
        }
      }
      if made.None? {
        MaterializeRemotePost(actor, o, attributed, mirrors);
      }
    }

    method UpdateRemoteObject(w: World, d: Delivery)
      requires d.Update?
      modifies this
      ensures Tables() == ApplyUpdate(w, old(Tables()), d)
    {
      var at := FindRemote(rows, d.obj.id, d.actor);
      if d.obj.id == "" || (at.None? && !d.admitted) || !d.attributed {
        return;
      }
      if at.None? {
        AdmitObject(w, d.actor, d.obj, d.attributed, d.mirrors);
        return;
      }
      var row := rows[at.value];
      if row.entity.Mirror? {
        objects := objects[d.obj.id := CachedPublic(d.obj)];
        row := row.(visibility := MirrorVisibility(CachedPublic(d.obj), d.obj.mentions));
      } else {
        var entity := ResolveEntity(w, Tables(), row.entity);
        if entity.Some? {
          row := row.(visibility := MaterializedVisibility(d.obj.public, entity.value));
        }
      }
      row := row.(content := ContentOf(d.obj));
      row := row.(language := d.obj.language);
      row := row.(mentions := {});
      row := row.(mentions := d.obj.mentions);
      rows := rows[at.value := row];
    }

    method SyncRemoteActivity(w: World, d: Delivery)
      modifies this
      ensures Tables() == Deliver(w, old(Tables()), d)
    {
      match d
      case Create(actor, o, cut, admitted, attributed, mirrors) =>
        if !cut && admitted {
          AdmitObject(w, actor, o, attributed, mirrors);
        }
      case Update(_, _, cut, _, _, _) =>
        if !cut {
          UpdateRemoteObject(w, d);
        }
      case Announce(actor, id, uri, public, mentions, cut, admitted, now) =>
        if cut || !admitted || !IsUrl(actor) || !IsUrl(uri) || id == "" || Existing(rows, id).Some? {
          return;
        }
        var target := Resolve(rows, uri);
        if target.None? || rows[target.value].deletedAt.Some? {
          return;
        }
        var t := rows[target.value];
        if t.owner.Some? && w.blocks(t.owner.value, actor) {
          return;
        }
        if !public && !AddressesLocalUser(mentions) {
          return;
        }
        rows := rows + [Row(Boost, true, id, actor, None, t.entity, if public then t.visibility else Mentioned,
                            target, None, None, mentions, None)];
      case Delete(actor, gone, now) =>
        var at := FindRemote(rows, gone, actor);
        if gone != "" && at.Some? && rows[at.value].deletedAt.None? {
          rows := rows[at.value := rows[at.value].(deletedAt := Some(now))];
        }
      case Undo(actor, inner, announce, now) =>
        var at := FindRemote(rows, inner, actor);
        if inner != "" && announce && at.Some? && rows[at.value].kind == Boost && rows[at.value].deletedAt.None? {
          rows := rows[at.value := rows[at.value].(deletedAt := Some(now))];
        }
    }

    /** `_thread_ancestor_object_ids`: walk the reply chain, which stored data may make cyclic. */
    method ThreadAncestorObjectIds(target: nat) returns (objectIds: set<string>, owner: Option<nat>)
      requires target < |rows|
      ensures objectIds == ObjectIds(rows, Chain(rows, target, {}))
      ensures owner == NearestOwner(rows, Chain(rows, target, {}))
    {
      hide Chain, ObjectIds, NearestOwner, Further;
      objectIds := if rows[target].sourceId != "" then {rows[target].sourceId} else {};
      owner := if !rows[target].remote then rows[target].owner else None;
      var seen := {target};
      var parent: Option<nat> := rows[target].parent;
      ghost var walked: seq<nat> := [target];
      ChainStarts(rows, target);
      while parent.Some? && parent.value !in seen
        invariant forall i :: 0 <= i < |walked| ==> walked[i] < |rows|
        invariant objectIds == ObjectIds(rows, walked) && owner == NearestOwner(rows, walked)
        invariant Chain(rows, target, {}) == walked + Further(rows, parent, seen)
        decreases Indices(|rows|) - seen
      {
        FurtherUnfolds(rows, parent.value, seen);
        assert walked + [] == walked;
        if parent.value >= |rows| {
          return;
        }
        var row := rows[parent.value];
        ObjectIdsOfMore(rows, walked, parent.value);
        NearestOwnerOfMore(rows, walked, parent.value);
        ghost var rest := Further(rows, row.parent, seen + {parent.value});
        assert walked + ([parent.value] + rest) == (walked + [parent.value]) + rest;
        seen := seen + {parent.value};
        walked := walked + [parent.value];
        if row.sourceId != "" {
          objectIds := objectIds + {row.sourceId};
        }
        if owner.None? && !row.remote && row.owner.Some? {
          owner := row.owner;
        }
        parent := row.parent;
      }
      ChainEnds(rows, parent, seen);
      assert walked + [] == walked;
    }
  }

  // ----- the reply chain ---------------------------------------------------------------------------------

  function Indices(n: nat): (s: set<nat>)
    ensures forall i: nat :: i in s <==> i < n
  {
    if n == 0 then {} else Indices(n - 1) + {n - 1}
  }

  /** The rows from `n` up its parent links, until one is missing or has been seen. */
  function Chain(rows: seq<Row>, n: nat, seen: set<nat>): (c: seq<nat>)
    ensures forall i :: 0 <= i < |c| ==> c[i] < |rows|
    decreases Indices(|rows|) - seen
  {
    if n in seen || n >= |rows| then []
    else
      assert n in Indices(|rows|);
      [n] + (if rows[n].parent.Some? then Chain(rows, rows[n].parent.value, seen + {n}) else [])
  }

  function Further(rows: seq<Row>, parent: Option<nat>, seen: set<nat>): (c: seq<nat>)
    ensures forall i :: 0 <= i < |c| ==> c[i] < |rows|
  {
    if parent.Some? then Chain(rows, parent.value, seen) else []
  }

  lemma ChainStarts(rows: seq<Row>, n: nat)
    requires n < |rows|
    ensures Chain(rows, n, {}) == [n] + Further(rows, rows[n].parent, {n})
    ensures ObjectIds(rows, [n]) == if rows[n].sourceId != "" then {rows[n].sourceId} else {}
    ensures NearestOwner(rows, [n]) == if !rows[n].remote then rows[n].owner else None
  {
    assert {} + {n} == {n};
  }

  lemma ChainEnds(rows: seq<Row>, parent: Option<nat>, seen: set<nat>)
    requires parent.None? || parent.value in seen
    ensures Further(rows, parent, seen) == []
  {
  }

  lemma FurtherUnfolds(rows: seq<Row>, n: nat, seen: set<nat>)
    requires n !in seen
    ensures n >= |rows| ==> Further(rows, Some(n), seen) == []
    ensures n < |rows| ==> Further(rows, Some(n), seen) == [n] + Further(rows, rows[n].parent, seen + {n})
  {
  }

  lemma ObjectIdsOfMore(rows: seq<Row>, c: seq<nat>, n: nat)
    requires n < |rows| && forall i :: 0 <= i < |c| ==> c[i] < |rows|
    ensures ObjectIds(rows, c + [n]) == ObjectIds(rows, c) + (if rows[n].sourceId != "" then {rows[n].sourceId} else {})
  {
    assert (c + [n])[..|c|] == c;
  }

  /** The object ids found along a chain. */
  function ObjectIds(rows: seq<Row>, c: seq<nat>): set<string>
    requires forall i :: 0 <= i < |c| ==> c[i] < |rows|
  {
    if c == [] then {}
    else
      var id := rows[c[|c| - 1]].sourceId;
      ObjectIds(rows, c[..|c| - 1]) + (if id != "" then {id} else {})
  }

  /** The first local owner along a chain. */
  function NearestOwner(rows: seq<Row>, c: seq<nat>): Option<nat>
    requires forall i :: 0 <= i < |c| ==> c[i] < |rows|
  {
    if c == [] then None
    else if !rows[c[0]].remote && rows[c[0]].owner.Some? then rows[c[0]].owner
    else NearestOwner(rows, c[1..])
  }

  lemma {:induction false} NearestOwnerOfMore(rows: seq<Row>, c: seq<nat>, n: nat)
    requires n < |rows| && forall i :: 0 <= i < |c| ==> c[i] < |rows|
    ensures NearestOwner(rows, c + [n]) ==
              if NearestOwner(rows, c).Some? then NearestOwner(rows, c)
              else if !rows[n].remote && rows[n].owner.Some? then rows[n].owner else None
  {
    if c != [] {
      NearestOwnerOfMore(rows, c[1..], n);
      assert (c + [n])[1..] == c[1..] + [n];
    } else {
      assert c + [n] == [n];
    }
  }

  /** `a` is `steps` parent links above `n`. */
  ghost predicate Above(rows: seq<Row>, n: nat, a: nat, steps: nat)
    decreases steps
  {
    n < |rows| && if steps == 0 then a == n else rows[n].parent.Some? && Above(rows, rows[n].parent.value, a, steps - 1)
  }

  lemma {:induction false} ChainIsAbove(rows: seq<Row>, n: nat, seen: set<nat>, a: nat)
    requires a in Chain(rows, n, seen)
    ensures exists steps: nat :: Above(rows, n, a, steps)
    decreases Indices(|rows|) - seen
  {
    if a == n {
      assert Above(rows, n, a, 0);
    } else {
      var p := rows[n].parent.value;
      ChainIsAbove(rows, p, seen + {n}, a);
      var steps: nat :| Above(rows, p, a, steps);
      assert Above(rows, n, a, steps + 1);
    }
  }

  /** A seen row has `a` at most `steps` links above it. */
  ghost predicate BehindSeen(rows: seq<Row>, seen: set<nat>, a: nat, steps: nat) {
    exists m: nat, fewer: nat :: m in seen && fewer <= steps && Above(rows, m, a, fewer)
  }

  /** Every row above `n` is on the chain, unless the way to it passes a row already seen. */
  lemma {:induction false} AboveIsOnChain(rows: seq<Row>, n: nat, seen: set<nat>, a: nat, steps: nat)
    requires Above(rows, n, a, steps)
    ensures a in Chain(rows, n, seen) || BehindSeen(rows, seen, a, steps)
    decreases Indices(|rows|) - seen, steps
  {
    if n !in seen && steps > 0 {
      assert n in Indices(|rows|);
      var p := rows[n].parent.value;
      AboveIsOnChain(rows, p, seen + {n}, a, steps - 1);
      if a !in Chain(rows, p, seen + {n}) {
        var m: nat, fewer: nat :| m in seen + {n} && fewer <= steps - 1 && Above(rows, m, a, fewer);
        if m !in seen {
          AboveIsOnChain(rows, n, seen, a, fewer);
        }
      }
    }
  }

  /**
   The thread walk, cyclic data included: it covers exactly the target and everything some
   number of parent links above it.
   */
  lemma ThreadWalkCoversAncestors(rows: seq<Row>, target: nat, a: nat)
    requires target < |rows|
    ensures a in Chain(rows, target, {}) <==> exists steps: nat :: Above(rows, target, a, steps)
  {
    if a in Chain(rows, target, {}) {
      ChainIsAbove(rows, target, {}, a);
    }
    if steps: nat :| Above(rows, target, a, steps) {
      AncestorIsWalked(rows, target, a, steps);
    }
  }

  lemma AncestorIsWalked(rows: seq<Row>, target: nat, a: nat, steps: nat)
    requires Above(rows, target, a, steps)
    ensures a in Chain(rows, target, {})
  {
    AboveIsOnChain(rows, target, {}, a, steps);
  }

  lemma {:induction false} ObjectIdsAre(rows: seq<Row>, c: seq<nat>, id: string)
    requires forall i :: 0 <= i < |c| ==> c[i] < |rows|
    ensures id in ObjectIds(rows, c) <==> id != "" && exists a :: a in c && rows[a].sourceId == id
  {
    if c != [] {
      var front, last := c[..|c| - 1], c[|c| - 1];
      ObjectIdsAre(rows, front, id);
      assert c == front + [last];
      assert forall a :: a in c <==> a in front || a == last;
    }
  }

  /** `id` is the object id of the target or of something above it. */
  ghost predicate AncestorId(rows: seq<Row>, target: nat, id: string) {
    id != "" && exists a: nat, steps: nat :: Above(rows, target, a, steps) && a < |rows| && rows[a].sourceId == id
  }

  /** The thread walk returns the object ids of exactly the target and its ancestors. */
  lemma ThreadIdsAreAncestors(rows: seq<Row>, target: nat, id: string)
    requires target < |rows|
    ensures id in ObjectIds(rows, Chain(rows, target, {})) <==> AncestorId(rows, target, id)
  {
    hide Chain;
    var c := Chain(rows, target, {});
    ObjectIdsAre(rows, c, id);
    if a :| a in c && rows[a].sourceId == id {
      ThreadWalkCoversAncestors(rows, target, a);
    }
    if a: nat, steps: nat :| Above(rows, target, a, steps) && a < |rows| && rows[a].sourceId == id {
      AncestorIsWalked(rows, target, a, steps);
    }
  }

  predicate OwnedHere(row: Row) { !row.remote && row.owner.Some? }

  lemma {:induction false} ChainGoesUp(rows: seq<Row>, n: nat, seen: set<nat>, i: nat)
    requires i < |Chain(rows, n, seen)|
    ensures Above(rows, n, Chain(rows, n, seen)[i], i)
    decreases i
  {
    if i > 0 {
      ChainGoesUp(rows, rows[n].parent.value, seen + {n}, i - 1);
    }
  }

  lemma {:induction false} OneRowPerStep(rows: seq<Row>, n: nat, a: nat, b: nat, steps: nat)
    requires Above(rows, n, a, steps) && Above(rows, n, b, steps)
    ensures a == b
    decreases steps
  {
    if steps > 0 {
      OneRowPerStep(rows, rows[n].parent.value, a, b, steps - 1);
    }
  }

  lemma {:induction false} NearestOwnerAt(rows: seq<Row>, c: seq<nat>) returns (i: nat)
    requires forall k :: 0 <= k < |c| ==> c[k] < |rows|
    ensures i <= |c| && forall k :: 0 <= k < i ==> !OwnedHere(rows[c[k]])
    ensures if i < |c| then OwnedHere(rows[c[i]]) && NearestOwner(rows, c) == rows[c[i]].owner else NearestOwner(rows, c).None?
  {
    if c == [] {
      i := 0;
    } else if OwnedHere(rows[c[0]]) {
      i := 0;
    } else {
      var rest := NearestOwnerAt(rows, c[1..]);
      i := rest + 1;
      assert forall k :: 1 <= k < i ==> c[k] == c[1..][k - 1];
    }
  }

  /** The row `a`, `steps` links above the target, is the nearest one owned by a local user. */
  ghost predicate NearestOwned(rows: seq<Row>, target: nat, a: nat, steps: nat) {
    && Above(rows, target, a, steps) && a < |rows| && OwnedHere(rows[a])
    && forall b: nat, fewer: nat :: fewer < steps && Above(rows, target, b, fewer) && b < |rows| ==> !OwnedHere(rows[b])
  }

  /** The thread walk returns the owner of the nearest locally owned row; none when there is none at any height. */
  lemma NearestOwnerIsNearest(rows: seq<Row>, target: nat)
    requires target < |rows|
    ensures var owner := NearestOwner(rows, Chain(rows, target, {}));
            if owner.Some? then exists a: nat, steps: nat :: NearestOwned(rows, target, a, steps) && rows[a].owner == owner
            else forall a: nat, steps: nat :: Above(rows, target, a, steps) && a < |rows| ==> !OwnedHere(rows[a])
  {
    hide Chain, NearestOwner, Above;
    var c := Chain(rows, target, {});
    var i := NearestOwnerAt(rows, c);
    if i < |c| {
      ChainGoesUp(rows, target, {}, i);
      forall b: nat, fewer: nat | fewer < i && Above(rows, target, b, fewer) && b < |rows| ensures !OwnedHere(rows[b]) {
        ChainGoesUp(rows, target, {}, fewer);
        OneRowPerStep(rows, target, b, c[fewer], fewer);
      }
      assert NearestOwned(rows, target, c[i], i);
    } else {
      forall a: nat, steps: nat | Above(rows, target, a, steps) && a < |rows| ensures !OwnedHere(rows[a]) {
        AncestorIsWalked(rows, target, a, steps);
        var k :| 0 <= k < |c| && c[k] == a;
      }
    }
  }
}
