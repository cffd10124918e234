/** Sequences of calls to the room router, and what holds over any of them:
    the facts each single procedure promises accumulate into invariants of
    the whole service. */
module Requests {
  import opened Records
  import opened Guards
  import T = Tables

  /** One call to the router, with the session user as `caller`. */
  datatype Request =
    | CreateRoom(caller: UserId, name: string, categoryNames: Option<seq<string>>)
    | UpdateRoom(caller: UserId, id: Id, mutable: Option<bool>, anonymous: Option<bool>)
    | DeleteRoom(caller: UserId, id: Id)
    | JoinRoom(caller: UserId, id: Id)
    | LeaveRoom(caller: UserId, id: Id)
    | GetRoom(id: Id)
    | CreateCategory(caller: UserId, roomId: Id, name: string, color: Option<string>)
    | UpdateCategory(caller: UserId, id: Id, newName: Option<string>, newColor: Option<string>)
    | DeleteCategory(caller: UserId, id: Id)
    | CreateCard(caller: UserId, roomId: Id, categoryId: Id, text: string)
    | UpdateCard(caller: UserId, id: Id, newText: Option<string>)
    | DeleteCard(caller: UserId, id: Id)

  /** The store after serving one request; every request keeps the store
      valid and never moves the id counter back. */
  function Apply(db: T.Db, req: Request): (db': T.Db)
    requires T.Valid(db)
    ensures T.Valid(db')
    ensures db'.nextId >= db.nextId
  {
    match req
    case CreateRoom(u, name, cats) => T.CreateRoom(db, u, name, cats).db
    case UpdateRoom(u, id, m, a) => T.UpdateRoom(db, u, id, m, a).db
    case DeleteRoom(u, id) => T.DeleteRoom(db, u, id).db
    case JoinRoom(u, id) => T.JoinRoom(db, u, id).db
    case LeaveRoom(u, id) => T.LeaveRoom(db, u, id).db
    case GetRoom(_) => db
    case CreateCategory(u, roomId, name, color) => T.CreateCategory(db, u, roomId, name, color).db
    case UpdateCategory(u, id, name, color) => T.UpdateCategory(db, u, id, name, color).db
    case DeleteCategory(u, id) => T.DeleteCategory(db, u, id).db
    case CreateCard(u, roomId, categoryId, text) => T.CreateCard(db, u, roomId, categoryId, text).db
    case UpdateCard(u, id, text) => T.UpdateCard(db, u, id, text).db
    case DeleteCard(u, id) => T.DeleteCard(db, u, id).db
  }

  /** The store after serving the requests one after another, each atomically. */
  function Run(db: T.Db, reqs: seq<Request>): (db': T.Db)
    requires T.Valid(db)
    ensures T.Valid(db')
    ensures db'.nextId >= db.nextId
    decreases |reqs|
  {
    if reqs == [] then db else Run(Apply(db, reqs[0]), reqs[1..])
  }

  /** What no procedure ever changes between `db` and a later `db'`: the
      owner and name of a room, the room link of a category, the creator and
      links of a card; and a record that appears later carries an id the
      counter had not yet handed out in `db`. */
  predicate Stable(db: T.Db, db': T.Db) {
    && db'.nextId >= db.nextId
    && db'.defaults == db.defaults
    && (forall id :: id in db.rooms && id in db'.rooms ==>
          db'.rooms[id].ownerId == db.rooms[id].ownerId && db'.rooms[id].name == db.rooms[id].name)
    && (forall id :: id in db.categories && id in db'.categories ==>
          db'.categories[id].roomId == db.categories[id].roomId)
    && (forall id :: id in db.cards && id in db'.cards ==>
          && db'.cards[id].creatorId == db.cards[id].creatorId
          && db'.cards[id].roomId == db.cards[id].roomId
          && db'.cards[id].categoryId == db.cards[id].categoryId)
    && (forall id :: id in db'.rooms && id !in db.rooms ==> id >= db.nextId)
    && (forall id :: id in db'.categories && id !in db.categories ==> id >= db.nextId)
    && (forall id :: id in db'.cards && id !in db.cards ==> id >= db.nextId)
  }

  /** A single request keeps the store stable. */
  lemma ApplyStable(db: T.Db, req: Request)
    requires T.Valid(db)
    ensures Stable(db, Apply(db, req))
  {
    match req
    case CreateRoom(u, name, cats) => CreateRoomStable(db, u, name, cats);
    case UpdateRoom(u, id, m, a) => UpdateRoomStable(db, u, id, m, a);
    case DeleteRoom(u, id) => DeleteRoomStable(db, u, id);
    case JoinRoom(u, id) => JoinRoomStable(db, u, id);
    case LeaveRoom(u, id) => LeaveRoomStable(db, u, id);
    case GetRoom(_) =>
    case CreateCategory(u, roomId, name, color) => CreateCategoryStable(db, u, roomId, name, color);
    case UpdateCategory(u, id, name, color) => UpdateCategoryStable(db, u, id, name, color);
    case DeleteCategory(u, id) => DeleteCategoryStable(db, u, id);
    case CreateCard(u, roomId, categoryId, text) => CreateCardStable(db, u, roomId, categoryId, text);
    case UpdateCard(u, id, text) => UpdateCardStable(db, u, id, text);
    case DeleteCard(u, id) => DeleteCardStable(db, u, id);
  }

  // The eleven lemmas below are the cases of `ApplyStable`, one per
  // procedure that writes. Dafny proves each from its contract alone; they
  // are kept apart so that each case is verified on its own, as one match
  // over all of them costs close to the solver's resource limit.

  lemma CreateRoomStable(db: T.Db, u: UserId, name: string, cats: Option<seq<string>>)
    requires T.Valid(db)
    ensures Stable(db, T.CreateRoom(db, u, name, cats).db)
  {
  }

  lemma UpdateRoomStable(db: T.Db, u: UserId, id: Id, m: Option<bool>, a: Option<bool>)
    requires T.Valid(db)
    ensures Stable(db, T.UpdateRoom(db, u, id, m, a).db)
  {
  }

  lemma DeleteRoomStable(db: T.Db, u: UserId, id: Id)
    requires T.Valid(db)
    ensures Stable(db, T.DeleteRoom(db, u, id).db)
  {
  }

  lemma JoinRoomStable(db: T.Db, u: UserId, id: Id)
    requires T.Valid(db)
    ensures Stable(db, T.JoinRoom(db, u, id).db)
  {
  }

  lemma LeaveRoomStable(db: T.Db, u: UserId, id: Id)
    requires T.Valid(db)
    ensures Stable(db, T.LeaveRoom(db, u, id).db)
  {
  }

  lemma CreateCategoryStable(db: T.Db, u: UserId, roomId: Id, name: string, color: Option<string>)
    requires T.Valid(db)
    ensures Stable(db, T.CreateCategory(db, u, roomId, name, color).db)
  {
  }

  lemma UpdateCategoryStable(db: T.Db, u: UserId, id: Id, name: Option<string>, color: Option<string>)
    requires T.Valid(db)
    ensures Stable(db, T.UpdateCategory(db, u, id, name, color).db)
  {
  }

  lemma DeleteCategoryStable(db: T.Db, u: UserId, id: Id)
    requires T.Valid(db)
    ensures Stable(db, T.DeleteCategory(db, u, id).db)
  {
  }

  lemma CreateCardStable(db: T.Db, u: UserId, roomId: Id, categoryId: Id, text: string)
    requires T.Valid(db)
    ensures Stable(db, T.CreateCard(db, u, roomId, categoryId, text).db)
  {
  }

  lemma UpdateCardStable(db: T.Db, u: UserId, id: Id, text: Option<string>)
    requires T.Valid(db)
    ensures Stable(db, T.UpdateCard(db, u, id, text).db)
  {
  }

  lemma DeleteCardStable(db: T.Db, u: UserId, id: Id)
    requires T.Valid(db)
    ensures Stable(db, T.DeleteCard(db, u, id).db)
  {
  }

  /** Stability composes, because ids are never handed out twice. */
  lemma StableTransitive(a: T.Db, b: T.Db, c: T.Db)
    requires T.Valid(a) && Stable(a, b) && Stable(b, c)
    ensures Stable(a, c)
  {
    forall id | id in a.rooms && id in c.rooms
      ensures c.rooms[id].ownerId == a.rooms[id].ownerId && c.rooms[id].name == a.rooms[id].name
    {
      assert id < a.nextId <= b.nextId;
    }
    forall id | id in a.categories && id in c.categories
      ensures c.categories[id].roomId == a.categories[id].roomId
    {
      assert id < a.nextId <= b.nextId;
    }
    forall id | id in a.cards && id in c.cards
      ensures c.cards[id].creatorId == a.cards[id].creatorId
      ensures c.cards[id].roomId == a.cards[id].roomId
      ensures c.cards[id].categoryId == a.cards[id].categoryId
    {
      assert id < a.nextId <= b.nextId;
    }
  }

  /** Over any sequence of requests, owners, room names, category and card
      links and card creators never change, and ids are never re-used. */
  lemma {:induction false} RunStable(db: T.Db, reqs: seq<Request>)
    requires T.Valid(db)
    ensures Stable(db, Run(db, reqs))
    decreases |reqs|
  {
    if reqs != [] {
      var next := Apply(db, reqs[0]);
      ApplyStable(db, reqs[0]);
      RunStable(next, reqs[1..]);
      StableTransitive(db, next, Run(next, reqs[1..]));
    }
  }

  /** A room that survives any sequence of requests keeps its owner. */
  lemma OwnerNeverChanges(db: T.Db, reqs: seq<Request>, id: Id)
    requires T.Valid(db) && id in db.rooms && id in Run(db, reqs).rooms
    ensures Run(db, reqs).rooms[id].ownerId == db.rooms[id].ownerId
  {
    RunStable(db, reqs);
  }

  /** A card that survives any sequence of requests keeps its creator, room and category. */
  lemma CardLinksNeverChange(db: T.Db, reqs: seq<Request>, id: Id)
    requires T.Valid(db) && id in db.cards && id in Run(db, reqs).cards
    ensures var c := Run(db, reqs).cards[id];
      c.creatorId == db.cards[id].creatorId && c.roomId == db.cards[id].roomId
      && c.categoryId == db.cards[id].categoryId
  {
    RunStable(db, reqs);
  }

  /** Once a room is deleted its id never names a room again. */
  lemma DeletedRoomStaysDeleted(db: T.Db, caller: UserId, id: Id, reqs: seq<Request>)
    requires T.Valid(db) && T.DeleteRoom(db, caller, id).result.Ok?
    ensures id !in Run(T.DeleteRoom(db, caller, id).db, reqs).rooms
  {
    var after := T.DeleteRoom(db, caller, id).db;
    RunStable(after, reqs);
    assert id < after.nextId;
  }

  /** A successful join followed by a leave of the same caller restores the
      store exactly, membership included. */
  lemma JoinThenLeave(db: T.Db, caller: UserId, id: Id)
    requires T.Valid(db) && T.JoinRoom(db, caller, id).result.Ok?
    ensures var joined := T.JoinRoom(db, caller, id).db;
      T.LeaveRoom(joined, caller, id).result.Ok? && T.LeaveRoom(joined, caller, id).db == db
  {
  }

  /** A second join by the same caller is turned away and changes nothing:
      membership is never duplicated. */
  lemma JoinTwice(db: T.Db, caller: UserId, id: Id)
    requires T.Valid(db) && T.JoinRoom(db, caller, id).result.Ok?
    ensures var joined := T.JoinRoom(db, caller, id).db;
      T.JoinRoom(joined, caller, id) == T.Step(Fail(BadRequest), joined)
  {
  }

  /** Right after createRoom its creator is owner and member of it; later
      requests may take the owner out of the members. */
  lemma OwnerMayLeave(db: T.Db, caller: UserId, name: string)
    requires T.Valid(db)
    ensures var created := T.CreateRoom(db, caller, name, None);
      var id := created.result.value.id;
      && caller in created.db.rooms[id].members
      && T.LeaveRoom(created.db, caller, id).result.Ok?
      && caller !in T.LeaveRoom(created.db, caller, id).db.rooms[id].members
      && T.LeaveRoom(created.db, caller, id).db.rooms[id].ownerId == caller
  {
  }

  /** The room createRoom makes has, attached to it, exactly the categories
      seeded from the supplied names (none when the list is omitted), and no
      card yet. */
  lemma NewRoomContents(db: T.Db, caller: UserId, name: string, categories: Option<seq<string>>)
    requires T.Valid(db)
    ensures var s := T.CreateRoom(db, caller, name, categories);
      var room := s.result.value.id;
      var n := if categories.Some? then |categories.value| else 0;
      && (forall id :: (id in s.db.categories && s.db.categories[id].roomId == room)
                       <==> room < id <= room + n)
      && (forall id :: id in s.db.cards ==> s.db.cards[id].roomId != room)
  {
  }

  /** createCard accepts a category of another room: the card then sits in
      one room and under a category of a different one. */
  lemma CardCategoryMayBelongElsewhere(db: T.Db, caller: UserId, roomId: Id, categoryId: Id, text: string)
    requires T.Valid(db)
    requires roomId in db.rooms && caller in db.rooms[roomId].members
    requires categoryId in db.categories && db.categories[categoryId].roomId != roomId
    ensures var s := T.CreateCard(db, caller, roomId, categoryId, text);
      s.result.Ok? && s.db.categories[s.result.value.categoryId].roomId != s.result.value.roomId
  {
  }

  /** The walk-through, first half: O creates a room with the category
      "Bugs" and is its owner and only member; M joins, and the members are
      then exactly O and M. */
  lemma ScenarioCreateAndJoin(defaults: T.Defaults, o: UserId, m: UserId)
    requires o != m
    ensures var s0 := T.CreateRoom(T.Empty(defaults), o, "Retro", Some(["Bugs"]));
      var room := s0.result.value.id;
      var s1 := T.JoinRoom(s0.db, m, room);
      && s0.db.rooms[room].ownerId == o && s0.db.rooms[room].members == {o}
      && room + 1 in s0.db.categories
      && s0.db.categories[room + 1].name == "Bugs" && s0.db.categories[room + 1].roomId == room
      && s1.result.Ok? && s1.result.value.members == {o, m} && s1.result.value.ownerId == o
  {
  }

  /** The walk-through, second half: in a room owned by O with member M,
      M's card has M as creator; O may delete it (the owner overrides the
      creator), but M may not delete a card O wrote. */
  lemma ScenarioOwnerOverride(db: T.Db, o: UserId, m: UserId, room: Id, bugs: Id)
    requires T.Valid(db) && o != m
    requires room in db.rooms && db.rooms[room].ownerId == o
    requires o in db.rooms[room].members && m in db.rooms[room].members
    ensures var s2 := T.CreateCard(db, m, room, bugs, "fix X");
      var s3 := T.CreateCard(s2.db, o, room, bugs, "ship Y");
      var s4 := T.DeleteCard(s3.db, o, s2.result.value.id);
      var s5 := T.DeleteCard(s4.db, m, s3.result.value.id);
      && s2.result.value.creatorId == m
      && s4.result.Ok?
      && s5.result == Fail(Unauthorized)
  {
  }
}
