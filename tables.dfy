/** The database behind the room service, as one value, and each procedure
    of the room router as a step from one value of it to the next. Every
    step looks up its target, rejects with a typed error, or applies one
    mutation; a rejected step hands the store back untouched. */
module Tables {
  import opened Records
  import opened Guards

  /** Column defaults a new room takes for the two flags the creator does not set. */
  datatype Defaults = Defaults(mutable: bool, anonymous: bool)

  /** The four tables (membership lives in each room's member set) and the
      counter that hands out fresh ids. */
  datatype Db = Db(
    rooms: map<Id, Room>,
    categories: map<Id, Category>,
    cards: map<Id, Card>,
    nextId: Id,
    defaults: Defaults)

  /** A procedure's outcome together with the store it leaves behind. */
  datatype Step<T> = Step(result: Result<T>, db: Db)

  /** Every stored record sits under its own id, every id was handed out by
      the counter, and every room link of a category or card points at an id
      that was once handed out. */
  predicate Valid(db: Db) {
    && (forall id :: id in db.rooms ==> id < db.nextId && db.rooms[id].id == id)
    && (forall id :: id in db.categories ==>
          id < db.nextId && db.categories[id].id == id && db.categories[id].roomId < db.nextId)
    && (forall id :: id in db.cards ==>
          id < db.nextId && db.cards[id].id == id && db.cards[id].roomId < db.nextId)
  }

  /** A store with no records. */
  function Empty(defaults: Defaults): (db: Db)
    ensures Valid(db)
    ensures db.rooms == map[] && db.categories == map[] && db.cards == map[]
    ensures db.defaults == defaults
  {
    Db(map[], map[], map[], 0, defaults)
  }

  /** The categories table after the new room `roomId` is seeded: beside
      every category already stored, one uncoloured category per name,
      attached to the room, under consecutive ids from `first` on. */
  function SeedCategories(existing: map<Id, Category>, names: seq<string>, roomId: Id, first: Id): (m: map<Id, Category>)
    requires forall id :: id in existing ==> id < first
    ensures forall id :: id in m <==> id in existing || first <= id < first + |names|
    ensures forall id :: id in existing ==> m[id] == existing[id]
    ensures forall id :: id in m && id !in existing ==> m[id] == Category(id, names[id - first], None, roomId)
    decreases |names|
  {
    if names == [] then existing
    else SeedCategories(existing[first := Category(first, names[0], None, roomId)], names[1..], roomId, first + 1)
  }

  /** createRoom: always succeeds. The caller becomes owner and sole member
      of a room under a fresh id, which is seeded with one uncoloured category
      per supplied name (none when the list is omitted) under the next fresh
      ids. Nothing that was stored before changes. */
  function CreateRoom(db: Db, caller: UserId, name: string, categories: Option<seq<string>>): (s: Step<Room>)
    requires Valid(db)
    ensures Valid(s.db) && s.db.defaults == db.defaults
    ensures s.result.Ok?
    ensures var room := s.result.value;
      && room.id == db.nextId
      && room.name == name && room.ownerId == caller && room.members == {caller}
      && room.mutable == db.defaults.mutable && room.anonymous == db.defaults.anonymous
      && s.db.rooms == db.rooms[room.id := room]
    ensures var n := if categories.Some? then |categories.value| else 0;
      && s.db.nextId == db.nextId + 1 + n
      && (forall id :: db.nextId < id <= db.nextId + n ==> id in s.db.categories)
      && (forall id :: id in s.db.categories ==>
            (if id in db.categories then s.db.categories[id] == db.categories[id]
             else (categories.Some? && db.nextId < id <= db.nextId + n
                   && s.db.categories[id] == Category(id, categories.value[id - db.nextId - 1], None, db.nextId))))
    ensures forall id :: id in db.categories ==> id in s.db.categories
    ensures s.db.cards == db.cards
  {
    var names := categories.GetOr([]);
    var roomId := db.nextId;
    var room := Room(roomId, name, caller, db.defaults.mutable, db.defaults.anonymous, {caller});
    Step(Ok(room), db.(rooms := db.rooms[roomId := room],
                       categories := SeedCategories(db.categories, names, roomId, roomId + 1),
                       nextId := roomId + 1 + |names|))
  }

  /** updateRoom: only the owner may change the room's settings; a flag the
      caller omits keeps its value, and nothing but the two flags changes. */
  function UpdateRoom(db: Db, caller: UserId, id: Id, mutable: Option<bool>, anonymous: Option<bool>): (s: Step<Room>)
    requires Valid(db)
    ensures Valid(s.db)
    ensures s.result == Fail(NotFound) <==> id !in db.rooms
    ensures s.result == Fail(Unauthorized) <==> id in db.rooms && db.rooms[id].ownerId != caller
    ensures s.result.Ok? <==> OwnsRoom(db.rooms, id, caller)
    ensures s.result.Fail? ==> s.db == db
    ensures s.result.Ok? ==>
      var before, after := db.rooms[id], s.result.value;
      && after.id == id && after.name == before.name
      && after.ownerId == before.ownerId && after.members == before.members
      && after.mutable == (if mutable.Some? then mutable.value else before.mutable)
      && after.anonymous == (if anonymous.Some? then anonymous.value else before.anonymous)
      && s.db == db.(rooms := db.rooms[id := after])
  {
    if id !in db.rooms then Step(Fail(NotFound), db)
    else
      var room := db.rooms[id];
      if !IsOwner(room, caller) then Step(Fail(Unauthorized), db)
      else
        var updated := room.(mutable := mutable.GetOr(room.mutable),
                             anonymous := anonymous.GetOr(room.anonymous));
        Step(Ok(updated), db.(rooms := db.rooms[id := updated]))
  }

  /** deleteRoom: only the owner may delete the room; it hands back the
      deleted room. Categories and cards of the room are left as they are. */
  function DeleteRoom(db: Db, caller: UserId, id: Id): (s: Step<Room>)
    requires Valid(db)
    ensures Valid(s.db)
    ensures s.result == Fail(NotFound) <==> id !in db.rooms
    ensures s.result == Fail(Unauthorized) <==> id in db.rooms && db.rooms[id].ownerId != caller
    ensures s.result.Ok? <==> OwnsRoom(db.rooms, id, caller)
    ensures s.result.Fail? ==> s.db == db
    ensures s.result.Ok? ==>
      && s.result.value == db.rooms[id]
      && id !in s.db.rooms
      && (forall k :: k in s.db.rooms <==> k in db.rooms && k != id)
      && s.db == db.(rooms := db.rooms - {id})
  {
    if id !in db.rooms then Step(Fail(NotFound), db)
    else
      var room := db.rooms[id];
      if !IsOwner(room, caller) then Step(Fail(Unauthorized), db)
      else Step(Ok(room), db.(rooms := db.rooms - {id}))
  }

  /** joinRoom: a caller already in the room is turned away; otherwise the
      caller is added to the member set, which grows by exactly one. */
  function JoinRoom(db: Db, caller: UserId, id: Id): (s: Step<Room>)
    requires Valid(db)
    ensures Valid(s.db)
    ensures s.result == Fail(NotFound) <==> id !in db.rooms
    ensures s.result == Fail(BadRequest) <==> id in db.rooms && caller in db.rooms[id].members
    ensures s.result.Ok? <==> id in db.rooms && caller !in db.rooms[id].members
    ensures s.result.Fail? ==> s.db == db
    ensures s.result.Ok? ==>
      var before, after := db.rooms[id], s.result.value;
      && after.members == before.members + {caller}
      && |after.members| == |before.members| + 1
      && after == before.(members := after.members)
      && s.db == db.(rooms := db.rooms[id := after])
  {
    if id !in db.rooms then Step(Fail(NotFound), db)
    else
      var room := db.rooms[id];
      if IsMember(room, caller) then Step(Fail(BadRequest), db)
      else
        var joined := room.(members := room.members + {caller});
        Step(Ok(joined), db.(rooms := db.rooms[id := joined]))
  }

  /** leaveRoom: a caller who is not in the room is turned away; otherwise
      the caller is taken out of the member set, which shrinks by exactly one.
      The owner is not kept from leaving. */
  function LeaveRoom(db: Db, caller: UserId, id: Id): (s: Step<Room>)
    requires Valid(db)
    ensures Valid(s.db)
    ensures s.result == Fail(NotFound) <==> id !in db.rooms
    ensures s.result == Fail(BadRequest) <==> id in db.rooms && caller !in db.rooms[id].members
    ensures s.result.Ok? <==> id in db.rooms && caller in db.rooms[id].members
    ensures s.result.Fail? ==> s.db == db
    ensures s.result.Ok? ==>
      var before, after := db.rooms[id], s.result.value;
      && after.members == before.members - {caller}
      && |after.members| == |before.members| - 1
      && after == before.(members := after.members)
      && s.db == db.(rooms := db.rooms[id := after])
  {
    if id !in db.rooms then Step(Fail(NotFound), db)
    else
      var room := db.rooms[id];
      if !IsMember(room, caller) then Step(Fail(BadRequest), db)
      else
        var left := room.(members := room.members - {caller});
        Step(Ok(left), db.(rooms := db.rooms[id := left]))
  }

  /** getRoom: a lookup open to anyone; it changes nothing. */
  function GetRoom(db: Db, id: Id): (r: Result<Room>)
    ensures r.Ok? <==> id in db.rooms
    ensures r.Ok? ==> r.value == db.rooms[id]
    ensures r.Fail? ==> r.err == NotFound
  {
    if id in db.rooms then Ok(db.rooms[id]) else Fail(NotFound)
  }

  /** createCategory: only the owner of `roomId` may add a category to it. */
  function CreateCategory(db: Db, caller: UserId, roomId: Id, name: string, color: Option<string>): (s: Step<Category>)
    requires Valid(db)
    ensures Valid(s.db)
    ensures s.result == Fail(NotFound) <==> roomId !in db.rooms
    ensures s.result == Fail(Unauthorized) <==> roomId in db.rooms && db.rooms[roomId].ownerId != caller
    ensures s.result.Ok? <==> OwnsRoom(db.rooms, roomId, caller)
    ensures s.result.Fail? ==> s.db == db
    ensures s.result.Ok? ==>
      var c := s.result.value;
      && c.id !in db.categories && c.name == name && c.color == color && c.roomId == roomId
      && s.db.categories == db.categories[c.id := c]
      && s.db.rooms == db.rooms && s.db.cards == db.cards && s.db.defaults == db.defaults
  {
    if roomId !in db.rooms then Step(Fail(NotFound), db)
    else if !IsOwner(db.rooms[roomId], caller) then Step(Fail(Unauthorized), db)
    else
      var c := Category(db.nextId, name, color, roomId);
      Step(Ok(c), db.(categories := db.categories[c.id := c], nextId := db.nextId + 1))
  }

  /** updateCategory: only the owner of the room the category is attached to
      may rename or recolour it; an omitted field keeps its value and the
      room link never changes. */
  function UpdateCategory(db: Db, caller: UserId, id: Id, name: Option<string>, color: Option<string>): (s: Step<Category>)
    requires Valid(db)
    ensures Valid(s.db)
    ensures s.result == Fail(NotFound) <==> id !in db.categories
    ensures s.result == Fail(Unauthorized) <==>
      id in db.categories && !OwnsRoom(db.rooms, db.categories[id].roomId, caller)
    ensures s.result.Ok? <==> id in db.categories && OwnsRoom(db.rooms, db.categories[id].roomId, caller)
    ensures s.result.Fail? ==> s.db == db
    ensures s.result.Ok? ==>
      var before, after := db.categories[id], s.result.value;
      && after.id == id && after.roomId == before.roomId
      && after.name == (if name.Some? then name.value else before.name)
      && after.color == (if color.Some? then color else before.color)
      && s.db == db.(categories := db.categories[id := after])
  {
    if id !in db.categories then Step(Fail(NotFound), db)
    else
      var c := db.categories[id];
      if !OwnsRoom(db.rooms, c.roomId, caller) then Step(Fail(Unauthorized), db)
      else
        var updated := c.(name := name.GetOr(c.name),
                          color := if color.Some? then color else c.color);
        Step(Ok(updated), db.(categories := db.categories[id := updated]))
  }

  /** deleteCategory: only the owner of the category's room may delete it.
      Cards filed under it are left as they are. */
  function DeleteCategory(db: Db, caller: UserId, id: Id): (s: Step<Category>)
    requires Valid(db)
    ensures Valid(s.db)
    ensures s.result == Fail(NotFound) <==> id !in db.categories
    ensures s.result == Fail(Unauthorized) <==>
      id in db.categories && !OwnsRoom(db.rooms, db.categories[id].roomId, caller)
    ensures s.result.Ok? <==> id in db.categories && OwnsRoom(db.rooms, db.categories[id].roomId, caller)
    ensures s.result.Fail? ==> s.db == db
    ensures s.result.Ok? ==>
      && s.result.value == db.categories[id]
      && (forall k :: k in s.db.categories <==> k in db.categories && k != id)
      && s.db == db.(categories := db.categories - {id})
  {
    if id !in db.categories then Step(Fail(NotFound), db)
    else
      var c := db.categories[id];
      if !OwnsRoom(db.rooms, c.roomId, caller) then Step(Fail(Unauthorized), db)
      else Step(Ok(c), db.(categories := db.categories - {id}))
  }

  /** createCard: any member of `roomId` may post a card; the caller becomes
      its creator. Whether `categoryId` belongs to `roomId` is not checked. */
  function CreateCard(db: Db, caller: UserId, roomId: Id, categoryId: Id, text: string): (s: Step<Card>)
    requires Valid(db)
    ensures Valid(s.db)
    ensures s.result == Fail(NotFound) <==> roomId !in db.rooms
    ensures s.result == Fail(BadRequest) <==> roomId in db.rooms && caller !in db.rooms[roomId].members
    ensures s.result.Ok? <==> roomId in db.rooms && caller in db.rooms[roomId].members
    ensures s.result.Fail? ==> s.db == db
    ensures s.result.Ok? ==>
      var c := s.result.value;
      && c.id !in db.cards
      && c.text == text && c.creatorId == caller && c.roomId == roomId && c.categoryId == categoryId
      && s.db.cards == db.cards[c.id := c]
      && s.db.rooms == db.rooms && s.db.categories == db.categories && s.db.defaults == db.defaults
  {
    if roomId !in db.rooms then Step(Fail(NotFound), db)
    else if !IsMember(db.rooms[roomId], caller) then Step(Fail(BadRequest), db)
    else
      var c := Card(db.nextId, text, caller, roomId, categoryId);
      Step(Ok(c), db.(cards := db.cards[c.id := c], nextId := db.nextId + 1))
  }

  /** updateCard: the card's creator or its room's owner may change its
      text, and nobody else; an omitted text keeps the old one. */
  function UpdateCard(db: Db, caller: UserId, id: Id, text: Option<string>): (s: Step<Card>)
    requires Valid(db)
    ensures Valid(s.db)
    ensures s.result == Fail(NotFound) <==> id !in db.cards
    ensures s.result == Fail(Unauthorized) <==>
      id in db.cards && !OwnsRoom(db.rooms, db.cards[id].roomId, caller) && db.cards[id].creatorId != caller
    ensures s.result.Ok? <==>
      id in db.cards && (OwnsRoom(db.rooms, db.cards[id].roomId, caller) || db.cards[id].creatorId == caller)
    ensures s.result.Fail? ==> s.db == db
    ensures s.result.Ok? ==>
      var before, after := db.cards[id], s.result.value;
      && after == before.(text := after.text)
      && after.text == (if text.Some? then text.value else before.text)
      && s.db == db.(cards := db.cards[id := after])
  {
    if id !in db.cards then Step(Fail(NotFound), db)
    else
      var c := db.cards[id];
      if !MayModifyCard(db.rooms, c, caller) then Step(Fail(Unauthorized), db)
      else
        var updated := c.(text := text.GetOr(c.text));
        Step(Ok(updated), db.(cards := db.cards[id := updated]))
  }

  /** deleteCard: the card's creator or its room's owner may delete it, and
      nobody else; no other card is touched. */
  function DeleteCard(db: Db, caller: UserId, id: Id): (s: Step<Card>)
    requires Valid(db)
    ensures Valid(s.db)
    ensures s.result == Fail(NotFound) <==> id !in db.cards
    ensures s.result == Fail(Unauthorized) <==>
      id in db.cards && !OwnsRoom(db.rooms, db.cards[id].roomId, caller) && db.cards[id].creatorId != caller
    ensures s.result.Ok? <==>
      id in db.cards && (OwnsRoom(db.rooms, db.cards[id].roomId, caller) || db.cards[id].creatorId == caller)
    ensures s.result.Fail? ==> s.db == db
    ensures s.result.Ok? ==>
      && s.result.value == db.cards[id]
      && (forall k :: k in s.db.cards <==> k in db.cards && k != id)
      && s.db == db.(cards := db.cards - {id})
  {
    if id !in db.cards then Step(Fail(NotFound), db)
    else
      var c := db.cards[id];
      if !MayModifyCard(db.rooms, c, caller) then Step(Fail(Unauthorized), db)
      else Step(Ok(c), db.(cards := db.cards - {id}))
  }
}
