/** The room router as a store whose tables are updated in place. Each
    procedure looks up its target, rejects with a typed error, or applies one
    mutation, and is proved to do exactly what the matching step of `Tables`
    describes. Each method is the in-place form of the `Tables` function of
    the same name, with the same branches in the same order. */
module RoomRouter {
  import opened Records
  import opened Guards
  import T = Tables

  class RoomService {
    var rooms: map<Id, Room>
    var categories: map<Id, Category>
    var cards: map<Id, Card>
    var nextId: Id
    const defaults: T.Defaults

    /** The tables as one value. */
    function Db(): T.Db
      reads this
    {
      T.Db(rooms, categories, cards, nextId, defaults)
    }

    ghost predicate Valid()
      reads this
    {
      T.Valid(Db())
    }

    /** An empty store whose new rooms take the column defaults `defaults`. */
    constructor (defaults: T.Defaults)
      ensures Valid() && Db() == T.Empty(defaults)
    {
      rooms, categories, cards, nextId := map[], map[], map[], 0;
      this.defaults := defaults;
    }

    method CreateRoom(caller: UserId, name: string, categoryNames: Option<seq<string>>) returns (r: Result<Room>)
      requires Valid()
      modifies this
      ensures T.Step(r, Db()) == T.CreateRoom(old(Db()), caller, name, categoryNames)
      ensures Valid()
    {
      var names := categoryNames.GetOr([]);
      var id := nextId;
      var room := Room(id, name, caller, defaults.mutable, defaults.anonymous, {caller});
      rooms := rooms[id := room];
      categories := T.SeedCategories(categories, names, id, id + 1);
      nextId := id + 1 + |names|;
      r := Ok(room);
    }

    method UpdateRoom(caller: UserId, id: Id, mutable: Option<bool>, anonymous: Option<bool>) returns (r: Result<Room>)
      requires Valid()
      modifies this
      ensures Valid()
      ensures T.Step(r, Db()) == T.UpdateRoom(old(Db()), caller, id, mutable, anonymous)
      ensures r.Fail? ==> unchanged(this)
    {
      if id !in rooms {
        return Fail(NotFound);
      }
      var room := rooms[id];
      if !IsOwner(room, caller) {
        return Fail(Unauthorized);
      }
      if mutable.Some? {
        room := room.(mutable := mutable.value);
      }
      if anonymous.Some? {
        room := room.(anonymous := anonymous.value);
      }
      rooms := rooms[id := room];
      r := Ok(room);
    }

    method DeleteRoom(caller: UserId, id: Id) returns (r: Result<Room>)
      requires Valid()
      modifies this
      ensures Valid()
      ensures T.Step(r, Db()) == T.DeleteRoom(old(Db()), caller, id)
      ensures r.Fail? ==> unchanged(this)
    {
      if id !in rooms {
        return Fail(NotFound);
      }
      var room := rooms[id];
      if !IsOwner(room, caller) {
        return Fail(Unauthorized);
      }
      rooms := rooms - {id};
      r := Ok(room);
    }

    method JoinRoom(caller: UserId, id: Id) returns (r: Result<Room>)
      requires Valid()
      modifies this
      ensures Valid()
      ensures T.Step(r, Db()) == T.JoinRoom(old(Db()), caller, id)
      ensures r.Fail? ==> unchanged(this)
    {
      if id !in rooms {
        return Fail(NotFound);
      }
      var room := rooms[id];
      if IsMember(room, caller) {
        return Fail(BadRequest);
      }
      room := room.(members := room.members + {caller});
      rooms := rooms[id := room];
      r := Ok(room);
    }

    method LeaveRoom(caller: UserId, id: Id) returns (r: Result<Room>)
      requires Valid()
      modifies this
      ensures Valid()
      ensures T.Step(r, Db()) == T.LeaveRoom(old(Db()), caller, id)
      ensures r.Fail? ==> unchanged(this)
    {
      if id !in rooms {
        return Fail(NotFound);
      }
      var room := rooms[id];
      if !IsMember(room, caller) {
        return Fail(BadRequest);
      }
      room := room.(members := room.members - {caller});
      rooms := rooms[id := room];
      r := Ok(room);
    }

    /** getRoom reads the store and changes nothing. */
    method GetRoom(id: Id) returns (r: Result<Room>)
      ensures r.Ok? <==> id in rooms
      ensures r.Ok? ==> r.value == rooms[id]
      ensures r.Fail? ==> r.err == NotFound
    {
      if id !in rooms {
        return Fail(NotFound);
      }
      r := Ok(rooms[id]);
    }

    method CreateCategory(caller: UserId, roomId: Id, name: string, color: Option<string>) returns (r: Result<Category>)
      requires Valid()
      modifies this
      ensures Valid()
      ensures T.Step(r, Db()) == T.CreateCategory(old(Db()), caller, roomId, name, color)
      ensures r.Fail? ==> unchanged(this)
    {
      if roomId !in rooms {
        return Fail(NotFound);
      }
      if !IsOwner(rooms[roomId], caller) {
        return Fail(Unauthorized);
      }
      var c := Category(nextId, name, color, roomId);
      categories := categories[c.id := c];
      nextId := nextId + 1;
      r := Ok(c);
    }

    method UpdateCategory(caller: UserId, id: Id, name: Option<string>, color: Option<string>) returns (r: Result<Category>)
      requires Valid()
      modifies this
      ensures Valid()
      ensures T.Step(r, Db()) == T.UpdateCategory(old(Db()), caller, id, name, color)
      ensures r.Fail? ==> unchanged(this)
    {
      if id !in categories {
        return Fail(NotFound);
      }
      var c := categories[id];
      if !OwnsRoom(rooms, c.roomId, caller) {
        return Fail(Unauthorized);
      }
      if name.Some? {
        c := c.(name := name.value);
      }
      if color.Some? {
        c := c.(color := color);
      }
      categories := categories[id := c];
      r := Ok(c);
    }

    method DeleteCategory(caller: UserId, id: Id) returns (r: Result<Category>)
      requires Valid()
      modifies this
      ensures Valid()
      ensures T.Step(r, Db()) == T.DeleteCategory(old(Db()), caller, id)
      ensures r.Fail? ==> unchanged(this)
    {
      if id !in categories {
        return Fail(NotFound);
      }
      var c := categories[id];
      if !OwnsRoom(rooms, c.roomId, caller) {
        return Fail(Unauthorized);
      }
      categories := categories - {id};
      r := Ok(c);
    }

    method CreateCard(caller: UserId, roomId: Id, categoryId: Id, text: string) returns (r: Result<Card>)
      requires Valid()
      modifies this
      ensures Valid()
      ensures T.Step(r, Db()) == T.CreateCard(old(Db()), caller, roomId, categoryId, text)
      ensures r.Fail? ==> unchanged(this)
    {
      if roomId !in rooms {
        return Fail(NotFound);
      }
      if !IsMember(rooms[roomId], caller) {
        return Fail(BadRequest);
      }
      var c := Card(nextId, text, caller, roomId, categoryId);
      cards := cards[c.id := c];
      nextId := nextId + 1;
      r := Ok(c);
    }

    method UpdateCard(caller: UserId, id: Id, text: Option<string>) returns (r: Result<Card>)
      requires Valid()
      modifies this
      ensures Valid()
      ensures T.Step(r, Db()) == T.UpdateCard(old(Db()), caller, id, text)
      ensures r.Fail? ==> unchanged(this)
    {
      if id !in cards {
        return Fail(NotFound);
      }
      var c := cards[id];
      if !MayModifyCard(rooms, c, caller) {
        return Fail(Unauthorized);
      }
      if text.Some? {
        c := c.(text := text.value);
      }
      cards := cards[id := c];
      r := Ok(c);
    }

    method DeleteCard(caller: UserId, id: Id) returns (r: Result<Card>)
      requires Valid()
      modifies this
      ensures Valid()
      ensures T.Step(r, Db()) == T.DeleteCard(old(Db()), caller, id)
      ensures r.Fail? ==> unchanged(this)
    {
      if id !in cards {
        return Fail(NotFound);
      }
      var c := cards[id];
      if !MayModifyCard(rooms, c, caller) {
        return Fail(Unauthorized);
      }
      cards := cards - {id};
      r := Ok(c);
    }
  }
}
