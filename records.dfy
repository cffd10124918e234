/** The four record kinds of the retrospective service and the typed errors
    its procedures raise. Ids are handed out by the store; a user id is the
    stable identity carried by the caller's session. */
module Records {

  type Id = nat
  type UserId = string

  /** An optional value: an omitted input field, or a nullable column. */
  datatype Option<T> = None | Some(value: T) {
    /** The value if present, otherwise `default`. */
    function GetOr(default: T): T {
      match this
      case Some(v) => v
      case None => default
    }
  }

  /** The error codes the procedures raise. */
  datatype Err = NotFound | Unauthorized | BadRequest

  /** What a procedure hands back: the record it produced, or the error it raised. */
  datatype Result<T> = Ok(value: T) | Fail(err: Err)

  /** A room: its owner is fixed at creation, its members are a set of users. */
  datatype Room = Room(
    id: Id,
    name: string,
    ownerId: UserId,
    mutable: bool,
    anonymous: bool,
    members: set<UserId>)

  /** A category belongs to the room `roomId`; `color` is a nullable column. */
  datatype Category = Category(
    id: Id,
    name: string,
    color: Option<string>,
    roomId: Id)

  /** A card is filed under a room and a category and remembers who wrote it. */
  datatype Card = Card(
    id: Id,
    text: string,
    creatorId: UserId,
    roomId: Id,
    categoryId: Id)
}
