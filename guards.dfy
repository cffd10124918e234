/** The authorization tests the procedures apply to records they have
    already fetched. */
module Guards {
  import opened Records

  /** The caller is the room's owner. */
  predicate IsOwner(room: Room, user: UserId) {
    room.ownerId == user
  }

  /** The caller is among the room's members. */
  predicate IsMember(room: Room, user: UserId) {
    user in room.members
  }

  /** The room reached through the link `roomId` is owned by `user`. A link
      to a room that is no longer stored has no owner the caller could be. */
  predicate OwnsRoom(rooms: map<Id, Room>, roomId: Id, user: UserId) {
    roomId in rooms && IsOwner(rooms[roomId], user)
  }

  /** A card may be edited or deleted by its room's owner or by its creator. */
  predicate MayModifyCard(rooms: map<Id, Room>, card: Card, user: UserId) {
    OwnsRoom(rooms, card.roomId, user) || card.creatorId == user
  }
}
