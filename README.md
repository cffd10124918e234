# Room service of a sprint-retrospective app, in Dafny

The app lets users create a *room* for a retrospective. They invite members by the room's
id, file *cards* of feedback under *categories*, and edit or delete them. All of this logic
sits in one router, `src/server/api/routers/room.ts`, with twelve procedures. `createRoom`
looks nothing up and always creates the room with its seeded categories. `getRoom` only
reads: it returns the room or `NOT_FOUND` and writes nothing. Each of the other ten looks up
its target record, may reject with a typed error (`NOT_FOUND`, then `UNAUTHORIZED` or
`BAD_REQUEST`), and otherwise performs exactly one database write.

The model has two layers.

- `Tables` (tables.dfy) describes the database as one value, `Db`. It has three maps: rooms,
  categories and cards. Membership is each room's `members` set. A counter `nextId` hands out
  fresh ids. Each procedure is a function `Db -> Step(result, Db)`. Its contract states:
  when each error fires, who may perform the mutation, that a rejected call returns the store
  unchanged, and that an accepted call changes only the named record.
- `RoomRouter.RoomService` (room_service.dfy) is the same store as a class whose map fields the
  methods update in place, as the router updates its tables. Each method is proved to yield
  the result and new state that the matching `Tables` step describes.

`Guards` (guards.dfy) holds the router's authorization tests as predicates: owner, member,
and owner-or-creator. `Requests` (requests.dfy) runs arbitrary sequences of calls. It proves
what holds over all of them: owners, room names, category and card links, and card creators
never change, and ids are never reused. It also proves join/leave round trips and the
walk-through of a typical session.

Modelling choices:
- The caller's user id is an explicit parameter. It stands for the session user that the
  protected procedures read from their context.
- Fresh ids come from one counter shared by the three tables. In the database they are
  opaque generated strings. The model relies only on their freshness.
- A room takes its `mutable` and `anonymous` flags from the column defaults, which the
  database schema defines. Here they are a `Defaults` value given to the store.
- An omitted optional input is `None` and leaves the stored value as it was. An omitted
  `color` in `createCategory` stores a null colour (`None`).
- Deleting a room or a category leaves its categories and cards as they are. The model makes
  no claim about cascades. A category or card whose room is gone therefore has no owner the
  caller could be: for it `OwnsRoom` is false.

## Model

| member | source | states |
|---|---|---|
| Tables.SeedCategories | src/server/api/routers/room.ts:23-27 | after seeding, the table holds every existing category unchanged plus exactly one uncoloured category per supplied name, attached to the new room, under consecutive fresh ids in the order of the names |
| Tables.CreateRoom | src/server/api/routers/room.ts:17-38 | always succeeds; the new room has a fresh id, the caller as owner, exactly {caller} as members and the default flags; every supplied name gets a new uncoloured category under the following ids, attached to the room, and no other category is added; no existing room, category or card changes |
| Requests.NewRoomContents | src/server/api/routers/room.ts:20-38 | the categories attached to a newly created room are exactly those seeded from the supplied names (none when the list is omitted), and no card is attached to it |
| Tables.UpdateRoom | src/server/api/routers/room.ts:57-91 | NOT_FOUND exactly when the room is absent; UNAUTHORIZED exactly when it exists and the caller is not its owner; success exactly for the owner (membership is not enough); a rejected call leaves the store unchanged; an accepted one changes only the flags that were supplied, keeps name, owner and members, and changes no other record |
| Tables.DeleteRoom | src/server/api/routers/room.ts:95-118 | NOT_FOUND, then UNAUTHORIZED for any non-owner, with the store unchanged; the owner's call returns the deleted room and removes exactly that room, leaving categories and cards as they are |
| Tables.JoinRoom | src/server/api/routers/room.ts:122-167 | NOT_FOUND when the room is absent; BAD_REQUEST exactly when the caller is already a member, with the store unchanged; otherwise the member set becomes old plus the caller and grows by exactly one, and nothing else changes |
| Tables.LeaveRoom | src/server/api/routers/room.ts:171-216 | NOT_FOUND when the room is absent; BAD_REQUEST exactly when the caller is not a member, with the store unchanged; otherwise the member set becomes old minus the caller and shrinks by exactly one, and nothing else changes; the owner is not prevented from leaving |
| Tables.GetRoom | src/server/api/routers/room.ts:218-238 | returns the stored room when the id is present, and NOT_FOUND otherwise |
| Tables.CreateCategory | src/server/api/routers/room.ts:247-276 | NOT_FOUND when the room is absent, UNAUTHORIZED for a non-owner, store unchanged on rejection; the owner gets a new category under a fresh id with the given name, colour and room, and nothing else changes |
| Tables.UpdateCategory | src/server/api/routers/room.ts:286-316 | NOT_FOUND when the category is absent; UNAUTHORIZED exactly when the caller does not own the room reached through the category's room link; on success only the supplied name and colour change, the room link is kept and no other record changes |
| Tables.DeleteCategory | src/server/api/routers/room.ts:320-346 | NOT_FOUND, then UNAUTHORIZED unless the caller owns the category's room, store unchanged on rejection; on success exactly that category is removed and returned |
| Tables.CreateCard | src/server/api/routers/room.ts:356-397 | NOT_FOUND when the room is absent; BAD_REQUEST exactly when the caller is not a member, store unchanged; a member's card has a fresh id, the caller as creator and the given room, category and text; no existing card changes; the category's room is not checked |
| Tables.UpdateCard | src/server/api/routers/room.ts:406-438 | NOT_FOUND when the card is absent; success exactly for the owner of the card's room or the card's creator, UNAUTHORIZED for anyone else, store unchanged on rejection; only the text changes, and only when supplied |
| Tables.DeleteCard | src/server/api/routers/room.ts:442-471 | NOT_FOUND when the card is absent; success exactly for the room's owner or the card's creator, UNAUTHORIZED otherwise; on success exactly that card is removed and returned |
| RoomRouter.RoomService.CreateRoom | src/server/api/routers/room.ts:17-47 | the in-place insertion of the room and seeded categories yields exactly the result and store of Tables.CreateRoom, and keeps the store valid |
| RoomRouter.RoomService.UpdateRoom | src/server/api/routers/room.ts:57-91 | yields exactly the outcome of Tables.UpdateRoom; a rejected call changes no field |
| RoomRouter.RoomService.DeleteRoom | src/server/api/routers/room.ts:95-118 | yields exactly the outcome of Tables.DeleteRoom; a rejected call changes no field |
| RoomRouter.RoomService.JoinRoom | src/server/api/routers/room.ts:122-167 | yields exactly the outcome of Tables.JoinRoom; a rejected call changes no field |
| RoomRouter.RoomService.LeaveRoom | src/server/api/routers/room.ts:171-216 | yields exactly the outcome of Tables.LeaveRoom; a rejected call changes no field |
| RoomRouter.RoomService.GetRoom | src/server/api/routers/room.ts:218-238 | returns the stored room when present and NOT_FOUND otherwise, reading the store only |
| RoomRouter.RoomService.CreateCategory | src/server/api/routers/room.ts:247-276 | yields exactly the outcome of Tables.CreateCategory; a rejected call changes no field |
| RoomRouter.RoomService.UpdateCategory | src/server/api/routers/room.ts:286-316 | yields exactly the outcome of Tables.UpdateCategory; a rejected call changes no field |
| RoomRouter.RoomService.DeleteCategory | src/server/api/routers/room.ts:320-346 | yields exactly the outcome of Tables.DeleteCategory; a rejected call changes no field |
| RoomRouter.RoomService.CreateCard | src/server/api/routers/room.ts:356-397 | yields exactly the outcome of Tables.CreateCard; a rejected call changes no field |
| RoomRouter.RoomService.UpdateCard | src/server/api/routers/room.ts:406-438 | yields exactly the outcome of Tables.UpdateCard; a rejected call changes no field |
| RoomRouter.RoomService.DeleteCard | src/server/api/routers/room.ts:442-471 | yields exactly the outcome of Tables.DeleteCard; a rejected call changes no field |
| Requests.Apply | src/server/api/routers/room.ts:9-473 | serving any one procedure keeps the store valid (records sit under their own fresh ids) and never moves the id counter back |
| Requests.Run | src/server/api/routers/room.ts:9-473 | serving any sequence of calls keeps the store valid and never moves the id counter back |
| Requests.RunStable | src/server/api/routers/room.ts:9-473 | over any sequence of calls, no room's owner or name, no category's room link, and no card's creator, room or category ever changes, and every record that appears has an id never used before |
| Requests.OwnerNeverChanges | src/server/api/routers/room.ts:28-32 | a room that survives any sequence of calls still has the owner it was created with |
| Requests.CardLinksNeverChange | src/server/api/routers/room.ts:377-396 | a card that survives any sequence of calls keeps its creator, room and category |
| Requests.DeletedRoomStaysDeleted | src/server/api/routers/room.ts:113-117 | once a room is deleted, no later sequence of calls makes its id name a room again |
| Requests.JoinThenLeave | src/server/api/routers/room.ts:148-207 | a successful join followed by a leave by the same caller succeeds and restores the store exactly |
| Requests.JoinTwice | src/server/api/routers/room.ts:141-146 | a second join by the same caller is BAD_REQUEST and changes nothing |
| Requests.OwnerMayLeave | src/server/api/routers/room.ts:190-207 | the creator is a member right after createRoom, yet may leave the room and remain its owner, so owner-is-member is not an invariant |
| Requests.CardCategoryMayBelongElsewhere | src/server/api/routers/room.ts:385-394 | a member's card is accepted under a category of a different room |
| Requests.ScenarioCreateAndJoin | src/server/api/routers/room.ts:18-158 | O creates a room seeded with "Bugs" and is its owner and only member; once M joins, the members are exactly {O, M} |
| Requests.ScenarioOwnerOverride | src/server/api/routers/room.ts:457-465 | in a room owned by O with member M, M's card has creator M; O may delete it; M gets UNAUTHORIZED deleting a card O wrote |

## Left out

- The session requirement of the protected procedures (the unauthenticated error): it is enforced by the tRPC setup module, which is not part of this model. The caller id is a parameter.
- Input validation by zod and the tRPC routing: library plumbing.
- The shape of returned rooms: the router expands them with categories, owner, members, cards and polls. The model returns the room record alone. Polls are never touched.
- Delete cascades: they depend on a database schema that is not part of this model. Deleting a room or category leaves dependent records untouched. As a consequence the model admits states the database cannot reach: a card whose room was deleted stays in the table, and its creator may still update or delete it, where the database would either have removed the card with the room (then `NOT_FOUND`) or refused the room's deletion.
- Tables.CreateCard: the database would refuse a card whose `categoryId` names no stored category, because of its foreign key. That error is not modelled; the link is stored as given.
- Concurrency between the lookup and the write: each procedure is modelled as one atomic step.
- The page files under `src/pages`: user interface with no service logic.
