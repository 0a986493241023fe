/** The two entity kinds, the arguments the mutations receive, the data-accessor
    interfaces the resolvers call, and the record of those calls. */
module Entities {
  import opened Wrappers
  import opened Values

  /** A room as the accessors build it: `{ id, length, width, height }`. The arguments of
      `createPostRoom`/`updatePostRoom` have exactly these fields too. */
  datatype Room = Room(id: Id, length: real, width: real, height: real)

  /** The dimension record `{ length, width, height }` that `updatePostRoom` passes on. */
  datatype Dims = Dims(length: real, width: real, height: real)

  /** A furniture object as the accessors build it: `{ id, length, width, height, roomId }`;
      `roomId` is `None` when the object it was built from had no such field. */
  datatype Furniture = Furniture(id: Id, length: real, width: real, height: real, roomId: Option<Id>)

  /** The arguments of `createPostFurniture` and `updatePostFurniture`. On create the
      positions have schema defaults; `roomId` is absent unless the schema in use declares it. */
  datatype FurnitureInput = FurnitureInput(
    id: Id,
    position_x: real, position_y: real, position_z: real,
    length: real, width: real, height: real,
    roomId: Option<Id>)

  /** The room data accessor as `RoomService` exports it. Any implementation can stand in,
      including stubs that return `null`. */
  datatype RoomStore = RoomStore(
    getRoomById: Id -> Option<Room>,
    getAllRooms: () -> Option<seq<Room>>,
    createPostRoom: Room -> Option<Room>,
    updatePostRoom: (Id, Dims) -> Option<Room>,
    deletePostRoom: Id -> bool)

  /** The furniture data accessor: each method the resolvers call may be missing from the
      object they hold (`None`), and calling a missing method throws a `TypeError`. */
  datatype FurnitureStore = FurnitureStore(
    getFurnitureById: Option<Id -> Option<Furniture>>,
    createPostFurniture: Option<Furniture -> Option<Furniture>>,
    updatePostFurniture: Option<Furniture -> Option<Furniture>>,
    deletePostFurniture: Option<Id -> bool>)

  /** One invocation of a room accessor method, with its arguments. */
  datatype RoomCall =
    | RoomById(id: Id)
    | AllRooms
    | RoomCreate(room: Room)
    | RoomUpdate(id: Id, dims: Dims)
    | RoomDelete(id: Id)

  /** One invocation of a furniture accessor method, with its arguments. */
  datatype FurnitureCall =
    | FurnitureById(id: Id)
    | FurnitureCreate(furniture: Furniture)
    | FurnitureUpdate(furniture: Furniture)
    | FurnitureDelete(id: Id)

  /** What one resolver call yields: its value or the exception it throws, and the
      accessor invocations it made, in order. */
  datatype Reply<+T, +C> = Reply(result: Result<T, Thrown>, calls: seq<C>)
}
