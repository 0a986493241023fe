/** `RoomService`: the static stand-ins for a room database. */
module RoomServices {
  import opened Wrappers
  import opened Values
  import opened Entities

  /** `getRoomById`: a fixed room under whatever id is asked for; never absent. */
  function GetRoomById(id: Id): (r: Option<Room>)
    ensures r.Some? && r.value.id == id
    ensures r.value.length == 10.0 && r.value.width == 12.0 && r.value.height == 20.0
  {
    Some(Room(id, 10.0, 12.0, 20.0))
  }

  /** `getAllRooms`: two fixed rooms, ids 1 then 2. */
  function GetAllRooms(): (r: Option<seq<Room>>)
    ensures r.Some? && |r.value| == 2
    ensures r.value[0].id == Num(1) && r.value[1].id == Num(2)
  {
    Some([Room(Num(1), 10.0, 12.0, 20.0), Room(Num(2), 14.0, 2.0, 230.0)])
  }

  /** `createPostRoom`: echoes `{ id, length, width, height }`. */
  function CreatePostRoom(room: Room): (r: Option<Room>)
    ensures r == Some(room)
  {
    Some(Room(room.id, room.length, room.width, room.height))
  }

  /** `updatePostRoom`: the id joined with the given dimensions. */
  function UpdatePostRoom(id: Id, dims: Dims): (r: Option<Room>)
    ensures r.Some? && r.value.id == id
    ensures Dims(r.value.length, r.value.width, r.value.height) == dims
  {
    Some(Room(id, dims.length, dims.width, dims.height))
  }

  /** `deletePostRoom`: reports success for every id. */
  function DeletePostRoom(id: Id): (r: bool)
    ensures r
  {
    true
  }

  /** The accessor object `require('../postRoomServices')` yields: lookups never come
      back absent, creates and updates echo, deletes report success. */
  function Service(): (s: RoomStore)
    ensures forall id :: s.getRoomById(id).Some? && s.getRoomById(id).value.id == id
    ensures s.getAllRooms() == GetAllRooms()
    ensures forall room :: s.createPostRoom(room) == Some(room)
    ensures forall id, dims :: s.updatePostRoom(id, dims) == Some(Room(id, dims.length, dims.width, dims.height))
    ensures forall id :: s.deletePostRoom(id)
  {
    RoomStore(GetRoomById, () => GetAllRooms(), CreatePostRoom, UpdatePostRoom, DeletePostRoom)
  }
}
