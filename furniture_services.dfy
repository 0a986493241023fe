/** `FurnitureService`: the static stand-ins for a furniture database, and the accessor
    objects the furniture resolvers can end up holding. */
module FurnitureServices {
  import opened Wrappers
  import opened Values
  import opened Entities

  /** `getFurnitureById`: a fixed furniture in room 1 under whatever id is asked for;
      never absent. */
  function GetFurnitureById(id: Id): (r: Option<Furniture>)
    ensures r.Some? && r.value.id == id && r.value.roomId == Some(Num(1))
    ensures r.value.length == 10.0 && r.value.width == 12.0 && r.value.height == 23.0
  {
    Some(Furniture(id, 10.0, 12.0, 23.0, Some(Num(1))))
  }

  /** `getAllFurniture`: two fixed entries, ids 1 and 2, both in room 1. */
  function GetAllFurniture(): (r: Option<seq<Furniture>>)
    ensures r.Some? && |r.value| == 2
    ensures r.value[0].id == Num(1) && r.value[1].id == Num(2)
    ensures forall f <- r.value :: f.roomId == Some(Num(1))
  {
    Some([Furniture(Num(1), 10.2, 12.34, 21.23, Some(Num(1))),
          Furniture(Num(2), 20.5, 54.23, 23.25, Some(Num(1)))])
  }

  /** `createPostFurniture`: echoes `{ id, length, width, height, roomId }`. */
  function CreatePostFurniture(f: Furniture): (r: Option<Furniture>)
    ensures r == Some(f)
  {
    Some(Furniture(f.id, f.length, f.width, f.height, f.roomId))
  }

  /** `updatePostFurniture`: echoes the same five fields. */
  function UpdatePostFurniture(f: Furniture): (r: Option<Furniture>)
    ensures r == Some(f)
  {
    Some(Furniture(f.id, f.length, f.width, f.height, f.roomId))
  }

  /** `deletePostRoom(id, roomId)`, the class's only delete method: reports success. */
  function DeletePostRoom(id: Id, roomId: Option<Id>): (r: bool)
    ensures r
  {
    true
  }

  /** What `require('../postFurnitureServices')` yields as the file stands: the file
      assigns nothing to `module.exports`, so the resolvers hold an empty object. */
  function ExportedModule(): (s: FurnitureStore)
    ensures s.getFurnitureById.None? && s.createPostFurniture.None?
    ensures s.updatePostFurniture.None? && s.deletePostFurniture.None?
  {
    FurnitureStore(None, None, None, None)
  }

  /** The class itself as the accessor: the methods the resolvers call, by name; it
      has no `deletePostFurniture`. */
  function ClassStore(): (s: FurnitureStore)
    ensures s.getFurnitureById.Some? && s.createPostFurniture.Some? && s.updatePostFurniture.Some?
    ensures s.deletePostFurniture.None?
  {
    FurnitureStore(Some(GetFurnitureById), Some(CreatePostFurniture), Some(UpdatePostFurniture), None)
  }

  /** The class with its delete method under the name the resolver calls. */
  function IntendedStore(): (s: FurnitureStore)
    ensures s.getFurnitureById.Some? && s.createPostFurniture.Some?
    ensures s.updatePostFurniture.Some? && s.deletePostFurniture.Some?
  {
    FurnitureStore(Some(GetFurnitureById), Some(CreatePostFurniture), Some(UpdatePostFurniture),
                   Some((id: Id) => DeletePostRoom(id, None)))
  }
}
