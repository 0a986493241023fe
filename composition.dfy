/** The resolvers composed with the concrete accessors of the repository, and the
    scenarios its tests exercise. */
module Composition {
  import opened Wrappers
  import opened Values
  import opened Entities
  import RoomServices
  import FurnitureServices
  import opened RoomResolvers
  import opened FurnitureResolvers

  // ----- rooms with RoomService -----

  /** `getPostRoom` never reports a missing room: the stub always has one. */
  lemma RoomServiceGetFindsEveryId(id: Id)
    ensures GetPostRoom(RoomServices.Service(), id).result == Ok(Room(id, 10.0, 12.0, 20.0))
  {
  }

  /** `getPostAllRooms` yields the two fixed rooms, ids 1 then 2. */
  lemma RoomServiceGetAllTwoRooms()
    ensures var r := GetPostAllRooms(RoomServices.Service()).result;
      r.Ok? && r.value.Some? && |r.value.value| == 2 &&
      r.value.value[0].id == Num(1) && r.value.value[1].id == Num(2)
  {
  }

  /** The fixed room data is not held to the (0, 100) range: the second room is 230 high. */
  lemma RoomServiceDataUnchecked()
    ensures exists room <- RoomServices.GetAllRooms().value :: room.height >= 100.0
  {
    assert RoomServices.GetAllRooms().value[1].height == 230.0;
  }

  /** `createPostRoom` returns exactly its arguments. */
  lemma RoomServiceCreateEchoes(args: Room)
    ensures CreatePostRoom(RoomServices.Service(), args).result == Ok(Some(args))
  {
  }

  /** `updatePostRoom` returns the id with the given dimensions. */
  lemma RoomServiceUpdateEchoes(args: Room)
    ensures UpdatePostRoom(RoomServices.Service(), args).result == Ok(Some(args))
  {
  }

  /** `deletePostRoom` always answers `true`, after one lookup and one delete under the
      converted id. */
  lemma RoomServiceDeleteAlwaysTrue(id: Id)
    ensures var r := DeletePostRoom(RoomServices.Service(), id);
      r.result == Ok(true) && r.calls == [RoomById(ParseInt(id)), RoomDelete(ParseInt(id))]
  {
  }

  /** The create-room test's invalid input `(-5, -15, -25)` is accepted and echoed. */
  lemma CreateRoomAcceptsNegative()
    ensures var args := Room(Num(123), -5.0, -15.0, -25.0);
      CreatePostRoom(RoomServices.Service(), args).result == Ok(Some(args))
  {
  }

  /** The create-room test's over-long input `(105, 15.21, 25)` is accepted and echoed. */
  lemma CreateRoomAcceptsOverMaximum()
    ensures var args := Room(Num(123), 105.0, 15.21, 25.0);
      CreatePostRoom(RoomServices.Service(), args).result == Ok(Some(args))
  {
  }

  /** The update-room test's invalid input `(-5, 12, 16)` is accepted and echoed. */
  lemma UpdateRoomAcceptsNegative()
    ensures var args := Room(Num(123), -5.0, 12.0, 16.0);
      UpdatePostRoom(RoomServices.Service(), args).result == Ok(Some(args))
  {
  }

  /** A `null` collection from a stubbed accessor comes back as `null`, not as an error. */
  lemma GetAllRoomsNullPropagates(store: RoomStore)
    requires store.getAllRooms().None?
    ensures GetPostAllRooms(store).result == Ok(None)
    ensures GetPostRooms(store).result == Ok(None)
  {
  }

  /** With a lookup stubbed to `null`, deleting room "321" throws and deletes nothing. */
  lemma DeleteRoomMissing(store: RoomStore)
    requires forall id :: store.getRoomById(id).None?
    ensures DeletePostRoom(store, Str("321")) == Reply(Err(Error("Room not found")), [RoomById(Num(321))])
  {
    ParseIntOf321();
  }

  /** With a lookup stubbed to `null`, `getPostRoom(id: 321)` names the id in its error. */
  lemma GetRoomMissing(store: RoomStore)
    requires forall id :: store.getRoomById(id).None?
    ensures GetPostRoom(store, Str("321")).result == Err(Error("Room with id: 321 does not exist."))
  {
    assert RoomResolvers.NotFoundMessage(Str("321")) == "Room with id: 321 does not exist.";
  }

  /** The GraphQL `ID` "321" converts to the number 321. */
  lemma ParseIntOf321()
    ensures ParseInt(Str("321")) == Num(321)
  {
    assert IntToString(321) == "321" by {
      assert NatToString(3) == "3";
      assert NatToString(32) == "32";
    }
    ParseIntRoundTrip(321);
    assert Show(Str("321")) == "321";
  }

  // ----- furniture with the FurnitureService class -----

  /** As the file stands, nothing is exported, so every furniture resolver that passes its
      guards throws a `TypeError` and reaches no accessor. */
  lemma ExportedModuleRejectsEveryCall(a: FurnitureInput, id: Id)
    ensures AllWithin(DimsOf(a), CreateMin, CreateMax) ==>
      CreatePostFurniture(FurnitureServices.ExportedModule(), a) ==
      Reply(Err(TypeError(CreateMissing)), [])
    ensures AllWithin(DimsOf(a), UpdateMin, UpdateMax) ==>
      UpdatePostFurniture(FurnitureServices.ExportedModule(), a) ==
      Reply(Err(TypeError(UpdateMissing)), [])
    ensures GetPostFurniture(FurnitureServices.ExportedModule(), id) ==
      Reply(Err(TypeError(GetMissing)), [])
    ensures DeletePostFurniture(FurnitureServices.ExportedModule(), id) ==
      Reply(Err(TypeError(DeleteLookupMissing)), [])
  {
  }

  /** With the class as accessor, a valid create returns exactly the furniture fields of
      its input. */
  lemma ClassStoreCreateEchoes(a: FurnitureInput)
    requires AllWithin(DimsOf(a), CreateMin, CreateMax)
    ensures CreatePostFurniture(FurnitureServices.ClassStore(), a).result ==
      Ok(Some(Furniture(a.id, a.length, a.width, a.height, a.roomId)))
  {
  }

  /** With the class as accessor, a valid update returns the id and dimensions with no
      `roomId`: the positions and the room are lost. */
  lemma ClassStoreUpdateDropsRoom(a: FurnitureInput)
    requires AllWithin(DimsOf(a), UpdateMin, UpdateMax)
    ensures UpdatePostFurniture(FurnitureServices.ClassStore(), a).result ==
      Ok(Some(Furniture(a.id, a.length, a.width, a.height, None)))
  {
  }

  /** With the class as accessor, `getPostFurniture` finds every id, in room 1. */
  lemma ClassStoreGetFindsEveryId(id: Id)
    ensures GetPostFurniture(FurnitureServices.ClassStore(), id).result ==
      Ok(Furniture(id, 10.0, 12.0, 23.0, Some(Num(1))))
  {
  }

  /** With the class as accessor, `deletePostFurniture` finds the furniture and then
      throws, because the class has no `deletePostFurniture` method. */
  lemma ClassStoreDeleteThrows(id: Id)
    ensures DeletePostFurniture(FurnitureServices.ClassStore(), id) ==
      Reply(Err(TypeError(DeleteMissing)),
            [FurnitureById(ParseInt(id))])
  {
  }

  /** With the class's delete under the called name, deleting always answers `true`. */
  lemma IntendedStoreDeleteAlwaysTrue(id: Id)
    ensures var r := DeletePostFurniture(FurnitureServices.IntendedStore(), id);
      r.result == Ok(true) && r.calls == [FurnitureById(ParseInt(id)), FurnitureDelete(ParseInt(id))]
  {
  }

  /** The create-furniture test's valid input `(2.55, 3.99, 2.001)` is echoed. */
  lemma CreateFurnitureValidScenario()
    ensures var a := FurnitureInput(Str("123"), 0.0, 0.0, 0.0, 2.55, 3.99, 2.001, Some(Str("1")));
      CreatePostFurniture(FurnitureServices.ClassStore(), a).result ==
      Ok(Some(Furniture(Str("123"), 2.55, 3.99, 2.001, Some(Str("1")))))
  {
    var a := FurnitureInput(Str("123"), 0.0, 0.0, 0.0, 2.55, 3.99, 2.001, Some(Str("1")));
    assert AllWithin(DimsOf(a), CreateMin, CreateMax);
  }

  /** `(-5, -1, -2)` is rejected with the lower-bound message. */
  lemma CreateFurnitureNegativeScenario(store: FurnitureStore)
    ensures var a := FurnitureInput(Str("123"), 0.0, 0.0, 0.0, -5.0, -1.0, -2.0, Some(Str("1")));
      CreatePostFurniture(store, a) ==
      Reply(Err(UserInputError("Dimensions for the furniture have to be greater than 0")), [])
  {
  }

  /** `(22.55, 32.99, 22.001)` is rejected with the upper-bound message. */
  lemma CreateFurnitureOversizeScenario(store: FurnitureStore)
    ensures var a := FurnitureInput(Str("123"), 0.0, 0.0, 0.0, 22.55, 32.99, 22.001, Some(Str("1")));
      CreatePostFurniture(store, a) ==
      Reply(Err(UserInputError("Dimensions for the furniture have to be less than 5")), [])
  {
  }

  /** Width 120 is rejected with the message the code has, which is not the one the
      update-furniture test expects. */
  lemma UpdateFurnitureOversizeMessage(store: FurnitureStore)
    ensures var a := FurnitureInput(Str("123"), 1.0, 2.0, 3.0, 2.0, 120.0, 75.0, Some(Str("1")));
      var r := UpdatePostFurniture(store, a);
      r == Reply(Err(UserInputError("Update dimensions have to be less than 100")), []) &&
      r.result != Err(UserInputError("Update dimensions for furniture have to be less than 100"))
  {
  }

  /** Height -75 is rejected with the lower-bound update message. */
  lemma UpdateFurnitureNegativeScenario(store: FurnitureStore)
    ensures var a := FurnitureInput(Str("123"), 1.0, 2.0, 3.0, 2.0, 12.0, -75.0, Some(Str("1")));
      UpdatePostFurniture(store, a) ==
      Reply(Err(UserInputError("Dimensions used in the updated have to be greater than 0")), [])
  {
  }

  /** With a lookup stubbed to `null`, `getPostFurniture(id: 321)` names the id in its error. */
  lemma GetFurnitureMissing(store: FurnitureStore)
    requires store.getFurnitureById.Some? && forall id :: store.getFurnitureById.value(id).None?
    ensures GetPostFurniture(store, Str("321")).result == Err(Error("Furniture with id: 321 does not exist."))
  {
    assert FurnitureResolvers.NotFoundMessage(Str("321")) == "Furniture with id: 321 does not exist.";
  }

  /** With a lookup stubbed to `null`, deleting furniture "321" throws and deletes nothing. */
  lemma DeleteFurnitureMissing(store: FurnitureStore)
    requires store.getFurnitureById.Some? && forall id :: store.getFurnitureById.value(id).None?
    ensures DeletePostFurniture(store, Str("321")) == Reply(Err(Error("Furniture not found")), [FurnitureById(Num(321))])
  {
    ParseIntOf321();
  }
}
