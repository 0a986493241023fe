/** The room resolvers: `getPostRoom`, `getPostAllRooms`, `getPostRooms`, `createPostRoom`,
    `updatePostRoom` and `deletePostRoom`, each a function of the room accessor it calls. */
module RoomResolvers {
  import opened Wrappers
  import opened Values
  import opened Entities

  const NotFoundPrefix := "Room with id: "
  const NotFoundSuffix := " does not exist."

  /** The message `getPostRoom` throws for an absent room: the printed id sits between a
      fixed prefix and a fixed suffix, so it can be read back out of the message. */
  function NotFoundMessage(id: Id): (m: string)
    ensures |m| == |NotFoundPrefix| + |Show(id)| + |NotFoundSuffix|
    ensures m[..|NotFoundPrefix|] == NotFoundPrefix
    ensures m[|NotFoundPrefix|..|NotFoundPrefix| + |Show(id)|] == Show(id)
    ensures m[|NotFoundPrefix| + |Show(id)|..] == NotFoundSuffix
  {
    SliceMiddle(NotFoundPrefix, Show(id), NotFoundSuffix);
    SliceEnd(NotFoundPrefix, Show(id), NotFoundSuffix);
    NotFoundPrefix + Show(id) + NotFoundSuffix
  }

  /** The message `deletePostRoom` throws for an absent room. */
  const DeleteNotFound := "Room not found"

  /** `Query.getPostRoom`: fetch by the id as received; absence becomes an error naming it. */
  function GetPostRoom(store: RoomStore, id: Id): (r: Reply<Room, RoomCall>)
    ensures r.calls == [RoomById(id)]
    ensures r.result.Ok? <==> store.getRoomById(id).Some?
    ensures r.result.Ok? ==> store.getRoomById(id) == Some(r.result.value)
    ensures r.result.Err? ==> r.result.error == Error(NotFoundMessage(id))
  {
    var room := store.getRoomById(id);
    if room.None? then Reply(Err(Error(NotFoundMessage(id))), [RoomById(id)])
    else Reply(Ok(room.value), [RoomById(id)])
  }

  /** The not-found message of `getPostRoom` tells ids apart exactly as far as their
      printed forms differ. */
  lemma NotFoundMessageDeterminesId(a: Id, b: Id)
    ensures NotFoundMessage(a) == NotFoundMessage(b) <==> Show(a) == Show(b)
  {
    FramedEqual(NotFoundPrefix, Show(a), Show(b), NotFoundSuffix);
  }

  /** Two numeric ids give the same not-found message only if they are equal. */
  lemma NotFoundMessageNumInjective(a: int, b: int)
    ensures NotFoundMessage(Num(a)) == NotFoundMessage(Num(b)) <==> a == b
  {
    NotFoundMessageDeterminesId(Num(a), Num(b));
    ShowNumInjective(a, b);
  }

  /** `Query.getPostAllRooms`: takes no arguments and hands back the accessor's collection
      as it is, a `null` collection included; it never throws. */
  function GetPostAllRooms(store: RoomStore): (r: Reply<Option<seq<Room>>, RoomCall>)
    ensures r.calls == [AllRooms]
    ensures r.result.Ok? && r.result.value == store.getAllRooms()
  {
    Reply(Ok(store.getAllRooms()), [AllRooms])
  }

  /** `Query.getPostRooms`, a second copy of `getPostAllRooms` under another name. */
  function GetPostRooms(store: RoomStore): (r: Reply<Option<seq<Room>>, RoomCall>)
    ensures r.calls == [AllRooms]
    ensures r.result.Ok? && r.result.value == store.getAllRooms()
  {
    Reply(Ok(store.getAllRooms()), [AllRooms])
  }

  /** The two collection queries behave identically for every accessor. */
  lemma GetPostRoomsIsGetPostAllRooms(store: RoomStore)
    ensures GetPostRooms(store) == GetPostAllRooms(store)
  {
  }

  /** `Mutation.createPostRoom`: no validation; the argument record is forwarded to the
      accessor once and its answer returned, for any dimensions whatever. */
  function CreatePostRoom(store: RoomStore, args: Room): (r: Reply<Option<Room>, RoomCall>)
    ensures r.calls == [RoomCreate(args)]
    ensures r.result.Ok? && r.result.value == store.createPostRoom(args)
  {
    Reply(Ok(store.createPostRoom(args)), [RoomCreate(args)])
  }

  /** `Mutation.updatePostRoom`: no validation and no existence check; the id goes as the
      first argument and the dimensions as a separate record. */
  function UpdatePostRoom(store: RoomStore, args: Room): (r: Reply<Option<Room>, RoomCall>)
    ensures r.calls == [RoomUpdate(args.id, Dims(args.length, args.width, args.height))]
    ensures r.result.Ok? && r.result.value == store.updatePostRoom(args.id, Dims(args.length, args.width, args.height))
  {
    var dims := Dims(args.length, args.width, args.height);
    Reply(Ok(store.updatePostRoom(args.id, dims)), [RoomUpdate(args.id, dims)])
  }

  /** `Mutation.deletePostRoom`: convert the id with `parseInt`, look the room up under the
      converted id, and only when it is found delete it under that same id. */
  function DeletePostRoom(store: RoomStore, id: Id): (r: Reply<bool, RoomCall>)
    ensures var key := ParseInt(id);
      && (store.getRoomById(key).None? ==>
            r.result == Err(Error(DeleteNotFound)) && r.calls == [RoomById(key)])
      && (store.getRoomById(key).Some? ==>
            r.result == Ok(store.deletePostRoom(key)) && r.calls == [RoomById(key), RoomDelete(key)])
  {
    var key := ParseInt(id);
    var room := store.getRoomById(key);
    if room.None? then Reply(Err(Error(DeleteNotFound)), [RoomById(key)])
    else Reply(Ok(store.deletePostRoom(key)), [RoomById(key), RoomDelete(key)])
  }

  /** The delete accessor is invoked exactly when the lookup found the room, and the
      lookup is made exactly once, first. */
  lemma DeleteCallsDeleteOnlyWhenFound(store: RoomStore, id: Id)
    ensures var r := DeletePostRoom(store, id);
      var key := ParseInt(id);
      && 1 <= |r.calls| && r.calls[0] == RoomById(key)
      && (forall i :: 1 <= i < |r.calls| ==> !r.calls[i].RoomById?)
      && (RoomDelete(key) in r.calls <==> store.getRoomById(key).Some?)
  {
    var key := ParseInt(id);
    var r := DeletePostRoom(store, id);
    if store.getRoomById(key).None? {
      assert r.calls == [RoomById(key)];
      assert RoomDelete(key) !in r.calls;
    } else {
      assert r.calls == [RoomById(key), RoomDelete(key)];
      assert r.calls[1] == RoomDelete(key) && RoomDelete(key) in r.calls;
    }
  }

  /** With a numeric id (the schema's `Int`) the lookup and the delete use that number. */
  lemma DeleteUsesNumericId(store: RoomStore, n: int)
    ensures DeletePostRoom(store, Num(n)).calls[0] == RoomById(Num(n))
    ensures store.getRoomById(Num(n)).Some? ==>
      DeletePostRoom(store, Num(n)).calls == [RoomById(Num(n)), RoomDelete(Num(n))]
  {
    ParseIntOfNumber(n);
  }

  /** With a decimal string id (the test schema's `ID`) the lookup and the delete use
      the number it denotes. */
  lemma DeleteParsesStringId(store: RoomStore, n: int)
    ensures DeletePostRoom(store, Str(IntToString(n))).calls[0] == RoomById(Num(n))
  {
    ParseIntRoundTrip(n);
  }
}
