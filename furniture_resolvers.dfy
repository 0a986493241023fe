/** The furniture resolvers: `createPostFurniture` and `updatePostFurniture` with their
    dimension guards, `getPostFurniture` and `deletePostFurniture`, each a function of the
    furniture accessor it calls. */
module FurnitureResolvers {
  import opened Wrappers
  import opened Values
  import opened Entities

  /** `lengthMin`/`lengthMax` of createPostFurniture.js. */
  const CreateMin: real := 0.0
  const CreateMax: real := 5.0
  const CreateTooSmall := "Dimensions for the furniture have to be greater than 0"
  const CreateTooLarge := "Dimensions for the furniture have to be less than 5"

  /** `lengthMin`/`lengthMax` of updatePostFurniture.js. */
  const UpdateMin: real := 0.0
  const UpdateMax: real := 100.0
  const UpdateTooSmall := "Dimensions used in the updated have to be greater than 0"
  const UpdateTooLarge := "Update dimensions have to be less than 100"

  const NotFoundPrefix := "Furniture with id: "
  const NotFoundSuffix := " does not exist."
  const DeleteNotFound := "Furniture not found"

  /** The `TypeError` messages that calling a method missing from the accessor object
      raises, each naming the variable and the method as the resolver's call spells them. */
  const CreateMissing := "FurnitureServices.createPostFurniture is not a function"
  const UpdateMissing := "furnitureServices.updatePostFurniture is not a function"
  const GetMissing := "FurnitureServices.getFurnitureById is not a function"
  const DeleteLookupMissing := "furnitureServices.getFurnitureById is not a function"
  const DeleteMissing := "furnitureServices.deletePostFurniture is not a function"

  /** The dimensions of an argument record, in the order the guards test them. */
  function DimsOf(a: FurnitureInput): seq<real>
  {
    [a.length, a.width, a.height]
  }

  /** Every dimension lies strictly between `lo` and `hi`. */
  predicate AllWithin(d: seq<real>, lo: real, hi: real)
  {
    forall v <- d :: lo < v < hi
  }

  /** Some dimension is at most `lo`. */
  predicate SomeAtMost(d: seq<real>, lo: real)
  {
    exists v <- d :: v <= lo
  }

  /** Some dimension is at least `hi`. */
  predicate SomeAtLeast(d: seq<real>, hi: real)
  {
    exists v <- d :: hi <= v
  }

  /** The two guards both mutations run: first "any dimension `<= lo`", then "any
      dimension `>= hi`", each throwing its own `UserInputError`. */
  function CheckBounds(length: real, width: real, height: real, lo: real, hi: real,
                       tooSmall: string, tooLarge: string): (r: Option<Thrown>)
    ensures var d := [length, width, height];
      && (r.None? <==> AllWithin(d, lo, hi))
      && (SomeAtMost(d, lo) ==> r == Some(UserInputError(tooSmall)))
      && (!SomeAtMost(d, lo) && SomeAtLeast(d, hi) ==> r == Some(UserInputError(tooLarge)))
  {
    var d := [length, width, height];
    assert length in d && width in d && height in d;
    if length <= lo || width <= lo || height <= lo then Some(UserInputError(tooSmall))
    else if length >= hi || width >= hi || height >= hi then Some(UserInputError(tooLarge))
    else None
  }

  /** The object `createPostFurniture` hands to the accessor: `{ id, length, width, height, roomId }`. */
  function Created(a: FurnitureInput): (f: Furniture)
    ensures f.id == a.id && [f.length, f.width, f.height] == DimsOf(a) && f.roomId == a.roomId
  {
    Furniture(a.id, a.length, a.width, a.height, a.roomId)
  }

  /** The object `updatePostFurniture` hands to the accessor: `{ id, length, width, height }`;
      the positions and any `roomId` are dropped. */
  function Updated(a: FurnitureInput): (f: Furniture)
    ensures f.id == a.id && [f.length, f.width, f.height] == DimsOf(a) && f.roomId.None?
  {
    Furniture(a.id, a.length, a.width, a.height, None)
  }

  /** `Mutation.createPostFurniture`: reject dimensions outside (0, 5) without touching the
      accessor, the lower bound first; otherwise forward the record once and return the
      accessor's answer unchanged. */
  function CreatePostFurniture(store: FurnitureStore, a: FurnitureInput): (r: Reply<Option<Furniture>, FurnitureCall>)
    ensures SomeAtMost(DimsOf(a), CreateMin) ==> r == Reply(Err(UserInputError(CreateTooSmall)), [])
    ensures !SomeAtMost(DimsOf(a), CreateMin) && SomeAtLeast(DimsOf(a), CreateMax) ==> r == Reply(Err(UserInputError(CreateTooLarge)), [])
    ensures r.result.Ok? <==> AllWithin(DimsOf(a), CreateMin, CreateMax) && store.createPostFurniture.Some?
    ensures AllWithin(DimsOf(a), CreateMin, CreateMax) && store.createPostFurniture.Some? ==>
      r == Reply(Ok(store.createPostFurniture.value(Created(a))), [FurnitureCreate(Created(a))])
    ensures AllWithin(DimsOf(a), CreateMin, CreateMax) && store.createPostFurniture.None? ==>
      r == Reply(Err(TypeError(CreateMissing)), [])
  {
    var check := CheckBounds(a.length, a.width, a.height, CreateMin, CreateMax, CreateTooSmall, CreateTooLarge);
    if check.Some? then Reply(Err(check.value), [])
    else if store.createPostFurniture.None? then Reply(Err(TypeError(CreateMissing)), [])
    else Reply(Ok(store.createPostFurniture.value(Created(a))), [FurnitureCreate(Created(a))])
  }

  /** `Mutation.updatePostFurniture`: the same shape with the bounds (0, 100); the accessor
      receives only the id and the three dimensions. */
  function UpdatePostFurniture(store: FurnitureStore, a: FurnitureInput): (r: Reply<Option<Furniture>, FurnitureCall>)
    ensures SomeAtMost(DimsOf(a), UpdateMin) ==> r == Reply(Err(UserInputError(UpdateTooSmall)), [])
    ensures !SomeAtMost(DimsOf(a), UpdateMin) && SomeAtLeast(DimsOf(a), UpdateMax) ==> r == Reply(Err(UserInputError(UpdateTooLarge)), [])
    ensures r.result.Ok? <==> AllWithin(DimsOf(a), UpdateMin, UpdateMax) && store.updatePostFurniture.Some?
    ensures AllWithin(DimsOf(a), UpdateMin, UpdateMax) && store.updatePostFurniture.Some? ==>
      r == Reply(Ok(store.updatePostFurniture.value(Updated(a))), [FurnitureUpdate(Updated(a))])
    ensures AllWithin(DimsOf(a), UpdateMin, UpdateMax) && store.updatePostFurniture.None? ==>
      r == Reply(Err(TypeError(UpdateMissing)), [])
  {
    var check := CheckBounds(a.length, a.width, a.height, UpdateMin, UpdateMax, UpdateTooSmall, UpdateTooLarge);
    if check.Some? then Reply(Err(check.value), [])
    else if store.updatePostFurniture.None? then Reply(Err(TypeError(UpdateMissing)), [])
    else Reply(Ok(store.updatePostFurniture.value(Updated(a))), [FurnitureUpdate(Updated(a))])
  }

  /** The message `getPostFurniture` throws for an absent furniture: the printed id sits
      between a fixed prefix and a fixed suffix, so it can be read back out of the message. */
  function NotFoundMessage(id: Id): (m: string)
    ensures |m| == |NotFoundPrefix| + |Show(id)| + |NotFoundSuffix|
    ensures m[..|NotFoundPrefix|] == NotFoundPrefix
    ensures m[|NotFoundPrefix|..|NotFoundPrefix| + |Show(id)|] == Show(id)
    ensures m[|NotFoundPrefix| + |Show(id)|..] == NotFoundSuffix
  {
    SliceMiddle(NotFoundPrefix, Show(id), NotFoundSuffix);
    SliceEnd(NotFoundPrefix, Show(id), NotFoundSuffix);
    NotFoundPrefix + Show(id) + NotFoundSuffix
  }

  /** `Query.getPostFurniture`: fetch by the id as received; absence becomes an error naming it. */
  function GetPostFurniture(store: FurnitureStore, id: Id): (r: Reply<Furniture, FurnitureCall>)
    ensures store.getFurnitureById.None? ==>
      r == Reply(Err(TypeError(GetMissing)), [])
    ensures store.getFurnitureById.Some? ==> r.calls == [FurnitureById(id)]
    ensures r.result.Ok? <==> store.getFurnitureById.Some? && store.getFurnitureById.value(id).Some?
    ensures r.result.Ok? ==> store.getFurnitureById.value(id) == Some(r.result.value)
    ensures store.getFurnitureById.Some? && r.result.Err? ==> r.result.error == Error(NotFoundMessage(id))
  {
    if store.getFurnitureById.None? then Reply(Err(TypeError(GetMissing)), [])
    else
      var furniture := store.getFurnitureById.value(id);
      if furniture.None? then Reply(Err(Error(NotFoundMessage(id))), [FurnitureById(id)])
      else Reply(Ok(furniture.value), [FurnitureById(id)])
  }

  /** Two numeric ids give the same not-found message only if they are equal. */
  lemma NotFoundMessageNumInjective(a: int, b: int)
    ensures NotFoundMessage(Num(a)) == NotFoundMessage(Num(b)) <==> a == b
  {
    FramedEqual(NotFoundPrefix, Show(Num(a)), Show(Num(b)), NotFoundSuffix);
    ShowNumInjective(a, b);
  }

  /** `Mutation.deletePostFurniture`: convert the id with `parseInt`, look the furniture up
      under the converted id, and only when it is found delete it under that same id. */
  function DeletePostFurniture(store: FurnitureStore, id: Id): (r: Reply<bool, FurnitureCall>)
    ensures var key := ParseInt(id);
      && (store.getFurnitureById.None? ==>
            r == Reply(Err(TypeError(DeleteLookupMissing)), []))
      && (store.getFurnitureById.Some? && store.getFurnitureById.value(key).None? ==>
            r == Reply(Err(Error(DeleteNotFound)), [FurnitureById(key)]))
      && (store.getFurnitureById.Some? && store.getFurnitureById.value(key).Some? ==>
            match store.deletePostFurniture
            case None => r == Reply(Err(TypeError(DeleteMissing)), [FurnitureById(key)])
            case Some(delete) => r == Reply(Ok(delete(key)), [FurnitureById(key), FurnitureDelete(key)]))
  {
    var key := ParseInt(id);
    if store.getFurnitureById.None? then Reply(Err(TypeError(DeleteLookupMissing)), [])
    else
      var furniture := store.getFurnitureById.value(key);
      if furniture.None? then Reply(Err(Error(DeleteNotFound)), [FurnitureById(key)])
      else if store.deletePostFurniture.None? then
        Reply(Err(TypeError(DeleteMissing)), [FurnitureById(key)])
      else Reply(Ok(store.deletePostFurniture.value(key)), [FurnitureById(key), FurnitureDelete(key)])
  }

  /** The delete accessor is invoked only after a lookup that found the furniture, and
      at most one lookup is made. */
  lemma DeleteCallsDeleteOnlyWhenFound(store: FurnitureStore, id: Id)
    ensures var r := DeletePostFurniture(store, id);
      var key := ParseInt(id);
      && |r.calls| <= 2
      && (forall i :: 1 <= i < |r.calls| ==> !r.calls[i].FurnitureById?)
      && (FurnitureDelete(key) in r.calls <==>
            store.getFurnitureById.Some? && store.getFurnitureById.value(key).Some? && store.deletePostFurniture.Some?)
  {
    var key := ParseInt(id);
    var r := DeletePostFurniture(store, id);
    if store.getFurnitureById.None? {
      assert r.calls == [];
      assert FurnitureDelete(key) !in r.calls;
    } else if store.getFurnitureById.value(key).None? {
      assert r.calls == [FurnitureById(key)];
      assert FurnitureDelete(key) !in r.calls;
    } else if store.deletePostFurniture.None? {
      assert r.calls == [FurnitureById(key)];
      assert FurnitureDelete(key) !in r.calls;
    } else {
      assert r.calls == [FurnitureById(key), FurnitureDelete(key)];
      assert r.calls[1] == FurnitureDelete(key) && FurnitureDelete(key) in r.calls;
    }
  }

  /** With a numeric id (the schema's `Int`) the lookup uses that number. */
  lemma DeleteUsesNumericId(store: FurnitureStore, n: int)
    requires store.getFurnitureById.Some?
    ensures DeletePostFurniture(store, Num(n)).calls[0] == FurnitureById(Num(n))
  {
    ParseIntOfNumber(n);
  }

  /** With a decimal string id (the test schema's `ID`) the lookup uses the number it denotes. */
  lemma DeleteParsesStringId(store: FurnitureStore, n: int)
    requires store.getFurnitureById.Some?
    ensures DeletePostFurniture(store, Str(IntToString(n))).calls[0] == FurnitureById(Num(n))
  {
    ParseIntRoundTrip(n);
  }

  /** The lower-bound error wins when both bounds are violated (length -1, width 10). */
  lemma CreateLowerBoundFirst(store: FurnitureStore, a: FurnitureInput)
    requires a.length == -1.0 && a.width == 10.0
    ensures CreatePostFurniture(store, a).result == Err(UserInputError(CreateTooSmall))
  {
    assert DimsOf(a)[0] == -1.0;
  }

  /** Both ends of (0, 5) are excluded. */
  lemma CreateRejectsEndpoints(store: FurnitureStore, a: FurnitureInput)
    requires exists v <- DimsOf(a) :: v == CreateMin || v == CreateMax
    ensures CreatePostFurniture(store, a).result.Err? && CreatePostFurniture(store, a).calls == []
  {
  }

  /** Both ends of (0, 100) are excluded. */
  lemma UpdateRejectsEndpoints(store: FurnitureStore, a: FurnitureInput)
    requires exists v <- DimsOf(a) :: v == UpdateMin || v == UpdateMax
    ensures UpdatePostFurniture(store, a).result.Err? && UpdatePostFurniture(store, a).calls == []
  {
  }

  /** The positions never reach the accessor: two inputs that differ only in their
      positions (and `roomId`) cause the same accessor call and the same result. */
  lemma UpdateIgnoresPositions(store: FurnitureStore, a: FurnitureInput, b: FurnitureInput)
    requires a.id == b.id && a.length == b.length && a.width == b.width && a.height == b.height
    ensures UpdatePostFurniture(store, a).calls == UpdatePostFurniture(store, b).calls
    ensures UpdatePostFurniture(store, a).result.Ok? <==> UpdatePostFurniture(store, b).result.Ok?
    ensures UpdatePostFurniture(store, a).result.Ok? ==>
      UpdatePostFurniture(store, a).result.value == UpdatePostFurniture(store, b).result.value
  {
    assert Updated(a) == Updated(b);
  }
}
