# Room and furniture GraphQL resolvers — a Dafny model

The repository serves a small GraphQL API over two entity kinds, rooms and furniture.
It has no real database. The two furniture mutations check the dimensions they are
given; every resolver then calls a static data-accessor class that returns fixed data
or echoes its input. This project models
the resolver layer and those accessor stubs:

- `furniture_resolvers.dfy` (`FurnitureResolvers`): the two furniture mutations that check
  dimensions against an open interval, (0, 5) on create and (0, 100) on update. It also
  has the fetch-by-id query and the delete mutation, which converts its id with `parseInt`.
- `room_resolvers.dfy` (`RoomResolvers`): the room query, the two identical collection
  queries, the create and update pass-throughs (which do no validation) and the delete
  mutation.
- `room_services.dfy` / `furniture_services.dfy`: the stub classes `RoomService` and
  `FurnitureService`, and the accessor objects a resolver can end up holding.
- `values.dfy` (`Values`): identifiers, JavaScript's `String(x)` (the base for template
  literals) and `parseInt(x)`, and the exceptions a resolver throws.
- `entities.dfy` (`Entities`): the entity records, the mutation arguments, the accessor
  interfaces and the call log.
- `composition.dfy` (`Composition`): the resolvers composed with the concrete stubs, and
  the scenarios the repository's tests exercise.

Each resolver is a function of an accessor record whose fields are functions. Tests swap
accessors for stubs that return `null`, so every property of a resolver is proved for
every accessor. A resolver returns a `Reply`:

- the value, or the exception it throws;
- the list of accessor calls it made, in order, with their arguments.

The call list is what states "the accessor is called exactly once with these fields" and
"on rejection the accessor is not called".

Furniture accessor methods are optional slots. Calling a method the object lacks throws
JavaScript's `TypeError` ("`<variable>.<method> is not a function`"). This matters
because of the two findings below.

## Model

| member | source | states |
|---|---|---|
| `Values.ParseIntString` | src/postRoom/postMutations/deletePostRoom.js:6 | `parseInt` yields a number or `NaN`, never a string |
| `Values.ParseInt` | src/postRoom/postMutations/deletePostRoom.js:6 | `parseInt(id)` converts the id with `String` first and yields a number or `NaN`, never a string; the same conversion is made at src/postFurniture/postMutations/deletePostFurniture.js:6 |
| `Values.ParseIntRoundTrip` | src/postRoom/postMutations/deletePostRoom.js:6 | `parseInt(String(i)) == i` for every integer `i` |
| `Values.ParseIntOfNumber` | src/postFurniture/postMutations/deletePostFurniture.js:6 | `parseInt` is the identity on integer ids |
| `Values.ShowNumInjective` | src/postRoom/postQueries/getPostRoom.js:9 | two integers print the same only if they are equal |
| `Values.Show` | src/postRoom/postQueries/getPostRoom.js:9 | the text `${id}` inserts: a string id as itself; an integer as a non-empty numeral that starts with `-` exactly when it is negative; `NaN` as non-empty text |
| `RoomResolvers.GetPostRoom` | src/postRoom/postQueries/getPostRoom.js:5-13 | exactly one fetch, under the id as received; a found room comes back unchanged; an absent one gives `Error("Room with id: <id> does not exist.")` |
| `RoomResolvers.NotFoundMessage` | src/postRoom/postQueries/getPostRoom.js:9 | the message is "Room with id: ", then the printed id, then " does not exist."; the id can be cut back out at a fixed position |
| `RoomResolvers.NotFoundMessageDeterminesId` | src/postRoom/postQueries/getPostRoom.js:9 | two not-found messages are equal exactly when the printed ids are equal |
| `RoomResolvers.NotFoundMessageNumInjective` | src/postRoom/postQueries/getPostRoom.js:9 | for integer ids, the not-found message identifies the id |
| `RoomResolvers.GetPostAllRooms` | src/postRoom/postQueries/getPostAllRooms.js:5-7 | takes no arguments, never throws, calls the fetch-all accessor once, and returns its collection verbatim, including `null` |
| `RoomResolvers.GetPostRooms` | src/postRoom/postQueries/getPostRooms.js:5-7 | the same contract as `getPostAllRooms` |
| `RoomResolvers.GetPostRoomsIsGetPostAllRooms` | src/postRoom/postQueries/getPostRooms.js:5-7 | the two collection queries agree for every accessor |
| `RoomResolvers.CreatePostRoom` | src/postRoom/postMutations/createPostRoom.js:5-8 | never rejects, whatever the dimensions; forwards `{id,length,width,height}` in one call; returns the answer unchanged |
| `RoomResolvers.UpdatePostRoom` | src/postRoom/postMutations/updatePostRoom.js:5-7 | never rejects and checks no existence; one call with the id apart from the dimension record; returns the answer unchanged |
| `RoomResolvers.DeletePostRoom` | src/postRoom/postMutations/deletePostRoom.js:5-16 | looks up under `parseInt(id)`; absent gives `Error("Room not found")` after that one call; present returns the delete accessor's boolean for the same converted id |
| `RoomResolvers.DeleteCallsDeleteOnlyWhenFound` | src/postRoom/postMutations/deletePostRoom.js:9-15 | the lookup comes first and happens once; the delete call happens exactly when the lookup found the room |
| `RoomResolvers.DeleteUsesNumericId` | src/postRoom/postMutations/deletePostRoom.js:6-15 | an `Int` id reaches lookup and delete unchanged |
| `RoomResolvers.DeleteParsesStringId` | src/postRoom/postMutations/deletePostRoom.js:6-9 | a decimal `ID` string is looked up as the number it denotes |
| `FurnitureResolvers.CheckBounds` | src/postFurniture/postMutations/createPostFurniture.js:11-18 | accepts exactly when all three dimensions lie strictly between the bounds; any dimension `<= lo` gives the lower message; otherwise any `>= hi` gives the upper one |
| `FurnitureResolvers.CreatePostFurniture` | src/postFurniture/postMutations/createPostFurniture.js:9-21 | any dimension `<= 0` gives the lower message and no accessor call; all `> 0` but one `>= 5` gives the upper message and no call; succeeds exactly when all lie in (0,5) and the accessor has the method; then one call with `{id,length,width,height,roomId}`, answer returned unchanged |
| `FurnitureResolvers.UpdatePostFurniture` | src/postFurniture/postMutations/updatePostFurniture.js:9-24 | the same with (0,100) and the update messages; the accessor receives only `{id,length,width,height}` |
| `FurnitureResolvers.Created` | src/postFurniture/postMutations/createPostFurniture.js:20 | the create accessor receives the id, the three dimensions and `roomId` of the arguments, and no positions |
| `FurnitureResolvers.Updated` | src/postFurniture/postMutations/updatePostFurniture.js:23 | the update accessor receives the id and the three dimensions of the arguments, with no positions and no `roomId` |
| `FurnitureResolvers.CreateLowerBoundFirst` | src/postFurniture/postMutations/createPostFurniture.js:11-18 | with length -1 and width 10, the lower-bound error wins |
| `FurnitureResolvers.CreateRejectsEndpoints` | src/postFurniture/postMutations/createPostFurniture.js:11-16 | a dimension of exactly 0 or 5 is rejected without an accessor call |
| `FurnitureResolvers.UpdateRejectsEndpoints` | src/postFurniture/postMutations/updatePostFurniture.js:12-18 | a dimension of exactly 0 or 100 is rejected without an accessor call |
| `FurnitureResolvers.UpdateIgnoresPositions` | src/postFurniture/postMutations/updatePostFurniture.js:9-23 | inputs differing only in positions (and `roomId`) cause the same calls and the same result |
| `FurnitureResolvers.GetPostFurniture` | src/postFurniture/postQueries/getPostFurniture.js:5-13 | exactly one fetch, under the id as received; found furniture comes back unchanged; absent gives `Error("Furniture with id: <id> does not exist.")`; a missing method gives a `TypeError` with no call |
| `FurnitureResolvers.NotFoundMessage` | src/postFurniture/postQueries/getPostFurniture.js:9 | the message is "Furniture with id: ", then the printed id, then " does not exist."; the id can be cut back out at a fixed position |
| `FurnitureResolvers.NotFoundMessageNumInjective` | src/postFurniture/postQueries/getPostFurniture.js:9 | for integer ids, the furniture not-found message identifies the id |
| `FurnitureResolvers.DeletePostFurniture` | src/postFurniture/postMutations/deletePostFurniture.js:5-16 | looks up under `parseInt(id)`; absent gives `Error("Furniture not found")` after that one call; present calls delete under the same id and returns its boolean (a `TypeError` if the method is missing) |
| `FurnitureResolvers.DeleteCallsDeleteOnlyWhenFound` | src/postFurniture/postMutations/deletePostFurniture.js:9-15 | at most one lookup; the delete call happens exactly when the lookup found the furniture and the method exists |
| `FurnitureResolvers.DeleteUsesNumericId` | src/postFurniture/postMutations/deletePostFurniture.js:6-9 | an `Int` id is looked up unchanged |
| `FurnitureResolvers.DeleteParsesStringId` | src/postFurniture/postMutations/deletePostFurniture.js:6-9 | a decimal `ID` string is looked up as the number it denotes |
| `RoomServices.GetRoomById` | src/postRoom/postRoomServices.js:4-8 | never absent; the room has the requested id and dimensions 10, 12, 20 |
| `RoomServices.GetAllRooms` | src/postRoom/postRoomServices.js:10-15 | exactly two rooms, ids 1 then 2 |
| `RoomServices.CreatePostRoom` | src/postRoom/postRoomServices.js:17-19 | echoes its record |
| `RoomServices.UpdatePostRoom` | src/postRoom/postRoomServices.js:21-23 | the given id with the given dimensions unchanged |
| `RoomServices.DeletePostRoom` | src/postRoom/postRoomServices.js:25-27 | always true |
| `RoomServices.Service` | src/postRoom/postRoomServices.js:30 | the exported class as the accessor a room resolver holds: lookups never come back absent and return the requested id, create echoes, update returns the given id and dimensions, delete always answers true |
| `FurnitureServices.GetFurnitureById` | src/postFurniture/postFurnitureServices.js:5-8 | never absent; the requested id, room 1 |
| `FurnitureServices.GetAllFurniture` | src/postFurniture/postFurnitureServices.js:10-15 | exactly two entries, ids 1 and 2, both in room 1 |
| `FurnitureServices.CreatePostFurniture` | src/postFurniture/postFurnitureServices.js:17-19 | echoes `{id,length,width,height,roomId}` |
| `FurnitureServices.UpdatePostFurniture` | src/postFurniture/postFurnitureServices.js:21-23 | echoes the same five fields |
| `FurnitureServices.DeletePostRoom` | src/postFurniture/postFurnitureServices.js:25-27 | always true |
| `FurnitureServices.ExportedModule` | src/postFurniture/postFurnitureServices.js:1-28 | what `require` yields for the file as written: no method at all |
| `FurnitureServices.ClassStore` | src/postFurniture/postFurnitureServices.js:1-23 | the class as accessor: fetch, create and update present, `deletePostFurniture` absent |
| `FurnitureServices.IntendedStore` | src/postFurniture/postFurnitureServices.js:25-27 | the class with its delete method available under the name the resolver calls |
| `Composition.RoomServiceGetFindsEveryId` | src/postRoom/postQueries/getPostRoom.js:6-12 | with `RoomService`, every id is found, as the fixed room |
| `Composition.RoomServiceGetAllTwoRooms` | src/postRoom/postQueries/getPostAllRooms.js:6 | with `RoomService`, the two fixed rooms 1 and 2 |
| `Composition.RoomServiceDataUnchecked` | src/postRoom/postRoomServices.js:13 | the fixed data breaks the (0,100) range: one room is 230 high |
| `Composition.RoomServiceCreateEchoes` | src/postRoom/postMutations/createPostRoom.js:7 | with `RoomService`, create returns exactly its arguments |
| `Composition.RoomServiceUpdateEchoes` | src/postRoom/postMutations/updatePostRoom.js:6 | with `RoomService`, update returns `{id,length,width,height}` of its input |
| `Composition.RoomServiceDeleteAlwaysTrue` | src/postRoom/postMutations/deletePostRoom.js:9-15 | with `RoomService`, delete always answers true, after one lookup and one delete |
| `Composition.CreateRoomAcceptsNegative` | src/postRoom/postMutations/createPostRoom.js:5-8 | the input (-5, -15, -25) is accepted |
| `Composition.CreateRoomAcceptsOverMaximum` | src/postRoom/postMutations/createPostRoom.js:5-8 | the input (105, 15.21, 25) is accepted |
| `Composition.UpdateRoomAcceptsNegative` | src/postRoom/postMutations/updatePostRoom.js:5-7 | the input (-5, 12, 16) is accepted |
| `Composition.GetAllRoomsNullPropagates` | src/postRoom/postQueries/getPostAllRooms.js:6 | a `null` collection comes back from both collection queries as `null`, not as an error |
| `Composition.DeleteRoomMissing` | src/postRoom/postMutations/deletePostRoom.js:9-13 | with an accessor that finds nothing, deleting "321" throws `Room not found` after the one lookup of 321 |
| `Composition.GetRoomMissing` | src/postRoom/postQueries/getPostRoom.js:8-10 | with an accessor that finds nothing, the message reads `Room with id: 321 does not exist.` |
| `Composition.ParseIntOf321` | src/postRoom/postMutations/deletePostRoom.js:6 | the `ID` "321" converts to 321 |
| `Composition.ExportedModuleRejectsEveryCall` | src/postFurniture/postFurnitureServices.js:1-28 | against the file as written, every furniture resolver that gets past its guards throws a `TypeError` with no accessor call |
| `Composition.ClassStoreCreateEchoes` | src/postFurniture/postMutations/createPostFurniture.js:20 | with the class, a valid create returns exactly its input's furniture fields |
| `Composition.ClassStoreUpdateDropsRoom` | src/postFurniture/postMutations/updatePostFurniture.js:23 | with the class, a valid update returns id and dimensions with no `roomId` |
| `Composition.ClassStoreGetFindsEveryId` | src/postFurniture/postQueries/getPostFurniture.js:6-12 | with the class, every id is found |
| `Composition.ClassStoreDeleteThrows` | src/postFurniture/postMutations/deletePostFurniture.js:15 | with the class, delete finds the furniture and then throws a `TypeError` |
| `Composition.IntendedStoreDeleteAlwaysTrue` | src/postFurniture/postMutations/deletePostFurniture.js:9-15 | with the delete method present, delete always answers true under the converted id |
| `Composition.CreateFurnitureValidScenario` | src/postFurniture/postMutations/createPostFurniture.js:20 | (2.55, 3.99, 2.001) is echoed |
| `Composition.CreateFurnitureNegativeScenario` | src/postFurniture/postMutations/createPostFurniture.js:11-13 | (-5, -1, -2) gives the lower-bound message |
| `Composition.CreateFurnitureOversizeScenario` | src/postFurniture/postMutations/createPostFurniture.js:16-18 | (22.55, 32.99, 22.001) gives `Dimensions for the furniture have to be less than 5` |
| `Composition.UpdateFurnitureOversizeMessage` | src/postFurniture/postMutations/updatePostFurniture.js:18-20 | width 120 gives `Update dimensions have to be less than 100`, not the message the test expects |
| `Composition.UpdateFurnitureNegativeScenario` | src/postFurniture/postMutations/updatePostFurniture.js:12-14 | height -75 gives the lower-bound update message |
| `Composition.GetFurnitureMissing` | src/postFurniture/postQueries/getPostFurniture.js:8-10 | with an accessor that finds nothing, the message reads `Furniture with id: 321 does not exist.` |
| `Composition.DeleteFurnitureMissing` | src/postFurniture/postMutations/deletePostFurniture.js:9-13 | with an accessor that finds nothing, deleting "321" throws `Furniture not found` after the one lookup of 321 |

## Where the tests disagree with the code

The model follows the code. In these places the repository's tests expect something else:

- `test/updatePostFurnitureMutation.test.js:153` expects `Update dimensions for furniture have
  to be less than 100`. The code throws `Update dimensions have to be less than 100`
  (`Composition.UpdateFurnitureOversizeMessage`).
- `test/createPostRoomMutation.test.js:118,139` expect errors for negative and over-100
  dimensions. `createPostRoom` has no validation (`Composition.CreateRoomAcceptsNegative`,
  `Composition.CreateRoomAcceptsOverMaximum`).
- `test/updatePostRoomMutation.test.js:108` expects an error for length -5. `updatePostRoom`
  has no validation (`Composition.UpdateRoomAcceptsNegative`).
- `test/updatePostRoomMutation.test.js:12-19` stubs `updatePostRoom` to read `args.id` and
  `args.length` from its first parameter. `updatePostRoom` passes the bare id there and the
  dimensions apart (`RoomResolvers.UpdatePostRoom`), so the valid update at line 81
  receives no `id`.
- `test/updatePostFurnitureMutation.test.js:11-21` stubs `updatePostFurniture` to echo
  `roomId` and the positions. `updatePostFurniture` forwards neither
  (`FurnitureResolvers.Updated`, `Composition.ClassStoreUpdateDropsRoom`), and the test
  schema declares those fields non-null (lines 27-33), so the valid update at line 97
  cannot receive data.

## Findings

| source | as written | input that shows it | evidently intended | confidence | as-written member | corrected member |
|---|---|---|---|---|---|---|
| src/postFurniture/postFurnitureServices.js:1-28 | the class is never assigned to `module.exports`, so every `require` of the file yields an empty object | a valid `createPostFurniture` such as (2.55, 3.99, 2.001) throws `FurnitureServices.createPostFurniture is not a function` | export the class, as src/postRoom/postRoomServices.js:30 does | high; not executed | `Composition.ExportedModuleRejectsEveryCall` | `Composition.ClassStoreCreateEchoes` |
| src/postFurniture/postMutations/deletePostFurniture.js:15 | calls `deletePostFurniture`, which the class does not define; its only delete method is `deletePostRoom` (postFurnitureServices.js:25-27) | `deletePostFurniture(id: 123)` finds the furniture and then throws `furnitureServices.deletePostFurniture is not a function` | a furniture delete method under the called name that reports success | high; not executed | `Composition.ClassStoreDeleteThrows` | `Composition.IntendedStoreDeleteAlwaysTrue` |

The furniture compositions (`Composition.ClassStore*`) use the class as the accessor, that
is, the first finding corrected. The second finding's correction is `IntendedStore`.

## Left out

- Asynchrony: each `async` resolver and stub is a synchronous function of its accessor's
  answers. A rejected promise and a thrown exception are the same `Err`.
- Floating point: dimensions are `real`. The code only compares them with literal bounds.
- The GraphQL layer: schema files, type coercion of arguments ("Float cannot represent
  non numeric value"), missing required arguments, schema defaults for positions, `null`
  for a failed non-null field, and serialisation of ids as strings in responses.
- `runserver.js`, `schema.js`, `resolvers.js` and `src/postRoom/postRoomResolvers.js`:
  server start-up, a hello-world demo and a dispatch table.
- `console.log` in `getRoomById` (src/postRoom/postRoomServices.js:5): output only.
- The static `roomDummy` of `FurnitureService` (src/postFurniture/postFurnitureServices.js:3):
  it is never read.
- The writes to the undeclared globals `converted_room_id` and `converted_furniture_id`:
  they are modelled as local bindings. In the source the variable is shared by every
  request, so a concurrent delete can overwrite it between the lookup's `await`
  (src/postRoom/postMutations/deletePostRoom.js:9, src/postFurniture/postMutations/deletePostFurniture.js:9)
  and the delete (line 15 of each), which then runs under the other request's id. The
  "same key for lookup and delete" of both `DeleteCallsDeleteOnlyWhenFound` lemmas holds
  only for requests that do not overlap.
- A resolver for `getPostAllFurniture` is not part of this model. The stub
  `getAllFurniture` is modelled.
- `Values.ParseIntString`: it skips only ASCII white space, not the other Unicode spaces
  `parseInt` skips. Ids are integers, so `-0`, numbers too large for exact doubles and
  fractional numbers (which `parseInt` truncates) are not modelled.
- JavaScript truthiness in `if (!room)`: an accessor answer is an object or `null`. A stub
  answering another falsy value (`0`, `""`, `false`) is not modelled. Delete accessors are
  typed to answer a boolean.
