# Trajectory resolvers of the spraying-operations GraphQL API

This project models the GPS-trajectory part of the GraphQL API's resolver
layer (`graphql/schema.go`). One Go `Resolver` serves five operations on
the MongoDB collection `geo_trajetorias`:

- `GetGeoTrajetoria` fetches one trajectory.
- `GetGeoTrajetorias` lists a page of trajectories.
- `CreateGeoTrajetoria` inserts one.
- `UpdateGeoTrajetoria` applies a sparse update plus a point append, then reads the record back.
- `DeleteGeoTrajetoria` deletes one.

Get, Update and Delete find their record by `aplicacao_id`, the id of
the spraying application the trajectory belongs to; Create stores that id
and List looks nothing up. The record shapes come
from `models/geo.go`.

Layout (one module per file):

- `wrappers.dfy` (`Wrappers`): `Option`.
- `object_id.dfy` (`ObjectIds`): ObjectIDs and their 24-hex-digit text, i.e. `primitive.ObjectIDFromHex` and `ObjectID.Hex`.
- `models.dfy` (`Models`): `GeoPoint` and `GeoTrajetoria`, plus the untyped `Value` that graphql-go hands to resolvers (`interface{}`). Also the errors and `Result`.
- `inputs.dfy` (`Inputs`): how a resolver reads an input object.
  - Checked type assertions (`v, ok := m[k].(float64)`) give an `Option`.
  - Unchecked ones that fail panic. graphql-go recovers the panic and reports a field error, modelled as `Err(MalformedInput)`.
  - The `GeoPointInput` decoding that the source repeats five times is defined once here, with the list loop as a method.
- `store.dfy` (`Store`): the MongoDB operations the resolvers call, as functions on the document sequence in store-natural order.
  - `FindOne`, `UpdateOne` and `DeleteOne` act on the first matching document. `InsertOne` appends.
  - `Aggregate` runs `$skip`, `$limit` and `$sort` stages.
- `resolvers.dfy` (`Resolvers`): the record and update each mutation builds, as specification functions with lemmas.
  - The class `Resolver` holds the collection as `geoTrajetorias: seq<GeoTrajetoria>`.
  - Each of its methods is one resolver. The mutators are proved against the store functions.

Modelling choices:

- Instants (`time.Time`) are `int`s. Only their order is used.
- `time.Now()` becomes a parameter. Create has two, because the source reads the clock once for `CreatedAt` and once for `UpdatedAt`.
- Floating-point values are `real`s. They are carried through and never computed on.

## Model

| member | source | states |
|---|---|---|
| `ObjectIds.ObjectIdFromHex` | graphql/schema.go:173-177 | an id string is accepted exactly when it is 24 hex digits (either case), and then names a 12-byte id |
| `ObjectIds.FromHexOfHex` | graphql/schema.go:174 | parsing the canonical lower-case text of any id (twelve bytes by its type) gives that id back |
| `ObjectIds.HexOfFromHex` | graphql/schema.go:174 | an accepted id string is the canonical text of its id up to letter case, so strings differing only in case find the same record |
| `Inputs.PointFromInput` | graphql/schema.go:228-243 | a point decodes exactly when latitude, longitude and timestamp are present with the right types; those are copied; altitude, speed and accuracy are present exactly when supplied as floats, with the supplied value |
| `Inputs.PointsFromInputs` | graphql/schema.go:273-291 | a point list decodes exactly when every element is an object that decodes; the points come out one per element, in input order |
| `Inputs.PointRoundTrip` | graphql/schema.go:75-85 | decoding the input form of any point gives that point |
| `Inputs.PointsRoundTrip` | graphql/schema.go:273-291 | decoding the input form of any point list gives that list, in order |
| `Inputs.DecodePointList` | graphql/schema.go:344-361 | the element-by-element loop that stops at the first bad element yields exactly the list decoding |
| `Store.FirstMatch` | graphql/schema.go:180-183 | the index found holds a record with the id and no earlier record has it; none is found exactly when no record has the id |
| `Store.FindOne` | graphql/schema.go:183-189 | `FindOne` is absent exactly when no record has the id; otherwise it is a stored record with that id |
| `Store.InsertOne` | graphql/schema.go:302-303 | insertion puts the new record after all existing ones and leaves them as they were |
| `Store.UpdateOneEffect` | graphql/schema.go:375-382 | `UpdateOne` fails only on a malformed update; it changes only the first matching record (none matching changes nothing); the re-read then returns the updated record |
| `Store.DeleteOneEffect` | graphql/schema.go:392-398 | `DeleteOne` removes at most one record; it removes one exactly when some record has the id, and then only the first such record; the others keep their order |
| `Store.DeleteUniqueThenFindAbsent` | graphql/schema.go:392-398 | when at most one record has the id, none is found after the delete |
| `Store.DuplicateSurvivesDelete` | graphql/schema.go:302-303 | after two inserts with the same id, one delete removes the first record and a fetch then finds the second |
| `Store.SortByCreatedDesc` | graphql/schema.go:202 | the `$sort` stage's output is ordered by `created_at` descending and is a permutation of its input |
| `Store.PagedAggregate` | graphql/schema.go:199-214 | the list pipeline fails exactly for a negative offset or a limit below 1; otherwise it returns the window at positions `offset .. offset + limit`, sorted |
| `Store.PageIsNotGlobalSort` | graphql/schema.go:199-203 | the sort happens after skip and limit: with the newer record second and limit 1, the older record is returned |
| `Resolvers.NewTrajectoryOutcome` | graphql/schema.go:219-300 | create fails with `InvalidHex` exactly when the id string is malformed; it succeeds exactly when the id parses and all supplied points decode |
| `Resolvers.NewTrajectoryContents` | graphql/schema.go:245-300 | the created record has the parsed id and decoded initial point; `pontoFinal` is absent unless supplied; `trajetoria` is the supplied points in order, or empty; area and distance are 0 unless supplied; both timestamps are the current clock readings |
| `Resolvers.CreateRoundTrip` | graphql/schema.go:219-300 | creating from the input form of a record, at its own instants, rebuilds exactly that record |
| `Resolvers.CreateThenFind` | graphql/schema.go:302-308 | a record created for an unused id is what Get then returns; if the id is already used, Get keeps returning the older record |
| `Resolvers.EmptyNovosPontosAsWrittenRejected` | graphql/schema.go:343-362 | as written, an input with `novosPontos: []` builds an update that the store rejects as a whole, whether or not a record matches |
| `Resolvers.EmptyNovosPontosAppendsNothing` | graphql/schema.go:342-376 | corrected: an input with `novosPontos: []` builds an update the store accepts; the matched record keeps its points and gets `updatedAt` = now |
| `Resolvers.NovosPontosArgAgrees` | graphql/schema.go:343-362 | on every non-empty list the as-written and corrected `$each` agree |
| `Resolvers.BuildUpdate` | graphql/schema.go:320-373 | the step-by-step construction of the update document gives exactly the update specified for the input (corrected `$each`, see Findings) |
| `Resolvers.UpdateFromInputOutcome` | graphql/schema.go:320-373 | building the update fails exactly when a supplied point does not decode; a built update is always accepted by the store |
| `Resolvers.UpdatedRecord` | graphql/schema.go:320-373 | the updated record has `updatedAt` = now; `pontoFinal`, area and distance change only when supplied, to the supplied values; its points are the old points followed by `novosPontos` in order; `aplicacaoId`, `pontoInicial` and `createdAt` are unchanged |
| `Resolvers.Resolver.GetGeoTrajetoria` | graphql/schema.go:172-192 | a malformed id gives `InvalidHex`; otherwise the result is absent (not an error) exactly when no record matches, and else is the first matching record |
| `Resolvers.Resolver.GetGeoTrajetorias` | graphql/schema.go:194-216 | with defaults limit 10 and offset 0, the result has at most `limit` records; they are exactly the records at store positions `offset .. offset + limit`, sorted by `createdAt` descending; a negative offset or a limit below 1 is a store error |
| `Resolvers.Resolver.CreateGeoTrajetoria` | graphql/schema.go:219-309 | on success, exactly one record is appended (no duplicate check) and that record is returned; every earlier record is kept; every error leaves the collection unchanged |
| `Resolvers.Resolver.UpdateGeoTrajetoria` | graphql/schema.go:311-383 | a malformed id or a bad point is an error and leaves the collection unchanged; otherwise only the first matching record changes and its new value is returned; if none matches, nothing changes and the result is absent (corrected `$each`, see Findings) |
| `Resolvers.Resolver.DeleteGeoTrajetoria` | graphql/schema.go:385-399 | a malformed id gives `false` with `InvalidHex` and changes nothing; otherwise the result is `true` exactly when a record matched, and the first match alone is removed |

## Findings

| source | as written | input that shows it | evidently intended | confidence | as-written member | corrected member |
|---|---|---|---|---|---|---|
| graphql/schema.go:343-362 | `var novosPontos []models.GeoPoint` starts as a nil slice and stays nil when the list is empty. The BSON encoder writes a nil slice as null. MongoDB rejects `$push` with `$each: null`. So the whole update fails, including `updated_at` and any `pontoFinal`, area or distance in the same call. | `updateGeoTrajetoria(aplicacaoId: <valid id>, input: {novosPontos: []})` | an empty list appends nothing, and the other supplied fields are still set | medium (depends on the driver's default nil-slice encoding), not executed | `Resolvers.EmptyNovosPontosAsWrittenRejected` | `Resolvers.EmptyNovosPontosAppendsNothing` |

`Resolver.UpdateGeoTrajetoria`, `BuildUpdate` and `UpdateFromInput` use the corrected `$each` (`NovosPontosArg`, an array even when empty). `UpdateFromInputAsWritten` builds the update as the source does, with `NovosPontosArgAsWritten`; the as-written lemma starts from the input map through it.

## Expected behaviour versus code

Where one might expect a different behaviour than the code has, the model follows the code:

- **Delete then fetch.** One might expect a fetch after a successful delete to be absent. Create never checks for an existing `aplicacaoId`, so several trajectories can share one id. A delete removes only the first of them, and a fetch then finds the next one (`Store.DuplicateSurvivesDelete`). That holds only when the id is unique (`Store.DeleteUniqueThenFindAbsent`).
- **Wrong-type optional fields.** One might expect an optional field present with the wrong type to be an error. The code's checked assertions treat such a field as absent, and so does the model (`Inputs.PointFromInput`, `Resolvers.UpdatedRecord`). A wrong type is an error only where the assertion is unchecked:
  - a required point field;
  - `aplicacaoId`;
  - `pontoInicial`;
  - an element of a point list.
- **Unparsable DateTime.** One might expect an unparsable DateTime to parse to an absent value. The code gives Go's zero `time.Time`. The scalar is not modelled (see below).

## Left out

- The DateTime scalar (graphql/schema.go:17-47) wraps Go's RFC 3339 formatting and parsing (section 5.6 of RFC 3339), which is not visible here. Points arrive with their timestamp already an instant. An unparsable string becoming the zero time is not modelled.
- The GraphQL type declarations (graphql/schema.go:49-165) are declarative wiring. They are used only to know which input fields exist and which are non-null.
- `limit` and `offset` given as explicit `null` are not modelled. The source would panic on them. `None` stands for an omitted argument, which takes the default.
- Store failures are not modelled, except the ones the store raises from the request itself: a negative `$skip`, a `$limit` below 1, and a non-array `$each`. Network, cursor and decoding failures are out, because they are I/O. The model's store never fails otherwise.
- `ObjectIds.ObjectIdFromHex` follows the MongoDB Go driver's documented behaviour: 24 hex digits of either case. The driver's code is not part of this model.
- The document `_id` that `InsertOne` adds is not modelled. The model never reads it.
- BSON stores dates at millisecond precision. The model keeps instants exact, so the record Create returns equals the stored one.
- Without a sort, MongoDB does not promise which document `FindOne`, `UpdateOne` or `DeleteOne` picks among several matches. The model picks the first in store-natural order.
- `Store.SortByCreatedDesc` puts records with equal `createdAt` in one particular order. MongoDB leaves that order open, so the resolver's contract states only sortedness and permutation.
- The update-then-reread race in `UpdateGeoTrajetoria` is left out, because it is concurrency. The model runs the two steps back to back.
- Floating-point behaviour (NaN, rounding) is out. Coordinates, area and distance are never computed on.
- The rest of the repository is not modelled, because it is transport, configuration, connection plumbing, seed data or struct declarations with no resolvers:
  - `main.go`
  - `config/config.go`
  - `database/connection.go`
  - `scripts/init-mongo.js`
  - `models/aplicacao.go`
