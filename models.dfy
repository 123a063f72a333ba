/** The records of `models/geo.go` and the untyped values the resolvers
    receive from graphql-go. */
module Models {
  import opened Wrappers
  import opened ObjectIds

  /** A point in time (Go `time.Time`).  Nothing is computed on instants;
      only their order matters, for the `$sort` on `created_at`. */
  type Instant = int

  /** `models.GeoPoint`: the three required fields and three optional ones
      (nil pointers in Go, omitted from BSON when absent).  Coordinates are
      Go `float64` values that are only carried, never computed on. */
  datatype GeoPoint = GeoPoint(
    latitude: real,
    longitude: real,
    timestamp: Instant,
    altitude: Option<real>,
    speed: Option<real>,
    accuracy: Option<real>)

  /** `models.GeoTrajetoria`, one document of the `geo_trajetorias`
      collection.  It is looked up by `aplicacaoId`, not by an id of its own. */
  datatype GeoTrajetoria = GeoTrajetoria(
    aplicacaoId: ObjectId,
    pontoInicial: GeoPoint,
    pontoFinal: Option<GeoPoint>,
    trajetoria: seq<GeoPoint>,
    areaCobertura: real,
    distanciaPercorrida: real,
    createdAt: Instant,
    updatedAt: Instant)

  /** What a resolver finds in `p.Args` and in input objects after graphql-go
      has coerced them (Go `interface{}`): floats, strings, instants from the
      DateTime scalar, input objects (`map[string]interface{}`) and lists
      (`[]interface{}`), plus null. */
  datatype Value =
    | Null
    | Float(f: real)
    | Str(s: string)
    | Time(t: Instant)
    | Object(fields: map<string, Value>)
    | List(items: seq<Value>)

  datatype Error =
    | InvalidHex             // `primitive.ObjectIDFromHex` rejected the id string
    | MalformedInput         // an unchecked type assertion failed (a recovered panic)
    | InvalidPipelineStage   // the store rejected a negative `$skip` or a `$limit` below 1
    | PushEachNotArray       // the store rejected `$push` with a non-array `$each`

  datatype Result<T> = Ok(value: T) | Err(error: Error)
}
