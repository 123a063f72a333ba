/** The trajectory resolvers of graphql/schema.go.  `Resolver` holds the
    `geo_trajetorias` collection as a sequence of documents in store-natural
    order; each resolver is a method on it.  Clock readings (`time.Now()`)
    are parameters. */
module Resolvers {
  import opened Wrappers
  import opened ObjectIds
  import opened Models
  import opened Inputs
  import opened Store

  /** Defaults of the `limit` and `offset` arguments of `geoTrajetorias`. */
  const DefaultLimit := 10
  const DefaultOffset := 0

  /** An optional `GeoPointInput` field: absent (or not an object) is
      `None`; an object must decode. */
  function OptionalPoint(input: map<string, Value>, k: string): Result<Option<GeoPoint>> {
    match ObjectField(input, k)
    case None => Ok(None)
    case Some(m) =>
      match PointFromInput(m)
      case Err(e) => Err(e)
      case Ok(p) => Ok(Some(p))
  }

  /** An optional `[GeoPointInput]` field: absent (or not a list) is `None`;
      a list must decode element by element. */
  function OptionalPointList(input: map<string, Value>, k: string): Result<Option<seq<GeoPoint>>> {
    match ListField(input, k)
    case None => Ok(None)
    case Some(items) =>
      match PointsFromInputs(items)
      case Err(e) => Err(e)
      case Ok(ps) => Ok(Some(ps))
  }

  // ---------------------------------------------------------------------
  // CreateGeoTrajetoria

  /** The record `CreateGeoTrajetoria` builds from its input, or the error
      it stops with.  The two instants are the two `time.Now()` calls for
      `CreatedAt` and `UpdatedAt`. */
  function NewTrajectory(input: map<string, Value>, createdNow: Instant, updatedNow: Instant): Result<GeoTrajetoria> {
    var idStr := StringField(input, "aplicacaoId");
    if idStr.None? then Err(MalformedInput)
    else
      var id := ObjectIdFromHex(idStr.value);
      if id.None? then Err(InvalidHex)
      else
        var inicialInput := ObjectField(input, "pontoInicial");
        if inicialInput.None? then Err(MalformedInput)
        else
          var inicial := PointFromInput(inicialInput.value);
          var final := OptionalPoint(input, "pontoFinal");
          var pontos := OptionalPointList(input, "trajetoria");
          if inicial.Err? then Err(inicial.error)
          else if final.Err? then Err(final.error)
          else if pontos.Err? then Err(pontos.error)
          else Ok(GeoTrajetoria(
            id.value, inicial.value, final.value, pontos.value.GetOr([]),
            FloatField(input, "areaCobertura").GetOr(0.0),
            FloatField(input, "distanciaPercorrida").GetOr(0.0),
            createdNow, updatedNow))
  }

  /** Create fails with `InvalidHex` exactly when the id string is present
      but malformed, and otherwise succeeds exactly when every point in the
      input decodes. */
  lemma NewTrajectoryOutcome(input: map<string, Value>, createdNow: Instant, updatedNow: Instant)
    ensures var r := NewTrajectory(input, createdNow, updatedNow);
      && (r == Err(InvalidHex) <==>
          StringField(input, "aplicacaoId").Some? && ObjectIdFromHex(StringField(input, "aplicacaoId").value).None?)
      && (r.Ok? <==>
          && StringField(input, "aplicacaoId").Some?
          && ObjectIdFromHex(StringField(input, "aplicacaoId").value).Some?
          && ObjectField(input, "pontoInicial").Some?
          && PointFromInput(ObjectField(input, "pontoInicial").value).Ok?
          && OptionalPoint(input, "pontoFinal").Ok?
          && OptionalPointList(input, "trajetoria").Ok?)
  {
  }

  /** The created record: its `aplicacaoId` is the parsed id, its initial
      point the decoded `pontoInicial`; `pontoFinal` is absent unless
      supplied; `trajetoria` is the supplied points in input order or empty;
      area and distance are 0 unless supplied; both timestamps are the
      current time. */
  lemma NewTrajectoryContents(input: map<string, Value>, createdNow: Instant, updatedNow: Instant)
    requires NewTrajectory(input, createdNow, updatedNow).Ok?
    ensures var t := NewTrajectory(input, createdNow, updatedNow).value;
      && Some(t.aplicacaoId) == ObjectIdFromHex(input["aplicacaoId"].s)
      && Ok(t.pontoInicial) == PointFromInput(input["pontoInicial"].fields)
      && (t.pontoFinal.Some? <==> "pontoFinal" in input && input["pontoFinal"].Object?)
      && (t.pontoFinal.Some? ==> Ok(t.pontoFinal.value) == PointFromInput(input["pontoFinal"].fields))
      && ("trajetoria" in input && input["trajetoria"].List? ==>
            var items := input["trajetoria"].items;
            |t.trajetoria| == |items| &&
            forall i :: 0 <= i < |items| ==> ElementFromInput(items[i]) == Ok(t.trajetoria[i]))
      && (!("trajetoria" in input && input["trajetoria"].List?) ==> t.trajetoria == [])
      && t.areaCobertura == (if "areaCobertura" in input && input["areaCobertura"].Float? then input["areaCobertura"].f else 0.0)
      && t.distanciaPercorrida == (if "distanciaPercorrida" in input && input["distanciaPercorrida"].Float? then input["distanciaPercorrida"].f else 0.0)
      && t.createdAt == createdNow && t.updatedAt == updatedNow
  {
  }

  /** The `GeoTrajetoriaInput` a client sends to create `t`, with the id
      written as `idStr`. */
  function TrajectoryToInput(t: GeoTrajetoria, idStr: string): map<string, Value> {
    var base := map[
      "aplicacaoId" := Str(idStr),
      "pontoInicial" := Object(PointToInput(t.pontoInicial)),
      "trajetoria" := List(PointsToInputs(t.trajetoria)),
      "areaCobertura" := Float(t.areaCobertura),
      "distanciaPercorrida" := Float(t.distanciaPercorrida)];
    if t.pontoFinal.Some? then base["pontoFinal" := Object(PointToInput(t.pontoFinal.value))] else base
  }

  /** Creating from the input form of a record, at the record's own
      instants, rebuilds exactly that record. */
  lemma CreateRoundTrip(t: GeoTrajetoria)
    ensures NewTrajectory(TrajectoryToInput(t, Hex(t.aplicacaoId)), t.createdAt, t.updatedAt) == Ok(t)
  {
    var input := TrajectoryToInput(t, Hex(t.aplicacaoId));
    FromHexOfHex(t.aplicacaoId);
    PointRoundTrip(t.pontoInicial);
    PointsRoundTrip(t.trajetoria);
    if t.pontoFinal.Some? {
      PointRoundTrip(t.pontoFinal.value);
    }
    assert StringField(input, "aplicacaoId") == Some(Hex(t.aplicacaoId));
    assert ObjectField(input, "pontoInicial") == Some(PointToInput(t.pontoInicial));
    assert ListField(input, "trajetoria") == Some(PointsToInputs(t.trajetoria));
    assert OptionalPoint(input, "pontoFinal") == Ok(t.pontoFinal);
    assert FloatField(input, "areaCobertura") == Some(t.areaCobertura);
    assert FloatField(input, "distanciaPercorrida") == Some(t.distanciaPercorrida);
  }

  /** A record created for an `aplicacaoId` no stored record has is what a
      following Get returns; when one already exists, Get keeps returning
      the older record, since insertion never checks for duplicates. */
  lemma CreateThenFind(docs: seq<GeoTrajetoria>, t: GeoTrajetoria)
    ensures FindOne(docs, t.aplicacaoId).None? ==> FindOne(InsertOne(docs, t), t.aplicacaoId) == Some(t)
    ensures FindOne(docs, t.aplicacaoId).Some? ==>
      FindOne(InsertOne(docs, t), t.aplicacaoId) == FindOne(docs, t.aplicacaoId)
  {
    var id := t.aplicacaoId;
    var after := InsertOne(docs, t);
    if FirstMatch(docs, id).None? {
      assert after[|docs|] == t;
      assert FirstMatch(after, id) == Some(|docs|);
    } else {
      var k := FirstMatch(docs, id).value;
      assert after[k] == docs[k];
      assert FirstMatch(after, id) == Some(k);
    }
  }

  // ---------------------------------------------------------------------
  // UpdateGeoTrajetoria

  /** The array given to `$push: {trajetoria: {$each: ...}}`. */
  function NovosPontosArg(novos: seq<GeoPoint>): EachArg {
    Each(novos)
  }

  /** As written, `var novosPontos []models.GeoPoint` starts as a nil slice
      and stays nil when `novosPontos` is an empty list; the driver writes a
      nil slice as BSON null. */
  function NovosPontosArgAsWritten(novos: seq<GeoPoint>): EachArg {
    if novos == [] then EachNull else Each(novos)
  }

  /** On every non-empty list the two agree. */
  lemma NovosPontosArgAgrees(novos: seq<GeoPoint>)
    requires novos != []
    ensures NovosPontosArgAsWritten(novos) == NovosPontosArg(novos)
  {
  }

  /** The update document `UpdateGeoTrajetoria` builds from its input, or
      the error it stops with.  `now` is the `time.Now()` for `updated_at`. */
  function UpdateFromInput(input: map<string, Value>, now: Instant): Result<Update> {
    var final := OptionalPoint(input, "pontoFinal");
    var novos := OptionalPointList(input, "novosPontos");
    if final.Err? then Err(final.error)
    else if novos.Err? then Err(novos.error)
    else Ok(Update(
      SetFields(now, final.value, FloatField(input, "areaCobertura"), FloatField(input, "distanciaPercorrida")),
      if novos.value.Some? then Some(NovosPontosArg(novos.value.value)) else None))
  }

  /** Builds the `bson.M` update of `UpdateGeoTrajetoria` step by step:
      `$set` starts with `updated_at` and gains each supplied field,
      `novosPontos` is decoded into `$push $each`. */
  method BuildUpdate(input: map<string, Value>, now: Instant) returns (r: Result<Update>)
    ensures r == UpdateFromInput(input, now)
  {
    var setFields := SetFields(now, None, None, None);
    var push: Option<EachArg> := None;

    var finalInput := ObjectField(input, "pontoFinal");
    if finalInput.Some? {
      var pontoFinal := PointFromInput(finalInput.value);
      if pontoFinal.Err? {
        return Err(pontoFinal.error);
      }
      setFields := setFields.(pontoFinal := Some(pontoFinal.value));
    }

    var novosInput := ListField(input, "novosPontos");
    if novosInput.Some? {
      var novosPontos := DecodePointList(novosInput.value);
      if novosPontos.Err? {
        return Err(novosPontos.error);
      }
      push := Some(NovosPontosArg(novosPontos.value));
    }

    var area := FloatField(input, "areaCobertura");
    if area.Some? {
      setFields := setFields.(areaCobertura := area);
    }
    var distancia := FloatField(input, "distanciaPercorrida");
    if distancia.Some? {
      setFields := setFields.(distanciaPercorrida := distancia);
    }

    r := Ok(Update(setFields, push));
  }

  /** The update document as the source builds it: as `UpdateFromInput`,
      but with the as-written `$each`. */
  function UpdateFromInputAsWritten(input: map<string, Value>, now: Instant): Result<Update> {
    match UpdateFromInput(input, now)
    case Err(e) => Err(e)
    case Ok(u) =>
      if u.push.Some? then Ok(u.(push := Some(NovosPontosArgAsWritten(u.push.value.points)))) else Ok(u)
  }

  /** As written, an update whose `novosPontos` is the empty list is built
      without error but rejected by MongoDB as a whole (so not even
      `updated_at` changes), matched document or not. */
  lemma EmptyNovosPontosAsWrittenRejected(docs: seq<GeoTrajetoria>, id: ObjectId, input: map<string, Value>, now: Instant)
    requires "novosPontos" in input && input["novosPontos"] == List([])
    requires OptionalPoint(input, "pontoFinal").Ok?
    ensures UpdateFromInputAsWritten(input, now).Ok?
    ensures UpdateOne(docs, id, UpdateFromInputAsWritten(input, now).value) == Err(PushEachNotArray)
  {
    assert PointsFromInputs([]) == Ok([]);
  }

  /** With the corrected `$each`, an empty `novosPontos` appends nothing and
      the rest of the update still applies: the store accepts it, and the
      first matching record keeps its points and gets `updatedAt == now`. */
  lemma EmptyNovosPontosAppendsNothing(docs: seq<GeoTrajetoria>, id: ObjectId, input: map<string, Value>, now: Instant)
    requires "novosPontos" in input && input["novosPontos"] == List([])
    requires OptionalPoint(input, "pontoFinal").Ok?
    ensures UpdateFromInput(input, now).Ok? && WellFormedUpdate(UpdateFromInput(input, now).value)
    ensures UpdateOne(docs, id, UpdateFromInput(input, now).value).Ok?
    ensures FirstMatch(docs, id).Some? ==>
      var k := FirstMatch(docs, id).value;
      var r := UpdateOne(docs, id, UpdateFromInput(input, now).value).value[k];
      r.trajetoria == docs[k].trajetoria && r.updatedAt == now
  {
    assert PointsFromInputs([]) == Ok([]);
    if FirstMatch(docs, id).Some? {
      var k := FirstMatch(docs, id).value;
      var d := docs[k];
      assert ApplyUpdate(d, UpdateFromInput(input, now).value).trajetoria == d.trajetoria + [];
    }
  }

  /** The update built from any input is accepted by the store, and it fails
      to build exactly when a supplied point does not decode. */
  lemma UpdateFromInputOutcome(input: map<string, Value>, now: Instant)
    ensures UpdateFromInput(input, now).Ok? <==>
      OptionalPoint(input, "pontoFinal").Ok? && OptionalPointList(input, "novosPontos").Ok?
    ensures UpdateFromInput(input, now).Ok? ==> WellFormedUpdate(UpdateFromInput(input, now).value)
  {
  }

  /** What an update does to the matched record: `updatedAt` is refreshed;
      `pontoFinal`, `areaCobertura` and `distanciaPercorrida` change only
      when supplied, to the supplied value; the points are the old points
      followed by `novosPontos` in order; `aplicacaoId`, `pontoInicial` and
      `createdAt` never change. */
  lemma UpdatedRecord(d: GeoTrajetoria, input: map<string, Value>, now: Instant)
    requires UpdateFromInput(input, now).Ok?
    ensures var r := ApplyUpdate(d, UpdateFromInput(input, now).value);
      && r.updatedAt == now
      && (r.pontoFinal != d.pontoFinal ==> "pontoFinal" in input && input["pontoFinal"].Object?)
      && ("pontoFinal" in input && input["pontoFinal"].Object? ==>
            Ok(r.pontoFinal.value) == PointFromInput(input["pontoFinal"].fields))
      && r.areaCobertura == (if "areaCobertura" in input && input["areaCobertura"].Float? then input["areaCobertura"].f else d.areaCobertura)
      && r.distanciaPercorrida == (if "distanciaPercorrida" in input && input["distanciaPercorrida"].Float? then input["distanciaPercorrida"].f else d.distanciaPercorrida)
      && |r.trajetoria| >= |d.trajetoria|
      && r.trajetoria[..|d.trajetoria|] == d.trajetoria
      && (!("novosPontos" in input && input["novosPontos"].List?) ==> r.trajetoria == d.trajetoria)
      && ("novosPontos" in input && input["novosPontos"].List? ==>
            var items := input["novosPontos"].items;
            |r.trajetoria| == |d.trajetoria| + |items| &&
            forall i :: 0 <= i < |items| ==> ElementFromInput(items[i]) == Ok(r.trajetoria[|d.trajetoria| + i]))
      && r.aplicacaoId == d.aplicacaoId && r.pontoInicial == d.pontoInicial && r.createdAt == d.createdAt
  {
    var u := UpdateFromInput(input, now).value;
    var r := ApplyUpdate(d, u);
    if "novosPontos" in input && input["novosPontos"].List? {
      var items := input["novosPontos"].items;
      var novos := PointsFromInputs(items).value;
      assert r.trajetoria[|d.trajetoria|..] == novos;
      forall i | 0 <= i < |items| ensures ElementFromInput(items[i]) == Ok(r.trajetoria[|d.trajetoria| + i]) {
        assert r.trajetoria[|d.trajetoria| + i] == r.trajetoria[|d.trajetoria|..][i];
      }
    } else {
      assert r.trajetoria == d.trajetoria + [];
    }
  }

  // ---------------------------------------------------------------------
  // The resolvers

  class Resolver {
    /** The documents of the `geo_trajetorias` collection, in store-natural order. */
    var geoTrajetorias: seq<GeoTrajetoria>

    constructor (initial: seq<GeoTrajetoria>)
      ensures geoTrajetorias == initial
    {
      geoTrajetorias := initial;
    }

    /** `GetGeoTrajetoria`: a malformed id is an error; otherwise the first
        record with that `aplicacaoId`, or absent (not an error) when none
        has it. */
    method GetGeoTrajetoria(aplicacaoIdStr: string) returns (r: Result<Option<GeoTrajetoria>>)
      ensures ObjectIdFromHex(aplicacaoIdStr).None? <==> r.Err?
      ensures r.Err? ==> r.error == InvalidHex
      ensures r.Ok? ==>
        var id := ObjectIdFromHex(aplicacaoIdStr).value;
        && (r.value.None? <==> forall j :: 0 <= j < |geoTrajetorias| ==> geoTrajetorias[j].aplicacaoId != id)
        && (r.value.Some? ==>
              exists k :: 0 <= k < |geoTrajetorias| && geoTrajetorias[k] == r.value.value &&
                geoTrajetorias[k].aplicacaoId == id &&
                forall j :: 0 <= j < k ==> geoTrajetorias[j].aplicacaoId != id)
    {
      var aplicacaoId := ObjectIdFromHex(aplicacaoIdStr);
      if aplicacaoId.None? {
        return Err(InvalidHex);
      }
      var k := FirstMatch(geoTrajetorias, aplicacaoId.value);
      if k.None? {
        return Ok(None);
      }
      r := Ok(Some(geoTrajetorias[k.value]));
    }

    /** `GetGeoTrajetorias`: `$skip` offset, `$limit` limit, then `$sort`
        by `created_at` descending.  The store rejects a negative offset and
        a limit below 1; otherwise the result is exactly the records at store
        positions `offset .. offset + limit`, sorted among themselves. */
    method GetGeoTrajetorias(limitArg: Option<int>, offsetArg: Option<int>) returns (r: Result<seq<GeoTrajetoria>>)
      ensures var limit, offset := limitArg.GetOr(DefaultLimit), offsetArg.GetOr(DefaultOffset);
        && (r.Err? <==> offset < 0 || limit <= 0)
        && (r.Err? ==> r.error == InvalidPipelineStage)
        && (r.Ok? ==>
              && offset >= 0 && limit > 0
              && |r.value| <= limit
              && multiset(r.value) == multiset(Window(geoTrajetorias, offset, limit))
              && SortedByCreatedDesc(r.value))
    {
      var limit := limitArg.GetOr(DefaultLimit);
      var offset := offsetArg.GetOr(DefaultOffset);
      var pipeline := [Skip(offset), Limit(limit), SortByCreatedAtDesc];
      r := Aggregate(geoTrajetorias, pipeline);
      PagedAggregate(geoTrajetorias, offset, limit);
      if r.Ok? {
        assert |r.value| == |Window(geoTrajetorias, offset, limit)| by {
          assert |multiset(r.value)| == |multiset(Window(geoTrajetorias, offset, limit))|;
        }
      } else {
        assert !AllStagesValid(pipeline);
      }
    }

    /** `CreateGeoTrajetoria`: builds the record and appends it, without
        checking whether one for that `aplicacaoId` already exists; every
        error leaves the collection as it was. */
    method CreateGeoTrajetoria(input: map<string, Value>, createdNow: Instant, updatedNow: Instant)
      returns (r: Result<GeoTrajetoria>)
      modifies this
      ensures r == NewTrajectory(input, createdNow, updatedNow)
      ensures r.Ok? ==> geoTrajetorias == InsertOne(old(geoTrajetorias), r.value)
      ensures r.Err? ==> geoTrajetorias == old(geoTrajetorias)
    {
      var idStr := StringField(input, "aplicacaoId");
      if idStr.None? {
        return Err(MalformedInput);
      }
      var aplicacaoId := ObjectIdFromHex(idStr.value);
      if aplicacaoId.None? {
        return Err(InvalidHex);
      }

      var inicialInput := ObjectField(input, "pontoInicial");
      if inicialInput.None? {
        return Err(MalformedInput);
      }
      var pontoInicial := PointFromInput(inicialInput.value);
      if pontoInicial.Err? {
        return Err(pontoInicial.error);
      }

      var geoTrajetoria := GeoTrajetoria(aplicacaoId.value, pontoInicial.value, None, [], 0.0, 0.0,
                                         createdNow, updatedNow);

      var finalInput := ObjectField(input, "pontoFinal");
      if finalInput.Some? {
        var pontoFinal := PointFromInput(finalInput.value);
        if pontoFinal.Err? {
          return Err(pontoFinal.error);
        }
        geoTrajetoria := geoTrajetoria.(pontoFinal := Some(pontoFinal.value));
      }

      var trajetoriaInput := ListField(input, "trajetoria");
      if trajetoriaInput.Some? {
        var pontos := DecodePointList(trajetoriaInput.value);
        if pontos.Err? {
          return Err(pontos.error);
        }
        geoTrajetoria := geoTrajetoria.(trajetoria := geoTrajetoria.trajetoria + pontos.value);
        assert geoTrajetoria.trajetoria == pontos.value;
      }

      var area := FloatField(input, "areaCobertura");
      if area.Some? {
        geoTrajetoria := geoTrajetoria.(areaCobertura := area.value);
      }
      var distancia := FloatField(input, "distanciaPercorrida");
      if distancia.Some? {
        geoTrajetoria := geoTrajetoria.(distanciaPercorrida := distancia.value);
      }

      geoTrajetorias := InsertOne(geoTrajetorias, geoTrajetoria);
      r := Ok(geoTrajetoria);
    }

    /** `UpdateGeoTrajetoria`: a malformed id or a point that does not
        decode is an error and changes nothing; otherwise the sparse update
        is applied to the first matching record (none matching changes
        nothing) and the record is read back. */
    method UpdateGeoTrajetoria(aplicacaoIdStr: string, input: map<string, Value>, now: Instant)
      returns (r: Result<Option<GeoTrajetoria>>)
      modifies this
      ensures ObjectIdFromHex(aplicacaoIdStr).None? ==>
        r == Err(InvalidHex) && geoTrajetorias == old(geoTrajetorias)
      ensures ObjectIdFromHex(aplicacaoIdStr).Some? && UpdateFromInput(input, now).Err? ==>
        r == Err(UpdateFromInput(input, now).error) && geoTrajetorias == old(geoTrajetorias)
      ensures ObjectIdFromHex(aplicacaoIdStr).Some? && UpdateFromInput(input, now).Ok? ==>
        var id, u := ObjectIdFromHex(aplicacaoIdStr).value, UpdateFromInput(input, now).value;
        && UpdateOne(old(geoTrajetorias), id, u) == Ok(geoTrajetorias)
        && r == Ok(FindOne(geoTrajetorias, id))
      ensures ObjectIdFromHex(aplicacaoIdStr).Some? && UpdateFromInput(input, now).Ok? ==>
        var id, u := ObjectIdFromHex(aplicacaoIdStr).value, UpdateFromInput(input, now).value;
        match FirstMatch(old(geoTrajetorias), id)
        case None => geoTrajetorias == old(geoTrajetorias) && r == Ok(None)
        case Some(k) =>
          && |geoTrajetorias| == |old(geoTrajetorias)|
          && (forall j :: 0 <= j < |geoTrajetorias| && j != k ==> geoTrajetorias[j] == old(geoTrajetorias)[j])
          && geoTrajetorias[k] == ApplyUpdate(old(geoTrajetorias)[k], u)
          && r == Ok(Some(geoTrajetorias[k]))
    {
      var aplicacaoId := ObjectIdFromHex(aplicacaoIdStr);
      if aplicacaoId.None? {
        return Err(InvalidHex);
      }

      var update := BuildUpdate(input, now);
      if update.Err? {
        return Err(update.error);
      }
      UpdateOneEffect(geoTrajetorias, aplicacaoId.value, update.value);
      UpdateFromInputOutcome(input, now);
      // The update built here always has an array `$each`, so the store accepts it.
      geoTrajetorias := UpdateOne(geoTrajetorias, aplicacaoId.value, update.value).value;

      r := GetGeoTrajetoria(aplicacaoIdStr);
    }

    /** `DeleteGeoTrajetoria`: a malformed id is an error, reported with
        `false`, and changes nothing; otherwise at most the first matching
        record is removed, and the result says whether one was. */
    method DeleteGeoTrajetoria(aplicacaoIdStr: string) returns (deleted: bool, err: Option<Error>)
      modifies this
      ensures ObjectIdFromHex(aplicacaoIdStr).None? ==>
        !deleted && err == Some(InvalidHex) && geoTrajetorias == old(geoTrajetorias)
      ensures ObjectIdFromHex(aplicacaoIdStr).Some? ==>
        var id := ObjectIdFromHex(aplicacaoIdStr).value;
        && err.None?
        && (deleted <==> exists j :: 0 <= j < |old(geoTrajetorias)| && old(geoTrajetorias)[j].aplicacaoId == id)
        && geoTrajetorias == DeleteOne(old(geoTrajetorias), id).0
    {
      var aplicacaoId := ObjectIdFromHex(aplicacaoIdStr);
      if aplicacaoId.None? {
        return false, Some(InvalidHex);
      }
      var result := DeleteOne(geoTrajetorias, aplicacaoId.value);
      DeleteOneEffect(geoTrajetorias, aplicacaoId.value);
      geoTrajetorias := result.0;
      deleted, err := result.1 > 0, None;
    }
  }
}
