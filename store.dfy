/** What the resolvers rely on from the `geo_trajetorias` collection, with
    documents in store-natural order: `FindOne`, `UpdateOne` and `DeleteOne`
    on the filter `{aplicacao_id: id}` act on the first matching document,
    `InsertOne` appends, and `Aggregate` runs `$skip`, `$limit` and `$sort`
    stages in the order given. */
module Store {
  import opened Wrappers
  import opened ObjectIds
  import opened Models

  /** Index of the first document whose `aplicacao_id` is `id`. */
  function FirstMatch(docs: seq<GeoTrajetoria>, id: ObjectId): (r: Option<nat>)
    ensures r.None? <==> forall j :: 0 <= j < |docs| ==> docs[j].aplicacaoId != id
    ensures r.Some? ==> r.value < |docs| && docs[r.value].aplicacaoId == id
    ensures r.Some? ==> forall j :: 0 <= j < r.value ==> docs[j].aplicacaoId != id
  {
    if docs == [] then None
    else if docs[0].aplicacaoId == id then Some(0)
    else match FirstMatch(docs[1..], id)
      case None => None
      case Some(k) => Some(k + 1)
  }

  /** `FindOne(ctx, {aplicacao_id: id})`: the first match, or
      `mongo.ErrNoDocuments` (modelled as `None`). */
  function FindOne(docs: seq<GeoTrajetoria>, id: ObjectId): (r: Option<GeoTrajetoria>)
    ensures r.None? <==> forall j :: 0 <= j < |docs| ==> docs[j].aplicacaoId != id
    ensures r.Some? ==> r.value.aplicacaoId == id && r.value in docs
  {
    match FirstMatch(docs, id)
    case None => None
    case Some(k) => Some(docs[k])
  }

  /** `InsertOne`: the new document goes after every existing one. */
  function InsertOne(docs: seq<GeoTrajetoria>, d: GeoTrajetoria): (r: seq<GeoTrajetoria>)
    ensures |r| == |docs| + 1 && r[..|docs|] == docs && r[|docs|] == d
  {
    docs + [d]
  }

  // ---------------------------------------------------------------------
  // UpdateOne with a `$set` / `$push $each` update document

  /** The `$set` part of an update: `updated_at` is always there, the other
      three fields only when the caller supplied them. */
  datatype SetFields = SetFields(
    updatedAt: Instant,
    pontoFinal: Option<GeoPoint>,
    areaCobertura: Option<real>,
    distanciaPercorrida: Option<real>)

  /** The value of `$each` under `$push: {trajetoria: ...}`: an array, or
      null (what the Go driver writes for a nil slice). */
  datatype EachArg = EachNull | Each(points: seq<GeoPoint>)

  datatype Update = Update(setFields: SetFields, push: Option<EachArg>)

  /** MongoDB refuses `$each` that is not an array when it parses the
      update, whether or not a document matches. */
  predicate WellFormedUpdate(u: Update) {
    u.push != Some(EachNull)
  }

  /** One matched document after the update. */
  function ApplyUpdate(d: GeoTrajetoria, u: Update): (r: GeoTrajetoria)
    requires WellFormedUpdate(u)
  {
    var pushed := if u.push.Some? then u.push.value.points else [];
    d.(updatedAt := u.setFields.updatedAt,
       pontoFinal := if u.setFields.pontoFinal.Some? then u.setFields.pontoFinal else d.pontoFinal,
       areaCobertura := u.setFields.areaCobertura.GetOr(d.areaCobertura),
       distanciaPercorrida := u.setFields.distanciaPercorrida.GetOr(d.distanciaPercorrida),
       trajetoria := d.trajetoria + pushed)
  }

  /** `UpdateOne(ctx, {aplicacao_id: id}, u)`: the first match is updated;
      no match is not an error. */
  function UpdateOne(docs: seq<GeoTrajetoria>, id: ObjectId, u: Update): (r: Result<seq<GeoTrajetoria>>)
  {
    if !WellFormedUpdate(u) then Err(PushEachNotArray)
    else match FirstMatch(docs, id)
      case None => Ok(docs)
      case Some(k) => Ok(docs[k := ApplyUpdate(docs[k], u)])
  }

  /** `UpdateOne` fails exactly on a malformed update; otherwise it changes
      at most the first matching document, leaves every other document and
      the order alone, and a following `FindOne` returns the updated
      document. */
  lemma {:induction false} UpdateOneEffect(docs: seq<GeoTrajetoria>, id: ObjectId, u: Update)
    ensures UpdateOne(docs, id, u).Err? <==> !WellFormedUpdate(u)
    ensures WellFormedUpdate(u) && FirstMatch(docs, id).None? ==>
      UpdateOne(docs, id, u) == Ok(docs) && FindOne(docs, id).None?
    ensures WellFormedUpdate(u) && FirstMatch(docs, id).Some? ==>
      var k := FirstMatch(docs, id).value;
      var after := UpdateOne(docs, id, u).value;
      && |after| == |docs|
      && (forall j :: 0 <= j < |docs| && j != k ==> after[j] == docs[j])
      && after[k] == ApplyUpdate(docs[k], u)
      && FindOne(after, id) == Some(ApplyUpdate(docs[k], u))
  {
    if WellFormedUpdate(u) && FirstMatch(docs, id).Some? {
      var k := FirstMatch(docs, id).value;
      var after := UpdateOne(docs, id, u).value;
      assert after[k].aplicacaoId == id;
      SameIdsSameFirstMatch(docs, after, id);
    }
  }

  /** Two collections with the same `aplicacao_id` at each position have
      the same first match. */
  lemma {:induction false} SameIdsSameFirstMatch(a: seq<GeoTrajetoria>, b: seq<GeoTrajetoria>, id: ObjectId)
    requires |a| == |b| && forall j :: 0 <= j < |a| ==> a[j].aplicacaoId == b[j].aplicacaoId
    ensures FirstMatch(a, id) == FirstMatch(b, id)
  {
    if a != [] && a[0].aplicacaoId != id {
      SameIdsSameFirstMatch(a[1..], b[1..], id);
    }
  }

  // ---------------------------------------------------------------------
  // DeleteOne

  /** `DeleteOne(ctx, {aplicacao_id: id})`: the collection afterwards and
      the `DeletedCount`. */
  function DeleteOne(docs: seq<GeoTrajetoria>, id: ObjectId): (seq<GeoTrajetoria>, nat) {
    match FirstMatch(docs, id)
    case None => (docs, 0)
    case Some(k) => (docs[..k] + docs[k + 1..], 1)
  }

  /** At most one document goes, and one goes exactly when one matches: the
      first match; the others keep their order. */
  lemma DeleteOneEffect(docs: seq<GeoTrajetoria>, id: ObjectId)
    ensures DeleteOne(docs, id).1 <= 1
    ensures DeleteOne(docs, id).1 == 1 <==> exists j :: 0 <= j < |docs| && docs[j].aplicacaoId == id
    ensures DeleteOne(docs, id).1 == 0 ==> DeleteOne(docs, id).0 == docs
    ensures DeleteOne(docs, id).1 == 1 ==>
      exists k :: 0 <= k < |docs| && docs[k].aplicacaoId == id
        && (forall j :: 0 <= j < k ==> docs[j].aplicacaoId != id)
        && DeleteOne(docs, id).0 == docs[..k] + docs[k + 1..]
  {
    if FirstMatch(docs, id).Some? {
      var k := FirstMatch(docs, id).value;
      assert docs[k].aplicacaoId == id;
    }
  }

  /** When at most one document carries `id`, none does after `DeleteOne`. */
  lemma DeleteUniqueThenFindAbsent(docs: seq<GeoTrajetoria>, id: ObjectId)
    requires forall i, j :: 0 <= i < j < |docs| && docs[i].aplicacaoId == id ==> docs[j].aplicacaoId != id
    ensures FindOne(DeleteOne(docs, id).0, id).None?
  {
    if FirstMatch(docs, id).Some? {
      var k := FirstMatch(docs, id).value;
      var after := DeleteOne(docs, id).0;
      forall j | 0 <= j < |after| ensures after[j].aplicacaoId != id {
        if j < k { assert after[j] == docs[j]; } else { assert after[j] == docs[j + 1]; }
      }
    }
  }

  /** Insertion does not check for an existing `aplicacao_id`, so two
      documents can share one; `DeleteOne` then removes only the first and a
      `FindOne` still finds the second. */
  lemma DuplicateSurvivesDelete(docs: seq<GeoTrajetoria>, d: GeoTrajetoria, e: GeoTrajetoria)
    requires FindOne(docs, d.aplicacaoId).None? && e.aplicacaoId == d.aplicacaoId
    ensures var after := DeleteOne(InsertOne(InsertOne(docs, d), e), d.aplicacaoId);
      after.1 == 1 && FindOne(after.0, d.aplicacaoId) == Some(e)
  {
    var id := d.aplicacaoId;
    var both := InsertOne(InsertOne(docs, d), e);
    assert both[|docs|] == d;
    assert FirstMatch(both, id) == Some(|docs|);
    var after := DeleteOne(both, id).0;
    assert after == docs + [e];
    assert after[|docs|] == e;
    assert FirstMatch(after, id) == Some(|docs|);
  }

  // ---------------------------------------------------------------------
  // Aggregate with $skip, $limit and $sort

  datatype Stage =
    | Skip(n: int)
    | Limit(n: int)
    | SortByCreatedAtDesc   // {$sort: {created_at: -1}}

  predicate ValidStage(s: Stage) {
    match s
    case Skip(n) => n >= 0
    case Limit(n) => n > 0
    case SortByCreatedAtDesc => true
  }

  predicate SortedByCreatedDesc(s: seq<GeoTrajetoria>) {
    forall i, j :: 0 <= i < j < |s| ==> s[i].createdAt >= s[j].createdAt
  }

  function InsertByCreatedDesc(d: GeoTrajetoria, s: seq<GeoTrajetoria>): (r: seq<GeoTrajetoria>)
    requires SortedByCreatedDesc(s)
    ensures SortedByCreatedDesc(r)
    ensures multiset(r) == multiset(s) + multiset{d}
    ensures |r| == |s| + 1 && (r[0] == d || (s != [] && r[0] == s[0]))
  {
    if s == [] || d.createdAt >= s[0].createdAt then [d] + s
    else
      var rest := InsertByCreatedDesc(d, s[1..]);
      assert s == [s[0]] + s[1..];
      assert rest[0].createdAt <= s[0].createdAt;
      [s[0]] + rest
  }

  /** The `$sort` stage.  MongoDB leaves the order of equal `created_at`
      values open; the resolvers' contracts rely only on sortedness and on
      the page being a permutation, which hold of every such order. */
  function SortByCreatedDesc(s: seq<GeoTrajetoria>): (r: seq<GeoTrajetoria>)
    ensures SortedByCreatedDesc(r)
    ensures multiset(r) == multiset(s)
  {
    if s == [] then []
    else
      assert s == [s[0]] + s[1..];
      InsertByCreatedDesc(s[0], SortByCreatedDesc(s[1..]))
  }

  function RunStage(docs: seq<GeoTrajetoria>, s: Stage): seq<GeoTrajetoria>
    requires ValidStage(s)
  {
    match s
    case Skip(n) => if n <= |docs| then docs[n..] else []
    case Limit(n) => if n <= |docs| then docs[..n] else docs
    case SortByCreatedAtDesc => SortByCreatedDesc(docs)
  }

  predicate AllStagesValid(pipeline: seq<Stage>) {
    forall i :: 0 <= i < |pipeline| ==> ValidStage(pipeline[i])
  }

  function RunStages(docs: seq<GeoTrajetoria>, pipeline: seq<Stage>): seq<GeoTrajetoria>
    requires AllStagesValid(pipeline)
    decreases |pipeline|
  {
    if pipeline == [] then docs
    else RunStages(RunStage(docs, pipeline[0]), pipeline[1..])
  }

  /** `Aggregate(ctx, pipeline)` followed by `cursor.All`: every stage is
      checked before any runs, then the stages run in order. */
  function Aggregate(docs: seq<GeoTrajetoria>, pipeline: seq<Stage>): Result<seq<GeoTrajetoria>> {
    if AllStagesValid(pipeline) then Ok(RunStages(docs, pipeline)) else Err(InvalidPipelineStage)
  }

  /** Store positions `offset .. offset + limit`, clipped to the collection. */
  function Window(docs: seq<GeoTrajetoria>, offset: nat, limit: nat): (w: seq<GeoTrajetoria>)
    ensures |w| <= limit
  {
    var lo := if offset <= |docs| then offset else |docs|;
    var hi := if offset + limit <= |docs| then offset + limit else |docs|;
    docs[lo..hi]
  }

  /** `$skip`, then `$limit`, then `$sort`: the page is the window of store
      positions `offset .. offset + limit`, rearranged by `created_at`
      descending; the sort does not reach records outside the window. */
  lemma PagedAggregate(docs: seq<GeoTrajetoria>, offset: int, limit: int)
    ensures var r := Aggregate(docs, [Skip(offset), Limit(limit), SortByCreatedAtDesc]);
      && (r.Err? <==> offset < 0 || limit <= 0)
      && (r.Ok? ==> offset >= 0 && limit > 0 && r.value == SortByCreatedDesc(Window(docs, offset, limit)))
  {
    var p := [Skip(offset), Limit(limit), SortByCreatedAtDesc];
    if offset >= 0 && limit > 0 {
      var skipped := RunStage(docs, Skip(offset));
      var limited := RunStage(skipped, Limit(limit));
      var sorted := SortByCreatedDesc(limited);
      assert limited == Window(docs, offset, limit);
      assert p[1..] == [Limit(limit), SortByCreatedAtDesc];
      assert p[1..][1..] == [SortByCreatedAtDesc];
      assert p[1..][1..][1..] == [];
      assert RunStages(skipped, p[1..]) == RunStages(limited, p[1..][1..]);
      assert RunStages(limited, p[1..][1..]) == RunStages(sorted, p[1..][1..][1..]);
      assert RunStages(docs, p) == sorted;
    } else {
      assert !ValidStage(p[0]) || !ValidStage(p[1]);
    }
  }

  /** The page is sorted within itself only: with the newer record second in
      store order and a limit of one, the older record is returned. */
  lemma PageIsNotGlobalSort(older: GeoTrajetoria, newer: GeoTrajetoria)
    requires older.createdAt < newer.createdAt
    ensures Aggregate([older, newer], [Skip(0), Limit(1), SortByCreatedAtDesc]) == Ok([older])
  {
    PagedAggregate([older, newer], 0, 1);
    assert Window([older, newer], 0, 1) == [older];
    assert [older][1..] == [];
    assert SortByCreatedDesc([older]) == InsertByCreatedDesc(older, []) == [older];
  }
}
