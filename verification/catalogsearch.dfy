/** The catalog service: the cone search (repository hits, separation and
    attribute filters, ordering by separation, result cap), nearest-object
    lookup and positional cross-match, saving an object, and bulk import.

    The spatial database is a parameter: a function from the query to the
    rows it returns. Angular distances come from the parameter `distance`,
    and `exp` from a parameter with the facts in `AstroCalc.ExpLike`. */
module CatalogSearch {
  import opened Wrappers
  import opened Sorting
  import AstroCalc

  /** An astronomical object as the service sees it; every column the
      service reads or writes, each optional where the entity allows
      null. Times are instants in milliseconds. */
  datatype CatalogObject = CatalogObject(
    id: Option<int>,
    objectId: string,
    ra: Option<real>,
    dec: Option<real>,
    objectType: Option<string>,
    magnitude: Option<real>,
    parallaxMas: Option<real>,
    position: Option<AstroCalc.Point>,
    distancePc: Option<real>,
    createdAt: Option<int>,
    updatedAt: Option<int>)

  /** The fields of a cone-search request the search reads. */
  datatype ConeSearchRequest = ConeSearchRequest(
    centerRa: real,
    centerDec: real,
    radiusArcsec: real,
    objectTypes: Option<seq<string>>,
    minMagnitude: Option<real>,
    maxMagnitude: Option<real>,
    maxResults: Option<int>)

  datatype ObjectMatch = ObjectMatch(obj: CatalogObject, separationArcsec: real)

  datatype ConeSearchResult = ConeSearchResult(
    objects: seq<CatalogObject>,
    matches: seq<ObjectMatch>,
    totalResults: int,
    returnedResults: int,
    hasMoreResults: bool)

  /** The angular distance, in arcseconds, between two positions. */
  type Distance = (real, real, real, real) -> real

  const DefaultMaxResults: int := 1000
  const DefaultMatchRadiusArcsec: real := 1.0

  /** The radius handed to the spatial database, in metres: arcseconds to
      degrees, then about 111319.9 metres per degree at the equator. */
  function RadiusMeters(radiusArcsec: real): (m: real)
    ensures radiusArcsec > 0.0 ==> m > 0.0
    ensures m / 111319.9 * 3600.0 == radiusArcsec
  {
    radiusArcsec * (1.0 / 3600.0) * 111319.9
  }

  // ---------------------------------------------------------------------
  // Cone search

  /** The separation of an object from the search centre, if both its
      coordinates are known (otherwise the code's separation is NaN). */
  function SeparationOf(req: ConeSearchRequest, obj: CatalogObject, distance: Distance): Option<real> {
    AstroCalc.CalculateSeparation(Some(req.centerRa), Some(req.centerDec), obj.ra, obj.dec, distance)
  }

  /** The separation filter: NaN compares false, so an object without
      coordinates never passes. */
  predicate WithinRadius(req: ConeSearchRequest, obj: CatalogObject, distance: Distance) {
    var sep := SeparationOf(req, obj, distance);
    sep.Some? && sep.value <= req.radiusArcsec
  }

  /** The type filter applies only when types are given; the code then
      reads the object's type, which fails on a null type. */
  predicate TypeCrashes(req: ConeSearchRequest, obj: CatalogObject) {
    req.objectTypes.Some? && obj.objectType.None?
  }

  predicate TypeAccepted(req: ConeSearchRequest, obj: CatalogObject) {
    req.objectTypes.None? || (obj.objectType.Some? && obj.objectType.value in req.objectTypes.value)
  }

  /** A magnitude bound, when given, excludes objects of unknown
      magnitude. */
  predicate MagnitudeAccepted(req: ConeSearchRequest, obj: CatalogObject) {
    (req.minMagnitude.None? || (obj.magnitude.Some? && obj.magnitude.value >= req.minMagnitude.value)) &&
    (req.maxMagnitude.None? || (obj.magnitude.Some? && obj.magnitude.value <= req.maxMagnitude.value))
  }

  predicate Accepted(req: ConeSearchRequest, obj: CatalogObject, distance: Distance) {
    WithinRadius(req, obj, distance) && TypeAccepted(req, obj) && MagnitudeAccepted(req, obj)
  }

  function SeparationKey(m: ObjectMatch): real {
    m.separationArcsec
  }

  /** The repository rows that pass every filter, with their separations,
      in repository order. */
  function Qualifying(req: ConeSearchRequest, objects: seq<CatalogObject>, distance: Distance): (r: seq<ObjectMatch>)
    ensures |r| <= |objects|
    ensures forall m :: m in r <==>
      m.obj in objects && Accepted(req, m.obj, distance) && Some(m.separationArcsec) == SeparationOf(req, m.obj, distance)
  {
    if |objects| == 0 then []
    else
      var rest := Qualifying(req, objects[1..], distance);
      var obj := objects[0];
      assert forall o :: o in objects <==> o == obj || o in objects[1..];
      if Accepted(req, obj, distance) then [ObjectMatch(obj, SeparationOf(req, obj, distance).value)] + rest
      else rest
  }

  /** Whether some row passing the separation filter has a null type while
      types are requested. */
  predicate AnyTypeCrash(req: ConeSearchRequest, objects: seq<CatalogObject>, distance: Distance) {
    exists k :: 0 <= k < |objects| && WithinRadius(req, objects[k], distance) && TypeCrashes(req, objects[k])
  }

  function Take<T>(s: seq<T>, n: int): (r: seq<T>)
    requires n >= 0
    ensures |r| == if n < |s| then n else |s|
    ensures r <= s
  {
    if n < |s| then s[..n] else s
  }

  function Objects(matches: seq<ObjectMatch>): (r: seq<CatalogObject>)
    ensures |r| == |matches|
    ensures forall k :: 0 <= k < |r| ==> r[k] == matches[k].obj
  {
    seq(|matches|, k requires 0 <= k < |matches| => matches[k].obj)
  }

  /** The qualifying rows ordered by separation and cut to `limit`. */
  function NearestMatches(req: ConeSearchRequest, objects: seq<CatalogObject>, distance: Distance, limit: nat): (r: seq<ObjectMatch>)
    ensures var all := Qualifying(req, objects, distance);
      && SortedBy(r, SeparationKey)
      && multiset(r) <= multiset(all)
      && |r| == (if limit < |all| then limit else |all|)
  {
    var sorted := SortBy(Qualifying(req, objects, distance), SeparationKey);
    var matches := Take(sorted, limit);
    TakeSorted(sorted, SeparationKey, |matches|);
    assert multiset(matches) <= multiset(sorted) by {
      assert sorted == matches + sorted[|matches|..];
    }
    matches
  }

  /** `performConeSearch` on the rows the spatial query returned. A
      negative result cap is refused by `Stream.limit`; a null object type
      fails the type filter when types are requested. Otherwise the
      matches are the qualifying rows ordered by separation and cut to the
      cap (1000 when none is given), and both counts are the number of
      matches returned. */
  function PerformConeSearch(req: ConeSearchRequest, objects: seq<CatalogObject>, distance: Distance): (r: Result<ConeSearchResult>)
    ensures r.Failure? <==> (req.maxResults.Some? && req.maxResults.value < 0) || AnyTypeCrash(req, objects, distance)
    ensures r.Success? ==>
      var limit := req.maxResults.GetOr(DefaultMaxResults);
      var all := Qualifying(req, objects, distance);
      && SortedBy(r.value.matches, SeparationKey)
      && multiset(r.value.matches) <= multiset(all)
      && |r.value.matches| == (if limit < |all| then limit else |all|)
      && r.value.totalResults == |r.value.matches| && r.value.returnedResults == |r.value.matches|
      && !r.value.hasMoreResults
      && r.value.objects == Objects(r.value.matches)
  {
    if req.maxResults.Some? && req.maxResults.value < 0 then Failure("IllegalArgumentException: negative maxResults")
    else if AnyTypeCrash(req, objects, distance) then Failure("NullPointerException: object type")
    else
      var matches := NearestMatches(req, objects, distance, req.maxResults.GetOr(DefaultMaxResults));
      Success(ConeSearchResult(Objects(matches), matches, |matches|, |matches|, false))
  }

  /** Every returned match passes every filter, lies within the radius,
      and came from the repository rows. */
  lemma ConeSearchMatchesQualify(req: ConeSearchRequest, objects: seq<CatalogObject>, distance: Distance)
    requires PerformConeSearch(req, objects, distance).Success?
    ensures forall m :: m in PerformConeSearch(req, objects, distance).value.matches ==>
      m.obj in objects && m.separationArcsec <= req.radiusArcsec &&
      TypeAccepted(req, m.obj) && MagnitudeAccepted(req, m.obj)
  {
    var r := PerformConeSearch(req, objects, distance).value;
    var all := Qualifying(req, objects, distance);
    forall m | m in r.matches
      ensures m in all
    {
      assert m in multiset(r.matches);
    }
  }

  /** The cap keeps the nearest matches: no qualifying row left out is
      closer than one returned. */
  lemma ConeSearchKeepsNearest(req: ConeSearchRequest, objects: seq<CatalogObject>, distance: Distance)
    requires PerformConeSearch(req, objects, distance).Success?
    ensures var limit := req.maxResults.GetOr(DefaultMaxResults);
      var sorted := SortBy(Qualifying(req, objects, distance), SeparationKey);
      var r := PerformConeSearch(req, objects, distance).value;
      r.matches == Take(sorted, limit) &&
      forall i, j :: 0 <= i < |r.matches| <= j < |sorted| ==>
        r.matches[i].separationArcsec <= sorted[j].separationArcsec
  {
    var limit := req.maxResults.GetOr(DefaultMaxResults);
    var sorted := SortBy(Qualifying(req, objects, distance), SeparationKey);
    TakeSorted(sorted, SeparationKey, |Take(sorted, limit)|);
  }

  // ---------------------------------------------------------------------
  // Nearest object and cross-match

  /** A separation the spatial database reports: a distance, so never
      negative. */
  type Arcsec = x: real | 0.0 <= x

  /** The nearest-objects query: centre, radius in metres, object type
      name (null for any), and row limit, to rows of object and
      separation. */
  type NearestQuery = (real, real, real, Option<string>, int) -> seq<(CatalogObject, Arcsec)>

  datatype ObjectMatchResult = ObjectMatchResult(obj: CatalogObject, separationArcsec: real, matchConfidence: real)

  /** `calculateMatchConfidence`: none at or beyond the maximum
      separation, otherwise exponential decay from 1 at the centre. */
  function MatchConfidence(separationArcsec: Arcsec, maxSeparationArcsec: real, exp: real -> real): (c: real)
    requires AstroCalc.ExpLike(exp)
    ensures separationArcsec >= maxSeparationArcsec ==> c == 0.0
    ensures separationArcsec < maxSeparationArcsec ==> 0.0 < c <= 1.0
  {
    if separationArcsec >= maxSeparationArcsec then 0.0
    else
      assert -2.0 * separationArcsec / maxSeparationArcsec <= 0.0 by {
        assert maxSeparationArcsec > 0.0;
      }
      exp(-2.0 * separationArcsec / maxSeparationArcsec)
  }

  /** Confidence decreases as the separation grows, for a fixed maximum. */
  lemma ConfidenceDecreases(s1: Arcsec, s2: Arcsec, maxSeparationArcsec: real, exp: real -> real)
    requires AstroCalc.ExpLike(exp)
    requires forall x, y :: x <= y ==> exp(x) <= exp(y)
    requires s1 <= s2
    ensures MatchConfidence(s2, maxSeparationArcsec, exp) <= MatchConfidence(s1, maxSeparationArcsec, exp)
  {
    if s2 < maxSeparationArcsec {
      assert -2.0 * s2 / maxSeparationArcsec <= -2.0 * s1 / maxSeparationArcsec;
    }
  }

  /** `findNearestObject`: the first row of the nearest-objects query
      (limit 1), with its confidence; nothing when the query finds no
      row. */
  function FindNearestObject(ra: real, dec: real, objectType: Option<string>, maxSeparationArcsec: real,
                             query: NearestQuery, exp: real -> real): (r: Option<ObjectMatchResult>)
    requires AstroCalc.ExpLike(exp)
    ensures var rows := query(ra, dec, RadiusMeters(maxSeparationArcsec), objectType, 1);
      (r.None? <==> |rows| == 0) &&
      (r.Some? ==> r.value.obj == rows[0].0 && r.value.separationArcsec == rows[0].1 &&
                   0.0 <= r.value.matchConfidence <= 1.0 &&
                   (r.value.matchConfidence == 0.0 <==> rows[0].1 >= maxSeparationArcsec))
  {
    var rows := query(ra, dec, RadiusMeters(maxSeparationArcsec), objectType, 1);
    if |rows| == 0 then None
    else Some(ObjectMatchResult(rows[0].0, rows[0].1, MatchConfidence(rows[0].1, maxSeparationArcsec, exp)))
  }

  /** One position of a cross-match; the radius may be absent. */
  datatype Position = Position(ra: real, dec: real, radiusArcsec: Option<real>)

  /** The match `crossMatchPositions` looks up for one position: the
      nearest object of any type within its radius or 1 arcsecond. */
  function NearestFor(p: Position, query: NearestQuery, exp: real -> real): (r: Option<ObjectMatchResult>)
    requires AstroCalc.ExpLike(exp)
    ensures r.Some? ==> 0.0 <= r.value.matchConfidence <= 1.0
  {
    FindNearestObject(p.ra, p.dec, None, p.radiusArcsec.GetOr(DefaultMatchRadiusArcsec), query, exp)
  }

  /** Some position of `positions` has `m` as its match. */
  predicate MatchedBySome(positions: seq<Position>, m: ObjectMatchResult, query: NearestQuery, exp: real -> real)
    requires AstroCalc.ExpLike(exp)
  {
    exists i :: 0 <= i < |positions| && NearestFor(positions[i], query, exp) == Some(m)
  }

  /** `crossMatchPositions`: the nearest object of any type for each
      position, within its radius or 1 arcsecond, keeping the positions
      that found one, in order. */
  function CrossMatchPositions(positions: seq<Position>, query: NearestQuery, exp: real -> real): (r: seq<ObjectMatchResult>)
    requires AstroCalc.ExpLike(exp)
    ensures |r| <= |positions|
    ensures |r| == CountFound(positions, query, exp)
    ensures forall m :: m in r ==> 0.0 <= m.matchConfidence <= 1.0
    ensures forall m :: m in r ==> MatchedBySome(positions, m, query, exp)
    ensures forall i :: 0 <= i < |positions| && NearestFor(positions[i], query, exp).Some? ==>
              CountFound(positions[..i], query, exp) < |r| &&
              r[CountFound(positions[..i], query, exp)] == NearestFor(positions[i], query, exp).value
  {
    if |positions| == 0 then []
    else
      var rest := CrossMatchPositions(positions[1..], query, exp);
      CountFoundStep(positions, query, exp);
      CrossMatchStepMembers(positions, rest, query, exp);
      CrossMatchStepOrder(positions, rest, query, exp);
      Found(positions[0], query, exp) + rest
  }

  /** The match of one position as a list: empty when it found none. */
  function Found(p: Position, query: NearestQuery, exp: real -> real): (r: seq<ObjectMatchResult>)
    requires AstroCalc.ExpLike(exp)
    ensures r == [] <==> NearestFor(p, query, exp).None?
    ensures r != [] ==> r == [NearestFor(p, query, exp).value]
  {
    var found := NearestFor(p, query, exp);
    if found.Some? then [found.value] else []
  }

  /** The cross-match's step, for membership: every match of the
      other positions, and the first position's own, belongs to some
      position. */
  lemma CrossMatchStepMembers(positions: seq<Position>, rest: seq<ObjectMatchResult>, query: NearestQuery,
                              exp: real -> real)
    requires AstroCalc.ExpLike(exp) && |positions| > 0
    requires forall m :: m in rest ==> MatchedBySome(positions[1..], m, query, exp)
    ensures forall m :: m in Found(positions[0], query, exp) + rest ==> MatchedBySome(positions, m, query, exp)
  {
    forall m | m in Found(positions[0], query, exp) + rest
      ensures MatchedBySome(positions, m, query, exp)
    {
      if m in rest {
        var i :| 0 <= i < |positions[1..]| && NearestFor(positions[1..][i], query, exp) == Some(m);
        assert positions[i + 1] == positions[1..][i];
      } else {
        assert NearestFor(positions[0], query, exp) == Some(m);
      }
    }
  }

  /** The cross-match's step, for order: with the first position's match
      in front, a position's match moves one place exactly when the first
      position found one, as its count of earlier finds does. */
  lemma CrossMatchStepOrder(positions: seq<Position>, rest: seq<ObjectMatchResult>, query: NearestQuery,
                            exp: real -> real)
    requires AstroCalc.ExpLike(exp) && |positions| > 0
    requires forall i :: 0 <= i < |positions[1..]| && NearestFor(positions[1..][i], query, exp).Some? ==>
               CountFound(positions[1..][..i], query, exp) < |rest| &&
               rest[CountFound(positions[1..][..i], query, exp)] == NearestFor(positions[1..][i], query, exp).value
    ensures var r := Found(positions[0], query, exp) + rest;
      forall i :: 0 <= i < |positions| && NearestFor(positions[i], query, exp).Some? ==>
        CountFound(positions[..i], query, exp) < |r| &&
        r[CountFound(positions[..i], query, exp)] == NearestFor(positions[i], query, exp).value
  {
    var r := Found(positions[0], query, exp) + rest;
    forall i | 0 <= i < |positions| && NearestFor(positions[i], query, exp).Some?
      ensures CountFound(positions[..i], query, exp) < |r|
      ensures r[CountFound(positions[..i], query, exp)] == NearestFor(positions[i], query, exp).value
    {
      if i == 0 {
        assert positions[..0] == [];
      } else {
        CountFoundStep(positions[..i], query, exp);
        assert positions[..i][1..] == positions[1..][..i - 1];
        assert positions[i] == positions[1..][i - 1];
      }
    }
  }

  /** How many positions have a neighbour, counted independently of the
      cross-match. */
  function CountFound(positions: seq<Position>, query: NearestQuery, exp: real -> real): (n: nat)
    requires AstroCalc.ExpLike(exp)
    ensures n <= |positions|
  {
    if |positions| == 0 then 0
    else
      var p := positions[0];
      var radius := RadiusMeters(p.radiusArcsec.GetOr(DefaultMatchRadiusArcsec));
      (if |query(p.ra, p.dec, radius, None, 1)| > 0 then 1 else 0) + CountFound(positions[1..], query, exp)
  }

  /** One step of the count: the first position counts exactly when its
      lookup finds a match. */
  lemma CountFoundStep(s: seq<Position>, query: NearestQuery, exp: real -> real)
    requires AstroCalc.ExpLike(exp) && |s| > 0
    ensures CountFound(s, query, exp) ==
              (if NearestFor(s[0], query, exp).Some? then 1 else 0) + CountFound(s[1..], query, exp)
  {
  }

  // ---------------------------------------------------------------------
  // Saving and importing

  /** `saveObject` up to the repository call: the object as it is handed
      to the repository. The geometry is recomputed only when both
      coordinates are present, and then becomes null for invalid ones;
      the distance comes from a positive parallax; a new object (no id)
      gets its creation time; every save sets the update time. */
  function SaveObject(obj: CatalogObject, now: int): (r: CatalogObject)
    ensures r.position == (if obj.ra.Some? && obj.dec.Some? then AstroCalc.CreatePoint(obj.ra, obj.dec) else obj.position)
    ensures (obj.parallaxMas.Some? && obj.parallaxMas.value > 0.0) ==>
      r.distancePc.Some? && r.distancePc.value * obj.parallaxMas.value == 1000.0
    ensures !(obj.parallaxMas.Some? && obj.parallaxMas.value > 0.0) ==> r.distancePc == obj.distancePc
    ensures r.createdAt == (if obj.id.None? then Some(now) else obj.createdAt)
    ensures r.updatedAt == Some(now)
    ensures r.id == obj.id && r.objectId == obj.objectId && r.ra == obj.ra && r.dec == obj.dec
    ensures r.objectType == obj.objectType && r.magnitude == obj.magnitude && r.parallaxMas == obj.parallaxMas
  {
    var positioned := if obj.ra.Some? && obj.dec.Some? then obj.(position := AstroCalc.CreatePoint(obj.ra, obj.dec)) else obj;
    var withDistance := if obj.parallaxMas.Some? && obj.parallaxMas.value > 0.0
                        then positioned.(distancePc := Some(1000.0 / obj.parallaxMas.value)) else positioned;
    var stamped := if obj.id.None? then withDistance.(createdAt := Some(now)) else withDistance;
    stamped.(updatedAt := Some(now))
  }

  /** Saving twice at the same instant is saving once, for an object that
      already has an id. */
  lemma SaveObjectIdempotent(obj: CatalogObject, now: int)
    requires obj.id.Some?
    ensures SaveObject(SaveObject(obj, now), now) == SaveObject(obj, now)
  {
  }

  /** The number of objects whose save succeeds. */
  function CountSaved(objects: seq<CatalogObject>, saves: CatalogObject -> bool): (n: nat)
    ensures n <= |objects|
  {
    if |objects| == 0 then 0
    else (if saves(objects[0]) then 1 else 0) + CountSaved(objects[1..], saves)
  }

  lemma {:induction false} CountSavedAppend(a: seq<CatalogObject>, b: seq<CatalogObject>, saves: CatalogObject -> bool)
    ensures CountSaved(a + b, saves) == CountSaved(a, saves) + CountSaved(b, saves)
  {
    if |a| == 0 {
      assert a + b == b;
    } else {
      assert (a + b)[1..] == a[1..] + b;
      CountSavedAppend(a[1..], b, saves);
    }
  }

  const ImportBatchSize: nat := 100

  /** `bulkImportObjects`: the objects in batches of 100, each saved on
      its own; a save that throws is logged and skipped. Whether a save
      succeeds is the parameter `saves`. Returns how many saves
      succeeded. */
  method BulkImportObjects(objects: seq<CatalogObject>, saves: CatalogObject -> bool) returns (imported: nat)
    ensures imported == CountSaved(objects, saves)
    ensures imported <= |objects|
  {
    imported := 0;
    var i := 0;
    while i < |objects|
      invariant 0 <= i <= |objects|
      invariant imported == CountSaved(objects[..i], saves)
      decreases |objects| - i
    {
      var endIndex := if i + ImportBatchSize < |objects| then i + ImportBatchSize else |objects|;
      var batch := objects[i..endIndex];
      var j := 0;
      var before := imported;
      while j < |batch|
        invariant 0 <= j <= |batch|
        invariant imported == before + CountSaved(batch[..j], saves)
      {
        CountSavedAppend(batch[..j], [batch[j]], saves);
        assert batch[..j + 1] == batch[..j] + [batch[j]];
        if saves(batch[j]) {
          imported := imported + 1;
        }
        j := j + 1;
      }
      assert batch[..j] == batch;
      CountSavedAppend(objects[..i], batch, saves);
      assert objects[..i] + batch == objects[..endIndex];
      i := endIndex;
    }
    assert objects[..i] == objects;
  }
}
