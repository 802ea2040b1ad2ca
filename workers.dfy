/** The worker views of core/controllers/WorkerController.py: the listing with
    its category filter, the detail lookup and the nearby search. The distance
    between two points is an input (the haversine formula is not modelled). */
module Workers {
  import opened Wrappers
  import opened Store

  const DEFAULT_NEARBY_RADIUS_KM: real := 50.0

  /** The exception the foreign-key lookup raises on a value `int()` rejects;
      nothing in the views catches it, so the request ends in HTTP 500. */
  const VALUE_ERROR := "ValueError"

  /** `category_id == c` on a worker row; an unset category matches no key. */
  predicate InCategory(w: WorkerRow, c: int) {
    w.category.Some? && w.category.value == c
  }

  /** `WorkerController.get`, given the raw `category` query parameter (absent
      is `None`) and `toInt`, Python's `int()` as the key lookup applies it
      (`None` where it raises). An absent or empty parameter lists every worker;
      a value `int()` rejects fails; any other lists that category's workers,
      in scan order. */
  function ListWorkers(workers: map<Id, WorkerRow>, order: seq<Id>, category: Option<string>,
                       toInt: string -> Option<int>): (r: Result<seq<Id>>)
    ensures r.Fail? <==> category.Some? && category.value != "" && toInt(category.value).None?
    ensures r.Fail? ==> r == Fail(INTERNAL_SERVER_ERROR, VALUE_ERROR)
    ensures r.Ok? ==> IsSubsequence(r.value, order)
    ensures r.Ok? ==> forall id :: id in r.value <==>
      id in order && id in workers
      && (category.Some? && category.value != "" ==> InCategory(workers[id], toInt(category.value).value))
  {
    if category.None? || category.value == "" then Ok(Select(order, workers, (w: WorkerRow) => true))
    else match toInt(category.value)
      case None => Fail(INTERNAL_SERVER_ERROR, VALUE_ERROR)
      case Some(c) => Ok(Select(order, workers, (w: WorkerRow) => InCategory(w, c)))
  }

  /** `WorkerDetailController.get` */
  function WorkerDetail(workers: map<Id, WorkerRow>, pk: Id): (r: Result<WorkerRow>)
    ensures r.Ok? <==> pk in workers
    ensures r.Ok? ==> r.value == workers[pk]
    ensures r.Fail? ==> r == Fail(NOT_FOUND, "Worker not found")
  {
    Lookup(workers, pk, "Worker not found")
  }

  /** `radius_km or DEFAULT_NEARBY_RADIUS_KM`: a missing or zero radius becomes 50 km. */
  function NearbyRadius(radiusKm: Option<real>): (r: real)
    ensures radiusKm.None? || radiusKm == Some(0.0) ==> r == DEFAULT_NEARBY_RADIUS_KM
    ensures radiusKm.Some? && radiusKm.value != 0.0 ==> r == radiusKm.value
  {
    if radiusKm.None? || radiusKm.value == 0.0 then DEFAULT_NEARBY_RADIUS_KM else radiusKm.value
  }

  /** `WorkerNearbyController.get`, with `lat`, `lng` and `radius_km` already
      parsed (absent is `None`) and `distance(lat1, lng1, lat2, lng2)` in km.
      The coordinate columns are NOT NULL (Worker.py:13-14), so the
      `isnull=False` filter keeps every worker. */
  function NearbyWorkers(workers: map<Id, WorkerRow>, order: seq<Id>,
                         lat: Option<real>, lng: Option<real>, radiusKm: Option<real>,
                         distance: (real, real, real, real) -> real): (r: Result<seq<Id>>)
    ensures r.Fail? <==> lat.None? || lng.None?
    ensures r.Fail? ==> r.status == VALIDATION_ERROR
    ensures r.Ok? ==> IsSubsequence(r.value, order)
    ensures r.Ok? ==> forall id :: id in r.value <==>
      id in order && id in workers &&
      distance(lat.value, lng.value, workers[id].latitude, workers[id].longitude) <= NearbyRadius(radiusKm)
  {
    var radius := NearbyRadius(radiusKm);
    if lat.None? || lng.None? then Fail(VALIDATION_ERROR, "lat and lng required")
    else
      Ok(Select(order, workers,
        (w: WorkerRow) => distance(lat.value, lng.value, w.latitude, w.longitude) <= radius))
  }

  /** Filtering by a category never adds a worker: it keeps exactly those of
      the full listing in that category. */
  lemma CategoryNarrowsListing(workers: map<Id, WorkerRow>, order: seq<Id>, category: string, c: int,
                               toInt: string -> Option<int>)
    requires category != "" && toInt(category) == Some(c)
    ensures var all, some := ListWorkers(workers, order, None, toInt), ListWorkers(workers, order, Some(category), toInt);
      && all.Ok? && some.Ok?
      && forall id :: id in some.value <==> id in all.value && InCategory(workers[id], c)
  {
  }

  /** A larger radius finds every worker a smaller one finds. */
  lemma NearbyGrowsWithRadius(workers: map<Id, WorkerRow>, order: seq<Id>, lat: real, lng: real,
                              r1: real, r2: real, distance: (real, real, real, real) -> real)
    requires 0.0 < r1 <= r2
    ensures var small := NearbyWorkers(workers, order, Some(lat), Some(lng), Some(r1), distance);
            var large := NearbyWorkers(workers, order, Some(lat), Some(lng), Some(r2), distance);
            small.Ok? && large.Ok? && forall id :: id in small.value ==> id in large.value
  {
  }
}
