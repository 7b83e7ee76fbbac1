/** `FasterRCNNPrediction`: the same key-to-box map as `ObjectDetectorPrediction`, whose top-n query
    has no range check and follows LINQ `Take` instead. */
module FasterRcnnPrediction {
  import opened ObjectClasses
  import opened Ranking
  import ODP = ObjectDetectorPrediction

  /** `TryAdd` on this class's dictionary: insert-if-absent, first writer wins. */
  function AddDetectedObject(p: ODP.Prediction, oc: ObjectClass, rec: Rect): (q: ODP.Prediction)
    ensures oc in q.objects && q.objects[oc] == (if oc in p.objects then p.objects[oc] else rec)
    ensures oc in p.objects ==> q == p
    ensures forall k | k != oc :: (k in q.objects <==> k in p.objects)
    ensures forall k | k in p.objects :: q.objects[k] == p.objects[k]
    ensures ODP.NumDetectedClasses(q) == ODP.NumDetectedClasses(p) + (if oc in p.objects then 0 else 1)
  {
    ODP.AddDetectedObject(p, oc, rec)
  }

  /** `Take(n)` of the ranking: never fails, and yields min(max(n, 0), count) keys. */
  function TopObjectClasses(p: ODP.Prediction, order: seq<ObjectClass>, n: int): (r: seq<ObjectClass>)
    requires ODP.Enumerates(p, order)
    ensures |r| == if n <= 0 then 0 else if n < ODP.NumDetectedClasses(p) then n else ODP.NumDetectedClasses(p)
    ensures NoDuplicates(r) && SortedDesc(r)
    ensures forall x | x in r :: x in p.objects
    ensures forall x, y | x in p.objects && x !in r && y in r :: x.confidence <= y.confidence
  {
    ODP.Ranked(p, order);
    var ranked := OrderByDescending(order);
    var take := if n <= 0 then 0 else if n < |ranked| then n else |ranked|;
    TakeOfSorted(ranked, take);
    ranked[..take]
  }
}
