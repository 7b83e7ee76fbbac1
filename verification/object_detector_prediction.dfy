/** `ObjectDetectorPrediction`: the detections of one call, a map from key to box with insert-if-absent,
    a count, and a range-checked top-n query. The owned frame and its rendering are not modelled. */
module ObjectDetectorPrediction {
  import opened Wrappers
  import opened ObjectClasses
  import opened Ranking

  datatype Prediction = Prediction(objects: map<ObjectClass, Rect>)

  const Empty := Prediction(map[])

  /** `TryAdd`: the first box stored under a key stays; a colliding insertion changes nothing. */
  function AddDetectedObject(p: Prediction, oc: ObjectClass, rec: Rect): (q: Prediction)
    ensures q.objects.Keys == p.objects.Keys + {oc}
    ensures oc in p.objects ==> q == p
    ensures oc !in p.objects ==> q.objects[oc] == rec && |q.objects| == |p.objects| + 1
    ensures forall k | k in p.objects :: q.objects[k] == p.objects[k]
  {
    if oc in p.objects then p else Prediction(p.objects[oc := rec])
  }

  function NumDetectedClasses(p: Prediction): nat {
    |p.objects|
  }

  /** Two detections with the same name and confidence collide whatever their boxes: the second
      leaves the prediction as the first made it. */
  lemma CollidingDetections(p: Prediction, name: string, confidence: real, first: Rect, second: Rect)
    ensures var once := AddDetectedObject(p, ObjectClass(name, confidence), first);
            AddDetectedObject(once, ObjectClass(name, confidence), second) == once
  {
  }

  // ---- Populating a prediction: a loop over candidate indices 0 .. k-1, each of which is either
  // ---- an exception, nothing, or a detection offered to AddDetectedObject.

  type Candidates = nat -> Result<Option<Detection>>

  /** Index `i` offers a detection for insertion. */
  predicate Offers(step: Candidates, i: nat) {
    step(i).Success? && step(i).value.Some?
  }

  function Offered(step: Candidates, i: nat): Detection
    requires Offers(step, i)
  {
    step(i).value.value
  }

  /** Index `i` offers the first detection with its key among the indices before it. */
  predicate FirstOffer(step: Candidates, i: nat) {
    Offers(step, i) &&
    forall j: nat | j < i && Offers(step, j) :: Offered(step, j).key != Offered(step, i).key
  }

  /** The keys offered by indices below `k`. */
  function OfferedKeys(step: Candidates, k: nat): set<ObjectClass> {
    set i: nat | i < k && Offers(step, i) :: Offered(step, i).key
  }

  /** One loop iteration: an exception aborts, nothing leaves the prediction, a detection is added. */
  function Accept(p: Prediction, c: Result<Option<Detection>>): Result<Prediction> {
    if c.Failure? then Failure(c.error)
    else if c.value.None? then Success(p)
    else Success(AddDetectedObject(p, c.value.value.key, c.value.value.rect))
  }

  /** The sequential loop: candidates are inserted in index order; the first exception aborts it. */
  function Populate(step: Candidates, k: nat): (r: Result<Prediction>)
    ensures r.Success? <==> forall i: nat | i < k :: step(i).Success?
    ensures r.Success? ==> |r.value.objects| <= k
  {
    if k == 0 then Success(Empty)
    else
      var prev := Populate(step, k - 1);
      if prev.Failure? then prev
      else
        assert (forall i: nat | i < k :: step(i).Success?) <==>
               (forall i: nat | i < k - 1 :: step(i).Success?) && step(k - 1).Success?;
        Accept(prev.value, step(k - 1))
  }

  /** Unfolds one iteration of a successful loop. */
  lemma PopulateStep(step: Candidates, k: nat)
    requires k > 0 && Populate(step, k).Success?
    ensures Populate(step, k - 1).Success?
    ensures Populate(step, k) == Accept(Populate(step, k - 1).value, step(k - 1))
  {
  }

  lemma OfferedKeysStep(step: Candidates, k: nat)
    requires k > 0
    ensures Offers(step, k - 1) ==> OfferedKeys(step, k) == OfferedKeys(step, k - 1) + {Offered(step, k - 1).key}
    ensures !Offers(step, k - 1) ==> OfferedKeys(step, k) == OfferedKeys(step, k - 1)
  {
    forall x | x in OfferedKeys(step, k)
      ensures x in OfferedKeys(step, k - 1) || (Offers(step, k - 1) && x == Offered(step, k - 1).key)
    {
      var i: nat :| i < k && Offers(step, i) && Offered(step, i).key == x;
      if i < k - 1 {
        assert x in OfferedKeys(step, k - 1);
      }
    }
  }

  /** The stored keys are exactly the offered keys, so the count is the number of distinct offered keys. */
  lemma {:induction false} PopulateKeys(step: Candidates, k: nat)
    requires Populate(step, k).Success?
    ensures Populate(step, k).value.objects.Keys == OfferedKeys(step, k)
    ensures NumDetectedClasses(Populate(step, k).value) == |OfferedKeys(step, k)|
  {
    if k > 0 {
      PopulateStep(step, k);
      PopulateKeys(step, k - 1);
      OfferedKeysStep(step, k);
    } else {
      assert OfferedKeys(step, 0) == {};
    }
  }

  /** An accepted iteration keeps every existing entry and, for a new key, stores the offered box. */
  lemma AcceptKeeps(p: Prediction, c: Result<Option<Detection>>)
    requires Accept(p, c).Success?
    ensures forall key | key in p.objects :: key in Accept(p, c).value.objects && Accept(p, c).value.objects[key] == p.objects[key]
    ensures c.value.None? ==> Accept(p, c).value == p
    ensures c.value.Some? ==> c.value.value.key in Accept(p, c).value.objects
    ensures c.value.Some? && c.value.value.key !in p.objects ==> Accept(p, c).value.objects[c.value.value.key] == c.value.value.rect
    ensures forall key | key in Accept(p, c).value.objects && key !in p.objects :: c.value.Some? && key == c.value.value.key
  {
  }

  /** First writer wins: each key holds the box of the lowest index that offered it. */
  lemma {:induction false} PopulateFirstWriter(step: Candidates, k: nat)
    requires Populate(step, k).Success?
    ensures forall i: nat | i < k && FirstOffer(step, i) ::
              Offered(step, i).key in Populate(step, k).value.objects &&
              Populate(step, k).value.objects[Offered(step, i).key] == Offered(step, i).rect
  {
    if k > 0 {
      PopulateStep(step, k);
      PopulateFirstWriter(step, k - 1);
      PopulateKeys(step, k - 1);
      var p := Populate(step, k - 1).value;
      var q := Populate(step, k).value;
      AcceptKeeps(p, step(k - 1));
      forall i: nat | i < k && FirstOffer(step, i)
        ensures Offered(step, i).key in q.objects && q.objects[Offered(step, i).key] == Offered(step, i).rect
      {
        if i == k - 1 {
          assert Offered(step, i).key !in OfferedKeys(step, k - 1);
        }
      }
    }
  }

  /** Whatever the insertion order, each stored box is the box of some index offering that key. */
  lemma {:induction false} PopulateBoxesOffered(step: Candidates, k: nat)
    requires Populate(step, k).Success?
    ensures forall key | key in Populate(step, k).value.objects ::
              exists i: nat :: i < k && Offers(step, i) && Offered(step, i) == Detection(key, Populate(step, k).value.objects[key])
  {
    if k > 0 {
      PopulateStep(step, k);
      PopulateBoxesOffered(step, k - 1);
      var p := Populate(step, k - 1).value;
      var q := Populate(step, k).value;
      AcceptKeeps(p, step(k - 1));
      forall key | key in q.objects
        ensures exists i: nat :: i < k && Offers(step, i) && Offered(step, i) == Detection(key, q.objects[key])
      {
        if key in p.objects {
          var i: nat :| i < k - 1 && Offers(step, i) && Offered(step, i) == Detection(key, p.objects[key]);
          assert Offered(step, i) == Detection(key, q.objects[key]);
        } else {
          assert Offered(step, k - 1) == Detection(key, q.objects[key]);
        }
      }
    }
  }

  lemma {:induction false} DistinctOfferedKeysCount(step: Candidates, k: nat)
    requires forall i: nat | i < k :: Offers(step, i)
    requires forall i: nat, j: nat | i < j < k :: Offered(step, i).key != Offered(step, j).key
    ensures |OfferedKeys(step, k)| == k
  {
    if k == 0 {
      assert OfferedKeys(step, 0) == {};
    } else {
      DistinctOfferedKeysCount(step, k - 1);
      OfferedKeysStep(step, k);
      assert Offered(step, k - 1).key !in OfferedKeys(step, k - 1);
    }
  }

  /** N candidates with pairwise distinct keys, all offered, leave exactly N entries: no insertion is lost. */
  lemma DistinctOffersAllStored(step: Candidates, k: nat)
    requires Populate(step, k).Success?
    requires forall i: nat | i < k :: Offers(step, i)
    requires forall i: nat, j: nat | i < j < k :: Offered(step, i).key != Offered(step, j).key
    ensures NumDetectedClasses(Populate(step, k).value) == k
  {
    PopulateKeys(step, k);
    DistinctOfferedKeysCount(step, k);
  }

  // ---- Top-n

  /** `order` is the dictionary's enumeration of its keys: each stored key exactly once. */
  predicate Enumerates(p: Prediction, order: seq<ObjectClass>) {
    NoDuplicates(order) &&
    (forall k | k in order :: k in p.objects) &&
    (forall k | k in p.objects :: k in order)
  }

  lemma EnumerationLength(p: Prediction, order: seq<ObjectClass>)
    requires Enumerates(p, order)
    ensures |order| == NumDetectedClasses(p)
  {
    DistinctCardinality(order);
    assert (set x | x in order) == p.objects.Keys;
  }

  /** The ranking both predictions read from: the keys, highest confidence first. */
  lemma Ranked(p: Prediction, order: seq<ObjectClass>)
    requires Enumerates(p, order)
    ensures |OrderByDescending(order)| == NumDetectedClasses(p)
    ensures SortedDesc(OrderByDescending(order)) && NoDuplicates(OrderByDescending(order))
    ensures forall x :: x in OrderByDescending(order) <==> x in p.objects
  {
    EnumerationLength(p, order);
    SortKeepsDistinct(order);
    var s := OrderByDescending(order);
    assert |s| == |multiset(s)| == |multiset(order)| == |order|;
    forall x ensures x in s <==> x in p.objects {
      assert x in s <==> x in multiset(s);
      assert x in order <==> x in multiset(order);
    }
  }

  /** `TopObjectClasses(n)`: out-of-range for n < 0 or n > count; otherwise the n highest-ranked keys. */
  function TopObjectClasses(p: Prediction, order: seq<ObjectClass>, n: int): (r: Result<seq<ObjectClass>>)
    requires Enumerates(p, order)
    ensures r.Failure? <==> n < 0 || n > NumDetectedClasses(p)
    ensures r.Failure? ==> r.error == ArgumentOutOfRange
    ensures r.Success? ==> |r.value| == n && NoDuplicates(r.value) && SortedDesc(r.value)
    ensures r.Success? ==> forall x | x in r.value :: x in p.objects
    ensures r.Success? ==> forall x, y | x in p.objects && x !in r.value && y in r.value :: x.confidence <= y.confidence
  {
    if n < 0 then Failure(ArgumentOutOfRange)
    else if n > NumDetectedClasses(p) then Failure(ArgumentOutOfRange)
    else
      Ranked(p, order);
      var ranked := OrderByDescending(order);
      TakeOfSorted(ranked, n);
      Success(ranked[..n])
  }
}
