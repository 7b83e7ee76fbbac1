/** Decoding the three Faster R-CNN outputs (flattened boxes, label indices, confidences) into a prediction. */
module FasterRcnnDecode {
  import opened Wrappers
  import opened Numeric
  import opened ObjectClasses
  import opened ObjectDetectorPrediction

  /** The three output tensors, read through single flat indices. */
  datatype Outputs = Outputs(boxes: seq<real>, labels: seq<int>, confidences: seq<real>)

  /** The loop bound `boxes.Length / 4`. */
  function NumCandidates(o: Outputs): nat {
    |o.boxes| / 4
  }

  /** `new Rect((int)boxes[j], (int)boxes[j+1], (int)boxes[j+2], (int)boxes[j+3])` for j = 4i. */
  function BoxAt(o: Outputs, i: nat): (r: Rect)
    requires i < NumCandidates(o)
    ensures 4 * i + 3 < |o.boxes|
    ensures TruncatesTo(o.boxes[4 * i], r.x) && TruncatesTo(o.boxes[4 * i + 1], r.y)
    ensures TruncatesTo(o.boxes[4 * i + 2], r.width) && TruncatesTo(o.boxes[4 * i + 3], r.height)
  {
    var j := 4 * i;
    Rect(Trunc(o.boxes[j]), Trunc(o.boxes[j + 1]), Trunc(o.boxes[j + 2]), Trunc(o.boxes[j + 3]))
  }

  /** One iteration: read the confidence, and when it reaches `minScore` look up the label and read the box. */
  function Candidate(o: Outputs, labels: map<int, string>, minScore: real, i: nat): Result<Option<Detection>> {
    if i >= |o.confidences| then Failure(IndexOutOfRange)
    else if !(o.confidences[i] >= minScore) then Success(None)
    else if i >= |o.labels| then Failure(IndexOutOfRange)
    else if o.labels[i] !in labels then Failure(KeyNotFound)
    else if i >= NumCandidates(o) then Failure(IndexOutOfRange)
    else Success(Some(Detection(ObjectClass(labels[o.labels[i]], o.confidences[i]), BoxAt(o, i))))
  }

  function Candidates(o: Outputs, labels: map<int, string>, minScore: real): Candidates {
    (i: nat) => Candidate(o, labels, minScore, i)
  }

  /** Index `i` passes the threshold and its label is known: it is offered for insertion. */
  predicate Kept(o: Outputs, labels: map<int, string>, minScore: real, i: nat) {
    i < |o.confidences| && o.confidences[i] >= minScore && i < |o.labels| && o.labels[i] in labels
  }

  function KeyAt(o: Outputs, labels: map<int, string>, i: nat): ObjectClass
    requires i < |o.confidences| && i < |o.labels| && o.labels[i] in labels
  {
    ObjectClass(labels[o.labels[i]], o.confidences[i])
  }

  /** The loop over `i < boxes.Length / 4`, inserting in index order. */
  function Decode(o: Outputs, labels: map<int, string>, minScore: real): (r: Result<Prediction>)
    ensures r.Success? <==>
              forall i: nat | i < NumCandidates(o) ::
                i < |o.confidences| && (o.confidences[i] >= minScore ==> i < |o.labels| && o.labels[i] in labels)
    ensures r.Success? ==> |r.value.objects| <= NumCandidates(o)
  {
    var step := Candidates(o, labels, minScore);
    assert forall i: nat | i < NumCandidates(o) ::
             step(i).Success? <==>
               i < |o.confidences| && (o.confidences[i] >= minScore ==> i < |o.labels| && o.labels[i] in labels);
    Populate(step, NumCandidates(o))
  }

  lemma CandidateOffers(o: Outputs, labels: map<int, string>, minScore: real, i: nat)
    requires i < NumCandidates(o)
    ensures Offers(Candidates(o, labels, minScore), i) <==> Kept(o, labels, minScore, i)
    ensures Kept(o, labels, minScore, i) ==>
              Offered(Candidates(o, labels, minScore), i) == Detection(KeyAt(o, labels, i), BoxAt(o, i))
  {
  }

  /** Every stored key passed the threshold, and the stored keys are exactly the keys of the kept indices. */
  lemma DecodeKeys(o: Outputs, labels: map<int, string>, minScore: real)
    requires Decode(o, labels, minScore).Success?
    ensures forall key | key in Decode(o, labels, minScore).value.objects :: key.confidence >= minScore
    ensures forall key :: key in Decode(o, labels, minScore).value.objects <==>
              exists i: nat :: i < NumCandidates(o) && Kept(o, labels, minScore, i) && KeyAt(o, labels, i) == key
  {
    var step := Candidates(o, labels, minScore);
    var n := NumCandidates(o);
    PopulateKeys(step, n);
    forall i: nat | i < n {
      CandidateOffers(o, labels, minScore, i);
    }
    forall key ensures key in OfferedKeys(step, n) <==>
                         exists i: nat :: i < n && Kept(o, labels, minScore, i) && KeyAt(o, labels, i) == key
    {
      if key in OfferedKeys(step, n) {
        var i: nat :| i < n && Offers(step, i) && Offered(step, i).key == key;
        assert Kept(o, labels, minScore, i) && KeyAt(o, labels, i) == key;
      }
      if exists i: nat :: i < n && Kept(o, labels, minScore, i) && KeyAt(o, labels, i) == key {
        var i: nat :| i < n && Kept(o, labels, minScore, i) && KeyAt(o, labels, i) == key;
        assert Offers(step, i) && Offered(step, i).key == key;
      }
    }
  }

  /** The sequential loop keeps, for each key, the box of the lowest kept index carrying it. */
  lemma DecodeFirstWriter(o: Outputs, labels: map<int, string>, minScore: real, i: nat)
    requires Decode(o, labels, minScore).Success?
    requires i < NumCandidates(o) && Kept(o, labels, minScore, i)
    requires forall j: nat | j < i && Kept(o, labels, minScore, j) :: KeyAt(o, labels, j) != KeyAt(o, labels, i)
    ensures KeyAt(o, labels, i) in Decode(o, labels, minScore).value.objects
    ensures Decode(o, labels, minScore).value.objects[KeyAt(o, labels, i)] == BoxAt(o, i)
  {
    var step := Candidates(o, labels, minScore);
    PopulateFirstWriter(step, NumCandidates(o));
    forall j: nat | j <= i {
      CandidateOffers(o, labels, minScore, j);
    }
    assert FirstOffer(step, i);
  }

  /** Whatever the insertion order, each stored box was read from the box slots of an index with that key. */
  lemma DecodeBoxesFromKeptIndex(o: Outputs, labels: map<int, string>, minScore: real)
    requires Decode(o, labels, minScore).Success?
    ensures forall key | key in Decode(o, labels, minScore).value.objects ::
              exists i: nat :: i < NumCandidates(o) && Kept(o, labels, minScore, i) &&
                KeyAt(o, labels, i) == key && BoxAt(o, i) == Decode(o, labels, minScore).value.objects[key]
  {
    var step := Candidates(o, labels, minScore);
    var n := NumCandidates(o);
    var objects := Decode(o, labels, minScore).value.objects;
    PopulateBoxesOffered(step, n);
    forall key | key in objects
      ensures exists i: nat :: i < n && Kept(o, labels, minScore, i) && KeyAt(o, labels, i) == key && BoxAt(o, i) == objects[key]
    {
      var i: nat :| i < n && Offers(step, i) && Offered(step, i) == Detection(key, objects[key]);
      CandidateOffers(o, labels, minScore, i);
    }
  }
}
