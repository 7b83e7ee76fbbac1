/** Decoding the three YOLOv3 outputs: boxes (1, D, 4), confidences (1, C, D) and selected index
    triples (S, 3) whose rows are (batch, class, box). */
module YoloDecode {
  import opened Wrappers
  import opened Numeric
  import opened Tensors
  import opened ObjectClasses
  import opened ObjectDetectorPrediction

  datatype Outputs = Outputs(boxes: Tensor<real>, confidences: Tensor<real>, indices: Tensor<int>)

  /** One row of the index tensor. */
  datatype Selection = Selection(batch: int, cls: int, box: int)

  /** `indices[i, 0]`, `indices[i, 1]`, `indices[i, 2]`. */
  function SelectionAt(o: Outputs, i: nat): Option<Selection> {
    var b := At2(o.indices, i, 0);
    var c := At2(o.indices, i, 1);
    var x := At2(o.indices, i, 2);
    if b.Some? && c.Some? && x.Some? then Some(Selection(b.value, c.value, x.value)) else None
  }

  /** `boxes[0, box, 0..3]`, truncated: the batch coordinate is always 0. */
  function BoxOf(o: Outputs, box: int): Option<Rect> {
    var x := At3(o.boxes, 0, box, 0);
    var y := At3(o.boxes, 0, box, 1);
    var w := At3(o.boxes, 0, box, 2);
    var h := At3(o.boxes, 0, box, 3);
    if x.Some? && y.Some? && w.Some? && h.Some?
    then Some(Rect(Trunc(x.value), Trunc(y.value), Trunc(w.value), Trunc(h.value)))
    else None
  }

  /** One loop body: read the triple, look up the label, read the confidence and the box. No threshold. */
  function Row(o: Outputs, labels: map<int, string>, i: nat): Result<Option<Detection>> {
    match SelectionAt(o, i)
    case None => Failure(IndexOutOfRange)
    case Some(s) =>
      if s.cls !in labels then Failure(KeyNotFound)
      else
        match At3(o.confidences, s.batch, s.cls, s.box)
        case None => Failure(IndexOutOfRange)
        case Some(confidence) =>
          match BoxOf(o, s.box)
          case None => Failure(IndexOutOfRange)
          case Some(rect) => Success(Some(Detection(ObjectClass(labels[s.cls], confidence), rect)))
  }

  function Rows(o: Outputs, labels: map<int, string>): Candidates {
    (i: nat) => Row(o, labels, i)
  }

  /** Every read of row `i` is in range and its class index has a label. */
  predicate RowReadable(o: Outputs, labels: map<int, string>, i: nat) {
    SelectionAt(o, i).Some? &&
    var s := SelectionAt(o, i).value;
    s.cls in labels && At3(o.confidences, s.batch, s.cls, s.box).Some? && BoxOf(o, s.box).Some?
  }

  /** The key row `i` yields: the label of its class column and the confidence at (batch, class, box). */
  function RowKey(o: Outputs, labels: map<int, string>, i: nat): ObjectClass
    requires RowReadable(o, labels, i)
  {
    var s := SelectionAt(o, i).value;
    ObjectClass(labels[s.cls], At3(o.confidences, s.batch, s.cls, s.box).value)
  }

  /** A readable row is always offered, keyed by its class label and indexed confidence, with the truncated
      box of batch 0; an unreadable row raises. Nothing is filtered out. */
  lemma RowDecoding(o: Outputs, labels: map<int, string>, i: nat)
    ensures Rows(o, labels)(i).Success? <==> RowReadable(o, labels, i)
    ensures Rows(o, labels)(i).Success? ==> Offers(Rows(o, labels), i)
    ensures RowReadable(o, labels, i) ==>
              var s := SelectionAt(o, i).value;
              Offered(Rows(o, labels), i) == Detection(RowKey(o, labels, i), BoxOf(o, s.box).value) &&
              RowKey(o, labels, i).className == labels[At2(o.indices, i, 1).value] &&
              RowKey(o, labels, i).confidence ==
                At3(o.confidences, At2(o.indices, i, 0).value, At2(o.indices, i, 1).value, At2(o.indices, i, 2).value).value
  {
  }

  /** The box of a row depends on its box column and the boxes tensor only, never on its batch column. */
  lemma BoxIgnoresBatch(o: Outputs, o': Outputs, labels: map<int, string>, i: nat)
    requires o'.boxes == o.boxes
    requires At2(o'.indices, i, 2) == At2(o.indices, i, 2)
    requires RowReadable(o, labels, i) && RowReadable(o', labels, i)
    ensures Offered(Rows(o', labels), i).rect == Offered(Rows(o, labels), i).rect
  {
  }

  /** The loop over rows 0 .. rows-1. */
  function DecodeRows(o: Outputs, labels: map<int, string>, rows: nat): (r: Result<Prediction>)
    ensures r.Success? <==> forall i: nat | i < rows :: RowReadable(o, labels, i)
    ensures r.Success? ==> |r.value.objects| <= rows
  {
    forall i: nat | i < rows {
      RowDecoding(o, labels, i);
    }
    Populate(Rows(o, labels), rows)
  }

  /** On success every row's key is stored, nothing else is, and each stored box is the box of a row
      carrying that key (which one is left open: the loop is parallel). */
  lemma DecodeRowsKeys(o: Outputs, labels: map<int, string>, rows: nat)
    requires DecodeRows(o, labels, rows).Success?
    ensures forall i: nat | i < rows :: RowReadable(o, labels, i) && RowKey(o, labels, i) in DecodeRows(o, labels, rows).value.objects
    ensures forall key | key in DecodeRows(o, labels, rows).value.objects ::
              exists i: nat :: i < rows && RowReadable(o, labels, i) && RowKey(o, labels, i) == key &&
                BoxOf(o, SelectionAt(o, i).value.box) == Some(DecodeRows(o, labels, rows).value.objects[key])
  {
    var step := Rows(o, labels);
    var objects := DecodeRows(o, labels, rows).value.objects;
    PopulateKeys(step, rows);
    PopulateBoxesOffered(step, rows);
    forall i: nat | i < rows
      ensures RowReadable(o, labels, i) && RowKey(o, labels, i) in objects
    {
      RowDecoding(o, labels, i);
      assert Offered(step, i).key in OfferedKeys(step, rows);
    }
    forall key | key in objects
      ensures exists i: nat :: i < rows && RowReadable(o, labels, i) && RowKey(o, labels, i) == key &&
                BoxOf(o, SelectionAt(o, i).value.box) == Some(objects[key])
    {
      var i: nat :| i < rows && Offers(step, i) && Offered(step, i) == Detection(key, objects[key]);
      RowDecoding(o, labels, i);
    }
  }

  /** `Inference` as written: the loop bound is `indices.Dimensions[1]`, the width of a row (3). */
  function Inference(o: Outputs, labels: map<int, string>, minScore: real): (r: Result<Prediction>)
    ensures |o.indices.dims| < 2 ==> r == Failure(IndexOutOfRange)
    ensures |o.indices.dims| >= 2 ==>
              (r.Success? <==> forall i: nat | i < o.indices.dims[1] :: RowReadable(o, labels, i))
    ensures r.Success? ==> |r.value.objects| <= o.indices.dims[1]
  {
    if |o.indices.dims| < 2 then Failure(IndexOutOfRange)
    else DecodeRows(o, labels, o.indices.dims[1])
  }

  /** The threshold argument is never read. */
  lemma InferenceIgnoresMinScore(o: Outputs, labels: map<int, string>, t: real, t': real)
    ensures Inference(o, labels, t) == Inference(o, labels, t')
  {
  }

  /** `Inference` with the evidently intended bound `indices.Dimensions[0]`, the number of selected rows. */
  function InferenceCorrected(o: Outputs, labels: map<int, string>): (r: Result<Prediction>)
    ensures |o.indices.dims| < 1 ==> r == Failure(IndexOutOfRange)
    ensures |o.indices.dims| >= 1 ==>
              (r.Success? <==> forall i: nat | i < o.indices.dims[0] :: RowReadable(o, labels, i))
    ensures r.Success? ==> |r.value.objects| <= o.indices.dims[0]
  {
    if |o.indices.dims| < 1 then Failure(IndexOutOfRange)
    else DecodeRows(o, labels, o.indices.dims[0])
  }

  /** The corrected decoder stores the key of every selected row, and only those. */
  lemma CorrectedDecodesEverySelection(o: Outputs, labels: map<int, string>)
    requires InferenceCorrected(o, labels).Success?
    ensures forall i: nat | i < o.indices.dims[0] ::
              RowReadable(o, labels, i) && RowKey(o, labels, i) in InferenceCorrected(o, labels).value.objects
    ensures forall key | key in InferenceCorrected(o, labels).value.objects ::
              exists i: nat :: i < o.indices.dims[0] && RowReadable(o, labels, i) && RowKey(o, labels, i) == key
  {
    DecodeRowsKeys(o, labels, o.indices.dims[0]);
  }

  /** With fewer than three selections in an (S, 3) index tensor, the as-written loop reads row S, which
      does not exist, and raises; the corrected loop succeeds when the S real rows are readable. */
  lemma AsWrittenFailsBelowThreeRows(o: Outputs, labels: map<int, string>, minScore: real)
    requires |o.indices.dims| == 2 && o.indices.dims[1] == 3 && o.indices.dims[0] < 3
    ensures Inference(o, labels, minScore).Failure?
  {
    var s := o.indices.dims[0];
    assert !RowReadable(o, labels, s);
  }

  /** A concrete instance: no selected boxes at all. As written the call raises; corrected it yields
      an empty prediction. */
  lemma NoSelectionExample(boxes: Tensor<real>, confidences: Tensor<real>, labels: map<int, string>, minScore: real)
    ensures var o := Outputs(boxes, confidences, Tensor([0, 3], []));
            Inference(o, labels, minScore) == Failure(IndexOutOfRange) &&
            InferenceCorrected(o, labels) == Success(Empty)
  {
    var o := Outputs(boxes, confidences, Tensor([0, 3], []));
    assert !RowReadable(o, labels, 0);
  }

  /** With more than three selections carrying distinct keys, the as-written loop stores three of them
      and the corrected loop stores them all. */
  lemma AsWrittenDropsRowsPastThree(o: Outputs, labels: map<int, string>, minScore: real)
    requires |o.indices.dims| == 2 && o.indices.dims[1] == 3 && o.indices.dims[0] > 3
    requires forall i: nat | i < o.indices.dims[0] :: RowReadable(o, labels, i)
    requires forall i: nat, j: nat | i < j < o.indices.dims[0] :: RowKey(o, labels, i) != RowKey(o, labels, j)
    ensures Inference(o, labels, minScore).Success? && NumDetectedClasses(Inference(o, labels, minScore).value) == 3
    ensures InferenceCorrected(o, labels).Success? &&
            NumDetectedClasses(InferenceCorrected(o, labels).value) == o.indices.dims[0]
  {
    var step := Rows(o, labels);
    forall i: nat | i < o.indices.dims[0] {
      RowDecoding(o, labels, i);
    }
    DistinctOffersAllStored(step, 3);
    DistinctOffersAllStored(step, o.indices.dims[0]);
  }
}
