/** The older `FasterRCNN` class: the same letterbox and threshold decode, with a 32-bit label tensor and a
    parallel decode loop. Its `Preprocess` and `Inference` are private and no public member calls them. */
module FasterRcnnLegacy {
  import opened Wrappers
  import opened Imaging
  import opened Geometry
  import opened Session
  import opened ObjectClasses
  import opened ObjectDetectorPrediction
  import opened FasterRcnnDecode

  /** The class's state: its `MODEL_INPUTS`, which nothing ever binds. */
  datatype Legacy = Legacy(inputs: Inputs)

  /** The path constructor (the parameterless one passes the constant "FasterRCNN.onnx"). */
  function FromModelFile(path: Option<string>): (r: Result<Legacy>)
    ensures r.Failure? <==> path.None? || |path.value| == 0
    ensures r.Failure? ==> r.error == ArgumentNull
    ensures r.Success? ==> r.value.inputs == [None]
  {
    var inputs :- CheckModelPath(path);
    Success(Legacy(inputs))
  }

  const DefaultModelFile := "FasterRCNN.onnx"

  /** The parameterless constructor never fails the path check. */
  lemma DefaultConstructor()
    ensures FromModelFile(Some(DefaultModelFile)).Success?
  {
  }

  /** `Preprocess`: letterboxes the frame to 800 x 800 in place; the tensor it fills is discarded. */
  function Preprocess(frame: Image, resample: Resampler): (r: Result<Image>)
    ensures r.Success? <==> frame.width > 0 && frame.height > 0 &&
                            ResizedSize(800, frame.width, frame.height).0 > 0 &&
                            ResizedSize(800, frame.width, frame.height).1 > 0
    ensures r.Success? ==> r.value.width == 800 && r.value.height == 800
  {
    Letterbox(FasterRcnnDimension, frame, resample)
  }

  /** `Inference`: runs the session on the never-bound input list and decodes with the threshold. The
      loop is a `Parallel.For`, so only order-free facts are stated: kept keys, threshold, and that each
      stored box belongs to some kept index with that key. */
  function Inference(l: Legacy, run: Inputs -> Outputs, labels: map<int, string>, minScore: real)
    : (r: Result<Prediction>)
    ensures r.Success? <==>
              var o := run(l.inputs);
              forall i: nat | i < NumCandidates(o) ::
                i < |o.confidences| && (o.confidences[i] >= minScore ==> i < |o.labels| && o.labels[i] in labels)
    ensures r.Success? ==> forall key | key in r.value.objects :: key.confidence >= minScore
    ensures r.Success? ==> forall key | key in r.value.objects ::
              var o := run(l.inputs);
              exists i: nat :: i < NumCandidates(o) && Kept(o, labels, minScore, i) &&
                KeyAt(o, labels, i) == key && BoxAt(o, i) == r.value.objects[key]
    ensures r.Success? ==> forall i: nat | i < NumCandidates(run(l.inputs)) && Kept(run(l.inputs), labels, minScore, i) ::
              KeyAt(run(l.inputs), labels, i) in r.value.objects
  {
    var o := run(l.inputs);
    var result := Decode(o, labels, minScore);
    if result.Success? then
      DecodeKeys(o, labels, minScore);
      DecodeBoxesFromKeptIndex(o, labels, minScore);
      result
    else
      result
  }
}
