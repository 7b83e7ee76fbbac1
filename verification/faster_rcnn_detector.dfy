/** `FasterRCNNDetector`: null check, 800 x 800 letterbox, raw channel-planar tensor bound as "image",
    and the threshold decode into a `FasterRCNNPrediction`. */
module FasterRcnnDetector {
  import opened Wrappers
  import opened Imaging
  import opened Tensors
  import opened Geometry
  import opened Session
  import opened ObjectClasses
  import opened ObjectDetectorPrediction
  import opened FasterRcnnDecode

  /** The collaborators the class calls but whose code is not modelled. */
  datatype Engine = Engine(
    decode: seq<byte> -> Image,     // Cv2.ImDecode
    resample: Resampler,            // Cv2.Resize
    run: Inputs -> Outputs,         // InferenceSession.Run
    labels: map<int, string>)       // LabelMap.Labels

  /** The detector's mutable state: its `MODEL_INPUTS` list. */
  datatype Detector = Detector(inputs: Inputs)

  /** The list holds one slot, either still null or bound under the name "image". */
  predicate WellBound(inputs: Inputs) {
    |inputs| == 1 && (inputs[0].Some? ==> inputs[0].value.name == "image")
  }

  /** The path constructor. */
  function FromModelFile(path: Option<string>): (r: Result<Detector>)
    ensures r.Failure? <==> path.None? || |path.value| == 0
    ensures r.Failure? ==> r.error == ArgumentNull
    ensures r.Success? ==> r.value.inputs == [None] && WellBound(r.value.inputs)
  {
    var inputs :- CheckModelPath(path);
    Success(Detector(inputs))
  }

  /** `Preprocess`: the frame letterboxed in place to 800 x 800, the image centred with the odd pixel
      of each axis going to the bottom or right. The tensor it also fills is discarded and not modelled. */
  function Preprocess(frame: Image, resample: Resampler): (r: Result<Image>)
    ensures r.Success? <==> frame.width > 0 && frame.height > 0 &&
                            ResizedSize(800, frame.width, frame.height).0 > 0 &&
                            ResizedSize(800, frame.width, frame.height).1 > 0
    ensures r.Success? ==> r.value.width == 800 && r.value.height == 800
    ensures r.Failure? ==> r.error == EmptyImage
  {
    Letterbox(FasterRcnnDimension, frame, resample)
  }

  /** The input tensor: shape 3 x H x W, `[c, y, x]` the raw byte c of pixel (y, x), no mean subtracted. */
  function InputTensor(frame: Image): (t: Tensor<real>)
    ensures t.dims == [3, frame.height, frame.width] && Valid(t)
    ensures forall c: int, y: int, x: int | 0 <= c < 3 && 0 <= y < frame.height && 0 <= x < frame.width ::
              At3(t, c, y, x) == Some(Channel(frame.pixel(y, x), c) as real)
  {
    Planar(frame, 1.0)
  }

  /** The first call creates the "image" value; later calls only replace its tensor. */
  function BindInput(inputs: Inputs, t: Tensor<real>): (r: Inputs)
    requires |inputs| >= 1
    ensures |r| == |inputs| && r[1..] == inputs[1..]
    ensures r[0].Some? && r[0].value.value == t
    ensures inputs[0].None? ==> r[0].value.name == "image"
    ensures inputs[0].Some? ==> r[0].value.name == inputs[0].value.name
  {
    if inputs[0].None? then inputs[0 := Some(NamedValue("image", t))]
    else inputs[0 := Some(inputs[0].value.(value := t))]
  }

  /** The inputs after binding `ts` in turn. */
  function BindAll(inputs: Inputs, ts: seq<Tensor<real>>): (r: Inputs)
    requires |inputs| >= 1
    ensures |r| == |inputs|
  {
    if |ts| == 0 then inputs else BindInput(BindAll(inputs, ts[..|ts| - 1]), ts[|ts| - 1])
  }

  /** After any nonempty run of calls from the initial state the list is exactly one "image" value
      holding the latest tensor. */
  lemma {:induction false} BindingHistory(ts: seq<Tensor<real>>)
    requires |ts| > 0
    ensures BindAll(Unbound, ts) == [Some(NamedValue("image", ts[|ts| - 1]))]
  {
    if |ts| > 1 {
      BindingHistory(ts[..|ts| - 1]);
      assert ts[..|ts| - 1][..|ts| - 2] == ts[..|ts| - 2];
    }
  }

  /** `Inference`: fill the tensor, bind it, run the session and decode with the threshold. */
  function Inference(d: Detector, engine: Engine, frame: Image, minScore: real): (r: (Detector, Result<Prediction>))
    requires WellBound(d.inputs)
    ensures WellBound(r.0.inputs)
    ensures r.0.inputs[0] == Some(NamedValue("image", InputTensor(frame)))
    ensures r.1.Success? ==> forall k | k in r.1.value.objects :: k.confidence >= minScore
  {
    var inputs := BindInput(d.inputs, InputTensor(frame));
    var result := Decode(engine.run(inputs), engine.labels, minScore);
    if result.Success? then
      DecodeKeys(engine.run(inputs), engine.labels, minScore);
      (Detector(inputs), result)
    else
      (Detector(inputs), result)
  }

  /** `DetectObjects`: null bytes fail before anything else happens; otherwise decode, letterbox and infer. */
  function DetectObjects(d: Detector, engine: Engine, imageBytes: Option<seq<byte>>, minScore: real)
    : (r: (Detector, Result<Prediction>))
    requires WellBound(d.inputs)
    ensures imageBytes.None? ==> r.0 == d && r.1 == Failure(ArgumentNull)
    ensures imageBytes.Some? && (engine.decode(imageBytes.value).width == 0 || engine.decode(imageBytes.value).height == 0)
            ==> r == (d, Failure(EmptyImage))
    ensures WellBound(r.0.inputs)
    ensures r.1.Success? ==> r.0.inputs[0].Some? && r.0.inputs[0].value.value.dims == [3, 800, 800]
    ensures r.1.Success? ==> forall k | k in r.1.value.objects :: k.confidence >= minScore
  {
    if imageBytes.None? then (d, Failure(ArgumentNull))
    else
      var frame := Preprocess(engine.decode(imageBytes.value), engine.resample);
      if frame.Failure? then (d, Failure(frame.error))
      else Inference(d, engine, frame.value, minScore)
  }

  /** The threshold a caller gets by leaving `minScore` out. */
  const DefaultMinScore: real := 0.7

  /** `DetectObjects(imageBytes)` with the default threshold: every stored key has confidence at least 0.7. */
  function DetectObjectsDefault(d: Detector, engine: Engine, imageBytes: Option<seq<byte>>)
    : (r: (Detector, Result<Prediction>))
    requires WellBound(d.inputs)
    ensures imageBytes.None? ==> r.0 == d && r.1 == Failure(ArgumentNull)
    ensures WellBound(r.0.inputs)
    ensures r.1.Success? ==> forall k | k in r.1.value.objects :: k.confidence >= 0.7
  {
    DetectObjects(d, engine, imageBytes, DefaultMinScore)
  }
}
