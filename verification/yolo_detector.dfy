/** `YoloV3Detector`: null check, 416 x 416 letterbox, channel-planar tensor scaled by 1/255 with a batch
    axis, two bound inputs, and the index-triple decode into an `ObjectDetectorPrediction`. */
module YoloV3Detector {
  import opened Wrappers
  import opened Imaging
  import opened Tensors
  import opened Geometry
  import opened Session
  import opened ObjectClasses
  import opened ObjectDetectorPrediction
  import opened YoloDecode

  /** The collaborators the class calls but whose code is not modelled. */
  datatype Engine = Engine(
    decode: seq<byte> -> Image,     // Cv2.ImDecode
    resample: Resampler,            // Cv2.Resize
    run: Inputs -> Outputs,         // InferenceSession.Run
    labels: map<int, string>)       // LabelMap.Labels

  /** The detector's mutable state: its `MODEL_INPUTS` list. */
  datatype Detector = Detector(inputs: Inputs)

  /** The second input, the constant (1, 2) tensor holding the input dimension twice. */
  const ImageShape := NamedValue("image_shape", Tensor([1, 2], [YoloDimension as real, YoloDimension as real]))

  /** Before the first call the list is one null slot; after it, "input_1" followed by the image shape. */
  predicate WellBound(inputs: Inputs) {
    inputs == [None] ||
    (|inputs| == 2 && inputs[0].Some? && inputs[0].value.name == "input_1" && inputs[1] == Some(ImageShape))
  }

  /** The path constructor. */
  function FromModelFile(path: Option<string>): (r: Result<Detector>)
    ensures r.Failure? <==> path.None? || |path.value| == 0
    ensures r.Failure? ==> r.error == ArgumentNull
    ensures r.Success? ==> r.value.inputs == [None] && WellBound(r.value.inputs)
  {
    var inputs :- CheckModelPath(path);
    Success(Detector(inputs))
  }

  /** The tensor of a letterboxed frame: shape (1, 3, H, W), `[0, c, y, x] = pixel(y, x)[c] / 255`, in [0, 1]. */
  function InputTensor(frame: Image): (t: Tensor<real>)
    ensures t.dims == [1, 3, frame.height, frame.width] && Valid(t)
    ensures forall c: int, y: int, x: int | 0 <= c < 3 && 0 <= y < frame.height && 0 <= x < frame.width ::
              At4(t, 0, c, y, x) == Some(Channel(frame.pixel(y, x), c) as real / 255.0) &&
              0.0 <= At4(t, 0, c, y, x).value <= 1.0
  {
    WithBatchAxis(Planar(frame, 255.0))
  }

  /** `Preprocess`: letterbox the frame in place to 416 x 416 and return its input tensor. */
  function Preprocess(frame: Image, resample: Resampler): (r: Result<(Image, Tensor<real>)>)
    ensures r.Success? <==> frame.width > 0 && frame.height > 0 &&
                            ResizedSize(416, frame.width, frame.height).0 > 0 &&
                            ResizedSize(416, frame.width, frame.height).1 > 0
    ensures r.Success? ==> r.value.0.width == 416 && r.value.0.height == 416
    ensures r.Success? ==> r.value.1.dims == [1, 3, 416, 416] && Valid(r.value.1)
    ensures r.Failure? ==> r.error == EmptyImage
  {
    var img :- Letterbox(YoloDimension, frame, resample);
    Success((img, InputTensor(img)))
  }

  /** The first call binds "input_1" and appends the image shape; later calls only replace the tensor. */
  function BindInputs(inputs: Inputs, t: Tensor<real>): (r: Inputs)
    requires WellBound(inputs)
    ensures WellBound(r)
    ensures r == [Some(NamedValue("input_1", t)), Some(ImageShape)]
  {
    if inputs[0].None? then inputs[0 := Some(NamedValue("input_1", t))] + [Some(ImageShape)]
    else inputs[0 := Some(inputs[0].value.(value := t))]
  }

  /** The inputs after binding `ts` in turn. */
  function BindAll(inputs: Inputs, ts: seq<Tensor<real>>): (r: Inputs)
    requires WellBound(inputs)
    ensures WellBound(r)
  {
    if |ts| == 0 then inputs else BindInputs(BindAll(inputs, ts[..|ts| - 1]), ts[|ts| - 1])
  }

  /** From the initial state, no calls leave the single null slot, and any calls leave exactly two
      inputs: the latest tensor and the image shape. */
  lemma BindingHistory(ts: seq<Tensor<real>>)
    ensures |ts| == 0 ==> BindAll(Unbound, ts) == [None]
    ensures |ts| > 0 ==> BindAll(Unbound, ts) == [Some(NamedValue("input_1", ts[|ts| - 1])), Some(ImageShape)]
  {
  }

  /** `Inference`: bind the inputs, run the session and decode the selected rows. */
  function Inference(d: Detector, engine: Engine, input: Tensor<real>, minScore: real): (r: (Detector, Result<Prediction>))
    requires WellBound(d.inputs)
    ensures r.0.inputs == [Some(NamedValue("input_1", input)), Some(ImageShape)]
    ensures r.1.Success? ==> |engine.run(r.0.inputs).indices.dims| >= 2 &&
                             |r.1.value.objects| <= engine.run(r.0.inputs).indices.dims[1]
  {
    var inputs := BindInputs(d.inputs, input);
    (Detector(inputs), YoloDecode.Inference(engine.run(inputs), engine.labels, minScore))
  }

  /** `DetectObjects`: null bytes fail before anything else happens; otherwise decode, preprocess and infer. */
  function DetectObjects(d: Detector, engine: Engine, imageBytes: Option<seq<byte>>, minScore: real)
    : (r: (Detector, Result<Prediction>))
    requires WellBound(d.inputs)
    ensures imageBytes.None? ==> r.0 == d && r.1 == Failure(ArgumentNull)
    ensures imageBytes.Some? && (engine.decode(imageBytes.value).width == 0 || engine.decode(imageBytes.value).height == 0)
            ==> r == (d, Failure(EmptyImage))
    ensures WellBound(r.0.inputs)
    ensures r.1.Success? ==> r.0.inputs[0].Some? && r.0.inputs[0].value.value.dims == [1, 3, 416, 416]
  {
    if imageBytes.None? then (d, Failure(ArgumentNull))
    else
      var pre := Preprocess(engine.decode(imageBytes.value), engine.resample);
      if pre.Failure? then (d, Failure(pre.error))
      else Inference(d, engine, pre.value.1, minScore)
  }

  /** The caller's threshold has no effect: the documented minimum confidence is not applied. */
  lemma DetectIgnoresMinScore(d: Detector, engine: Engine, imageBytes: Option<seq<byte>>, t: real, t': real)
    requires WellBound(d.inputs)
    ensures DetectObjects(d, engine, imageBytes, t) == DetectObjects(d, engine, imageBytes, t')
  {
  }

  /** The threshold a caller gets by leaving `minScore` out. */
  const DefaultMinScore: real := 0.7

  /** `DetectObjects(imageBytes)` with the default threshold, which gives what any threshold gives. */
  function DetectObjectsDefault(d: Detector, engine: Engine, imageBytes: Option<seq<byte>>)
    : (r: (Detector, Result<Prediction>))
    requires WellBound(d.inputs)
    ensures imageBytes.None? ==> r.0 == d && r.1 == Failure(ArgumentNull)
    ensures forall t: real :: r == DetectObjects(d, engine, imageBytes, t)
  {
    DetectIgnoresMinScore(d, engine, imageBytes, DefaultMinScore, 0.0);
    DetectObjects(d, engine, imageBytes, DefaultMinScore)
  }
}
