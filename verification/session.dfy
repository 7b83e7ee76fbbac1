/** The inference-session boundary: named input values and the model-path check of the path constructors.
    Loading the model and running it are foreign calls and appear only as function parameters. */
module Session {
  import opened Wrappers
  import opened Tensors

  /** `NamedOnnxValue`: a name bound to a float tensor. */
  datatype NamedValue = NamedValue(name: string, value: Tensor<real>)

  /** `MODEL_INPUTS`: a list whose slots may still be null. */
  type Inputs = seq<Option<NamedValue>>

  /** The field initialiser `new List<NamedOnnxValue>() { null }`. */
  const Unbound: Inputs := [None]

  /** `String.IsNullOrEmpty(modelFilePath)` raises ArgumentNull; otherwise the detector starts unbound. */
  function CheckModelPath(path: Option<string>): (r: Result<Inputs>)
    ensures r.Failure? <==> path.None? || |path.value| == 0
    ensures r.Failure? ==> r.error == ArgumentNull
    ensures r.Success? ==> |r.value| == 1 && r.value[0].None?
  {
    if path.None? || |path.value| == 0 then Failure(ArgumentNull) else Success(Unbound)
  }
}
