/** The detection key `ObjectClass` (a `Tuple<string, float>`) and OpenCV's `Rect`. */
module ObjectClasses {

  /** A detected class: compared by value, name and confidence together, as `Tuple` equality does. */
  datatype ObjectClass = ObjectClass(className: string, confidence: real)

  /** `Rect(X, Y, Width, Height)`, filled positionally from four box values. */
  datatype Rect = Rect(x: int, y: int, width: int, height: int)

  /** One offered insertion into a prediction. */
  datatype Detection = Detection(key: ObjectClass, rect: Rect)

  /** `ClassName` and `Confidence` give back the constructor's arguments. */
  lemma Accessors(name: string, confidence: real)
    ensures ObjectClass(name, confidence).className == name
    ensures ObjectClass(name, confidence).confidence == confidence
  {
  }

  /** Two keys are equal exactly when both components are equal. */
  lemma KeyEquality(a: ObjectClass, b: ObjectClass)
    ensures a == b <==> a.className == b.className && a.confidence == b.confidence
  {
  }
}
