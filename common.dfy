/** Values shared by both prediction paths: optional values and results, the
    abstract view of a Keras model handle, what loading it and running it on an
    image can yield, and the prediction record returned to the HTTP layer. */
module Common {

  datatype Option<T> = None | Some(value: T)

  /** Success or failure; Python's exceptions become `Failure`. */
  datatype Result<T, E> = Success(value: T) | Failure(error: E)

  /** A deserialised model as this core sees it: an identity, so that "the same
      handle" can be stated, and the width of its output (`output_shape[1]`). */
  datatype Handle = Handle(id: nat, outputDim: nat)

  /** What one call of the Keras loader yields: the file is absent, it cannot be
      deserialised, or a handle. */
  datatype LoadOutcome = FileMissing | Corrupt | Loaded(handle: Handle)

  /** What preprocessing an image and running the forward pass on it yield:
      either one of them raised, or the first row of the output (one score per class). */
  datatype ForwardPass = Failed | Output(scores: seq<real>)

  /** One element of `top_3_predictions`. */
  datatype Entry = Entry(className: string, confidence: real)

  /** The record one prediction returns: `label` (called `predicted_class` in
      the predictor class), `confidence`, `plant`, `disease`, `is_healthy` and
      `top_3_predictions`. */
  datatype Prediction = Prediction(
    predictedClass: string,
    confidence: real,
    plant: string,
    disease: string,
    isHealthy: bool,
    top3: seq<Entry>)

  /** Causes of the exceptions raised on the way to a prediction. */
  datatype Error =
    | LoadFailed                                   // the loader raised
    | OutputSizeMismatch(actual: nat)              // output width differs from the class count
    | ModelNotLoaded                               // predictor class without a model
    | ForwardFailed                                // preprocessing or the forward pass raised
    | EmptyScores                                  // argmax of an empty output row
    | IndexOutOfRange(index: nat, count: nat)      // top-1 index past the catalog
}
