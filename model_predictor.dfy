/** The `PlantDiseasePredictor` class of model/predictor.py: an object that
    loads its model when it is built, reports whether it has one, and turns one
    output row into a prediction. Unlike utils/predict.py it splits labels on
    `___` only, does not check the model's output width, and labels an index
    past its class list `Class_<index>` instead of raising. */
module ModelPredictor {

  import opened Common
  import opened Text
  import opened Ranking
  import opened Catalog
  import UtilsPredict

  // ---------------------------------------------------------------------------
  // Label parsing and labels
  // ---------------------------------------------------------------------------

  /** `_parse_class_name`: split on `___`; with two or more pieces, the first
      two with underscores read as spaces, else the whole name with underscores
      read as spaces and `Unknown`. */
  function ParseClassName(name: string): (r: (string, string))
    ensures '_' !in r.0 && '_' !in r.1
  {
    PlantAndDisease(name, Split(name, "___"))
  }

  /** A name without `___` is all plant, with an `Unknown` disease; `__` is not a separator here. */
  lemma ParseWithoutTriple(name: string)
    requires !Contains(name, "___")
    ensures ParseClassName(name) == (ReplaceUnderscores(name), "Unknown")
  {
    assert Split(name, "___") == [name];
  }

  /** On a name holding `___` both parsers agree. */
  lemma ParsersAgreeOnTriple(name: string)
    requires Contains(name, "___")
    ensures ParseClassName(name) == UtilsPredict.ParseClassName(name)
    ensures var i := Find(name, "___").value;
      ParseClassName(name) ==
        (ReplaceUnderscores(name[..i]), ReplaceUnderscores(FirstPiece(name[i + 3..], "___")))
  {
    UtilsPredict.ParseWithTripleSeparator(name);
  }

  /** On a name holding `__` but not `___` the parsers disagree: this one
      takes the whole name as the plant and reports `Unknown`, while
      utils/predict.py takes only the text before the first `__` as the plant. */
  lemma ParsersDifferOnDouble(name: string)
    requires !Contains(name, "___") && Contains(name, "__")
    ensures ParseClassName(name) == (ReplaceUnderscores(name), "Unknown")
    ensures |UtilsPredict.ParseClassName(name).0| < |ParseClassName(name).0|
  {
    ParseWithoutTriple(name);
    UtilsPredict.ParseWithDoubleSeparator(name);
  }

  /** `plant___disease` parses back to its two parts, as in utils/predict.py. */
  lemma ParsePlantDisease(p: string, d: string)
    requires Plain(p) && Plain(d)
    ensures ParseClassName(p + "___" + d) == (ReplaceUnderscores(p), ReplaceUnderscores(d))
  {
    FindAtStart("___", d);
    FindAfterPlain(p, "___" + d, "___");
    assert p + "___" + d == p + ("___" + d);
    ParsersAgreeOnTriple(p + "___" + d);
    UtilsPredict.ParsePlantDisease(p, d);
  }

  /** `plant__variety___disease` parses as in utils/predict.py: cut at the `___`. */
  lemma ParseVarietyDisease(w: string, b: string, d: string)
    requires Plain(w) && PlainWord(b) && Plain(d)
    ensures ParseClassName(w + "__" + b + "___" + d) ==
      (ReplaceUnderscores(w + "__" + b), ReplaceUnderscores(d))
  {
    UtilsPredict.VarietyFind(w, b, d);
    assert w + "__" + b + "___" + d == w + ("__" + (b + ("___" + d)));
    ParsersAgreeOnTriple(w + "__" + b + "___" + d);
    UtilsPredict.ParseVarietyDisease(w, b, d);
  }

  /** `plant__disease` is not cut at all: the whole name is the plant. */
  lemma ParseDoubleWhole(p: string, d: string)
    requires Plain(p) && PlainWord(d)
    ensures ParseClassName(p + "__" + d) == (ReplaceUnderscores(p + "__" + d), "Unknown")
  {
    UtilsPredict.DoubleFind(p, d);
    assert p + "__" + d == p + ("__" + d);
    ParseWithoutTriple(p + "__" + d);
  }

  /** The label of output index `idx`: its class name, or `Class_<idx>` past the list. */
  function ClassLabel(classes: seq<string>, idx: nat): (r: string)
    ensures idx < |classes| ==> r == classes[idx]
    ensures idx >= |classes| ==>
      |r| > 6 && r[..6] == "Class_" && (forall i :: 6 <= i < |r| ==> '0' <= r[i] <= '9') &&
      ParseDigits(r[6..]) == idx
  {
    if idx < |classes| then classes[idx]
    else
      var d := NatToString(idx);
      ParseNatToString(idx);
      assert ("Class_" + d)[6..] == d;
      "Class_" + d
  }

  /** A fallback label parses to `Class <idx>` with an `Unknown` disease, is
      not flagged healthy, and names its index. */
  lemma FallbackLabel(idx: nat)
    ensures var name := "Class_" + NatToString(idx);
      ParseClassName(name) == ("Class " + NatToString(idx), "Unknown") &&
      !IsHealthy(name) &&
      ParseDigits(name[6..]) == idx
  {
    var d := NatToString(idx);
    var name := "Class_" + d;
    assert '_' !in d by {
      forall i | 0 <= i < |d| ensures d[i] != '_' { }
    }
    NoUnderscorePlain(d);
    NoUnderscorePlain("Class");
    PlainJoin("Class", d);
    assert "Class" + "_" + d == name;
    PlainHoldsNone(name, "___");
    ParseWithoutTriple(name);
    assert ReplaceUnderscores(name) == "Class " + d by {
      forall i | 0 <= i < |name|
        ensures ReplaceUnderscores(name)[i] == ("Class " + d)[i]
      {
        if i >= 6 {
          assert name[i] == d[i - 6];
        }
      }
    }
    assert 'h' !in name && 'H' !in name by {
      forall i | 0 <= i < |name| ensures name[i] != 'h' && name[i] != 'H'
      {
        if i >= 6 {
          assert name[i] == d[i - 6];
        }
      }
    }
    assert name[..|name|] == name;
    NotHealthy(name, |name|);
    assert name[6..] == d;
    ParseNatToString(idx);
  }

  // ---------------------------------------------------------------------------
  // Shaping one output row
  // ---------------------------------------------------------------------------

  /** The top-3 entries for the indices `top`: every index is kept, labelled by `ClassLabel`. */
  function LabelledEntries(classes: seq<string>, scores: seq<real>, top: seq<nat>): seq<Entry>
    requires forall i :: 0 <= i < |top| ==> top[i] < |scores|
  {
    seq(|top|, i requires 0 <= i < |top| => Entry(ClassLabel(classes, top[i]), scores[top[i]]))
  }

  /** What the `try` block of `predict` yields for an output row `scores` with
      ascending argsort `order`: `np.argmax` of an empty row raises; otherwise
      the record, whatever the top index. */
  function Predicted(classes: seq<string>, scores: seq<real>, order: seq<nat>): Result<Prediction, Error>
    requires IsArgsort(order, scores)
  {
    if |scores| == 0 then Failure(EmptyScores)
    else
      var idx := ArgMax(scores);
      var predictedClass := ClassLabel(classes, idx);
      var pd := ParseClassName(predictedClass);
      TopIndicesOrdered(order, scores);
      Success(Prediction(predictedClass, scores[idx], pd.0, pd.1, IsHealthy(predictedClass),
                         LabelledEntries(classes, scores, TopIndices(order))))
  }

  /** What `predict` returns or raises: no model raises before the image is
      touched; then preprocessing or the forward pass may raise; then the row is shaped. */
  function PredictorResult(model: Option<Handle>, classes: seq<string>, pass: ForwardPass, order: seq<nat>): Result<Prediction, Error>
    requires pass.Output? ==> IsArgsort(order, pass.scores)
  {
    if model.None? then Failure(ModelNotLoaded)
    else
      match pass
      case Failed => Failure(ForwardFailed)
      case Output(scores) => Predicted(classes, scores, order)
  }

  /** The predictor's only shaping error is an empty row: an index past the
      class list is labelled, never raised. */
  lemma PredictedOutcome(classes: seq<string>, scores: seq<real>, order: seq<nat>)
    requires IsArgsort(order, scores)
    ensures Predicted(classes, scores, order).Success? <==> |scores| > 0
    ensures Predicted(classes, scores, order).Failure? ==> Predicted(classes, scores, order).error == EmptyScores
  {
  }

  /** The top-1 fields: the first maximum's label and score; an in-list index
      gives its class name, an index past the list a `Class_` label parsed to
      plant `Class <idx>`, disease `Unknown`, not healthy. */
  lemma PredictedTop1(classes: seq<string>, scores: seq<real>, order: seq<nat>)
    requires IsArgsort(order, scores) && |scores| > 0
    ensures var p := Predicted(classes, scores, order).value;
      var idx := ArgMax(scores);
      p.confidence == scores[idx] &&
      (forall j :: 0 <= j < |scores| ==> scores[j] <= p.confidence) &&
      (forall j :: 0 <= j < idx ==> scores[j] < p.confidence) &&
      (idx < |classes| ==> p.predictedClass == classes[idx]) &&
      (idx >= |classes| ==>
        p.predictedClass == "Class_" + NatToString(idx) &&
        p.plant == "Class " + NatToString(idx) && p.disease == "Unknown" && !p.isHealthy) &&
      (p.plant, p.disease) == ParseClassName(p.predictedClass) &&
      (p.isHealthy <==> Contains(Lower(p.predictedClass), "healthy"))
  {
    if ArgMax(scores) >= |classes| {
      FallbackLabel(ArgMax(scores));
    }
  }

  /** The top-3 list keeps every one of the three best indices, in the
      catalog or not: as many entries as scores up to three, non-increasing,
      the first carrying the maximum, none below a score left out. */
  lemma PredictedTop3(classes: seq<string>, scores: seq<real>, order: seq<nat>)
    requires IsArgsort(order, scores) && |scores| > 0
    ensures var e := Predicted(classes, scores, order).value.top3;
      var top := TopIndices(order);
      |e| == (if |scores| < TopK then |scores| else TopK) && |e| == |top| &&
      (forall i :: 0 <= i < |e| ==> e[i] == Entry(ClassLabel(classes, top[i]), scores[top[i]])) &&
      (forall i, j :: 0 <= i < j < |e| ==> e[i].confidence >= e[j].confidence) &&
      e[0].confidence == scores[ArgMax(scores)] &&
      (forall j, i :: 0 <= j < |scores| && j !in top && 0 <= i < |e| ==> scores[j] <= e[i].confidence)
  {
    TopIndicesOrdered(order, scores);
    TopIndicesStartAtMax(order, scores);
    TopIndicesDominate(order, scores);
  }

  /** Within the catalog both paths report the same label, confidence and
      health flag (the plant and disease may differ); past the catalog the
      utils path raises where this one labels. */
  lemma AgreesWithUtilsOnTop1(names: seq<string>, scores: seq<real>, order: seq<nat>)
    requires IsArgsort(order, scores) && |scores| > 0
    ensures var p := Predicted(names, scores, order).value;
      var u := UtilsPredict.Shaped(names, scores, order);
      (ArgMax(scores) < |names| ==>
        u.Success? && u.value.predictedClass == p.predictedClass &&
        u.value.confidence == p.confidence && u.value.isHealthy == p.isHealthy) &&
      (ArgMax(scores) >= |names| ==> u == Failure(IndexOutOfRange(ArgMax(scores), |names|)))
  {
    UtilsPredict.ShapedErrors(names, scores, order);
  }

  /** Labelling in-catalog indices is looking up their names. */
  lemma LabelledInCatalog(names: seq<string>, scores: seq<real>, top: seq<nat>)
    requires forall i :: 0 <= i < |top| ==> top[i] < |scores| && top[i] < |names|
    ensures UtilsPredict.InRange(names, scores, top)
    ensures LabelledEntries(names, scores, top) == UtilsPredict.CatalogEntries(names, scores, top)
  {
  }

  /** A row no longer than the catalog gets the same top three from both paths. */
  lemma AgreesWithUtilsOnTop3(names: seq<string>, scores: seq<real>, order: seq<nat>)
    requires IsArgsort(order, scores) && 0 < |scores| <= |names|
    ensures UtilsPredict.Shaped(names, scores, order).Success?
    ensures UtilsPredict.Shaped(names, scores, order).value.top3 == Predicted(names, scores, order).value.top3
  {
    UtilsPredict.ShapedErrors(names, scores, order);
    ArgMaxBelow(scores, |names|);
    var top := TopIndices(order);
    TopIndicesOrdered(order, scores);
    InCatalogAll(top, |names|);
    LabelledInCatalog(names, scores, top);
    UtilsPredict.KeptEntriesInCatalog(names, scores, top);
    assert UtilsPredict.KeptTop(names, scores, order) == top;
  }

  // ---------------------------------------------------------------------------
  // The predictor object
  // ---------------------------------------------------------------------------

  /** The model a call of `load_model` leaves behind: the loaded model, or
      `None` when the file is missing or loading raised. No width check. */
  function LoadedModel(outcome: LoadOutcome): Option<Handle>
  {
    match outcome
    case Loaded(h) => Some(h)
    case _ => None
  }

  /** `load_model` never raises and keeps any model the loader yields, while
      `load_model_once` raises on a model of the wrong width. */
  lemma LoadedModelAnyWidth(outcome: LoadOutcome)
    ensures LoadedModel(outcome).Some? <==> outcome.Loaded?
    ensures outcome.Loaded? ==> LoadedModel(outcome) == Some(outcome.handle)
    ensures outcome.Loaded? && outcome.handle.outputDim != NumClasses ==>
      UtilsPredict.LoadOnceResult(None, outcome) == Failure(OutputSizeMismatch(outcome.handle.outputDim))
  {
  }

  /** The top-3 loop of `predict`: every one of the three best indices gets
      an entry, labelled `Class_<idx>` past the class list. */
  method LabelTopEntries(classes: seq<string>, scores: seq<real>, top: seq<nat>) returns (entries: seq<Entry>)
    requires forall i :: 0 <= i < |top| ==> top[i] < |scores|
    ensures entries == LabelledEntries(classes, scores, top)
  {
    entries := [];
    for t := 0 to |top|
      invariant |entries| == t
      invariant forall i :: 0 <= i < t ==> entries[i] == Entry(ClassLabel(classes, top[i]), scores[top[i]])
    {
      var idx := top[t];
      var className := if idx < |classes| then classes[idx] else "Class_" + NatToString(idx);
      entries := entries + [Entry(className, scores[idx])];
    }
  }

  class PlantDiseasePredictor {
    var model: Option<Handle>
    var classes: seq<string>

    /** The class list is the fixed catalog; no method changes it. */
    ghost predicate Valid()
      reads this
    {
      classes == ClassNames
    }

    /** `__init__`: the class list, then a first `load_model`. */
    constructor (outcome: LoadOutcome)
      ensures Valid()
      ensures model == LoadedModel(outcome)
    {
      classes := ClassNames;
      model := None;
      new;
      LoadModel(outcome);
    }

    /** `load_model`: replace the model by whatever this load yields; a
        missing file or a loader error drops any model held before. */
    method LoadModel(outcome: LoadOutcome)
      modifies this`model
      ensures model == LoadedModel(outcome)
    {
      match outcome
      case Loaded(h) =>
        model := Some(h);
      case _ =>
        model := None;
    }

    /** `is_model_loaded`. */
    function IsModelLoaded(): (r: bool)
      reads this
      ensures r <==> model.Some?
    {
      model != None
    }

    /** `get_classes`: the same names `get_supported_classes` hands out. */
    function GetClasses(): (r: seq<string>)
      reads this
      ensures Valid() ==> r == UtilsPredict.GetSupportedClasses() && |r| == NumClasses
    {
      classes
    }

    /** `predict`: raise without a model, before the image is used; otherwise
        argmax, the top-3 loop, the label and its parse. */
    method Predict(pass: ForwardPass, order: seq<nat>) returns (r: Result<Prediction, Error>)
      requires pass.Output? ==> IsArgsort(order, pass.scores)
      ensures r == PredictorResult(model, classes, pass, order)
      ensures r == Failure(ModelNotLoaded) <==> !IsModelLoaded()
    {
      if !IsModelLoaded() {
        return Failure(ModelNotLoaded);
      }
      if pass.Failed? {
        return Failure(ForwardFailed);
      }
      var scores := pass.scores;
      if |scores| == 0 {
        return Failure(EmptyScores);
      }
      var predictedIdx := ArgMax(scores);
      var confidence := scores[predictedIdx];
      TopIndicesOrdered(order, scores);
      var entries := LabelTopEntries(classes, scores, TopIndices(order));
      var predictedClass := ClassLabel(classes, predictedIdx);
      var pd := ParseClassName(predictedClass);
      r := Success(Prediction(predictedClass, confidence, pd.0, pd.1, IsHealthy(predictedClass), entries));
    }
  }

  /** After a load, `is_model_loaded` says whether the loader yielded a model. */
  lemma IsModelLoadedAfterLoad(p: PlantDiseasePredictor, outcome: LoadOutcome)
    requires p.model == LoadedModel(outcome)
    ensures p.IsModelLoaded() <==> outcome.Loaded?
  {
  }

  /** A predictor built while the model file is missing has no model and
      raises on every image; a later successful `load_model` fixes that. */
  method MissingFileThenReload(h: Handle, pass: ForwardPass, order: seq<nat>)
    returns (loadedAtFirst: bool, first: Result<Prediction, Error>, loadedLater: bool)
    requires pass.Output? ==> IsArgsort(order, pass.scores)
    ensures !loadedAtFirst && first == Failure(ModelNotLoaded) && loadedLater
  {
    var p := new PlantDiseasePredictor(FileMissing);
    loadedAtFirst := p.IsModelLoaded();
    first := p.Predict(pass, order);
    p.LoadModel(Loaded(h));
    loadedLater := p.IsModelLoaded();
  }
}
