/** The prediction path of utils/predict.py: the lazily loaded module-wide
    model, the label parser that tries `___` before `__`, and the shaping of
    one output row into the JSON result, where an index past the catalog is
    an error and is skipped in the top three. */
module UtilsPredict {

  import opened Common
  import opened Text
  import opened Ranking
  import opened Catalog

  // ---------------------------------------------------------------------------
  // Label parsing
  // ---------------------------------------------------------------------------

  /** `parse_class_name`: split on `___` if present, else on `__` if present;
      keep the first two pieces, underscores read as spaces. A name with
      neither separator is the plant, with disease `Unknown`. */
  function ParseClassName(name: string): (r: (string, string))
    ensures '_' !in r.0 && '_' !in r.1
  {
    if Contains(name, "___") then PlantAndDisease(name, Split(name, "___"))
    else if Contains(name, "__") then PlantAndDisease(name, Split(name, "__"))
    else (ReplaceUnderscores(name), "Unknown")
  }

  /** With `___` present: the text before the first `___`, and the text between
      it and the next `___` (or the end); later pieces are dropped and the
      `len(parts) < 2` fallback is never taken. */
  lemma ParseWithTripleSeparator(name: string)
    requires Contains(name, "___")
    ensures var i := Find(name, "___").value;
      ParseClassName(name) ==
        (ReplaceUnderscores(name[..i]), ReplaceUnderscores(FirstPiece(name[i + 3..], "___")))
  {
    SplitAtFirst(name, "___");
    var i := Find(name, "___").value;
    SplitHead(name[i + 3..], "___");
  }

  /** Without `___` but with `__`: the same, cutting at `__`. */
  lemma ParseWithDoubleSeparator(name: string)
    requires !Contains(name, "___") && Contains(name, "__")
    ensures var i := Find(name, "__").value;
      ParseClassName(name) ==
        (ReplaceUnderscores(name[..i]), ReplaceUnderscores(FirstPiece(name[i + 2..], "__")))
  {
    SplitAtFirst(name, "__");
    var i := Find(name, "__").value;
    SplitHead(name[i + 2..], "__");
  }

  /** Without `__` (hence without `___`): the whole name, underscores read as spaces, and `Unknown`. */
  lemma ParseWithoutSeparator(name: string)
    requires !Contains(name, "__")
    ensures ParseClassName(name) == (ReplaceUnderscores(name), "Unknown")
  {
    TripleHoldsDouble(name);
  }

  /** A name whose first `___` follows the plant part `p` keeps `p` as the plant
      and the text up to the next `___` as the disease. */
  lemma ParseTripleShape(p: string, d: string)
    requires Find(p + "___" + d, "___") == Some(|p|)
    ensures ParseClassName(p + "___" + d) ==
      (ReplaceUnderscores(p), ReplaceUnderscores(FirstPiece(d, "___")))
  {
    var name := p + "___" + d;
    ParseWithTripleSeparator(name);
    assert name[..|p|] == p && name[|p| + 3..] == d;
  }

  /** A name without `___` whose first `__` follows the plant part `p` keeps `p`
      as the plant and the text up to the next `__` as the disease. */
  lemma ParseDoubleShape(p: string, d: string)
    requires !Contains(p + "__" + d, "___") && Find(p + "__" + d, "__") == Some(|p|)
    ensures ParseClassName(p + "__" + d) ==
      (ReplaceUnderscores(p), ReplaceUnderscores(FirstPiece(d, "__")))
  {
    var name := p + "__" + d;
    ParseWithDoubleSeparator(name);
    assert name[..|p|] == p && name[|p| + 2..] == d;
  }

  // The catalog's names come in five shapes, built from "plain" words (no
  // underscore run, no trailing underscore): each shape parses as below.

  /** `plant___disease` parses back to its two parts. */
  lemma ParsePlantDisease(p: string, d: string)
    requires Plain(p) && Plain(d)
    ensures ParseClassName(p + "___" + d) == (ReplaceUnderscores(p), ReplaceUnderscores(d))
  {
    FindAtStart("___", d);
    FindAfterPlain(p, "___" + d, "___");
    assert p + "___" + d == p + ("___" + d);
    ParseTripleShape(p, d);
    PlainHoldsNone(d, "___");
  }

  /** In `w__b___d` the first `___` follows `b`. */
  lemma VarietyFind(w: string, b: string, d: string)
    requires Plain(w) && PlainWord(b)
    ensures Find(w + ("__" + (b + ("___" + d))), "___") == Some(|w| + 2 + |b|)
  {
    FindAtStart("___", d);
    FindAfterPlain(b, "___" + d, "___");
    FindAfterGap("__", b + ("___" + d), "___");
    FindAfterPlain(w, "__" + (b + ("___" + d)), "___");
  }

  /** `plant__variety___disease`: the `__` inside the plant part is not a cut,
      because `___` is looked for first. */
  lemma ParseVarietyDisease(w: string, b: string, d: string)
    requires Plain(w) && PlainWord(b) && Plain(d)
    ensures ParseClassName(w + "__" + b + "___" + d) ==
      (ReplaceUnderscores(w + "__" + b), ReplaceUnderscores(d))
  {
    VarietyFind(w, b, d);
    assert w + "__" + b + "___" + d == w + ("__" + (b + ("___" + d)));
    ParseTripleShape(w + "__" + b, d);
    PlainHoldsNone(d, "___");
  }

  /** In `p__d`, with `d` plain and not starting with an underscore, there is
      no `___` and the first `__` follows `p`. */
  lemma DoubleFind(p: string, d: string)
    requires Plain(p) && PlainWord(d)
    ensures Find(p + ("__" + d), "___") == None
    ensures Find(p + ("__" + d), "__") == Some(|p|)
  {
    PlainHoldsNone(d, "___");
    FindAfterGap("__", d, "___");
    FindAfterPlain(p, "__" + d, "___");
    FindAtStart("__", d);
    FindAfterPlain(p, "__" + d, "__");
  }

  /** `plant__disease` without `___` parses back to its two parts. */
  lemma ParseDoublePlantDisease(p: string, d: string)
    requires Plain(p) && PlainWord(d)
    ensures ParseClassName(p + "__" + d) == (ReplaceUnderscores(p), ReplaceUnderscores(d))
  {
    DoubleFind(p, d);
    assert p + "__" + d == p + ("__" + d);
    ParseDoubleShape(p, d);
    PlainHoldsNone(d, "__");
  }

  /** In `p__a__c` there is no `___` and the first `__` follows `p`. */
  lemma ThreePiecesFind(p: string, a: string, c: string)
    requires Plain(p) && PlainWord(a) && PlainWord(c)
    ensures Find(p + ("__" + (a + ("__" + c))), "___") == None
    ensures Find(p + ("__" + (a + ("__" + c))), "__") == Some(|p|)
  {
    var d := a + ("__" + c);
    PlainHoldsNone(c, "___");
    FindAfterGap("__", c, "___");
    FindAfterPlain(a, "__" + c, "___");
    assert d[0] == a[0];
    FindAfterGap("__", d, "___");
    FindAfterPlain(p, "__" + d, "___");
    FindAtStart("__", d);
    FindAfterPlain(p, "__" + d, "__");
  }

  /** `plant__first__second` without `___`: the piece after the second `__` is dropped. */
  lemma ParseThreePieces(p: string, a: string, c: string)
    requires Plain(p) && PlainWord(a) && PlainWord(c)
    ensures ParseClassName(p + "__" + a + "__" + c) == (ReplaceUnderscores(p), ReplaceUnderscores(a))
  {
    ThreePiecesFind(p, a, c);
    var d := a + "__" + c;
    assert p + "__" + a + "__" + c == p + "__" + d == p + ("__" + (a + ("__" + c)));
    ParseDoubleShape(p, d);
    FirstPieceBefore(a, "__", c);
  }

  /** A plain name has no separator: the whole name, and `Unknown`. */
  lemma ParsePlainName(name: string)
    requires Plain(name)
    ensures ParseClassName(name) == (ReplaceUnderscores(name), "Unknown")
  {
    PlainHoldsNone(name, "__");
    ParseWithoutSeparator(name);
  }

  // ---------------------------------------------------------------------------
  // Shaping one output row into the result record
  //
  // The record is specified for any catalog `names`; the module's own
  // catalog is `ClassNames`, which `ShapeResult` passes.
  // ---------------------------------------------------------------------------

  /** `get_supported_classes`, a copy of `CLASS_NAMES`: one distinct name per model output. */
  function GetSupportedClasses(): (r: seq<string>)
    ensures |r| == NumClasses
    ensures forall i, j :: 0 <= i < j < |r| ==> r[i] != r[j]
  {
    ClassNames
  }

  /** Every index of `xs` has a score and a name in the catalog. */
  predicate InRange(names: seq<string>, scores: seq<real>, xs: seq<nat>)
  {
    forall i :: 0 <= i < |xs| ==> xs[i] < |scores| && xs[i] < |names|
  }

  /** The top-3 entries built from catalog indices `xs`. */
  function CatalogEntries(names: seq<string>, scores: seq<real>, xs: seq<nat>): seq<Entry>
    requires InRange(names, scores, xs)
  {
    seq(|xs|, i requires 0 <= i < |xs| => Entry(names[xs[i]], scores[xs[i]]))
  }

  /** Filtering valid score indices down to the catalog leaves indices with a name and a score. */
  lemma InCatalogInRange(names: seq<string>, scores: seq<real>, xs: seq<nat>)
    requires forall i :: 0 <= i < |xs| ==> xs[i] < |scores|
    ensures InRange(names, scores, InCatalog(xs, |names|))
  {
    var r := InCatalog(xs, |names|);
    InCatalogMembers(xs, |names|);
    forall i | 0 <= i < |r|
      ensures r[i] < |scores| && r[i] < |names|
    {
      assert r[i] in r;
      var p :| 0 <= p < |xs| && xs[p] == r[i];
    }
  }

  /** The catalog indices among the top three of `order`, best first. */
  function KeptTop(names: seq<string>, scores: seq<real>, order: seq<nat>): (r: seq<nat>)
    requires IsArgsort(order, scores)
    ensures InRange(names, scores, r)
  {
    TopIndicesOrdered(order, scores);
    InCatalogInRange(names, scores, TopIndices(order));
    InCatalog(TopIndices(order), |names|)
  }

  /** `top_3_predictions`: the entries of the catalog indices among the three best scores. */
  function TopEntries(names: seq<string>, scores: seq<real>, order: seq<nat>): seq<Entry>
    requires IsArgsort(order, scores)
  {
    TopIndicesOrdered(order, scores);
    KeptEntries(names, scores, TopIndices(order))
  }

  /** The loop over the top three as a recursion on its last index: the
      entries of `top`, skipping indices past the catalog. */
  function KeptEntries(names: seq<string>, scores: seq<real>, top: seq<nat>): seq<Entry>
    requires forall i :: 0 <= i < |top| ==> top[i] < |scores|
    decreases |top|
  {
    if top == [] then []
    else
      var idx := top[|top| - 1];
      KeptEntries(names, scores, top[..|top| - 1]) +
        (if idx < |names| then [Entry(names[idx], scores[idx])] else [])
  }

  /** Entries of two runs of indices, one after the other. */
  lemma CatalogEntriesAppend(names: seq<string>, scores: seq<real>, a: seq<nat>, b: seq<nat>)
    requires InRange(names, scores, a) && InRange(names, scores, b)
    ensures InRange(names, scores, a + b)
    ensures CatalogEntries(names, scores, a + b) ==
      CatalogEntries(names, scores, a) + CatalogEntries(names, scores, b)
  {
    assert forall i :: 0 <= i < |a| + |b| ==> (a + b)[i] == if i < |a| then a[i] else b[i - |a|];
  }

  /** The loop's entries are those of the catalog indices among `top`. */
  lemma {:induction false} KeptEntriesInCatalog(names: seq<string>, scores: seq<real>, top: seq<nat>)
    requires forall i :: 0 <= i < |top| ==> top[i] < |scores|
    ensures InRange(names, scores, InCatalog(top, |names|))
    ensures KeptEntries(names, scores, top) == CatalogEntries(names, scores, InCatalog(top, |names|))
    decreases |top|
  {
    if top != [] {
      var init := top[..|top| - 1];
      var idx := top[|top| - 1];
      KeptEntriesInCatalog(names, scores, init);
      var a := InCatalog(init, |names|);
      if idx < |names| {
        assert InRange(names, scores, [idx]);
        CatalogEntriesAppend(names, scores, a, [idx]);
      } else {
        assert a + [] == a;
      }
    }
  }

  /** What the shaping part of `load_model_and_predict` yields for one output
      row `scores` whose ascending argsort is `order`: `np.argmax` of an empty
      row raises; an index past the catalog raises; otherwise the record. */
  function Shaped(names: seq<string>, scores: seq<real>, order: seq<nat>): Result<Prediction, Error>
    requires IsArgsort(order, scores)
  {
    if |scores| == 0 then Failure(EmptyScores)
    else
      var idx := ArgMax(scores);
      if idx >= |names| then Failure(IndexOutOfRange(idx, |names|))
      else
        var className := names[idx];
        var pd := ParseClassName(className);
        Success(Prediction(className, scores[idx], pd.0, pd.1, IsHealthy(className),
                           TopEntries(names, scores, order)))
  }

  /** The shaping steps of `load_model_and_predict`: argmax, bounds check,
      label, parse, and the loop that appends the in-catalog top-3 entries. */
  method ShapeResult(scores: seq<real>, order: seq<nat>) returns (r: Result<Prediction, Error>)
    requires IsArgsort(order, scores)
    ensures r == Shaped(ClassNames, scores, order)
  {
    if |scores| == 0 {
      return Failure(EmptyScores);
    }
    var classIndex := ArgMax(scores);
    var confidence := scores[classIndex];
    if classIndex >= |ClassNames| {
      return Failure(IndexOutOfRange(classIndex, |ClassNames|));
    }
    var className := ClassNames[classIndex];
    var pd := ParseClassName(className);
    TopIndicesOrdered(order, scores);
    var entries := CollectTopEntries(scores, TopIndices(order));
    r := Success(Prediction(className, confidence, pd.0, pd.1, IsHealthy(className), entries));
  }

  /** The top-3 loop of `load_model_and_predict`: the entry of each of the
      three best indices, best first, skipping an index past the catalog. */
  method CollectTopEntries(scores: seq<real>, top: seq<nat>) returns (entries: seq<Entry>)
    requires forall i :: 0 <= i < |top| ==> top[i] < |scores|
    ensures entries == KeptEntries(ClassNames, scores, top)
  {
    entries := [];
    for t := 0 to |top|
      invariant entries == KeptEntries(ClassNames, scores, top[..t])
    {
      assert top[..t + 1][..t] == top[..t];
      var idx := top[t];
      if idx < |ClassNames| {
        entries := entries + [Entry(ClassNames[idx], scores[idx])];
      }
    }
    assert top[..|top|] == top;
  }

  /** The two errors of the shaping step: an empty row, and a first maximum past the catalog. */
  lemma ShapedErrors(names: seq<string>, scores: seq<real>, order: seq<nat>)
    requires IsArgsort(order, scores)
    ensures |scores| == 0 ==> Shaped(names, scores, order) == Failure(EmptyScores)
    ensures |scores| > 0 && ArgMax(scores) >= |names| ==>
      Shaped(names, scores, order) == Failure(IndexOutOfRange(ArgMax(scores), |names|))
    ensures |scores| > 0 && ArgMax(scores) < |names| ==> Shaped(names, scores, order).Success?
  {
  }

  /** A result is produced exactly when the row is non-empty and its maximum
      score is attained inside the catalog. */
  lemma ShapedSucceedsIff(names: seq<string>, scores: seq<real>, order: seq<nat>)
    requires IsArgsort(order, scores)
    ensures Shaped(names, scores, order).Success? <==>
      exists k :: 0 <= k < |scores| && k < |names| && forall j :: 0 <= j < |scores| ==> scores[j] <= scores[k]
  {
    ShapedErrors(names, scores, order);
    if |scores| > 0 {
      ArgMaxBelow(scores, |names|);
    }
  }

  /** A non-empty row no longer than the catalog never hits the out-of-range error. */
  lemma ShapedShortRow(names: seq<string>, scores: seq<real>, order: seq<nat>)
    requires IsArgsort(order, scores) && 0 < |scores| <= |names|
    ensures Shaped(names, scores, order).Success?
  {
  }

  /** The top-1 fields: the catalog name at the first index of the maximum,
      that maximum as confidence, the parsed name, and the health flag. */
  lemma ShapedTop1(names: seq<string>, scores: seq<real>, order: seq<nat>)
    requires IsArgsort(order, scores) && Shaped(names, scores, order).Success?
    ensures var p := Shaped(names, scores, order).value;
      var k := ArgMax(scores);
      k < |names| && p.predictedClass == names[k] && p.confidence == scores[k] &&
      (forall j :: 0 <= j < |scores| ==> scores[j] <= p.confidence) &&
      (forall j :: 0 <= j < k ==> scores[j] < p.confidence) &&
      (p.plant, p.disease) == ParseClassName(p.predictedClass) &&
      '_' !in p.plant && '_' !in p.disease &&
      (p.isHealthy <==> Contains(Lower(p.predictedClass), "healthy"))
  {
  }

  /** The top-3 list: at most three entries and no more than there are scores,
      confidences never increasing, every entry a catalog name; when the row is
      no longer than the catalog, nothing is dropped. */
  lemma TopEntriesOrdered(names: seq<string>, scores: seq<real>, order: seq<nat>)
    requires IsArgsort(order, scores)
    ensures var e := TopEntries(names, scores, order);
      |e| <= TopK && |e| <= |scores| &&
      (forall i, j :: 0 <= i < j < |e| ==> e[i].confidence >= e[j].confidence) &&
      (forall i :: 0 <= i < |e| ==> e[i].className in names) &&
      (|scores| <= |names| ==> |e| == (if |scores| < TopK then |scores| else TopK))
  {
    var e := TopEntries(names, scores, order);
    var top := TopIndices(order);
    var kept := KeptTop(names, scores, order);
    TopIndicesOrdered(order, scores);
    KeptEntriesInCatalog(names, scores, top);
    InCatalogNonIncreasing(scores, top, |names|);
    forall i | 0 <= i < |e|
      ensures e[i].className in names
    {
      assert e[i].className == names[kept[i]];
    }
    if |scores| <= |names| {
      InCatalogAll(top, |names|);
    }
  }

  /** The top-3 list holds exactly the catalog indices among the three best scores. */
  lemma TopEntriesMembers(names: seq<string>, scores: seq<real>, order: seq<nat>)
    requires IsArgsort(order, scores)
    ensures var e := TopEntries(names, scores, order);
      (forall k :: k in TopIndices(order) && k < |names| ==> Entry(names[k], scores[k]) in e) &&
      (forall i :: 0 <= i < |e| ==>
        exists k :: k in TopIndices(order) && k < |names| && e[i] == Entry(names[k], scores[k]))
  {
    var e := TopEntries(names, scores, order);
    var top := TopIndices(order);
    var kept := KeptTop(names, scores, order);
    TopIndicesOrdered(order, scores);
    KeptEntriesInCatalog(names, scores, top);
    assert kept == InCatalog(top, |names|);
    InCatalogMembers(top, |names|);
    assert e == CatalogEntries(names, scores, kept);
    forall k | k in top && k < |names|
      ensures Entry(names[k], scores[k]) in e
    {
      assert k in kept;
      var i :| 0 <= i < |kept| && kept[i] == k;
      assert e[i] == Entry(names[k], scores[k]);
    }
    forall i | 0 <= i < |e|
      ensures exists k :: k in top && k < |names| && e[i] == Entry(names[k], scores[k])
    {
      var k := kept[i];
      assert k in kept;
      assert k in top && k < |names| && e[i] == Entry(names[k], scores[k]);
    }
  }

  /** No score left out of the three best is higher than a top-3 entry's, and
      none of them is higher than the top-1 confidence. */
  lemma TopEntriesDominate(names: seq<string>, scores: seq<real>, order: seq<nat>)
    requires IsArgsort(order, scores)
    ensures var e := TopEntries(names, scores, order);
      (forall j, i :: 0 <= j < |scores| && j !in TopIndices(order) && 0 <= i < |e| ==>
        scores[j] <= e[i].confidence) &&
      (forall i :: 0 <= i < |e| ==> e[i].confidence <= scores[ArgMax(scores)])
  {
    var e := TopEntries(names, scores, order);
    var top := TopIndices(order);
    var kept := KeptTop(names, scores, order);
    TopIndicesOrdered(order, scores);
    KeptEntriesInCatalog(names, scores, top);
    TopIndicesDominate(order, scores);
    assert kept == InCatalog(top, |names|);
    InCatalogMembers(top, |names|);
    forall i | 0 <= i < |e|
      ensures kept[i] in top && e[i].confidence == scores[kept[i]]
    {
      assert kept[i] in kept;
    }
    forall j, i | 0 <= j < |scores| && j !in top && 0 <= i < |e|
      ensures scores[j] <= e[i].confidence
    {
      var t :| 0 <= t < |top| && top[t] == kept[i];
    }
  }

  // ---------------------------------------------------------------------------
  // The module-wide model and the prediction entry point
  // ---------------------------------------------------------------------------

  /** What `load_model_once` returns or raises, given the model cached before
      the call and what the Keras loader would yield if it were called. A
      cached model is returned without calling the loader; otherwise a loader
      failure raises, and so does a model whose output width is not the
      class count. */
  function LoadOnceResult(cached: Option<Handle>, outcome: LoadOutcome): Result<Handle, Error>
  {
    match cached
    case Some(h) => Success(h)
    case None =>
      match outcome
      case Loaded(h) =>
        if h.outputDim != NumClasses then Failure(OutputSizeMismatch(h.outputDim)) else Success(h)
      case _ => Failure(LoadFailed)
  }

  /** The module-wide `_model` after one call of `load_model_once`. The loaded
      model is stored before its width is checked, so a mismatched model stays
      cached although the call raised. */
  function CachedAfter(cached: Option<Handle>, outcome: LoadOutcome): Option<Handle>
  {
    match cached
    case Some(_) => cached
    case None =>
      match outcome
      case Loaded(h) => Some(h)
      case _ => None
  }

  /** Once a model is cached, every later call returns it and keeps it. */
  lemma LoadOnceKeepsCached(h: Handle, outcome: LoadOutcome)
    ensures LoadOnceResult(Some(h), outcome) == Success(h)
    ensures CachedAfter(Some(h), outcome) == Some(h)
  {
  }

  /** A call that returns a model leaves exactly that model cached; a call that
      raises because the loader failed leaves nothing cached. */
  lemma LoadOnceCaches(cached: Option<Handle>, outcome: LoadOutcome)
    ensures LoadOnceResult(cached, outcome).Success? ==>
      CachedAfter(cached, outcome) == Some(LoadOnceResult(cached, outcome).value)
    ensures LoadOnceResult(cached, outcome) == Failure(LoadFailed) ==> CachedAfter(cached, outcome) == None
    ensures LoadOnceResult(cached, outcome).Failure? ==> cached == None
  {
  }

  /** A width mismatch is reported only by the call that loads the model; it is
      cached anyway, so the next call returns it whatever the loader would do. */
  lemma MismatchAcceptedOnRetry(h: Handle, later: LoadOutcome)
    requires h.outputDim != NumClasses
    ensures LoadOnceResult(None, Loaded(h)) == Failure(OutputSizeMismatch(h.outputDim))
    ensures LoadOnceResult(CachedAfter(None, Loaded(h)), later) == Success(h)
  {
  }

  /** The cache after a series of calls, each given what the loader would yield. */
  function CacheAfterCalls(cached: Option<Handle>, outcomes: seq<LoadOutcome>): Option<Handle>
    decreases |outcomes|
  {
    if outcomes == [] then cached
    else CacheAfterCalls(CachedAfter(cached, outcomes[0]), outcomes[1..])
  }

  /** The first model the loader yields in a series of calls, if any. */
  function FirstLoaded(outcomes: seq<LoadOutcome>): Option<Handle>
    decreases |outcomes|
  {
    if outcomes == [] then None
    else if outcomes[0].Loaded? then Some(outcomes[0].handle)
    else FirstLoaded(outcomes[1..])
  }

  /** A cached model survives any series of calls. */
  lemma {:induction false} CachedSurvivesCalls(h: Handle, outcomes: seq<LoadOutcome>)
    ensures CacheAfterCalls(Some(h), outcomes) == Some(h)
    decreases |outcomes|
  {
    if outcomes != [] {
      CachedSurvivesCalls(h, outcomes[1..]);
    }
  }

  /** Starting from an empty cache, the model in use after any series of calls
      is the first one the loader yielded: failed loads are retried, and the
      first load, mismatched or not, is the one that is kept. */
  lemma {:induction false} CacheIsFirstLoaded(outcomes: seq<LoadOutcome>)
    ensures CacheAfterCalls(None, outcomes) == FirstLoaded(outcomes)
    decreases |outcomes|
  {
    if outcomes != [] {
      if outcomes[0].Loaded? {
        CachedSurvivesCalls(outcomes[0].handle, outcomes[1..]);
      } else {
        CacheIsFirstLoaded(outcomes[1..]);
      }
    }
  }

  /** What `load_model_and_predict` returns or raises for one image: the load
      comes first and its error is raised as is; then preprocessing and the
      forward pass, and last the shaping of the output row. */
  function PredictResult(cached: Option<Handle>, outcome: LoadOutcome, pass: ForwardPass, order: seq<nat>): Result<Prediction, Error>
    requires pass.Output? ==> IsArgsort(order, pass.scores)
  {
    match LoadOnceResult(cached, outcome)
    case Failure(e) => Failure(e)
    case Success(_) =>
      match pass
      case Failed => Failure(ForwardFailed)
      case Output(scores) => Shaped(ClassNames, scores, order)
  }

  /** The order of the failures: a load error wins over everything, a failed
      forward pass over the shaping errors; a prediction needs a model and an
      output row, and is then the shaped row. */
  lemma PredictResultSteps(cached: Option<Handle>, outcome: LoadOutcome, pass: ForwardPass, order: seq<nat>)
    requires pass.Output? ==> IsArgsort(order, pass.scores)
    ensures LoadOnceResult(cached, outcome).Failure? ==>
      PredictResult(cached, outcome, pass, order) == Failure(LoadOnceResult(cached, outcome).error)
    ensures LoadOnceResult(cached, outcome).Success? && pass.Failed? ==>
      PredictResult(cached, outcome, pass, order) == Failure(ForwardFailed)
    ensures PredictResult(cached, outcome, pass, order).Success? <==>
      LoadOnceResult(cached, outcome).Success? && pass.Output? &&
      Shaped(ClassNames, pass.scores, order).Success?
  {
  }

  /** With a model of the expected width, whose output row has one score per
      class, every image that gets through the forward pass is predicted. The
      converse is `IndexErrorNeedsMismatch`. */
  lemma ExpectedWidthAlwaysPredicts(h: Handle, outcome: LoadOutcome, scores: seq<real>, order: seq<nat>)
    requires h.outputDim == NumClasses && |scores| == h.outputDim
    requires IsArgsort(order, scores)
    ensures PredictResult(Some(h), outcome, Output(scores), order).Success?
  {
    ShapedErrors(ClassNames, scores, order);
    ArgMaxBelow(scores, |ClassNames|);
  }

  /** The converse: when the model in use yields one score per output and
      the index check fires, that model has the wrong width and was already
      cached before the call, kept by an earlier call that raised on it. */
  lemma IndexErrorNeedsMismatch(cached: Option<Handle>, outcome: LoadOutcome, h: Handle, scores: seq<real>, order: seq<nat>)
    requires IsArgsort(order, scores) && |scores| == h.outputDim
    requires LoadOnceResult(cached, outcome) == Success(h)
    requires PredictResult(cached, outcome, Output(scores), order).Failure?
    requires PredictResult(cached, outcome, Output(scores), order).error.IndexOutOfRange?
    ensures h.outputDim != NumClasses && cached == Some(h)
  {
    if |scores| > 0 && h.outputDim == NumClasses {
      ShapedShortRow(ClassNames, scores, order);
    }
  }

  /** The Python module's global `_model`. */
  class ModelCache {
    var model: Option<Handle>
    /** How many times the Keras loader has been called. */
    ghost var loaderCalls: nat

    /** Module import: nothing is loaded yet. */
    constructor ()
      ensures model == None && loaderCalls == 0
    {
      model := None;
      loaderCalls := 0;
    }

    /** `load_model_once`: call the loader only while nothing is cached, store
        what it yields, then check its output width. */
    method LoadModelOnce(outcome: LoadOutcome) returns (r: Result<Handle, Error>)
      modifies this
      ensures r == LoadOnceResult(old(model), outcome)
      ensures model == CachedAfter(old(model), outcome)
      ensures loaderCalls == old(loaderCalls) + (if old(model).None? then 1 else 0)
    {
      if model.None? {
        loaderCalls := loaderCalls + 1;
        match outcome
        case Loaded(h) =>
          model := Some(h);
          if h.outputDim != NumClasses {
            return Failure(OutputSizeMismatch(h.outputDim));
          }
        case _ =>
          return Failure(LoadFailed);
      }
      r := Success(model.value);
    }

    /** `load_model_and_predict`, given what the loader would yield and what
        preprocessing and the forward pass yield for the image. */
    method LoadModelAndPredict(outcome: LoadOutcome, pass: ForwardPass, order: seq<nat>)
      returns (r: Result<Prediction, Error>)
      requires pass.Output? ==> IsArgsort(order, pass.scores)
      modifies this
      ensures r == PredictResult(old(model), outcome, pass, order)
      ensures model == CachedAfter(old(model), outcome)
      ensures loaderCalls == old(loaderCalls) + (if old(model).None? then 1 else 0)
    {
      var loaded := LoadModelOnce(outcome);
      if loaded.Failure? {
        return Failure(loaded.error);
      }
      match pass
      case Failed =>
        r := Failure(ForwardFailed);
      case Output(scores) =>
        r := ShapeResult(scores, order);
    }
  }

  /** A freshly imported module whose first load yields a model of the wrong
      width raises once, then serves that model. */
  method MismatchThenServed(h: Handle, later: LoadOutcome) returns (first: Result<Handle, Error>, second: Result<Handle, Error>)
    requires h.outputDim != NumClasses
    ensures first == Failure(OutputSizeMismatch(h.outputDim))
    ensures second == Success(h)
  {
    var cache := new ModelCache();
    first := cache.LoadModelOnce(Loaded(h));
    second := cache.LoadModelOnce(later);
  }

  /** A failed load is retried by the next call, which can succeed. */
  method FailedLoadRetried(h: Handle) returns (first: Result<Handle, Error>, second: Result<Handle, Error>)
    requires h.outputDim == NumClasses
    ensures first == Failure(LoadFailed)
    ensures second == Success(h)
  {
    var cache := new ModelCache();
    first := cache.LoadModelOnce(FileMissing);
    second := cache.LoadModelOnce(Loaded(h));
    assert cache.loaderCalls == 2;
  }

  /** A loaded model is reused: the second call does not consult the loader. */
  method LoadedModelReused(h: Handle, later: LoadOutcome) returns (first: Result<Handle, Error>, second: Result<Handle, Error>)
    requires h.outputDim == NumClasses
    ensures first == Success(h) && second == Success(h)
  {
    var cache := new ModelCache();
    first := cache.LoadModelOnce(Loaded(h));
    second := cache.LoadModelOnce(later);
    assert cache.loaderCalls == 1;
  }
}
