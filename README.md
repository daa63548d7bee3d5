# Plant disease prediction core, modelled in Dafny

This project models the deterministic logic that PDC_backend wraps around its
Keras image classifier. That logic lives in two files, which answer the same
question in two different ways.

- `utils/predict.py` is the path the Flask API uses. It covers:
  - a module-wide model that is loaded lazily and cached (`load_model_once`);
  - a label parser that tries `___` before `__` (`parse_class_name`);
  - the shaping of one output row into the JSON result (`load_model_and_predict`):
    - the top-1 index is the first maximum;
    - an index past the 15-name catalog raises an error;
    - the top three come from an ascending argsort, and indices past the catalog are skipped;
    - `is_healthy` is a substring test on the lower-cased label;
  - `get_supported_classes`.
- `model/predictor.py` is the `PlantDiseasePredictor` class. It differs in several ways:
  - it loads its model when it is built, and `load_model` never raises;
  - `predict` refuses to run without a model;
  - it splits labels on `___` only;
  - it does not check the model's output width;
  - it labels an index past its class list `Class_<idx>` instead of raising.

The model is organised as follows:

- `common.dfy`: the shared values. These are the loader outcome, the forward-pass
  outcome, the prediction record and the error causes. Each Python exception
  becomes a `Failure`.
- `text.dfy`: the Python string operations the parsers rely on:
  - `str.find` and `in`;
  - `str.split` as leftmost, non-overlapping cutting;
  - `str.replace('_', ' ')` and ASCII `lower`;
  - decimal rendering of an integer.
- `ranking.dfy`: the numpy operations on one output row:
  - `np.argmax`, specified as the first maximum;
  - `np.argsort`, given as a parameter constrained to be some valid ascending
    argsort, and shown always to exist;
  - the last-three-reversed top list;
  - the catalog filter.
- `catalog.dfy`: the 15-name catalog both files hold, and the health flag.
- `utils_predict.dfy`: `utils/predict.py`.
  - The module global `_model` is the class `ModelCache`.
  - The shaping step is specified by the function `Shaped`. That function takes
    the catalog as a parameter, `names`.
  - `ShapeResult` and its loop `CollectTopEntries` are proved against `Shaped`
    applied to `ClassNames`.
- `model_predictor.dfy`: `model/predictor.py`.
  - `PlantDiseasePredictor` is a class with the fields `model` and `classes`.
  - `predict` is specified by `PredictorResult` and `Predicted`.
  - The module also compares the two paths.
- `catalog_labels.dfy`: what both parsers make of concrete catalog names.

## Model

| member | source | states |
|---|---|---|
| Text.Find | utils/predict.py:87-89 | the leftmost occurrence of the substring (what `str.find` reports); `None` exactly when no position starts it |
| Text.ContainsIff | utils/predict.py:87 | `sub in s` holds exactly when some position of `s` starts `sub`; also lines 89 and 148 |
| Text.Split | utils/predict.py:88 | `str.split(sep)` yields at least one piece, and at least two exactly when `sep` occurs; the rest of its meaning is in `JoinSplit` and `SplitPiecesFree` |
| Text.JoinSplit | utils/predict.py:88 | joining the pieces of `str.split(sep)` with `sep` gives the string back, so no character is lost or invented by a split |
| Text.SplitPiecesFree | utils/predict.py:88-90 | no piece of a split contains the separator (leftmost, non-overlapping cutting) |
| Text.SplitAtFirst | utils/predict.py:87-88 | a string holding the separator splits into at least two pieces, the first being the text before its leftmost occurrence |
| Text.TripleHoldsDouble | utils/predict.py:87-90 | a string holding `___` also holds `__`, so the order of the two tests matters |
| Text.ReplaceUnderscores | utils/predict.py:92-99 | `replace('_', ' ')` keeps the length and leaves no underscore |
| Text.ParseNatToString | model/predictor.py:96 | the decimal rendering used in `f"Class_{idx}"` reads back as `idx` |
| Catalog.ClassNamesDistinct | utils/predict.py:18-34 | `CLASS_NAMES` (and the identical list at model/predictor.py:14-30, `Catalog.ClassNames`) holds `NUM_CLASSES` pairwise distinct names |
| Catalog.IsHealthy | utils/predict.py:148 | `'healthy' in label.lower()` holds exactly when some position of the lower-cased label starts `healthy`; also model/predictor.py:113 |
| Catalog.PlantAndDisease | utils/predict.py:94-99 | the shared tail of both parsers never returns a string holding `_` |
| Catalog.HealthyClasses | utils/predict.py:148 | the catalog's three `healthy` classes are flagged healthy by the lower-cased substring test |
| Catalog.NotHealthy | utils/predict.py:148 | a name with no `h`/`H` (before its last six characters) is not flagged healthy |
| Ranking.ArgMax | utils/predict.py:120-121 | the top-1 index is a valid index holding a score no smaller than any other, and no earlier index holds that score |
| Ranking.ArgMaxBelow | utils/predict.py:124-125 | the first maximum lies inside the catalog exactly when some index inside the catalog holds the maximum |
| Ranking.TopIndicesOrdered | utils/predict.py:133 | `argsort(...)[-3:][::-1]` has min(3, row length) distinct valid indices with non-increasing scores |
| Ranking.TopIndicesDominate | utils/predict.py:133 | no index left out of the top three scores higher than any index in it |
| Ranking.TopIndicesStartAtMax | utils/predict.py:133 | the first of the top three carries the maximum score that `np.argmax` finds |
| Ranking.ArgsortExists | utils/predict.py:133 | every score row has an ascending argsort (insertion sort of its indices) |
| Ranking.InCatalogMembers | utils/predict.py:136-137 | the in-catalog filter keeps exactly the indices below the catalog size |
| Ranking.InCatalogNonIncreasing | utils/predict.py:136-141 | dropping out-of-catalog indices keeps the rest in non-increasing score order |
| Ranking.InCatalogAll | utils/predict.py:136-137 | when every index is inside the catalog, nothing is skipped |
| UtilsPredict.ParseClassName | utils/predict.py:83-102 | neither the plant nor the disease contains `_` |
| UtilsPredict.ParseWithTripleSeparator | utils/predict.py:87-88 | with `___` present: the text before the first `___` and the text up to the next `___`, underscores as spaces; the `len(parts) < 2` fallback is never taken |
| UtilsPredict.ParseWithDoubleSeparator | utils/predict.py:89-90 | with `__` but no `___`: the text before the first `__` and the text up to the next `__`; the fallback is never taken |
| UtilsPredict.ParseWithoutSeparator | utils/predict.py:91-92 | without `__`: the whole name with spaces for underscores, and `Unknown` |
| UtilsPredict.ParsePlantDisease | utils/predict.py:87-97 | `plant___disease` parses back to its two parts |
| UtilsPredict.ParseVarietyDisease | utils/predict.py:87-97 | in `plant__variety___disease` the `__` is not a cut, because `___` is tried first |
| UtilsPredict.ParseDoublePlantDisease | utils/predict.py:89-97 | `plant__disease` without `___` parses back to its two parts |
| UtilsPredict.ParseThreePieces | utils/predict.py:89-97 | `plant__first__second`: the piece after the second `__` is discarded |
| UtilsPredict.ParsePlainName | utils/predict.py:91-92 | a name with no underscore run is all plant, disease `Unknown` |
| UtilsPredict.GetSupportedClasses | utils/predict.py:160-162 | `NUM_CLASSES` names, pairwise distinct |
| UtilsPredict.CatalogEntriesAppend | utils/predict.py:136-141 | entries of two runs of catalog indices are the entries of each, one after the other |
| UtilsPredict.KeptEntriesInCatalog | utils/predict.py:134-141 | the appending loop yields exactly the entries of the catalog indices among the top three, in order |
| UtilsPredict.CollectTopEntries | utils/predict.py:134-141 | the loop over the top three, skipping an index past the catalog, builds the specified entry list |
| UtilsPredict.ShapeResult | utils/predict.py:119-150 | the shaping steps yield the record specified by `Shaped` over the 15-name catalog |
| UtilsPredict.ShapedErrors | utils/predict.py:119-127 | an empty row raises; a first maximum past the catalog raises with that index; otherwise a record is returned |
| UtilsPredict.ShapedSucceedsIff | utils/predict.py:119-127 | a record is returned exactly when the row is non-empty and some index inside the catalog holds its maximum |
| UtilsPredict.ShapedShortRow | utils/predict.py:124-125 | a non-empty row no longer than the catalog never trips the index check |
| UtilsPredict.ShapedTop1 | utils/predict.py:119-148 | label is the catalog name of the first maximum, confidence its score (≥ all scores), plant/disease its parse, `is_healthy` iff the lower-cased label holds `healthy` |
| UtilsPredict.TopEntriesOrdered | utils/predict.py:133-141 | at most 3 entries and at most the row length, non-increasing confidences, every name in the catalog; exactly min(3, row length) entries when the row fits the catalog |
| UtilsPredict.TopEntriesMembers | utils/predict.py:133-141 | an entry is present exactly for each catalog index among the three best, with that index's name and score |
| UtilsPredict.TopEntriesDominate | utils/predict.py:133-141 | no score left out of the top three exceeds an entry's confidence, and no entry exceeds the top-1 score |
| UtilsPredict.LoadOnceKeepsCached | utils/predict.py:46-60 | once `_model` is set, every call returns it and keeps it, whatever the loader would do |
| UtilsPredict.LoadOnceCaches | utils/predict.py:46-60 | a returned model is the cached one; a loader failure leaves `_model` None; only a call that starts with no model can raise |
| UtilsPredict.MismatchAcceptedOnRetry | utils/predict.py:49-54 | a width mismatch raises on the loading call, but the model was already stored, so the next call returns it without error |
| UtilsPredict.CachedSurvivesCalls | utils/predict.py:46-60 | a cached model survives any series of calls |
| UtilsPredict.CacheIsFirstLoaded | utils/predict.py:46-60 | from an empty cache, the model in use after any series of calls is the first one the loader yielded: failures are retried, the first load is kept |
| UtilsPredict.PredictResultSteps | utils/predict.py:104-158 | a load error is raised first, then a failed forward pass; a prediction needs a model, an output row and a successful shaping |
| UtilsPredict.ExpectedWidthAlwaysPredicts | utils/predict.py:53-54 | with a 15-wide model already cached and a row of 15 scores, every forward pass yields a prediction |
| UtilsPredict.IndexErrorNeedsMismatch | utils/predict.py:49-54 | conversely, when the model in use yields one score per output and the index check at 124-125 fires, that model's width is not 15 and it was cached before the call |
| UtilsPredict.ModelCache.constructor | utils/predict.py:41 | at import nothing is loaded |
| UtilsPredict.ModelCache.LoadModelOnce | utils/predict.py:43-60 | the loader runs only when nothing is cached; result and new cache as `LoadOnceResult`/`CachedAfter` |
| UtilsPredict.ModelCache.LoadModelAndPredict | utils/predict.py:104-158 | load, then forward pass, then shaping, with the cache updated by the load |
| UtilsPredict.MismatchThenServed | utils/predict.py:49-60 | on a fresh module, a mismatched model raises once and is then served |
| UtilsPredict.FailedLoadRetried | utils/predict.py:46-58 | a failed load is retried by the next call, which can succeed |
| UtilsPredict.LoadedModelReused | utils/predict.py:46-60 | a model of the expected width is returned by the loading call and again by the next one, whatever the loader would then yield |
| ModelPredictor.ParseClassName | model/predictor.py:119-130 | neither part contains `_` |
| ModelPredictor.ParseWithoutTriple | model/predictor.py:127-128 | a name without `___` is all plant (underscores as spaces), disease `Unknown` |
| ModelPredictor.ParsersAgreeOnTriple | model/predictor.py:122-126 | on a name holding `___` both parsers give the text before the first `___` and the text up to the next one |
| ModelPredictor.ParsersDifferOnDouble | model/predictor.py:122-128 | on a name with `__` but no `___`, this parser returns the whole name and `Unknown`, and its plant is strictly longer than the utils parser's |
| ModelPredictor.ParsePlantDisease | model/predictor.py:122-126 | `plant___disease` parses back to its two parts |
| ModelPredictor.ParseVarietyDisease | model/predictor.py:122-126 | `plant__variety___disease` is cut at the `___` |
| ModelPredictor.ParseDoubleWhole | model/predictor.py:127-128 | `plant__disease` is not cut at all |
| ModelPredictor.ClassLabel | model/predictor.py:96 | an index in the list is labelled by its class name; past the list the label is `Class_` followed by digits that read back as the index (also line 104) |
| ModelPredictor.FallbackLabel | model/predictor.py:104-105 | a `Class_<idx>` label parses to (`Class <idx>`, `Unknown`), is not flagged healthy, and names its index |
| ModelPredictor.PredictedOutcome | model/predictor.py:80-117 | the only shaping error is an empty row; an index past the class list is never an error |
| ModelPredictor.PredictedTop1 | model/predictor.py:88-113 | first-maximum label and score; in-list index gives its class name, an index past the list a `Class_` label with plant `Class <idx>`, disease `Unknown`, not healthy; plant/disease is the parse; `is_healthy` iff the lower-cased label holds `healthy` |
| ModelPredictor.PredictedTop3 | model/predictor.py:92-101 | min(3, row length) entries, one per top index labelled as in `predict` (out-of-range kept as `Class_<idx>`), non-increasing, the first carrying the maximum, none below a left-out score |
| ModelPredictor.AgreesWithUtilsOnTop1 | model/predictor.py:88-104 | inside the catalog both paths give the same label, confidence and health flag; past it the utils path raises where this one labels |
| ModelPredictor.LabelledInCatalog | model/predictor.py:95-101 | for in-catalog indices the predictor's labelled entries are the utils path's catalog entries |
| ModelPredictor.AgreesWithUtilsOnTop3 | model/predictor.py:92-101 | a row no longer than the catalog gets the same top three from both paths |
| ModelPredictor.LoadedModelAnyWidth | model/predictor.py:34-45 | `load_model` keeps a model exactly when the loader yields one, of any width, where `load_model_once` raises on a mismatch |
| ModelPredictor.LabelTopEntries | model/predictor.py:95-101 | the top-3 loop appends one labelled entry per top index |
| ModelPredictor.PlantDiseasePredictor.constructor | model/predictor.py:8-32 | the class list is the catalog, and the model is what the first `load_model` leaves |
| ModelPredictor.PlantDiseasePredictor.LoadModel | model/predictor.py:34-45 | never raises; the model becomes the loaded one or None, dropping any model held before; only `model` changes |
| ModelPredictor.PlantDiseasePredictor.Predict | model/predictor.py:75-117 | raises "not loaded" exactly when there is no model, before the image is used; otherwise as `PredictorResult` |
| ModelPredictor.PlantDiseasePredictor.IsModelLoaded | model/predictor.py:47-49 | holds exactly when a model is held; `IsModelLoadedAfterLoad` ties it to the last load |
| ModelPredictor.PlantDiseasePredictor.GetClasses | model/predictor.py:132-134 | on a predictor whose class list is the catalog, the same 15 names `get_supported_classes` returns |
| ModelPredictor.IsModelLoadedAfterLoad | model/predictor.py:47-49 | after a load, `is_model_loaded` holds exactly when the loader yielded a model |
| ModelPredictor.MissingFileThenReload | model/predictor.py:34-78 | a predictor built without its file is not loaded and refuses to predict; a later successful `load_model` loads it |
| CatalogLabels.ParsePotatoEarlyBlight | utils/predict.py:87-97 | `Potato___Early_blight` → (`Potato`, `Early blight`) |
| CatalogLabels.ParsePepperBellHealthy | utils/predict.py:87-97 | `Pepper__bell___healthy` → (`Pepper  bell`, `healthy`), two spaces |
| CatalogLabels.ParseTargetSpot | utils/predict.py:89-97 | `Tomato__Target_Spot` → (`Tomato`, `Target Spot`) |
| CatalogLabels.ParseYellowLeafCurl | utils/predict.py:89-97 | `Tomato__Tomato_YellowLeaf__Curl_Virus` → (`Tomato`, `Tomato YellowLeaf`), third piece dropped |
| CatalogLabels.ParseTomatoHealthy | utils/predict.py:91-92 | `Tomato_healthy` → (`Tomato healthy`, `Unknown`) |
| CatalogLabels.PredictorPotatoEarlyBlight | model/predictor.py:122-126 | `Potato___Early_blight` → (`Potato`, `Early blight`) |
| CatalogLabels.PredictorPepperBellHealthy | model/predictor.py:122-126 | `Pepper__bell___healthy` → (`Pepper  bell`, `healthy`) |
| CatalogLabels.PredictorTargetSpot | model/predictor.py:127-128 | `Tomato__Target_Spot` → (`Tomato  Target Spot`, `Unknown`) |
| CatalogLabels.PredictorTomatoHealthy | model/predictor.py:127-128 | `Tomato_healthy` → (`Tomato healthy`, `Unknown`) |

Two consequences of the code are worth stating:

- `Tomato_healthy` has no double underscore. Both parsers therefore return
  (`Tomato healthy`, `Unknown`). Its `is_healthy` flag is still true.
- An index past the catalog can only come from a row with more than 15 scores,
  never from a shorter one (`ShapedShortRow`). When the row has one score per
  model output, the index check fires only for a model of the wrong width
  that an earlier call cached while raising on it (`IndexErrorNeedsMismatch`).

## Left out

- Keras itself is not part of this model: `load_model`, `model.predict`, `output_shape`.
  - A load is the parameter `LoadOutcome`: file missing, corrupt, or a handle with an output width.
  - Preprocessing plus the forward pass is the parameter `ForwardPass`: failed, or one row of scores.
  - The path from `MODEL_PATH`/`os.getenv`, the `model_path` argument of `PlantDiseasePredictor.__init__`
    (default `model/plant_disease_model.h5`) and `os.path.exists` are folded into `LoadOutcome`.
- `preprocess_image` in both files is not modelled: image decoding, RGB conversion, resizing and
  `/255.0` normalisation are library code and floating point. Its failure is the `Failed` forward pass.
- Scores are real numbers. NaN, infinities and float comparison quirks are not modelled.
- `UtilsPredict.ShapeResult`: does not round confidences to four decimals (`round(..., 4)`). The
  record and its top-3 entries carry the raw score, because float rounding has no faithful model on reals.
- `UtilsPredict.ShapedTop1`: states the unrounded confidence, for the same reason.
- `UtilsPredict.TopEntriesOrdered`: states the order of unrounded confidences. Rounding can turn a
  strict order into a tie, but it cannot reverse it.
- Which of several tied indices `np.argsort` puts first (its default sort is not stable) is not modelled.
  Every statement holds for any valid ascending argsort.
- Python's `lower()` is modelled on ASCII letters only. The catalog and the `Class_` labels are ASCII.
- `validate_model` is not modelled. It calls `load_model_once`, so it can fill `_model`, a mismatched
  model included. It then compares the shapes that the library reports, only warns on an input-shape
  mismatch, and returns False instead of raising.
- The `except` branch of both parsers is not modelled: no exception can arise there for a string argument.
- The exception texts are not modelled. Each cause is a constructor of `Error`:
  - `load_model_once` wraps both a loader failure and a width mismatch in one `Exception`;
  - `load_model_and_predict` wraps every cause in "Prediction failed".
- Logging and `print` are not modelled.
- The unlocked first-load race on `_model` between concurrent requests is not modelled.
- `get_supported_classes` returns a copy and `get_classes` returns the object's own list. Both are
  values here, so aliasing through the returned list is not modelled.
- `ModelCache.loaderCalls` is a ghost counter of loader calls. It is not in the source; it states
  "loads once".
- app.py, cors_update.py and the test scripts are not part of this model. They are HTTP glue and
  clients of a running server.
