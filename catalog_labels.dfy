/** What the label parsers make of some of the catalog's names: the one of
    utils/predict.py on one name of each shape the catalog uses, and the one
    of model/predictor.py where the two differ and where they agree. */
module CatalogLabels {

  import opened Text
  import opened Catalog
  import opened UtilsPredict
  import ModelPredictor

  lemma PepperWords()
    ensures Plain("Pepper") && PlainWord("bell") && Plain("healthy")
    ensures "Pepper" + "__" + "bell" == "Pepper__bell"
    ensures ReplaceUnderscores("Pepper__bell") == "Pepper  bell" && ReplaceUnderscores("healthy") == "healthy"
  {
  }

  /** `Pepper__bell___healthy` parses to (`Pepper  bell`, `healthy`), two spaces in the plant. */
  lemma ParsePepperBellHealthy(name: string)
    requires name == ClassNames[1]
    ensures ParseClassName(name) == ("Pepper  bell", "healthy")
  {
    assert name == "Pepper" + "__" + "bell" + "___" + "healthy";
    PepperWords();
    ParseVarietyDisease("Pepper", "bell", "healthy");
  }

  lemma PotatoWords()
    ensures Plain("Potato") && Plain("Early_blight")
    ensures ReplaceUnderscores("Potato") == "Potato" && ReplaceUnderscores("Early_blight") == "Early blight"
  {
  }

  /** `Potato___Early_blight` parses to (`Potato`, `Early blight`). */
  lemma ParsePotatoEarlyBlight(name: string)
    requires name == ClassNames[2]
    ensures ParseClassName(name) == ("Potato", "Early blight")
  {
    assert name == "Potato" + "___" + "Early_blight";
    PotatoWords();
    ParsePlantDisease("Potato", "Early_blight");
  }

  lemma TargetSpotWords()
    ensures Plain("Tomato") && PlainWord("Target_Spot")
    ensures ReplaceUnderscores("Tomato") == "Tomato" && ReplaceUnderscores("Target_Spot") == "Target Spot"
  {
  }

  /** `Tomato__Target_Spot` is cut at `__`: (`Tomato`, `Target Spot`). */
  lemma ParseTargetSpot(name: string)
    requires name == ClassNames[11]
    ensures ParseClassName(name) == ("Tomato", "Target Spot")
  {
    assert name == "Tomato" + "__" + "Target_Spot";
    TargetSpotWords();
    ParseDoublePlantDisease("Tomato", "Target_Spot");
  }

  lemma YellowLeafWords()
    ensures Plain("Tomato") && PlainWord("Tomato_YellowLeaf") && PlainWord("Curl_Virus")
  {
    PlainJoin("Tomato", "YellowLeaf");
    assert "Tomato" + "_" + "YellowLeaf" == "Tomato_YellowLeaf";
    PlainJoin("Curl", "Virus");
    assert "Curl" + "_" + "Virus" == "Curl_Virus";
  }

  lemma YellowLeafText()
    ensures ClassNames[12] == "Tomato" + "__" + "Tomato_YellowLeaf" + "__" + "Curl_Virus"
  {
    assert ClassNames[12] == "Tomato__Tomato_YellowLeaf__Curl_Virus";
    assert "Tomato" + "__" == "Tomato__";
    assert "Tomato__" + "Tomato_YellowLeaf" == "Tomato__Tomato_YellowLeaf";
    assert "Tomato__Tomato_YellowLeaf" + "__" == "Tomato__Tomato_YellowLeaf__";
    assert "Tomato__Tomato_YellowLeaf__" + "Curl_Virus" == "Tomato__Tomato_YellowLeaf__Curl_Virus";
  }

  lemma YellowLeafSpaces()
    ensures ReplaceUnderscores("Tomato") == "Tomato"
    ensures ReplaceUnderscores("Tomato_YellowLeaf") == "Tomato YellowLeaf"
  {
  }

  /** `Tomato__Tomato_YellowLeaf__Curl_Virus` is cut at `__` and its third piece
      is dropped: (`Tomato`, `Tomato YellowLeaf`). */
  lemma ParseYellowLeafCurl(name: string)
    requires name == ClassNames[12]
    ensures ParseClassName(name) == ("Tomato", "Tomato YellowLeaf")
  {
    YellowLeafText();
    YellowLeafWords();
    YellowLeafSpaces();
    ParseThreePieces("Tomato", "Tomato_YellowLeaf", "Curl_Virus");
  }

  lemma TomatoHealthyWords()
    ensures Plain("Tomato_healthy") && ReplaceUnderscores("Tomato_healthy") == "Tomato healthy"
  {
  }

  /** `Tomato_healthy` has no double underscore: (`Tomato healthy`, `Unknown`). */
  lemma ParseTomatoHealthy(name: string)
    requires name == ClassNames[14]
    ensures ParseClassName(name) == ("Tomato healthy", "Unknown")
  {
    assert name == "Tomato_healthy";
    TomatoHealthyWords();
    ParsePlainName(name);
  }

  /** The predictor class also cuts `Pepper__bell___healthy` at its `___`:
      (`Pepper  bell`, `healthy`). */
  lemma PredictorPepperBellHealthy(name: string)
    requires name == ClassNames[1]
    ensures ModelPredictor.ParseClassName(name) == ("Pepper  bell", "healthy")
  {
    assert name == "Pepper" + "__" + "bell" + "___" + "healthy";
    PepperWords();
    ModelPredictor.ParseVarietyDisease("Pepper", "bell", "healthy");
  }

  lemma TargetSpotWhole()
    ensures "Tomato" + "__" + "Target_Spot" == "Tomato__Target_Spot"
    ensures ReplaceUnderscores("Tomato__Target_Spot") == "Tomato  Target Spot"
  {
  }

  /** The predictor class does not cut at `__`: `Tomato__Target_Spot` gives
      (`Tomato  Target Spot`, `Unknown`), where utils/predict.py gives
      (`Tomato`, `Target Spot`). */
  lemma PredictorTargetSpot(name: string)
    requires name == ClassNames[11]
    ensures ModelPredictor.ParseClassName(name) == ("Tomato  Target Spot", "Unknown")
  {
    assert name == "Tomato" + "__" + "Target_Spot";
    TargetSpotWords();
    TargetSpotWhole();
    ModelPredictor.ParseDoubleWhole("Tomato", "Target_Spot");
  }

  /** Both parsers read `Tomato_healthy` as (`Tomato healthy`, `Unknown`). */
  lemma PredictorTomatoHealthy(name: string)
    requires name == ClassNames[14]
    ensures ModelPredictor.ParseClassName(name) == ("Tomato healthy", "Unknown")
  {
    assert name == "Tomato_healthy";
    TomatoHealthyWords();
    PlainHoldsNone(name, "___");
    ModelPredictor.ParseWithoutTriple(name);
  }

  /** The predictor class also reads `Potato___Early_blight` as (`Potato`, `Early blight`). */
  lemma PredictorPotatoEarlyBlight(name: string)
    requires name == ClassNames[2]
    ensures ModelPredictor.ParseClassName(name) == ("Potato", "Early blight")
  {
    assert name == "Potato" + "___" + "Early_blight";
    PotatoWords();
    ModelPredictor.ParsePlantDisease("Potato", "Early_blight");
  }
}
