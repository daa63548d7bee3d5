/** The class catalog both prediction paths hold (`CLASS_NAMES` in
    utils/predict.py, `self.classes` in model/predictor.py: the same fifteen
    names in the same order), and the health flag derived from a name. */
module Catalog {

  import opened Text

  /** Number of outputs the deployed model is expected to have. */
  const NumClasses: nat := 15

  /** Class names in the order of the model's outputs. */
  const ClassNames: seq<string> := [
    "Pepper__bell___Bacterial_spot",
    "Pepper__bell___healthy",
    "Potato___Early_blight",
    "Potato___Late_blight",
    "Potato___healthy",
    "Tomato_Bacterial_spot",
    "Tomato_Early_blight",
    "Tomato_Late_blight",
    "Tomato_Leaf_Mold",
    "Tomato_Septoria_leaf_spot",
    "Tomato_Spider_mites_Two_spotted_spider_mite",
    "Tomato__Target_Spot",
    "Tomato__Tomato_YellowLeaf__Curl_Virus",
    "Tomato__Tomato_mosaic_virus",
    "Tomato_healthy"
  ]

  /** The shared tail of both label parsers: given the pieces of a split,
      the first two (underscores read as spaces) when there are two, else the
      whole name (underscores read as spaces) and `Unknown`. */
  function PlantAndDisease(name: string, parts: seq<string>): (r: (string, string))
    ensures '_' !in r.0 && '_' !in r.1
  {
    if |parts| >= 2 then (ReplaceUnderscores(parts[0]), ReplaceUnderscores(parts[1]))
    else (ReplaceUnderscores(name), "Unknown")
  }

  /** Both copies of the catalog hold one distinct name per model output. */
  lemma ClassNamesDistinct()
    ensures |ClassNames| == NumClasses
    ensures forall i, j :: 0 <= i < j < |ClassNames| ==> ClassNames[i] != ClassNames[j]
  {
  }

  /** `'healthy' in name.lower()`: some position of the lower-cased name starts `healthy`. */
  predicate IsHealthy(name: string)
    ensures IsHealthy(name) <==> exists i: nat :: OccursAt(Lower(name), "healthy", i)
  {
    ContainsIff(Lower(name), "healthy");
    Contains(Lower(name), "healthy")
  }

  /** A name holding the letters of `healthy`, in lower case, from position `i` on is flagged healthy. */
  lemma HealthyAt(name: string, i: nat)
    requires i + 7 <= |name|
    requires name[i] == 'h' && name[i + 1] == 'e' && name[i + 2] == 'a' && name[i + 3] == 'l'
    requires name[i + 4] == 't' && name[i + 5] == 'h' && name[i + 6] == 'y'
    ensures IsHealthy(name)
  {
    var low := Lower(name);
    assert low[i..i + 7] == "healthy";
    ContainsIff(low, "healthy");
    assert OccursAt(low, "healthy", i);
  }

  /** `Pepper__bell___healthy` is flagged healthy. */
  lemma PepperBellHealthyFlagged(name: string)
    requires name == "Pepper__bell___healthy"
    ensures IsHealthy(name)
  {
    HealthyAt(name, 15);
  }

  /** `Potato___healthy` is flagged healthy. */
  lemma PotatoHealthyFlagged(name: string)
    requires name == "Potato___healthy"
    ensures IsHealthy(name)
  {
    HealthyAt(name, 9);
  }

  /** `Tomato_healthy` is flagged healthy. */
  lemma TomatoHealthyFlagged(name: string)
    requires name == "Tomato_healthy"
    ensures IsHealthy(name)
  {
    HealthyAt(name, 7);
  }

  /** The catalog's three `healthy` classes are flagged healthy. */
  lemma HealthyClasses(pepper: string, potato: string, tomato: string)
    requires pepper == ClassNames[1] && potato == ClassNames[4] && tomato == ClassNames[14]
    ensures IsHealthy(pepper) && IsHealthy(potato) && IsHealthy(tomato)
  {
    PepperBellHealthyFlagged(pepper);
    PotatoHealthyFlagged(potato);
    TomatoHealthyFlagged(tomato);
  }

  /** A name none of whose letters before its last six is an `h` or `H` is not flagged healthy. */
  lemma NotHealthy(name: string, k: nat)
    requires k <= |name| && |name| - k < 7
    requires 'h' !in name[..k] && 'H' !in name[..k]
    ensures !IsHealthy(name)
  {
    var low := Lower(name);
    ContainsIff(low, "healthy");
    forall i: nat
      ensures !OccursAt(low, "healthy", i)
    {
      if i < k {
        assert LowerChar(name[i]) != 'h' by {
          assert name[i] == name[..k][i];
        }
      }
    }
  }
}
