/** Display-code translators (`src/i18n/translate.ts`): section, food-item and
    registration-step codes to Spanish labels; anything unlisted is shown as is. */
module Translate {
  import opened Wrappers

  /** The labels of `translateSectionName`'s `switch`, as a table. */
  const SectionLabels: map<string, string> := map[
    "liquids" := "Líquidos",
    "sweets" := "Dulces",
    "snacks" := "Snacks",
    "sweeteners" := "Endulzantes",
    "fats" := "Grasas",
    "dairy" := "Lácteos"
  ]

  /** The keys of the `dictionary` constant of `translateFoodItem`. The
      dictionary itself is the `match` of `FoodDictionary`, whose contract ties
      the two together: the solver decides a lookup of a literal key among
      thirty map entries unreliably, and whether a label is itself a key
      (`FoodItemIdempotentExceptSparklingWater`) is out of its reach without
      this set. */
  const FoodKeys: set<string> := {
    "water",
    "sparkling-water",
    "soda",
    "juice",
    "flavored-water",
    "chocolate",
    "ice-cream",
    "cookies",
    "candies",
    "french-fries",
    "popcorn",
    "nuts",
    "rice-snacks",
    "yoghurt",
    "fruit",
    "cereal-bars",
    "granola",
    "white-sugar",
    "honey",
    "brown-sugar",
    "butter",
    "oil",
    "margarine",
    "animal-fat",
    "vegetable-spray",
    "extra-virgin-olive-oil",
    "whole",
    "skimmed",
    "creams",
    "mayonnaise"
  }

  /** `dictionary[item]` for the `dictionary` constant of `translateFoodItem`:
      the value of a listed key, `None` (JavaScript's `undefined`) otherwise. */
  function FoodDictionary(item: string): (v: Option<string>)
    ensures v.Some? <==> item in FoodKeys
    ensures v.Some? ==> v.value != ""
  {
    match item
    case "water" => Some("agua")
    case "sparkling-water" => Some("soda")
    case "soda" => Some("gaseosas")
    case "juice" => Some("jugos")
    case "flavored-water" => Some("aguas saborizadas")
    case "chocolate" => Some("chocolate")
    case "ice-cream" => Some("helado")
    case "cookies" => Some("galletas")
    case "candies" => Some("caramelos")
    case "french-fries" => Some("papas fritas")
    case "popcorn" => Some("pochoclos")
    case "nuts" => Some("frutos secos")
    case "rice-snacks" => Some("snacks de arroz")
    case "yoghurt" => Some("yoghurt")
    case "fruit" => Some("fruta")
    case "cereal-bars" => Some("barritas de cereal")
    case "granola" => Some("granola")
    case "white-sugar" => Some("azúcar blanco")
    case "honey" => Some("miel")
    case "brown-sugar" => Some("azúcar moreno")
    case "butter" => Some("manteca")
    case "oil" => Some("aceite")
    case "margarine" => Some("margarina")
    case "animal-fat" => Some("grasa animal")
    case "vegetable-spray" => Some("rocío vegetal")
    case "extra-virgin-olive-oil" => Some("aceite de oliva virgen extra")
    case "whole" => Some("enteros")
    case "skimmed" => Some("descremados")
    case "creams" => Some("cremas")
    case "mayonnaise" => Some("mayonesas o aderezos")
    case _ => None
  }

  /** The labels of `renderStepName`'s `switch`, as a table. */
  const StepLabels: map<string, string> := map[
    "personalData" := "Datos personales",
    "currentStatus" := "Estado actual",
    "healthStatus" := "Estado de salud",
    "diet" := "Dieta",
    "routine" := "Rutina",
    "exercise" := "Ejercicio",
    "lifestyle" := "Estilo de vida"
  ]

  /** `translateSectionName`: the six section keys get their label, every other
      string is returned unchanged. No label is itself a key. */
  function TranslateSectionName(section: string): (r: string)
    ensures section in SectionLabels ==> r == SectionLabels[section] && r !in SectionLabels
    ensures section !in SectionLabels ==> r == section
  {
    if section in SectionLabels then SectionLabels[section] else section
  }

  /** `translateFoodItem`: `dictionary[item] || item`, so a key whose value were
      the empty string would fall back to the key itself. */
  function TranslateFoodItem(item: string): (r: string)
    ensures item in FoodKeys ==> r == FoodDictionary(item).value
    ensures item !in FoodKeys ==> r == item
  {
    match FoodDictionary(item)
    case Some(value) => if value != "" then value else item
    case None => item
  }

  /** `renderStepName`: the seven registration steps get their label, every
      other string is returned unchanged. No label is itself a step. */
  function RenderStepName(stepName: string): (r: string)
    ensures stepName in StepLabels ==> r == StepLabels[stepName] && r !in StepLabels
    ensures stepName !in StepLabels ==> r == stepName
  {
    if stepName in StepLabels then StepLabels[stepName] else stepName
  }

  /** No section label is itself a section key, so translating twice is
      translating once. */
  lemma SectionNameIdempotent(section: string)
    ensures TranslateSectionName(TranslateSectionName(section)) == TranslateSectionName(section)
  {
  }

  /** No step label is itself a step key, so rendering twice is rendering once. */
  lemma StepNameIdempotent(stepName: string)
    ensures RenderStepName(RenderStepName(stepName)) == RenderStepName(stepName)
  {
  }

  /** A section or step name is left unchanged exactly when it is not listed. */
  lemma SectionAndStepFixedPoints(s: string)
    ensures TranslateSectionName(s) == s <==> s !in SectionLabels
    ensures RenderStepName(s) == s <==> s !in StepLabels
  {
  }

  /** The food items that translate to themselves: every unlisted string, and
      the three listed items whose label is their own key. */
  lemma FoodItemFixedPoints(item: string)
    ensures TranslateFoodItem(item) == item <==>
              item !in FoodKeys || item == "chocolate" || item == "yoghurt" || item == "granola"
  {
  }

  /** `translateFoodItem` is idempotent everywhere except at "sparkling-water",
      whose label "soda" is itself a key ("sparkling-water" to "soda" to "gaseosas"). */
  lemma FoodItemIdempotentExceptSparklingWater(item: string)
    ensures TranslateFoodItem(TranslateFoodItem(item)) == TranslateFoodItem(item) <==> item != "sparkling-water"
  {
    if item == "sparkling-water" {
      assert TranslateFoodItem("soda") == "gaseosas";
    } else if item in FoodKeys {
      var text := FoodDictionary(item).value;
      assert text !in FoodKeys || text == "chocolate" || text == "yoghurt" || text == "granola";
      FoodItemFixedPoints(text);
    }
  }

  /** The chain of the only non-idempotent item, and the listed fixed points. */
  lemma FoodItemExamples()
    ensures TranslateFoodItem("sparkling-water") == "soda"
    ensures TranslateFoodItem("soda") == "gaseosas"
    ensures TranslateFoodItem("chocolate") == "chocolate"
    ensures TranslateFoodItem("yoghurt") == "yoghurt"
  {
  }
}
