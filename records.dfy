/** Values the recipe browser receives from the recipe web service, once the
    JSON has been decoded. Only the fields the page reads are kept. */
module Records {

  /** A JSON value that may be `null` or absent (`data.meals`, `data.categories`). */
  datatype Option<+T> = None | Some(value: T)

  /** One meal summary of a `meals` list: its id, its name and its picture. */
  datatype Meal = Meal(idMeal: string, strMeal: string, strMealThumb: string)

  /** One entry of the `categories` list. */
  datatype Category = Category(strCategory: string, strCategoryThumb: string, strCategoryDescription: string)
  {
    /** The same entry seen as a generic JSON object, keyed by property name. */
    function AsRecord(): (r: Record)
      ensures "strCategory" in r && r["strCategory"] == strCategory
      ensures "strCategoryDescription" in r && r["strCategoryDescription"] == strCategoryDescription
    {
      map["strCategory" := strCategory,
          "strCategoryThumb" := strCategoryThumb,
          "strCategoryDescription" := strCategoryDescription]
    }
  }

  /** A JSON object whose properties are all strings, as the area and
      ingredient lists deliver them (`{strArea: "Italian"}`). */
  type Record = map<string, string>

  /** `item[key]` once it is converted to a string for the DOM: a missing
      property reads as `undefined`, whose string form is "undefined". */
  function Property(item: Record, key: string): (v: string)
    ensures key in item ==> v == item[key]
    ensures key !in item ==> v == "undefined"
  {
    if key in item then item[key] else "undefined"
  }
}
