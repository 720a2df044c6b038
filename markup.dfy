/** The HTML the recipe browser writes into its content area and its
    drop-downs, as plain strings. Fields are interpolated as they are: the
    page escapes nothing. */
module Markup {
  import opened Records

  /** `t` occurs in `s`. */
  ghost predicate Contains(s: string, t: string)
  {
    exists k :: 0 <= k <= |s| && t <= s[k..]
  }

  /** `s` ends with `t`. */
  predicate EndsWith(s: string, t: string)
  {
    |t| <= |s| && s[|s| - |t|..] == t
  }

  lemma ContainsMiddle(a: string, b: string, c: string)
    ensures Contains(a + b + c, b)
  {
    var s := a + b + c;
    assert s[|a|..] == b + c;
  }

  lemma ContainsTransitive(s: string, t: string, u: string)
    requires Contains(s, t) && Contains(t, u)
    ensures Contains(s, u)
  {
    var k :| 0 <= k <= |s| && t <= s[k..];
    var m :| 0 <= m <= |t| && u <= t[m..];
    assert |u| <= |s| - (k + m);
    forall j | 0 <= j < |u| ensures s[k + m + j] == u[j] {
      assert u[j] == t[m + j];
      assert t[m + j] == s[k + m + j];
    }
    assert u <= s[k + m..];
  }

  // ---------------------------------------------------------------------
  // A grid of cards

  /** The cards of `items`, one after another, in input order. */
  function Cards<T>(items: seq<T>, card: T -> string): string
  {
    if items == [] then "" else card(items[0]) + Cards(items[1..], card)
  }

  lemma {:induction false} CardsAppend<T>(xs: seq<T>, ys: seq<T>, card: T -> string)
    ensures Cards(xs + ys, card) == Cards(xs, card) + Cards(ys, card)
  {
    if xs == [] {
      assert xs + ys == ys;
    } else {
      assert (xs + ys)[1..] == xs[1..] + ys;
      CardsAppend(xs[1..], ys, card);
    }
  }

  /** Growing the list by one item appends that item's card. */
  lemma CardsExtend<T>(items: seq<T>, card: T -> string, i: nat)
    requires i < |items|
    ensures Cards(items[..i + 1], card) == Cards(items[..i], card) + card(items[i])
  {
    assert items[..i + 1] == items[..i] + [items[i]];
    CardsAppend(items[..i], [items[i]], card);
    assert [items[i]][1..] == [];
  }

  /** Item `i`'s card stands after the cards of the items before it and
      before the cards of the items after it. */
  lemma CardsAt<T>(items: seq<T>, card: T -> string, i: nat)
    requires i < |items|
    ensures Cards(items, card) == Cards(items[..i], card) + card(items[i]) + Cards(items[i + 1..], card)
  {
    assert items == items[..i + 1] + items[i + 1..];
    CardsAppend(items[..i + 1], items[i + 1..], card);
    CardsExtend(items, card, i);
  }

  /** A string made of `parts`, one after another. */
  function Concat(parts: seq<string>): string
  {
    if parts == [] then "" else parts[0] + Concat(parts[1..])
  }

  /** Every part occurs in the concatenation. */
  lemma {:induction false} ConcatContainsPart(parts: seq<string>, k: nat)
    requires k < |parts|
    ensures Contains(Concat(parts), parts[k])
  {
    if k == 0 {
      ContainsMiddle("", parts[0], Concat(parts[1..]));
      assert "" + parts[0] + Concat(parts[1..]) == Concat(parts);
    } else {
      ConcatContainsPart(parts[1..], k - 1);
      ContainsMiddle(parts[0], Concat(parts[1..]), "");
      assert parts[0] + Concat(parts[1..]) + "" == Concat(parts);
      ContainsTransitive(Concat(parts), Concat(parts[1..]), parts[k]);
    }
  }

  /** The concatenation starts with the first part and ends with the last. */
  lemma {:induction false} ConcatEnds(parts: seq<string>)
    requires parts != []
    ensures parts[0] <= Concat(parts)
    ensures EndsWith(Concat(parts), parts[|parts| - 1])
  {
    if |parts| > 1 {
      ConcatEnds(parts[1..]);
    }
  }

  const GridClose := "</div>"

  /** A heading, the cards of `items` in order, and the closing tag. */
  function Grid<T>(header: string, items: seq<T>, card: T -> string): (r: string)
    ensures header <= r && EndsWith(r, GridClose)
    ensures items == [] ==> r == header + GridClose
  {
    header + Cards(items, card) + GridClose
  }

  /** Item `i`'s card sits in the grid between the cards of the items before
      and after it. */
  lemma GridLayout<T>(header: string, items: seq<T>, card: T -> string, i: nat)
    requires i < |items|
    ensures Grid(header, items, card) ==
            (header + Cards(items[..i], card)) + card(items[i]) + (Cards(items[i + 1..], card) + GridClose)
  {
    CardsAt(items, card, i);
  }

  /** Every item's card occurs in the grid, and so does whatever its card contains. */
  lemma GridShowsCard<T>(header: string, items: seq<T>, card: T -> string, i: nat, t: string)
    requires i < |items| && Contains(card(items[i]), t)
    ensures Contains(Grid(header, items, card), card(items[i]))
    ensures Contains(Grid(header, items, card), t)
  {
    GridLayout(header, items, card, i);
    ContainsMiddle(header + Cards(items[..i], card), card(items[i]), Cards(items[i + 1..], card) + GridClose);
    ContainsTransitive(Grid(header, items, card), card(items[i]), t);
  }

  // The fixed fragments of a card, in the order they appear.
  const CardOpen := "\n            <div class=\"col-md-4 mb-4\">\n                <div class=\"card h-100\">\n                    <img src=\""
  const ImgAlt := "\" class=\"card-img-top\" alt=\""
  const ImgEnd := "\">\n                    <div class=\"card-body\">\n                        "
  const LineBreak := "\n                        "
  const LinkOpen := "<a href=\""
  const LinkMid := "\" class=\"btn btn-primary\">"
  const CardEnd := "</a>\n                    </div>\n                </div>\n            </div>"

  /** The heading of the card `h5`. */
  function TitleTag(title: string): string
  {
    "<h5 class=\"card-title\">" + title + "</h5>"
  }

  // ---------------------------------------------------------------------
  // Meals (`displayMeals`)

  const MealsHeader := "<h2 class=\"my-4\">Meals</h2><div class=\"row\">"

  /** The link to a meal's detail page. */
  function DetailLink(idMeal: string): string
  {
    "meal.html?id=" + idMeal
  }

  /** The fragments and fields of a meal card, in order. */
  function MealCardParts(m: Meal): seq<string>
  {
    [CardOpen, m.strMealThumb, ImgAlt, m.strMeal, ImgEnd, TitleTag(m.strMeal),
     LineBreak, LinkOpen, DetailLink(m.idMeal), LinkMid, "View Recipe", CardEnd]
  }

  /** A meal's card: a column that opens with the meal's picture and is
      closed after its link. */
  function MealCard(m: Meal): (r: string)
    ensures CardOpen <= r && EndsWith(r, CardEnd)
  {
    ConcatEnds(MealCardParts(m));
    Concat(MealCardParts(m))
  }

  /** The content `displayMeals` renders: the heading and the opened row,
      the cards, and the closed row; an empty list gives an empty row. */
  function MealsPage(meals: seq<Meal>): (r: string)
    ensures MealsHeader <= r && EndsWith(r, GridClose)
    ensures meals == [] ==> r == MealsHeader + GridClose
  {
    Grid(MealsHeader, meals, MealCard)
  }

  /** A meal's card links to the meal's detail page and shows its name. */
  lemma MealCardShowsMeal(m: Meal)
    ensures Contains(MealCard(m), DetailLink(m.idMeal))
    ensures Contains(MealCard(m), TitleTag(m.strMeal))
  {
    ConcatContainsPart(MealCardParts(m), 8);
    ConcatContainsPart(MealCardParts(m), 5);
  }

  /** The meals page is the heading, then the meals' cards in input order,
      then the closing tag; meal `i`'s card sits between those of the meals
      before and after it. */
  lemma MealsPageLayout(meals: seq<Meal>, i: nat)
    requires i < |meals|
    ensures MealsPage(meals) ==
            MealsHeader + Cards(meals[..i], MealCard) + MealCard(meals[i]) + Cards(meals[i + 1..], MealCard) + GridClose
  {
    GridLayout(MealsHeader, meals, MealCard, i);
  }

  /** Every meal of the list is linked and named on the meals page. */
  lemma MealsPageShowsEveryMeal(meals: seq<Meal>, i: nat)
    requires i < |meals|
    ensures Contains(MealsPage(meals), DetailLink(meals[i].idMeal))
    ensures Contains(MealsPage(meals), TitleTag(meals[i].strMeal))
    ensures Contains(MealsPage(meals), meals[i].strMeal)
  {
    var m := meals[i];
    MealCardShowsMeal(m);
    GridShowsCard(MealsHeader, meals, MealCard, i, DetailLink(m.idMeal));
    GridShowsCard(MealsHeader, meals, MealCard, i, TitleTag(m.strMeal));
    ContainsMiddle("<h5 class=\"card-title\">", m.strMeal, "</h5>");
    ContainsTransitive(MealsPage(meals), TitleTag(m.strMeal), m.strMeal);
  }

  /** A one-meal response for meal 52772, "Teriyaki Chicken", links to that
      meal's detail page and shows its name. */
  lemma TeriyakiChickenExample(meals: seq<Meal>)
    requires |meals| == 1 && meals[0].idMeal == "52772" && meals[0].strMeal == "Teriyaki Chicken"
    ensures Contains(MealsPage(meals), "meal.html?id=52772")
    ensures Contains(MealsPage(meals), "Teriyaki Chicken")
  {
    MealsPageShowsEveryMeal(meals, 0);
    assert DetailLink(meals[0].idMeal) == "meal.html?id=52772";
  }

  // ---------------------------------------------------------------------
  // Categories (`displayCategories`)

  const CategoriesHeader := "<h2 class=\"my-4\">Meal Categories</h2><div class=\"row\">"

  /** The first 100 characters of a description (all of it when shorter). */
  function Excerpt(description: string): (r: string)
    ensures |r| == if |description| < 100 then |description| else 100
    ensures r <= description
    ensures |description| <= 100 ==> r == description
  {
    description[..if |description| < 100 then |description| else 100]
  }

  /** The link a category card leads to: the index page for that category. */
  function CategoryLink(strCategory: string): string
  {
    "index.html?category=" + strCategory
  }

  /** The paragraph that shows a category's excerpt, followed by "...". */
  function ExcerptParagraph(description: string): string
  {
    "<p class=\"card-text\">" + Excerpt(description) + "...</p>"
  }

  /** The fragments and fields of a category card, in order. */
  function CategoryCardParts(c: Category): seq<string>
  {
    [CardOpen, c.strCategoryThumb, ImgAlt, c.strCategory, ImgEnd, TitleTag(c.strCategory),
     LineBreak, ExcerptParagraph(c.strCategoryDescription),
     LineBreak, LinkOpen, CategoryLink(c.strCategory), LinkMid, "View Meals", CardEnd]
  }

  /** A category's card: a column that opens with the category's picture
      and is closed after its link. */
  function CategoryCard(c: Category): (r: string)
    ensures CardOpen <= r && EndsWith(r, CardEnd)
  {
    ConcatEnds(CategoryCardParts(c));
    Concat(CategoryCardParts(c))
  }

  /** The content `displayCategories` renders: the heading and the opened
      row, the cards, and the closed row. */
  function CategoriesPage(categories: seq<Category>): (r: string)
    ensures CategoriesHeader <= r && EndsWith(r, GridClose)
    ensures categories == [] ==> r == CategoriesHeader + GridClose
  {
    Grid(CategoriesHeader, categories, CategoryCard)
  }

  /** A category's card shows its excerpt and links to its meals. */
  lemma CategoryCardShowsCategory(c: Category)
    ensures Contains(CategoryCard(c), ExcerptParagraph(c.strCategoryDescription))
    ensures Contains(CategoryCard(c), CategoryLink(c.strCategory))
  {
    ConcatContainsPart(CategoryCardParts(c), 7);
    ConcatContainsPart(CategoryCardParts(c), 10);
  }

  /** The categories page is the heading, then the categories' cards in
      input order, then the closing tag. */
  lemma CategoriesPageLayout(categories: seq<Category>, i: nat)
    requires i < |categories|
    ensures CategoriesPage(categories) ==
            CategoriesHeader + Cards(categories[..i], CategoryCard) + CategoryCard(categories[i])
            + Cards(categories[i + 1..], CategoryCard) + GridClose
  {
    GridLayout(CategoriesHeader, categories, CategoryCard, i);
  }

  /** Every category of the list shows its excerpt and its link on the page. */
  lemma CategoriesPageShowsEveryCategory(categories: seq<Category>, i: nat)
    requires i < |categories|
    ensures Contains(CategoriesPage(categories), ExcerptParagraph(categories[i].strCategoryDescription))
    ensures Contains(CategoriesPage(categories), CategoryLink(categories[i].strCategory))
  {
    var c := categories[i];
    CategoryCardShowsCategory(c);
    GridShowsCard(CategoriesHeader, categories, CategoryCard, i, ExcerptParagraph(c.strCategoryDescription));
    GridShowsCard(CategoriesHeader, categories, CategoryCard, i, CategoryLink(c.strCategory));
  }

  // ---------------------------------------------------------------------
  // Error banner (`showError`)

  const AlertOpen := "<div class=\"alert alert-danger\" role=\"alert\">"
  const AlertClose := "</div>"

  /** A danger alert, closed after the message it shows. */
  function ErrorBanner(message: string): (r: string)
    ensures AlertOpen <= r && EndsWith(r, AlertClose)
    ensures Contains(r, message)
  {
    ContainsMiddle(AlertOpen, message, AlertClose);
    AlertOpen + message + AlertClose
  }

  /** The message an error banner carries; `None` for anything that is not one. */
  function BannerMessage(html: string): Option<string>
  {
    if |html| >= |AlertOpen| + |AlertClose| && AlertOpen <= html && html[|html| - |AlertClose|..] == AlertClose
    then Some(html[|AlertOpen|..|html| - |AlertClose|])
    else None
  }

  /** The banner carries exactly the message it was given. */
  lemma BannerRoundTrip(message: string)
    ensures BannerMessage(ErrorBanner(message)) == Some(message)
  {
    var html := ErrorBanner(message);
    assert AlertOpen <= html;
    assert html[|html| - |AlertClose|..] == AlertClose;
    assert html[|AlertOpen|..|html| - |AlertClose|] == message;
  }

  /** A meal grid is never mistaken for an error banner. */
  lemma MealsPageIsNotBanner(meals: seq<Meal>)
    ensures BannerMessage(MealsPage(meals)) == None
  {
    var html := MealsPage(meals);
    assert html[1] == MealsHeader[1] == 'h';
    assert AlertOpen[1] == 'd';
  }

  // ---------------------------------------------------------------------
  // Drop-downs (`populateFilterDropdown`, `populateCategoriesDropdown`)

  datatype SelectOption = SelectOption(value: string, text: string)

  /** `toUpperCase` on one character, for the ASCII letters. */
  function UpperAscii(ch: char): char
  {
    if 'a' <= ch <= 'z' then (ch as int - 32) as char else ch
  }

  /** `key.charAt(0).toUpperCase() + key.slice(1)`. */
  function Capitalized(key: string): (r: string)
    ensures |r| == |key|
    ensures |key| > 0 ==> r[0] == UpperAscii(key[0])
    ensures forall i :: 0 < i < |key| ==> r[i] == key[i]
  {
    if key == [] then [] else [UpperAscii(key[0])] + key[1..]
  }

  /** Capitalizing changes at most the first character, and only a lower-case
      ASCII letter, into its upper-case form; doing it twice changes nothing more. */
  lemma CapitalizedChangesFirstLetterOnly(key: string)
    ensures |Capitalized(key)| == |key|
    ensures forall i :: 0 < i < |key| ==> Capitalized(key)[i] == key[i]
    ensures |key| > 0 && 'a' <= key[0] <= 'z' ==> Capitalized(key)[0] == key[0] - 'a' + 'A'
    ensures |key| > 0 && !('a' <= key[0] <= 'z') ==> Capitalized(key) == key
    ensures Capitalized(Capitalized(key)) == Capitalized(key)
  {
    if key != [] {
      assert Capitalized(key)[1..] == key[1..];
    }
  }

  /** The empty-valued first option of a filter drop-down, "All <Key>s". */
  function AllOption(key: string): (o: SelectOption)
    ensures o.value == "" && "All " <= o.text
  {
    SelectOption("", "All " + Capitalized(key) + "s")
  }

  // The labels of the three filter drop-downs, for the keys the page uses.

  lemma AllCategoriesLabel(key: string)
    requires key == "strCategory"
    ensures AllOption(key) == SelectOption("", "All StrCategorys")
  {
    assert key[0] == 's' && key[1..] == "trCategory";
    assert Capitalized(key) == "StrCategory";
  }

  lemma AllAreasLabel(key: string)
    requires key == "strArea"
    ensures AllOption(key) == SelectOption("", "All StrAreas")
  {
    assert key[0] == 's' && key[1..] == "trArea";
    assert Capitalized(key) == "StrArea";
  }

  lemma AllIngredientsLabel(key: string)
    requires key == "strIngredient"
    ensures AllOption(key) == SelectOption("", "All StrIngredients")
  {
    assert key[0] == 's' && key[1..] == "trIngredient";
    assert Capitalized(key) == "StrIngredient";
  }

  /** One option per item, value and text both `item[key]`. */
  function ItemOption(item: Record, key: string): (o: SelectOption)
    ensures o.value == o.text == Property(item, key)
  {
    SelectOption(Property(item, key), Property(item, key))
  }

  /** The options of a filter drop-down after it is populated. */
  function FilterOptions(items: seq<Record>, key: string): (r: seq<SelectOption>)
    ensures |r| == |items| + 1
    ensures r[0] == AllOption(key)
    ensures forall i :: 0 <= i < |items| ==>
              r[i + 1].value == r[i + 1].text == Property(items[i], key)
  {
    [AllOption(key)] + seq(|items|, i requires 0 <= i < |items| => ItemOption(items[i], key))
  }

  /** One more item appends its option. */
  lemma FilterOptionsExtend(items: seq<Record>, key: string, i: nat)
    requires i < |items|
    ensures FilterOptions(items[..i + 1], key) == FilterOptions(items[..i], key) + [ItemOption(items[i], key)]
  {
    var a, b := FilterOptions(items[..i + 1], key), FilterOptions(items[..i], key) + [ItemOption(items[i], key)];
    assert |a| == |b|;
    forall j | 0 <= j < |a| ensures a[j] == b[j] {
      if 0 < j <= i {
        assert items[..i + 1][j - 1] == items[..i][j - 1];
      }
    }
  }

  /** One entry of the categories menu. */
  datatype MenuLink = MenuLink(href: string, text: string)

  /** The categories menu: one link per category, in order, to its meals. */
  function CategoryMenu(categories: seq<Category>): (r: seq<MenuLink>)
    ensures |r| == |categories|
    ensures forall i :: 0 <= i < |categories| ==>
              r[i] == MenuLink(CategoryLink(categories[i].strCategory), categories[i].strCategory)
  {
    seq(|categories|, i requires 0 <= i < |categories| =>
      MenuLink(CategoryLink(categories[i].strCategory), categories[i].strCategory))
  }

  /** The categories menu and the categories grid lead to the same pages:
      the link of menu entry `i` is on the grid too. */
  lemma MenuMatchesCards(categories: seq<Category>, i: nat)
    requires i < |categories|
    ensures Contains(CategoriesPage(categories), CategoryMenu(categories)[i].href)
  {
    CategoriesPageShowsEveryCategory(categories, i);
  }
}
