# Recipe browser: filter dispatch and rendering

A model of the browser script of a recipe-browsing page built on TheMealDB
web API (`scripts.js`). The page holds four filter controls (search text,
category, area, ingredient). Each change handler blanks every control except
the one being edited and then runs a search. The search picks exactly one
endpoint by fixed priority: text, then category, then area, then ingredient,
and the bare `search.php?s=` when every control is empty. Responses are
rendered as HTML strings: a grid of meal cards, a grid of category cards, an
error banner, and the options of the filter drop-downs.

The Dafny project has four modules:

- `Records` (`records.dfy`): the decoded JSON values: `Meal`, `Category`, a
  generic string-valued `Record`, and `Option` for a list that may be
  `null`.
- `Filters` (`filters.dfy`): the filter state as a value, `Cleared` (what
  `clearFilters` leaves), the priority dispatcher `RequestUrl`, a reader
  `Criterion` that recovers the control and text from a request URL, and the
  page-load choice `InitialRequest`. The lemmas state the priority order, the
  all-empty fallback and what each handler requests.
- `Markup` (`markup.dfy`): the HTML builders as functions. A card is the
  concatenation of its fixed fragments and its fields, with the exact text and
  whitespace of the templates. The lemmas say what every page shows, in which
  order, and that an error banner gives back its message.
- `RecipePage` (`page.dfy`): class `Page`, whose fields stand for the DOM state
  the script changes. These are the four control values, the options of the
  three drop-downs, the categories menu and the content area. The handlers
  and renderers are methods: `clearFilters` and the renderers loop as the
  script does, and each is proved against the `Filters` or `Markup` function
  that specifies it. A network request is the `MealRequest` (URL and issuing
  code path) a handler returns. Its response arrives through a `Receive…`
  method.

Four behaviours of the code are easy to misread, and the model keeps them as
written:

- With every control empty, the search is not refused. It requests the bare
  `search.php?s=` (`Filters.AllEmptyFallsBack`).
- A response whose `meals` is an empty array is truthy in JavaScript. It
  renders an empty grid, not the "no meals" banner. Only a `null` or absent
  list gives the banner (`RecipePage.Page.ReceiveMeals`).
- `displayCategories` replaces the content. It does not append.
- The first option of a filter drop-down is labelled from the JSON key, so it
  reads `All StrCategorys`, `All StrAreas` and `All StrIngredients`
  (`Markup.AllCategoriesLabel`, `Markup.AllAreasLabel`,
  `Markup.AllIngredientsLabel`).

## Model

| member | source | states |
|---|---|---|
| `Filters.Cleared` | scripts.js:36-43 | the edited control keeps its text; every other control is "" |
| `Filters.HandlerDependsOnEditedFieldOnly` | scripts.js:36-43 | two states that agree on the edited control are equal after clearing, so they request the same URL |
| `Filters.Endpoint` | scripts.js:209-215 | every endpoint is an API URL of the same length ending in `=`; the text-search endpoint, and only it, is the bare search URL |
| `Filters.LetterUrl` | scripts.js:115 | the letter-browse URL ends with the letter and is none of the four requests a search can issue |
| `Filters.RequestUrl` | scripts.js:207-216 | the search URL is an API URL, and it is the bare search exactly when no control is active |
| `Filters.FirstActiveIsFirstNonEmpty` | scripts.js:208-216 | the if/else-if chain picks control f exactly when f holds text and every control tried before it is empty (both directions) |
| `Filters.FirstActiveNoneIffAllEmpty` | scripts.js:208-216 | the chain picks nothing exactly when every control it tries is empty |
| `Filters.ActiveIsHighestNonEmpty` | scripts.js:208-216 | the active control is the highest-priority control holding text (text > category > area > ingredient), both directions |
| `Filters.NoneActiveIffAllEmpty` | scripts.js:207-216 | no control is active exactly when all four are empty |
| `Filters.RequestUrlByPriority` | scripts.js:207-216 | a non-empty control whose higher-priority controls are all empty decides the URL: its endpoint followed by its text |
| `Filters.SearchTextWins` | scripts.js:208-209 | non-empty search text always requests `search.php?s=<text>`, whatever the other controls hold |
| `Filters.AllEmptyFallsBack` | scripts.js:207 | with all four controls empty the search is not refused; it requests the bare `.../search.php?s=` |
| `Filters.LowerPriorityIgnored` | scripts.js:210-216 | changing a control ranked below the active one does not change the URL |
| `Filters.HandlerRequest` | scripts.js:16-34 | after a handler clears the others, the URL is the edited control's endpoint with its text, or the bare search when that text is empty |
| `Filters.HandlerLeavesOnlyEditedActive` | scripts.js:16-34 | after a handler, the edited control is the only one that can be active (the category stays the sole criterion after a category change) |
| `Filters.EndpointsDistinct` | scripts.js:209-215 | no endpoint is a prefix of a URL built from another endpoint |
| `Filters.CriterionOfEndpoint` | scripts.js:209-215 | reading back a URL built from an endpoint gives that endpoint's control and the appended text |
| `Filters.RequestUrlNamesCriterion` | scripts.js:207-216 | reading back the request URL gives the active control and its text, or the search box with "" when none is active |
| `Filters.InitialRequest` | scripts.js:7-13 | on load, a present non-empty `category` parameter requests the same URL a category change to it would; otherwise meals by letter `a`, with the letter-browse message |
| `Markup.MealCard` | scripts.js:186-195 | a meal card opens the column `div` with the picture and ends by closing the card after its link |
| `Markup.MealsPage` | scripts.js:182-199 | the meals content opens with the `Meals` heading and row, ends with `</div>`, and is an empty row for an empty list |
| `Markup.CardsAppend` | scripts.js:185-196 | the cards of two lists joined are the cards of the first followed by those of the second |
| `Markup.CardsExtend` | scripts.js:185-196 | one more loop step appends exactly that item's card |
| `Markup.CardsAt` | scripts.js:185-196 | item i's card stands after the cards of items before it and before those after it (input order) |
| `Markup.MealCardShowsMeal` | scripts.js:186-195 | a meal card contains `meal.html?id=<idMeal>` and the title tag with `strMeal` |
| `Markup.GridLayout` | scripts.js:184-198 | a grid is its heading, the cards before item i, item i's card, the cards after it, and `</div>` |
| `Markup.GridShowsCard` | scripts.js:184-198 | every item's card, and anything its card contains, occurs in the grid |
| `Markup.MealsPageLayout` | scripts.js:182-199 | the meals content is the `Meals` heading and row opening, the cards in input order, then `</div>` |
| `Markup.MealsPageShowsEveryMeal` | scripts.js:182-199 | every meal of the list is linked by id and named on the page |
| `Markup.TeriyakiChickenExample` | scripts.js:182-199 | a one-meal response for id 52772 "Teriyaki Chicken" contains `meal.html?id=52772` and the name |
| `Markup.Excerpt` | scripts.js:141 | the excerpt is the prefix of the description of length min(100, length); a description of at most 100 characters is shown whole |
| `Markup.CategoryCard` | scripts.js:135-145 | a category card opens the column `div` with the picture and ends by closing the card after its link |
| `Markup.CategoriesPage` | scripts.js:131-149 | the categories content opens with the `Meal Categories` heading and row, ends with `</div>`, and is an empty row for an empty list |
| `Markup.CategoryCardShowsCategory` | scripts.js:135-145 | a category card contains its excerpt followed by `...` and the link `index.html?category=<strCategory>` |
| `Markup.CategoriesPageLayout` | scripts.js:131-149 | the categories content is the `Meal Categories` heading, the cards in input order, then `</div>` |
| `Markup.CategoriesPageShowsEveryCategory` | scripts.js:131-149 | every category's excerpt paragraph and link are on the page |
| `Markup.ErrorBanner` | scripts.js:236-239 | the banner is a danger alert, closed by `</div>`, that contains the message |
| `Markup.BannerRoundTrip` | scripts.js:236-239 | the error banner gives back exactly the message it was built from |
| `Markup.MealsPageIsNotBanner` | scripts.js:224-228 | a meals grid is never read as an error banner, so the two branches are told apart |
| `Markup.Capitalized` | scripts.js:48 | capitalising keeps the length and every character after the first, and upper-cases the first |
| `Markup.AllOption` | scripts.js:48 | the first option of a drop-down has the empty value, so choosing it clears that filter, and reads `All …` |
| `Markup.ItemOption` | scripts.js:50-53 | an item's option shows the same text it selects, `item[key]` |
| `Markup.CapitalizedChangesFirstLetterOnly` | scripts.js:48 | capitalising keeps the length and every character after the first, upper-cases a lower-case ASCII first letter, and is idempotent |
| `Markup.AllCategoriesLabel` | scripts.js:101 | the category drop-down's first option has value "" and reads `All StrCategorys` |
| `Markup.AllAreasLabel` | scripts.js:64 | the area drop-down's first option has value "" and reads `All StrAreas` |
| `Markup.AllIngredientsLabel` | scripts.js:82 | the ingredient drop-down's first option has value "" and reads `All StrIngredients` |
| `Markup.FilterOptionsExtend` | scripts.js:49-54 | each loop step appends exactly the option of the next item |
| `Markup.FilterOptions` | scripts.js:48-54 | the options are the empty-valued "All" option, then one per item in order with value and text both `item[key]` |
| `Markup.CategoryMenu` | scripts.js:155-161 | one menu link per category, in order, to `index.html?category=<strCategory>` with the category as text |
| `Markup.MenuMatchesCards` | scripts.js:131-162 | each menu link also appears on the categories grid |
| `Records.Property` | scripts.js:51-52 | `item[key]` is the property when present and `undefined` when missing |
| `RecipePage.NoMealsMessage` | scripts.js:222-228 | each meal request path has its own "No meals found for the selected …" message (also lines 122 and 173) |
| `RecipePage.NoMealsMessagesDistinct` | scripts.js:222-228 | two paths give the same "no meals" message only when they are the same path, so the banner names the path (lines 122, 173, 227) |
| `RecipePage.ChoosingOptionRequests` | scripts.js:21-54 | picking drop-down option k then running its handler requests that option's value through the control's endpoint; the "All" option requests the bare search |
| `RecipePage.Page.SetValue` | scripts.js:40 | one control gets the new text and the other three keep theirs |
| `RecipePage.Page.ClearFilters` | scripts.js:36-43 | the loop over the four controls leaves exactly `Cleared(old state, keep)` |
| `RecipePage.Page.SearchMeals` | scripts.js:201-228 | the if/else-if chain on a mutable `url` requests `RequestUrl` of the current controls, and an empty answer reports "no meals for the selected criteria" |
| `RecipePage.Page.HandleSearchInput` | scripts.js:16-19 | controls become `Cleared(old, search)`; URL is `search.php?s=<text>` or the bare search; the request is a criteria search |
| `RecipePage.Page.HandleCategoryChange` | scripts.js:21-24 | controls become `Cleared(old, category)`; URL is `filter.php?c=<category>` or the bare search; the request is a criteria search |
| `RecipePage.Page.HandleAreaChange` | scripts.js:26-29 | controls become `Cleared(old, area)`; URL is `filter.php?a=<area>` or the bare search; the request is a criteria search |
| `RecipePage.Page.HandleIngredientChange` | scripts.js:31-34 | controls become `Cleared(old, ingredient)`; URL is `filter.php?i=<ingredient>` or the bare search; the request is a criteria search |
| `RecipePage.Page.ShowError` | scripts.js:236-239 | the content becomes exactly the alert `div` around the message, and reads back as that message |
| `RecipePage.Page.DisplayMeals` | scripts.js:182-199 | the loop that grows the content string ends with `MealsPage(meals)`, which is not a banner |
| `RecipePage.Page.DisplayCategories` | scripts.js:131-149 | the loop ends with `CategoriesPage(categories)` as the content |
| `RecipePage.Page.ReceiveMeals` | scripts.js:222-228 | a list (even empty) renders the meals grid; null renders the banner with the "No meals found…" message of the path that issued the request, and only then is the content a banner |
| `RecipePage.Page.PopulateFilterDropdown` | scripts.js:45-55 | the drop-down's options become `FilterOptions(items, key)`, the others are untouched, and its value becomes "" |
| `RecipePage.Page.PopulateCategoriesMenu` | scripts.js:151-162 | the loop leaves the menu equal to `CategoryMenu(categories)` |
| `RecipePage.Page.ReceiveCategories` | scripts.js:97-106 | a list fills the menu, the category drop-down and the grid; null shows `Error fetching categories.` and changes nothing else |
| `RecipePage.Page.ReceiveAreas` | scripts.js:61-68 | a list fills the area drop-down; null shows `Error fetching areas.` |
| `RecipePage.Page.ReceiveIngredients` | scripts.js:79-86 | a list fills the ingredient drop-down; null shows `Error fetching ingredients.` |

## Left out

- Network requests, promise chains and JSON decoding are not modelled. A request is the URL a handler returns. A response is an `Option` of the decoded list, passed to a `Receive…` method.
- The `.catch` branches for transport failures are not modelled. Neither are their "check your internet connection" messages.
- DOM APIs are replaced by the fields of `RecipePage.Page`: `getElementById`, `createElement`, `appendChild`, `innerHTML` and `innerText`.
- `URLSearchParams` parsing of the page URL is not modelled. The `category` parameter is an `Option<string>` input to `Filters.InitialRequest`.
- Console logging is left out because it is diagnostic only.
- Out-of-order completion is not modelled. A slow earlier response may overwrite a later render in the browser; the model takes responses in whatever order the caller supplies them.
- The page's initial HTML (`index.html`) is not part of this model. `RecipePage.Page.constructor` starts with empty controls, options and content.
- `Final_Project 4/js/scripts.js` is a variant of the script that refuses an all-empty search and appends the categories grid. It is not modelled.
- Markup.UpperAscii: upper-cases only the ASCII letters, because JavaScript's full Unicode `toUpperCase` (for example `ß` becoming `SS`) is not modelled. The page only applies it to its ASCII keys.
- Markup.Excerpt: counts Unicode scalar values, whereas JavaScript's `substring(0, 100)` counts UTF-16 code units. The two differ only for characters outside the Basic Multilingual Plane.
- Records.Property: a missing property reads as `"undefined"`. A property holding `null`, a number or an object is not modelled, because records are maps from strings to strings.
- `Meal` and `Category` hold only the fields the page reads. A `Category` whose description is missing would throw inside the promise and end in the `.catch` branch. That case is not modelled.
