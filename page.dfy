/** The recipe browser page: its four filter controls, the options of its
    three filter drop-downs, the categories menu and the content area, and
    the handlers that change them. A request is modelled by the URL a
    handler returns; its response arrives later through a `Receive`
    method. */
module RecipePage {
  import opened Records
  import opened Filters
  import opened Markup

  // Messages of the banner shown when a response carries no list.
  const NoMealsForLetter := "No meals found for the selected letter."
  const NoMealsForCategory := "No meals found for the selected category."
  const NoMealsForCriteria := "No meals found for the selected criteria."
  const CategoriesError := "Error fetching categories."
  const AreasError := "Error fetching areas."
  const IngredientsError := "Error fetching ingredients."

  const NoMealsPrefix := "No meals found for the selected "

  /** The "no meals" message of each code path that asks for meals. */
  function NoMealsMessage(source: MealSource): (m: string)
    ensures NoMealsPrefix <= m
  {
    match source
    case LetterBrowse => NoMealsForLetter
    case CategoryBrowse => NoMealsForCategory
    case CriteriaSearch => NoMealsForCriteria
  }

  /** The "no meals" banner tells which code path found nothing. */
  lemma NoMealsMessagesDistinct(s: MealSource, t: MealSource)
    ensures NoMealsMessage(s) == NoMealsMessage(t) <==> s == t
  {
    var k := |NoMealsPrefix|;
    assert NoMealsForLetter[k] == 'l' && NoMealsForCategory[k] == 'c' && NoMealsForCriteria[k] == 'c';
    assert NoMealsForCategory[k + 2] == 't' && NoMealsForCriteria[k + 2] == 'i';
  }

  /** Choosing option `k` of a filter drop-down and letting its change
      handler run requests that option's value through the control's own
      endpoint; the "All" option (k == 0) and an empty item request the bare
      text search. */
  lemma ChoosingOptionRequests(fs: FilterState, f: Field, items: seq<Record>, key: string, k: nat)
    requires k <= |items|
    ensures var v := FilterOptions(items, key)[k].value;
            RequestUrl(Cleared(fs.Set(f, v), f)) == if v != "" then Endpoint(f) + v else BareSearchUrl
    ensures k == 0 ==> RequestUrl(Cleared(fs.Set(f, FilterOptions(items, key)[k].value), f)) == BareSearchUrl
  {
    var v := FilterOptions(items, key)[k].value;
    HandlerRequest(fs.Set(f, v), f);
  }

  class Page {
    // The `value` of the four filter controls.
    var searchInput: string
    var categoryFilter: string
    var areaFilter: string
    var ingredientFilter: string
    // The options of the three filter drop-downs.
    var categoryOptions: seq<SelectOption>
    var areaOptions: seq<SelectOption>
    var ingredientOptions: seq<SelectOption>
    // The links of the categories menu.
    var categoriesMenu: seq<MenuLink>
    // The `innerHTML` of the content area.
    var content: string

    constructor ()
      ensures Controls() == NoFilters
      ensures categoryOptions == areaOptions == ingredientOptions == []
      ensures categoriesMenu == [] && content == ""
    {
      searchInput, categoryFilter, areaFilter, ingredientFilter := "", "", "", "";
      categoryOptions, areaOptions, ingredientOptions := [], [], [];
      categoriesMenu, content := [], "";
    }

    /** The text of the four filter controls. */
    function Controls(): FilterState
      reads this
    {
      FilterState(searchInput, categoryFilter, areaFilter, ingredientFilter)
    }

    /** The options of a control; the search box has none. */
    function Options(f: Field): seq<SelectOption>
      reads this
    {
      match f
      case SearchInput => []
      case CategoryFilter => categoryOptions
      case AreaFilter => areaOptions
      case IngredientFilter => ingredientOptions
    }

    /** Gives one control the text `v`. */
    method SetValue(f: Field, v: string)
      modifies this`searchInput, this`categoryFilter, this`areaFilter, this`ingredientFilter
      ensures Controls() == old(Controls()).Set(f, v)
    {
      match f
      case SearchInput => searchInput := v;
      case CategoryFilter => categoryFilter := v;
      case AreaFilter => areaFilter := v;
      case IngredientFilter => ingredientFilter := v;
    }

    /** `clearFilters(keep)`: blanks every control except `keep`, visiting
        them in `Priority` order. */
    method ClearFilters(keep: Field)
      modifies this`searchInput, this`categoryFilter, this`areaFilter, this`ingredientFilter
      ensures Controls() == Cleared(old(Controls()), keep)
    {
      for i := 0 to |Priority|
        invariant forall j :: 0 <= j < i && Priority[j] != keep ==> Controls().Get(Priority[j]) == ""
        invariant forall j :: 0 <= j < |Priority| && (i <= j || Priority[j] == keep) ==>
                    Controls().Get(Priority[j]) == old(Controls()).Get(Priority[j])
      {
        if Priority[i] != keep {
          SetValue(Priority[i], "");
        }
      }
      forall f ensures Controls().Get(f) == Cleared(old(Controls()), keep).Get(f) {
        assert Priority[Rank(f)] == f;
      }
      SameControlsSameState(Controls(), Cleared(old(Controls()), keep));
    }

    /** The request `searchMeals` issues: the first of search text, category,
        area and ingredient that holds text, else the bare text search; an
        empty answer is reported as finding nothing for the criteria. */
    method SearchMeals() returns (req: MealRequest)
      ensures req.url == RequestUrl(Controls())
      ensures req.source == CriteriaSearch
    {
      var url := BareSearchUrl;
      if searchInput != "" {
        url := ApiBase + "search.php?s=" + searchInput;
        RequestUrlByPriority(Controls(), SearchInput);
      } else if categoryFilter != "" {
        url := ApiBase + "filter.php?c=" + categoryFilter;
        RequestUrlByPriority(Controls(), CategoryFilter);
      } else if areaFilter != "" {
        url := ApiBase + "filter.php?a=" + areaFilter;
        RequestUrlByPriority(Controls(), AreaFilter);
      } else if ingredientFilter != "" {
        url := ApiBase + "filter.php?i=" + ingredientFilter;
        RequestUrlByPriority(Controls(), IngredientFilter);
      } else {
        AllEmptyFallsBack(Controls());
      }
      req := MealRequest(url, CriteriaSearch);
    }

    method HandleSearchInput() returns (req: MealRequest)
      modifies this`searchInput, this`categoryFilter, this`areaFilter, this`ingredientFilter
      ensures Controls() == Cleared(old(Controls()), SearchInput)
      ensures req.url == RequestUrl(Controls())
      ensures req.url == if old(searchInput) != "" then Endpoint(SearchInput) + old(searchInput) else BareSearchUrl
      ensures req.source == CriteriaSearch
    {
      ClearFilters(SearchInput);
      req := SearchMeals();
      HandlerRequest(old(Controls()), SearchInput);
    }

    method HandleCategoryChange() returns (req: MealRequest)
      modifies this`searchInput, this`categoryFilter, this`areaFilter, this`ingredientFilter
      ensures Controls() == Cleared(old(Controls()), CategoryFilter)
      ensures req.url == RequestUrl(Controls())
      ensures req.url == if old(categoryFilter) != "" then Endpoint(CategoryFilter) + old(categoryFilter) else BareSearchUrl
      ensures req.source == CriteriaSearch
    {
      ClearFilters(CategoryFilter);
      req := SearchMeals();
      HandlerRequest(old(Controls()), CategoryFilter);
    }

    method HandleAreaChange() returns (req: MealRequest)
      modifies this`searchInput, this`categoryFilter, this`areaFilter, this`ingredientFilter
      ensures Controls() == Cleared(old(Controls()), AreaFilter)
      ensures req.url == RequestUrl(Controls())
      ensures req.url == if old(areaFilter) != "" then Endpoint(AreaFilter) + old(areaFilter) else BareSearchUrl
      ensures req.source == CriteriaSearch
    {
      ClearFilters(AreaFilter);
      req := SearchMeals();
      HandlerRequest(old(Controls()), AreaFilter);
    }

    method HandleIngredientChange() returns (req: MealRequest)
      modifies this`searchInput, this`categoryFilter, this`areaFilter, this`ingredientFilter
      ensures Controls() == Cleared(old(Controls()), IngredientFilter)
      ensures req.url == RequestUrl(Controls())
      ensures req.url == if old(ingredientFilter) != "" then Endpoint(IngredientFilter) + old(ingredientFilter) else BareSearchUrl
      ensures req.source == CriteriaSearch
    {
      ClearFilters(IngredientFilter);
      req := SearchMeals();
      HandlerRequest(old(Controls()), IngredientFilter);
    }

    /** `showError`: the content becomes a banner carrying `message`. */
    method ShowError(message: string)
      modifies this`content
      ensures content == ErrorBanner(message)
      ensures BannerMessage(content) == Some(message)
    {
      content := AlertOpen + message + AlertClose;
      BannerRoundTrip(message);
    }

    /** `displayMeals`: the content becomes the meals grid, built one card at a time. */
    method DisplayMeals(meals: seq<Meal>)
      modifies this`content
      ensures content == MealsPage(meals)
      ensures BannerMessage(content) == None
    {
      var html := MealsHeader;
      for i := 0 to |meals|
        invariant html == MealsHeader + Cards(meals[..i], MealCard)
      {
        CardsExtend(meals, MealCard, i);
        html := html + MealCard(meals[i]);
      }
      assert meals[..|meals|] == meals;
      content := html + GridClose;
      MealsPageIsNotBanner(meals);
    }

    /** `displayCategories`: the content becomes the categories grid. */
    method DisplayCategories(categories: seq<Category>)
      modifies this`content
      ensures content == CategoriesPage(categories)
    {
      var html := CategoriesHeader;
      for i := 0 to |categories|
        invariant html == CategoriesHeader + Cards(categories[..i], CategoryCard)
      {
        CardsExtend(categories, CategoryCard, i);
        html := html + CategoryCard(categories[i]);
      }
      assert categories[..|categories|] == categories;
      content := html + GridClose;
    }

    /** The response to a meal request: a list, even an empty one, is shown
        as a grid; a missing list gives the banner of the code path that
        issued the request. */
    method ReceiveMeals(request: MealRequest, meals: Option<seq<Meal>>)
      modifies this`content
      ensures meals.Some? ==> content == MealsPage(meals.value)
      ensures meals.None? ==> content == ErrorBanner(NoMealsMessage(request.source))
      ensures meals.None? <==> BannerMessage(content) == Some(NoMealsMessage(request.source))
    {
      if meals.Some? {
        DisplayMeals(meals.value);
      } else {
        ShowError(NoMealsMessage(request.source));
      }
    }

    /** `populateFilterDropdown`: the drop-down gets the "All" option, then
        one option per item in order. Replacing the options selects the
        first one, so the control's value becomes "". */
    method PopulateFilterDropdown(dropdown: Field, items: seq<Record>, key: string)
      requires dropdown != SearchInput
      modifies this`categoryOptions, this`areaOptions, this`ingredientOptions
      modifies this`searchInput, this`categoryFilter, this`areaFilter, this`ingredientFilter
      ensures Options(dropdown) == FilterOptions(items, key)
      ensures dropdown != CategoryFilter ==> categoryOptions == old(categoryOptions)
      ensures dropdown != AreaFilter ==> areaOptions == old(areaOptions)
      ensures dropdown != IngredientFilter ==> ingredientOptions == old(ingredientOptions)
      ensures Controls() == old(Controls()).Set(dropdown, "")
    {
      var options := [AllOption(key)];
      for i := 0 to |items|
        invariant options == FilterOptions(items[..i], key)
        modifies {}
      {
        FilterOptionsExtend(items, key, i);
        options := options + [ItemOption(items[i], key)];
      }
      assert items[..|items|] == items;
      match dropdown {
        case CategoryFilter => categoryOptions := options;
        case AreaFilter => areaOptions := options;
        case IngredientFilter => ingredientOptions := options;
      }
      SetValue(dropdown, "");
    }

    /** `populateCategoriesDropdown`: one menu link per category, in order. */
    method PopulateCategoriesMenu(categories: seq<Category>)
      modifies this`categoriesMenu
      ensures categoriesMenu == CategoryMenu(categories)
    {
      var links := [];
      for i := 0 to |categories|
        invariant links == CategoryMenu(categories[..i])
      {
        links := links + [MenuLink(CategoryLink(categories[i].strCategory), categories[i].strCategory)];
      }
      assert categories[..|categories|] == categories;
      categoriesMenu := links;
    }

    /** The categories response: menu, drop-down and grid, or the banner. */
    method ReceiveCategories(categories: Option<seq<Category>>)
      modifies this
      ensures categories.Some? ==>
                categoriesMenu == CategoryMenu(categories.value) &&
                categoryOptions == FilterOptions(seq(|categories.value|, i requires 0 <= i < |categories.value| =>
                                                   categories.value[i].AsRecord()), "strCategory") &&
                content == CategoriesPage(categories.value) &&
                Controls() == old(Controls()).Set(CategoryFilter, "")
      ensures categories.None? ==>
                content == ErrorBanner(CategoriesError) && categoriesMenu == old(categoriesMenu) &&
                categoryOptions == old(categoryOptions) && Controls() == old(Controls())
      ensures areaOptions == old(areaOptions) && ingredientOptions == old(ingredientOptions)
    {
      if categories.Some? {
        var cs := categories.value;
        PopulateCategoriesMenu(cs);
        PopulateFilterDropdown(CategoryFilter, seq(|cs|, i requires 0 <= i < |cs| => cs[i].AsRecord()), "strCategory");
        DisplayCategories(cs);
      } else {
        ShowError(CategoriesError);
      }
    }

    /** The areas response: the area drop-down, or the banner. */
    method ReceiveAreas(areas: Option<seq<Record>>)
      modifies this
      ensures areas.Some? ==>
                areaOptions == FilterOptions(areas.value, "strArea") &&
                Controls() == old(Controls()).Set(AreaFilter, "") && content == old(content)
      ensures areas.None? ==>
                content == ErrorBanner(AreasError) && areaOptions == old(areaOptions) && Controls() == old(Controls())
      ensures categoryOptions == old(categoryOptions) && ingredientOptions == old(ingredientOptions)
      ensures categoriesMenu == old(categoriesMenu)
    {
      if areas.Some? {
        PopulateFilterDropdown(AreaFilter, areas.value, "strArea");
      } else {
        ShowError(AreasError);
      }
    }

    /** The ingredients response: the ingredient drop-down, or the banner. */
    method ReceiveIngredients(ingredients: Option<seq<Record>>)
      modifies this
      ensures ingredients.Some? ==>
                ingredientOptions == FilterOptions(ingredients.value, "strIngredient") &&
                Controls() == old(Controls()).Set(IngredientFilter, "") && content == old(content)
      ensures ingredients.None? ==>
                content == ErrorBanner(IngredientsError) && ingredientOptions == old(ingredientOptions) &&
                Controls() == old(Controls())
      ensures categoryOptions == old(categoryOptions) && areaOptions == old(areaOptions)
      ensures categoriesMenu == old(categoriesMenu)
    {
      if ingredients.Some? {
        PopulateFilterDropdown(IngredientFilter, ingredients.value, "strIngredient");
      } else {
        ShowError(IngredientsError);
      }
    }
  }
}
