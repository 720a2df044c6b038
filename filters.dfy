/** The filter controls of the recipe browser and the choice of the one
    request a search issues: free text first, then category, then area,
    then ingredient; with every control empty, the bare text search. */
module Filters {
  import opened Records

  /** The four filter controls, named after their element ids. */
  datatype Field = SearchInput | CategoryFilter | AreaFilter | IngredientFilter

  /** The controls in the order `clearFilters` lists them; the dispatcher
      tries them in this same order. */
  const Priority: seq<Field> := [SearchInput, CategoryFilter, AreaFilter, IngredientFilter]

  /** Position of a control in `Priority`: a smaller rank wins. */
  function Rank(f: Field): (k: nat)
    ensures k < |Priority| && Priority[k] == f
  {
    match f
    case SearchInput => 0
    case CategoryFilter => 1
    case AreaFilter => 2
    case IngredientFilter => 3
  }

  /** The current text of the four controls. */
  datatype FilterState = FilterState(searchText: string, category: string, area: string, ingredient: string)
  {
    function Get(f: Field): string
    {
      match f
      case SearchInput => searchText
      case CategoryFilter => category
      case AreaFilter => area
      case IngredientFilter => ingredient
    }

    /** The state after one control is given the text `v`. */
    function Set(f: Field, v: string): (r: FilterState)
      ensures r.Get(f) == v
      ensures forall g :: g != f ==> r.Get(g) == Get(g)
    {
      match f
      case SearchInput => this.(searchText := v)
      case CategoryFilter => this.(category := v)
      case AreaFilter => this.(area := v)
      case IngredientFilter => this.(ingredient := v)
    }
  }

  const NoFilters := FilterState("", "", "", "")

  /** Two states that agree on every control are the same state. */
  lemma SameControlsSameState(fs: FilterState, gs: FilterState)
    requires forall f :: fs.Get(f) == gs.Get(f)
    ensures fs == gs
  {
    assert fs.Get(SearchInput) == gs.Get(SearchInput);
    assert fs.Get(CategoryFilter) == gs.Get(CategoryFilter);
    assert fs.Get(AreaFilter) == gs.Get(AreaFilter);
    assert fs.Get(IngredientFilter) == gs.Get(IngredientFilter);
  }

  /** The value `clearFilters(keep)` leaves: every control but `keep` blanked. */
  function Cleared(fs: FilterState, keep: Field): (r: FilterState)
    ensures r.Get(keep) == fs.Get(keep)
    ensures forall f :: f != keep ==> r.Get(f) == ""
  {
    NoFilters.Set(keep, fs.Get(keep))
  }

  // ---------------------------------------------------------------------
  // Endpoints

  const ApiBase := "https://www.themealdb.com/api/json/v1/1/"

  /** The URL a search issues when no control holds text. */
  const BareSearchUrl := ApiBase + "search.php?s="

  /** The URL prefix of the request that filters by one control. */
  function Endpoint(f: Field): (e: string)
    ensures ApiBase <= e && |e| == |ApiBase| + 13 && e[|e| - 1] == '='
    ensures f == SearchInput <==> e == BareSearchUrl
  {
    var path := match f
                case SearchInput => "search.php?s="
                case CategoryFilter => "filter.php?c="
                case AreaFilter => "filter.php?a="
                case IngredientFilter => "filter.php?i=";
    assert (ApiBase + path)[|ApiBase|] == path[0];
    ApiBase + path
  }

  /** Meals whose name starts with `letter` (`fetchMealsByLetter`); the
      request is none of the four a search can issue. */
  function LetterUrl(letter: string): (u: string)
    ensures ApiBase <= u && |letter| <= |u| && u[|u| - |letter|..] == letter
    ensures Criterion(u) == None
  {
    var u := ApiBase + "search.php?f=" + letter;
    assert u[|ApiBase|] == 's' && u[|ApiBase| + 11] == 'f';
    assert Endpoint(SearchInput)[|ApiBase| + 11] == 's';
    assert Endpoint(CategoryFilter)[|ApiBase|] == 'f';
    assert Endpoint(AreaFilter)[|ApiBase|] == 'f';
    assert Endpoint(IngredientFilter)[|ApiBase|] == 'f';
    u
  }

  // ---------------------------------------------------------------------
  // Dispatch

  /** The first control of `order` that holds text, if any. */
  function FirstActive(fs: FilterState, order: seq<Field>): Option<Field>
    decreases |order|
  {
    if order == [] then None
    else if fs.Get(order[0]) != "" then Some(order[0])
    else FirstActive(fs, order[1..])
  }

  /** The one control a search uses. */
  function Active(fs: FilterState): Option<Field>
  {
    FirstActive(fs, Priority)
  }

  /** The URL a search requests: the active control's endpoint with its
      text, or the bare text search when no control is active. */
  function RequestUrl(fs: FilterState): (r: string)
    ensures ApiBase <= r
    ensures r == BareSearchUrl <==> Active(fs) == None
  {
    match Active(fs)
    case None => BareSearchUrl
    case Some(f) =>
      ActiveIsHighestNonEmpty(fs, f);
      Endpoint(f) + fs.Get(f)
  }

  /** `FirstActive` finds `f` exactly when `f` holds text and every control
      before it in `order` is empty. */
  lemma {:induction false} FirstActiveIsFirstNonEmpty(fs: FilterState, order: seq<Field>, f: Field)
    ensures FirstActive(fs, order) == Some(f) <==>
            exists i :: 0 <= i < |order| && order[i] == f && fs.Get(f) != "" &&
                        forall j :: 0 <= j < i ==> fs.Get(order[j]) == ""
    decreases |order|
  {
    if order == [] {
    } else if fs.Get(order[0]) != "" {
      if FirstActive(fs, order) == Some(f) {
        assert order[0] == f;
      } else {
        forall i | 0 <= i < |order| && order[i] == f && fs.Get(f) != ""
          ensures exists j :: 0 <= j < i && fs.Get(order[j]) != ""
        {
          assert i != 0;
          assert fs.Get(order[0]) != "";
        }
      }
    } else {
      FirstActiveIsFirstNonEmpty(fs, order[1..], f);
      if FirstActive(fs, order) == Some(f) {
        var i :| 0 <= i < |order[1..]| && order[1..][i] == f && fs.Get(f) != "" &&
                 forall j :: 0 <= j < i ==> fs.Get(order[1..][j]) == "";
        assert order[i + 1] == f;
        forall j | 0 <= j < i + 1 ensures fs.Get(order[j]) == "" {
          if j > 0 { assert order[j] == order[1..][j - 1]; }
        }
      } else {
        forall i | 0 <= i < |order| && order[i] == f && fs.Get(f) != ""
          ensures exists j :: 0 <= j < i && fs.Get(order[j]) != ""
        {
          assert i != 0;
          assert order[1..][i - 1] == f;
          var j :| 0 <= j < i - 1 && fs.Get(order[1..][j]) != "";
          assert fs.Get(order[j + 1]) != "";
        }
      }
    }
  }

  /** `FirstActive` finds nothing exactly when every control of `order` is empty. */
  lemma {:induction false} FirstActiveNoneIffAllEmpty(fs: FilterState, order: seq<Field>)
    ensures FirstActive(fs, order) == None <==> forall i :: 0 <= i < |order| ==> fs.Get(order[i]) == ""
    decreases |order|
  {
    if order != [] {
      FirstActiveNoneIffAllEmpty(fs, order[1..]);
      if fs.Get(order[0]) == "" {
        forall i | 0 < i < |order| ensures fs.Get(order[i]) == fs.Get(order[1..][i - 1]) { }
      }
    }
  }

  /** The active control is the highest-priority control that holds text. */
  lemma ActiveIsHighestNonEmpty(fs: FilterState, f: Field)
    ensures Active(fs) == Some(f) <==>
            fs.Get(f) != "" && forall g :: Rank(g) < Rank(f) ==> fs.Get(g) == ""
  {
    FirstActiveIsFirstNonEmpty(fs, Priority, f);
    if fs.Get(f) != "" && forall g :: Rank(g) < Rank(f) ==> fs.Get(g) == "" {
      forall j | 0 <= j < Rank(f) ensures fs.Get(Priority[j]) == "" {
        assert Rank(Priority[j]) == j;
      }
    }
    if Active(fs) == Some(f) {
      var i :| 0 <= i < |Priority| && Priority[i] == f && fs.Get(f) != "" &&
               forall j :: 0 <= j < i ==> fs.Get(Priority[j]) == "";
      assert i == Rank(f);
      forall g | Rank(g) < Rank(f) ensures fs.Get(g) == "" {
        assert Priority[Rank(g)] == g;
      }
    }
  }

  /** No control is active exactly when every control is empty. */
  lemma NoneActiveIffAllEmpty(fs: FilterState)
    ensures Active(fs) == None <==> forall g :: fs.Get(g) == ""
  {
    FirstActiveNoneIffAllEmpty(fs, Priority);
    if forall g :: fs.Get(g) == "" {
      forall i | 0 <= i < |Priority| ensures fs.Get(Priority[i]) == "" { }
    }
    if Active(fs) == None {
      forall g ensures fs.Get(g) == "" {
        assert Priority[Rank(g)] == g;
      }
    }
  }

  /** A control that holds text, with every higher-priority control empty,
      decides the request; the controls below it are ignored. */
  lemma RequestUrlByPriority(fs: FilterState, f: Field)
    requires fs.Get(f) != ""
    requires forall g :: Rank(g) < Rank(f) ==> fs.Get(g) == ""
    ensures RequestUrl(fs) == Endpoint(f) + fs.Get(f)
  {
    ActiveIsHighestNonEmpty(fs, f);
  }

  /** Search text, when present, always decides the request. */
  lemma SearchTextWins(fs: FilterState)
    requires fs.searchText != ""
    ensures RequestUrl(fs) == ApiBase + "search.php?s=" + fs.searchText
  {
    RequestUrlByPriority(fs, SearchInput);
  }

  /** With every control empty the search is not refused: it requests the
      bare text search. */
  lemma AllEmptyFallsBack(fs: FilterState)
    requires forall g :: fs.Get(g) == ""
    ensures RequestUrl(fs) == BareSearchUrl
  {
    NoneActiveIffAllEmpty(fs);
  }

  /** Changing a control ranked below the active one leaves the request unchanged. */
  lemma LowerPriorityIgnored(fs: FilterState, f: Field, g: Field, v: string)
    requires Active(fs) == Some(f)
    requires Rank(f) < Rank(g)
    ensures RequestUrl(fs.Set(g, v)) == RequestUrl(fs)
  {
    ActiveIsHighestNonEmpty(fs, f);
    ActiveIsHighestNonEmpty(fs.Set(g, v), f);
  }

  /** What every change handler requests: `clearFilters(f)` followed by a
      search uses `f`'s own text, or the bare search when it is empty. */
  lemma HandlerRequest(fs: FilterState, f: Field)
    ensures RequestUrl(Cleared(fs, f)) ==
            if fs.Get(f) != "" then Endpoint(f) + fs.Get(f) else BareSearchUrl
  {
    var cs := Cleared(fs, f);
    if fs.Get(f) != "" {
      RequestUrlByPriority(cs, f);
    } else {
      AllEmptyFallsBack(cs);
    }
  }

  /** After a change handler, the edited control is the only one that can
      be active: it is when it holds text, and none is otherwise. */
  lemma HandlerLeavesOnlyEditedActive(fs: FilterState, f: Field)
    ensures Active(Cleared(fs, f)) == if fs.Get(f) != "" then Some(f) else None
  {
    var cs := Cleared(fs, f);
    if fs.Get(f) != "" {
      ActiveIsHighestNonEmpty(cs, f);
    } else {
      NoneActiveIffAllEmpty(cs);
    }
  }

  /** After a change handler, the request depends on the edited control only. */
  lemma HandlerDependsOnEditedFieldOnly(fs: FilterState, gs: FilterState, f: Field)
    requires fs.Get(f) == gs.Get(f)
    ensures Cleared(fs, f) == Cleared(gs, f)
    ensures RequestUrl(Cleared(fs, f)) == RequestUrl(Cleared(gs, f))
  {
    SameControlsSameState(Cleared(fs, f), Cleared(gs, f));
  }

  // ---------------------------------------------------------------------
  // Reading a request back

  /** The control and text a request URL filters by, recognised by its endpoint. */
  function Criterion(url: string): Option<(Field, string)>
  {
    if Endpoint(SearchInput) <= url then Some((SearchInput, url[|Endpoint(SearchInput)|..]))
    else if Endpoint(CategoryFilter) <= url then Some((CategoryFilter, url[|Endpoint(CategoryFilter)|..]))
    else if Endpoint(AreaFilter) <= url then Some((AreaFilter, url[|Endpoint(AreaFilter)|..]))
    else if Endpoint(IngredientFilter) <= url then Some((IngredientFilter, url[|Endpoint(IngredientFilter)|..]))
    else None
  }

  /** Endpoints all have the same length and differ, so none is a prefix of
      a URL built from another. */
  lemma EndpointsDistinct(f: Field, g: Field, v: string)
    requires f != g
    ensures !(Endpoint(g) <= Endpoint(f) + v)
  {
    var e, d := Endpoint(f), Endpoint(g);
    assert |e| == |d| == |ApiBase| + 13;
    var k := |ApiBase| + 7;
    assert e[k] != d[k] || e[k + 1] != d[k + 1] || e[k + 5] != d[k + 5] || e[|e| - 2] != d[|d| - 2];
  }

  /** Reading a request back: a URL built from an endpoint names that endpoint's control and text. */
  lemma {:induction false} CriterionOfEndpoint(f: Field, v: string)
    ensures Criterion(Endpoint(f) + v) == Some((f, v))
  {
    var url := Endpoint(f) + v;
    assert Endpoint(f) <= url;
    assert url[|Endpoint(f)|..] == v;
    if f != SearchInput { EndpointsDistinct(f, SearchInput, v); }
    if f != CategoryFilter { EndpointsDistinct(f, CategoryFilter, v); }
    if f != AreaFilter { EndpointsDistinct(f, AreaFilter, v); }
  }

  /** The request URL names the active control and its text, so the filter
      a search used can be read back from the request alone. */
  lemma RequestUrlNamesCriterion(fs: FilterState)
    ensures Criterion(RequestUrl(fs)) ==
            match Active(fs)
            case None => Some((SearchInput, ""))
            case Some(f) => Some((f, fs.Get(f)))
  {
    match Active(fs)
    case None =>
      assert BareSearchUrl == Endpoint(SearchInput) + "";
      CriterionOfEndpoint(SearchInput, "");
    case Some(f) =>
      CriterionOfEndpoint(f, fs.Get(f));
  }

  // ---------------------------------------------------------------------
  // Meal requests and where they come from

  /** Which code path asked for meals; it picks the "no meals" message. */
  datatype MealSource = LetterBrowse | CategoryBrowse | CriteriaSearch

  datatype MealRequest = MealRequest(url: string, source: MealSource)

  /** The meal request issued on page load: the `category` query parameter,
      when present and non-empty, else the meals starting with "a". */
  function InitialRequest(categoryParam: Option<string>): (r: MealRequest)
    ensures r.source == CategoryBrowse <==> categoryParam.Some? && categoryParam.value != ""
    ensures r.source == CategoryBrowse ==>
              r.url == RequestUrl(Cleared(NoFilters.Set(CategoryFilter, categoryParam.value), CategoryFilter))
    ensures r.source != CategoryBrowse ==> r == MealRequest(LetterUrl("a"), LetterBrowse)
  {
    if categoryParam.Some? && categoryParam.value != "" then
      var c := categoryParam.value;
      HandlerRequest(NoFilters.Set(CategoryFilter, c), CategoryFilter);
      MealRequest(ApiBase + "filter.php?c=" + c, CategoryBrowse)
    else
      MealRequest(LetterUrl("a"), LetterBrowse)
  }
}
