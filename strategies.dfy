/**
 * The ordering front-ends of pdf_generation.py (alphabetical, numerical,
 * custom) that feed the sequential fill, and the string dispatch
 * `sort_categories_by_method` that picks a strategy.
 */
module Strategies {
  import opened Results
  import opened Layout
  import opened Ordering
  import opened Packing
  import opened PackingProperties

  const BEST_FIT := "best_fit"
  const ALPHABETICAL := "alphabetical"
  const NUMERICAL := "numerical"
  const CUSTOM := "custom"

  // ---------------------------------------------------------------- alphabetical

  function NameKey(): Category -> string {
    (c: Category) => c.name
  }

  /** `sort_categories_alphabetically`: names in ascending code-point order, then the sequential fill. */
  function SortCategoriesAlphabetically(s: Settings, cats: seq<Category>): (r: seq<Column>)
    ensures multiset(Flatten(r)) == multiset(cats) && |Flatten(r)| == |cats|
    ensures forall i, j :: 0 <= i < j < |cats| ==> StrLe(Flatten(r)[i].name, Flatten(r)[j].name)
    ensures r == SequentialPacking(s, Flatten(r)).columns
  {
    var sorted := SortBy(cats, NameKey(), StrLe);
    StrLeTotalPreorder();
    SortBySorted(cats, NameKey(), StrLe);
    SequentialPreservesOrder(s, sorted);
    SequentialPacking(s, sorted).columns
  }

  // ---------------------------------------------------------------- numerical

  /** The first category, in input order, whose name `float` rejects. */
  function FirstNonNumeric(cats: seq<Category>, toFloat: string -> Option<real>): (r: Option<nat>)
    ensures r.Some? ==> r.value < |cats| && toFloat(cats[r.value].name).None?
    ensures r.Some? ==> forall k :: 0 <= k < r.value ==> toFloat(cats[k].name).Some?
    ensures r.None? ==> forall k :: 0 <= k < |cats| ==> toFloat(cats[k].name).Some?
  {
    if cats == [] then None
    else if toFloat(cats[0].name).None? then Some(0)
    else match FirstNonNumeric(cats[1..], toFloat)
      case None => None
      case Some(i) => Some(i + 1)
  }

  /** The sort key `float(name)`; only applied once every name is known to parse. */
  function NumericKey(toFloat: string -> Option<real>): Category -> real {
    (c: Category) => toFloat(c.name).GetOr(0.0)
  }

  /**
   * `sort_categories_numerically`: names parsed as numbers, ascending and
   * stable, then the sequential fill; the first name that does not parse is
   * reported.
   */
  function SortCategoriesNumerically(s: Settings, cats: seq<Category>, toFloat: string -> Option<real>): (r: Result<seq<Column>>)
    ensures r.Err? <==> exists i :: 0 <= i < |cats| && toFloat(cats[i].name).None?
    ensures r.Err? ==> exists i :: (0 <= i < |cats| && toFloat(cats[i].name).None? &&
      (forall k :: 0 <= k < i ==> toFloat(cats[k].name).Some?) && r.error == NotNumeric(cats[i].name))
    ensures r.Ok? ==> multiset(Flatten(r.value)) == multiset(cats) && |Flatten(r.value)| == |cats|
    ensures r.Ok? ==> forall c :: c in Flatten(r.value) ==> toFloat(c.name).Some?
    ensures r.Ok? ==> forall i, j :: 0 <= i < j < |cats| ==>
      toFloat(Flatten(r.value)[i].name).GetOr(0.0) <= toFloat(Flatten(r.value)[j].name).GetOr(0.0)
    ensures r.Ok? ==> forall v :: WithKey(Flatten(r.value), NumericKey(toFloat), v) == WithKey(cats, NumericKey(toFloat), v)
    ensures r.Ok? ==> r.value == SequentialPacking(s, Flatten(r.value)).columns
  {
    match FirstNonNumeric(cats, toFloat)
    case Some(i) => Err(NotNumeric(cats[i].name))
    case None =>
      var sorted := SortBy(cats, NumericKey(toFloat), AtMost);
      assert TotalPreorder(AtMost);
      SortBySorted(cats, NumericKey(toFloat), AtMost);
      ForallSortByStable(cats, NumericKey(toFloat), AtMost);
      SequentialPreservesOrder(s, sorted);
      assert forall c :: c in sorted ==> c in cats by {
        forall c | c in sorted ensures c in cats {
          assert multiset(sorted)[c] > 0;
        }
      }
      Ok(SequentialPacking(s, sorted).columns)
  }

  lemma ForallSortByStable<K(!new)>(cats: seq<Category>, key: Category -> K, le: (K, K) -> bool)
    requires Reflexive(le)
    ensures forall k :: WithKey(SortBy(cats, key, le), key, k) == WithKey(cats, key, k)
  {
    forall k ensures WithKey(SortBy(cats, key, le), key, k) == WithKey(cats, key, k) {
      SortByStable(cats, key, le, k);
    }
  }

  // ---------------------------------------------------------------- custom

  /**
   * The custom sort key: `category_order.index(name)` for a listed name and,
   * for an unlisted one, `|order|`, which like `float('inf')` exceeds every index.
   */
  function CustomKey(order: seq<string>, name: string): (k: nat)
    ensures k <= |order|
    ensures k < |order| <==> name in order
    ensures k < |order| ==> order[k] == name && forall m :: 0 <= m < k ==> order[m] != name
  {
    if order == [] then 0
    else if order[0] == name then 0
    else 1 + CustomKey(order[1..], name)
  }

  function CustomKeyFn(order: seq<string>): Category -> int {
    (c: Category) => CustomKey(order, c.name)
  }

  /** `settings.get("category_order", list(categories.keys()))`. */
  function EffectiveOrder(s: Settings, cats: seq<Category>): seq<string> {
    s.categoryOrder.GetOr(Names(cats))
  }

  /**
   * `sort_categories_custom`: listed categories first, by their index in the
   * order; unlisted ones after, in input order; then the sequential fill.
   */
  function SortCategoriesCustom(s: Settings, cats: seq<Category>): (r: seq<Column>)
    ensures multiset(Flatten(r)) == multiset(cats) && |Flatten(r)| == |cats|
    ensures forall i, j :: 0 <= i < j < |cats| ==>
      !(Flatten(r)[i].name !in EffectiveOrder(s, cats) && Flatten(r)[j].name in EffectiveOrder(s, cats))
    ensures forall i, j :: 0 <= i < j < |cats| ==>
      CustomKey(EffectiveOrder(s, cats), Flatten(r)[i].name) <= CustomKey(EffectiveOrder(s, cats), Flatten(r)[j].name)
    ensures WithKey(Flatten(r), CustomKeyFn(EffectiveOrder(s, cats)), |EffectiveOrder(s, cats)|) ==
      WithKey(cats, CustomKeyFn(EffectiveOrder(s, cats)), |EffectiveOrder(s, cats)|)
    ensures r == SequentialPacking(s, Flatten(r)).columns
  {
    var order := EffectiveOrder(s, cats);
    var sorted := SortBy(cats, CustomKeyFn(order), IntAtMost);
    assert TotalPreorder(IntAtMost);
    SortBySorted(cats, CustomKeyFn(order), IntAtMost);
    SortByStable(cats, CustomKeyFn(order), IntAtMost, |order|);
    SequentialPreservesOrder(s, sorted);
    SequentialPacking(s, sorted).columns
  }

  /** Without a `category_order`, the custom strategy keeps the input order. */
  lemma CustomWithoutOrderKeepsInput(s: Settings, cats: seq<Category>)
    requires s.categoryOrder.None? && DistinctNames(cats)
    ensures Flatten(SortCategoriesCustom(s, cats)) == cats
  {
    var order := Names(cats);
    assert EffectiveOrder(s, cats) == order;
    forall i | 0 <= i < |cats| ensures CustomKeyFn(order)(cats[i]) == i {
      var k := CustomKey(order, cats[i].name);
      assert order[i] == cats[i].name;
      assert k <= i;
    }
    SortByOfOrdered(cats, CustomKeyFn(order), IntAtMost);
    SequentialPreservesOrder(s, cats);
  }

  // ---------------------------------------------------------------- dispatch

  /** `sort_categories_by_method`: `fit_method` defaults to best-fit, and so does an unknown name. */
  function SortCategoriesByMethod(s: Settings, cats: seq<Category>, toFloat: string -> Option<real>): (r: Result<seq<Column>>)
    ensures r.Err? ==> s.fitMethod == Some(NUMERICAL)
    ensures r.Ok? ==> |r.value| >= 1
  {
    var fitMethod := s.fitMethod.GetOr(BEST_FIT);
    if fitMethod == BEST_FIT then Ok(BestFitPacking(s, cats).columns)
    else if fitMethod == ALPHABETICAL then Ok(SortCategoriesAlphabetically(s, cats))
    else if fitMethod == NUMERICAL then SortCategoriesNumerically(s, cats, toFloat)
    else if fitMethod == CUSTOM then Ok(SortCategoriesCustom(s, cats))
    else Ok(BestFitPacking(s, cats).columns)
  }

  /** A missing or unrecognised `fit_method` gives exactly the best-fit columns. */
  lemma UnknownMethodIsBestFit(s: Settings, cats: seq<Category>, toFloat: string -> Option<real>)
    requires s.fitMethod.None? || s.fitMethod.value !in {ALPHABETICAL, NUMERICAL, CUSTOM}
    ensures SortCategoriesByMethod(s, cats, toFloat) == Ok(BestFitPacking(s, cats).columns)
  {
  }

  /** Whatever the strategy, the columns partition the input: each `(name, items)` pair exactly once. */
  lemma EveryStrategyPartitions(s: Settings, cats: seq<Category>, toFloat: string -> Option<real>)
    requires SortCategoriesByMethod(s, cats, toFloat).Ok?
    ensures multiset(Flatten(SortCategoriesByMethod(s, cats, toFloat).value)) == multiset(cats)
  {
    BestFitIsPartition(s, cats);
  }
}
