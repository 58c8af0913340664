/**
 * The daily recipe card: which meal lookups become recipes, the fallback
 * recipe, and the carousel over them.
 */
module Recipe {
  import opened Wrappers
  import opened Seqs
  import opened Carousel

  /** A TheMealDB meal; each field may be null. */
  datatype Meal = Meal(
    strMeal: Option<string>,
    strMealThumb: Option<string>,
    strCategory: Option<string>,
    strArea: Option<string>,
    strInstructions: Option<string>,
    strYoutube: Option<string>,
    strSource: Option<string>)

  /** One lookup reply; `meals` is null when nothing was found. */
  datatype Reply = Reply(meals: Option<seq<Meal>>)

  datatype Dish = Dish(
    name: Option<string>,
    image: Option<string>,
    category: Option<string>,
    area: Option<string>,
    instructions: Option<string>,
    youtubeUrl: Option<string>,
    sourceUrl: Option<string>)

  /** The Turkish dish shown when no lookup produced a meal; it has no video. */
  const Fallback := Dish(
    Some("Kuru Fasulye"),
    Some("https://images.unsplash.com/photo-1529042410759-befb1204b468?w=800&h=600&fit=crop"),
    Some("Ana Yemek"),
    Some("Türk"),
    Some("Geleneksel Türk mutfağının vazgeçilmez lezzeti!"),
    None,
    Some("https://www.nefisyemektarifleri.com/"))

  /** `data.meals && data.meals[0]`. */
  predicate HasMeal(reply: Reply) {
    reply.meals.Some? && |reply.meals.value| > 0
  }

  function FirstMeal(reply: Reply): Meal
    requires HasMeal(reply)
  {
    reply.meals.value[0]
  }

  /** The recipe for a meal, field for field. */
  function ToDish(m: Meal): (d: Dish)
    ensures d.name == m.strMeal && d.image == m.strMealThumb && d.category == m.strCategory
    ensures d.area == m.strArea && d.instructions == m.strInstructions
    ensures d.youtubeUrl == m.strYoutube && d.sourceUrl == m.strSource
  {
    Dish(m.strMeal, m.strMealThumb, m.strCategory, m.strArea, m.strInstructions, m.strYoutube, m.strSource)
  }

  /** `.map(...)` over the replies that carry a meal. */
  function Dishes(kept: seq<Reply>): (r: seq<Dish>)
    requires forall x :: x in kept ==> HasMeal(x)
    ensures |r| == |kept|
    ensures forall i :: 0 <= i < |kept| ==> r[i].name == FirstMeal(kept[i]).strMeal
  {
    seq(|kept|, i requires 0 <= i < |kept| => ToDish(FirstMeal(kept[i])))
  }

  /** `fetch15Recipes`: the first meal of every reply that has one, in reply
      order, or the fallback alone when no reply has one or the lookups
      failed (`None`). */
  function LoadDishes(replies: Option<seq<Reply>>): (r: seq<Dish>)
    ensures |r| >= 1
    ensures replies.None? ==> r == [Fallback]
    ensures replies.Some? && (forall k :: 0 <= k < |replies.value| ==> !HasMeal(replies.value[k])) ==> r == [Fallback]
    ensures replies.Some? && (exists k :: 0 <= k < |replies.value| && HasMeal(replies.value[k])) ==>
      var kept := Filter(replies.value, HasMeal);
      IsSubsequence(kept, replies.value) &&
      (forall k :: 0 <= k < |replies.value| && HasMeal(replies.value[k]) ==> replies.value[k] in kept) &&
      |r| == |kept| &&
      (forall i :: 0 <= i < |r| ==> HasMeal(kept[i]) && r[i] == ToDish(FirstMeal(kept[i])))
  {
    if replies.None? then [Fallback]
    else
      var kept := Filter(replies.value, HasMeal);
      FilterIsSubsequence(replies.value, HasMeal);
      assert |kept| > 0 ==> kept[0] in kept;
      var fetched := Dishes(kept);
      if |fetched| > 0 then fetched else [Fallback]
  }

  /** The carousel state: the shown recipe and the direction of the last move
      (1 forward, -1 back, 0 before any move). */
  datatype View = View(current: nat, direction: int)

  function NextDish(v: View, count: nat): (r: View)
    requires count > 0
    ensures r.current < count && r.direction == 1
  {
    View(Next(v.current, count), 1)
  }

  function PrevDish(v: View, count: nat): (r: View)
    requires count > 0
    ensures r.current < count && r.direction == -1
  {
    View(Prev(v.current, count), -1)
  }

  /** Clicking dot `idx`: forward when it lies after the shown recipe, back
      otherwise (also when it is the shown one). */
  function PickDot(v: View, idx: nat): (r: View)
    ensures r.current == idx
    ensures r.direction == 1 <==> idx > v.current
    ensures r.direction == -1 <==> idx <= v.current
  {
    View(idx, if idx > v.current then 1 else -1)
  }

  /** Forward then back (or back then forward) returns to the same recipe,
      with the direction of the last move. */
  lemma NavigationUndoes(v: View, count: nat)
    requires v.current < count
    ensures PrevDish(NextDish(v, count), count) == View(v.current, -1)
    ensures NextDish(PrevDish(v, count), count) == View(v.current, 1)
  {
    NextPrevUndo(v.current, count);
  }
}
