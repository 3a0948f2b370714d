/** Which recipe a grid makes: crafting/match.go. */
module Matching {
  import opened Choice
  import opened Options
  import opened Grids
  import opened Recipes
  import opened Shaped
  import opened Shapeless

  lemma TrimmedMoved(g: Grid, t: Grid, dx: int, dy: int)
    requires g.Valid() && t.Valid() && SamePicture(t, g, EMPTY_CELL, dx, dy)
    ensures Moved(g, t, false, dx, dy)
  {
    forall x, y
      ensures Holds(t, x, y) == Holds(g, Turn(false, x) + dx, y + dy)
    {
      assert Look(t, EMPTY_CELL, x, y) == Look(g, EMPTY_CELL, x + dx, y + dy);
    }
  }

  /** One recipe against one pre-trimmed grid. */
  method Matches(recipe: Recipe, rule: Rule, g: Grid, trimmed: Grid, ghost offX: int, ghost offY: int)
    returns (matched: bool)
    requires g.Valid() && trimmed.Valid() && !Blank(g, EMPTY_CELL)
    requires Tight(trimmed, EMPTY_CELL) && SamePicture(trimmed, g, EMPTY_CELL, offX, offY)
    requires trimmed.width <= g.width && trimmed.height <= g.height
    ensures matched <==> Crafts(g, recipe, rule)
  {
    if |recipe.inShape| > 0 {
      matched := MatchShape(recipe.inShape, rule, g, trimmed, offX, offY);
    } else if |recipe.ingredients| > 0 {
      matched := ShapelessMatch(recipe.ingredients, rule, trimmed);
      TrimmedMoved(g, trimmed, offX, offY);
      ShapelessMoved(g, trimmed, offX, offY, recipe.ingredients, rule);
    } else {
      matched := false;
    }
  }

  lemma ShapelessMoved(g: Grid, t: Grid, dx: int, dy: int, wants: seq<Ingredient>, rule: Rule)
    requires g.Valid() && t.Valid() && Moved(g, t, false, dx, dy)
    ensures ShapelessCrafts(g, wants, rule) <==> ShapelessCrafts(t, wants, rule)
  {
    if ShapelessCrafts(g, wants, rule) {
      PairingMoved(g, t, false, dx, dy, wants, rule);
    } else if ShapelessCrafts(t, wants, rule) {
      MovedBack(g, t, false, dx, dy);
      PairingMoved(t, g, false, Turn(true, dx), -dy, wants, rule);
    }
  }

  lemma {:induction false} LeastExists(keys: set<int>)
    requires keys != {}
    ensures exists least :: least in keys && forall k :: k in keys ==> least <= k
  {
    var some := Any(keys);
    if keys == {some} {
      assert forall k :: k in keys ==> some <= k;
    } else {
      var rest := keys - {some};
      LeastExists(rest);
      var least :| least in rest && forall k :: k in rest ==> least <= k;
      var both := Min(some, least);
      assert forall k :: k in keys ==> k == some || k in rest;
      assert both in keys && forall k :: k in keys ==> both <= k;
    }
  }

  /** The next key of a map walked in sorted order. */
  method TakeLeast(keys: set<int>) returns (least: int)
    requires keys != {}
    ensures least in keys && forall k :: k in keys ==> least <= k
  {
    LeastExists(keys);
    least :| least in keys && forall k :: k in keys ==> least <= k;
  }

  ghost predicate NoneBefore(reg: Registry, rule: Rule, g: Grid, id: int, i: int)
    requires g.Valid()
  {
    forall id', i' :: Listed(reg, id', i') && (id' < id || (id' == id && i' < i)) ==> !Crafts(g, reg[id'][i'], rule)
  }

  lemma MadeIsFirst(reg: Registry, rule: Rule, g: Grid, id: int, i: int)
    requires g.Valid() && !Blank(g, EMPTY_CELL) && First(reg, rule, g, id, i)
    ensures Made(reg, rule, g) == Some(reg[id][i])
  {
    var id', i' :| First(reg, rule, g, id', i') && Made(reg, rule, g) == Some(reg[id'][i']);
    FirstIsUnique(reg, rule, g, id, i, id', i');
  }

  /** The recipe a grid makes; an empty grid makes none. */
  method Match(reg: Registry, rule: Rule, g: Grid) returns (recipe: Option<Recipe>)
    requires g.Valid()
    ensures recipe == Made(reg, rule, g)
  {
    var trimmed, offX, offY := Trim(g, EMPTY_CELL);
    if trimmed.width == 0 {
      return None;
    }
    assert !Blank(g, EMPTY_CELL);
    var ids := reg.Keys;
    while ids != {}
      invariant ids <= reg.Keys
      invariant forall id, i :: Listed(reg, id, i) && id !in ids ==> !Crafts(g, reg[id][i], rule)
      invariant forall done, id :: done in reg && done !in ids && id in ids ==> done < id
    {
      var id := TakeLeast(ids);
      for i := 0 to |reg[id]|
        invariant NoneBefore(reg, rule, g, id, i)
      {
        var matched := Matches(reg[id][i], rule, g, trimmed, offX, offY);
        if matched {
          assert First(reg, rule, g, id, i);
          MadeIsFirst(reg, rule, g, id, i);
          return Some(reg[id][i]);
        }
      }
      assert forall i :: Listed(reg, id, i) ==> i < |reg[id]|;
      ids := ids - {id};
    }
    return None;
  }
}
