/**
 * Plan selection: from a start card `a1`, find a second card `x2` reachable by
 * an edge that is a stop (a two-step plan), or a second card and a third card
 * `x3` reachable from it that is a stop (a three-step plan). The constraint
 * set is the one handed to the SMT solver; here a bounded search over every
 * `(x2, x3, use3)` finds a witness or shows that none exists.
 *
 * As in the constraint set, `x3` is always constrained: it lies in
 * `[0, n)` and differs from `a1` and `x2` even when the plan has two steps.
 */
module Planner {
  import opened Strs
  import opened PyValues
  import opened Cards
  import opened Compat

  /** The constraint set, for one assignment of the three solver variables. */
  predicate Sat(a1: int, n: int, pairs: set<(int, int)>, stops: set<int>, x2: int, x3: int, use3: bool)
  {
    && 0 <= x2 < n && 0 <= x3 < n
    && a1 != x2 && a1 != x3 && x2 != x3
    && (a1, x2) in pairs
    && ((!use3 && x2 in stops) || (use3 && (x2, x3) in pairs && x3 in stops))
  }

  /** A plan is read off a satisfying assignment: `[x1, x2]` or `[x1, x2, x3]`. */
  ghost predicate Witnesses(plan: seq<int>, a1: int, n: int, pairs: set<(int, int)>, stops: set<int>)
  {
    || (|plan| == 2 && plan[0] == a1 && exists x3 :: Sat(a1, n, pairs, stops, plan[1], x3, false))
    || (|plan| == 3 && plan[0] == a1 && Sat(a1, n, pairs, stops, plan[1], plan[2], true))
  }

  /**
   * The search from `(x2, x3)` onwards, `x3` fastest; for each candidate the
   * two-step reading is tried before the three-step one.
   */
  function SearchFrom(a1: int, n: nat, pairs: set<(int, int)>, stops: set<int>, x2: nat, x3: nat): (r: Option<seq<int>>)
    requires x2 <= n && x3 <= n
    ensures r.Some? ==> Witnesses(r.value, a1, n, pairs, stops)
    ensures r.None? ==> forall y2, y3, u :: (y2 > x2 || (y2 == x2 && y3 >= x3)) ==> !Sat(a1, n, pairs, stops, y2, y3, u)
    decreases n - x2, n - x3
  {
    if x2 == n then None
    else if x3 == n then SearchFrom(a1, n, pairs, stops, x2 + 1, 0)
    else if Sat(a1, n, pairs, stops, x2, x3, false) then
      TwoStepWitness(a1, n, pairs, stops, x2, x3);
      Some([a1, x2])
    else if Sat(a1, n, pairs, stops, x2, x3, true) then
      assert [a1, x2, x3][1] == x2 && [a1, x2, x3][2] == x3;
      Some([a1, x2, x3])
    else SearchFrom(a1, n, pairs, stops, x2, x3 + 1)
  }

  /** A two-step assignment is read off as `[a1, x2]`, whatever its `x3`. */
  lemma TwoStepWitness(a1: int, n: nat, pairs: set<(int, int)>, stops: set<int>, x2: int, x3: int)
    requires Sat(a1, n, pairs, stops, x2, x3, false)
    ensures Witnesses([a1, x2], a1, n, pairs, stops)
  {
    var plan := [a1, x2];
    assert plan[1] == x2;
    assert Sat(a1, n, pairs, stops, plan[1], x3, false);
  }

  /**
   * `choose_plan`: `None` at once when no edge leaves `a1`; otherwise a plan
   * read off a satisfying assignment, and `None` exactly when there is none.
   */
  function ChoosePlan(a1: int, n: nat, pairs: set<(int, int)>, stops: set<int>): (r: Option<seq<int>>)
    ensures r.Some? ==> Witnesses(r.value, a1, n, pairs, stops)
    ensures r.None? <==> !exists x2, x3, u :: Sat(a1, n, pairs, stops, x2, x3, u)
  {
    SatNeedsEdge(a1, n, pairs, stops);
    if !exists p | p in pairs :: p.0 == a1 then None
    else SearchFrom(a1, n, pairs, stops, 0, 0)
  }

  /** A satisfying assignment starts with an edge out of `a1`. */
  lemma SatNeedsEdge(a1: int, n: int, pairs: set<(int, int)>, stops: set<int>)
    ensures forall x2, x3, u :: Sat(a1, n, pairs, stops, x2, x3, u) ==> exists p | p in pairs :: p.0 == a1
  {
    forall x2, x3, u | Sat(a1, n, pairs, stops, x2, x3, u) ensures exists p | p in pairs :: p.0 == a1 {
      var p := (a1, x2);
      assert p in pairs && p.0 == a1;
    }
  }

  /** With every edge inside the catalog, a satisfying assignment names three distinct cards. */
  lemma SatNeedsThree(a1: int, n: int, pairs: set<(int, int)>, stops: set<int>, x2: int, x3: int, u: bool)
    requires forall i, j :: (i, j) in pairs ==> 0 <= i < n && 0 <= j < n
    ensures Sat(a1, n, pairs, stops, x2, x3, u) ==> n >= 3
  {
  }

  // ---------------------------------------------------------------------------
  // Properties of a chosen plan

  /**
   * A plan has two or three steps and starts at `a1`; its first step is an
   * edge; a two-step plan ends at a stop; a three-step plan continues by an
   * edge to a stop; its steps after the first are positions in the catalog;
   * no card appears twice.
   */
  lemma PlanShape(a1: int, n: nat, pairs: set<(int, int)>, stops: set<int>)
    ensures var r := ChoosePlan(a1, n, pairs, stops);
      r.Some? ==>
        var plan := r.value;
        && 2 <= |plan| <= 3 && plan[0] == a1
        && (plan[0], plan[1]) in pairs
        && (|plan| == 2 ==> plan[1] in stops)
        && (|plan| == 3 ==> (plan[1], plan[2]) in pairs && plan[2] in stops)
        && (forall k :: 1 <= k < |plan| ==> 0 <= plan[k] < n)
        && (forall i, j :: 0 <= i < j < |plan| ==> plan[i] != plan[j])
  {
    var r := ChoosePlan(a1, n, pairs, stops);
    if r.Some? && |r.value| == 2 {
      var x3 :| Sat(a1, n, pairs, stops, r.value[1], x3, false);
    }
  }

  /** No edge out of `a1`: no plan. */
  lemma NoOutgoingNoPlan(a1: int, n: nat, pairs: set<(int, int)>, stops: set<int>)
    requires forall j :: (a1, j) !in pairs
    ensures ChoosePlan(a1, n, pairs, stops) == None
  {
  }

  /** No stop anywhere: no plan. */
  lemma NoStopsNoPlan(a1: int, n: nat, pairs: set<(int, int)>)
    ensures ChoosePlan(a1, n, pairs, {}) == None
  {
  }

  /**
   * A catalog of at most two cards never yields a plan, because a plan needs
   * three distinct positions even when it has two steps.
   */
  lemma SmallCatalogNoPlan(a1: int, n: nat, pairs: set<(int, int)>, stops: set<int>)
    requires n <= 2
    requires forall i, j :: (i, j) in pairs ==> 0 <= i < n && 0 <= j < n
    ensures ChoosePlan(a1, n, pairs, stops) == None
  {
    forall x2, x3, u ensures !Sat(a1, n, pairs, stops, x2, x3, u) {
      SatNeedsThree(a1, n, pairs, stops, x2, x3, u);
    }
  }

  /**
   * Three distinct positions, an edge from `a1` to a stop `x2`: a plan exists,
   * whichever `x3` the search settles on.
   */
  lemma TwoStepFound(a1: int, n: nat, pairs: set<(int, int)>, stops: set<int>, x2: int, x3: int)
    requires 0 <= x2 < n && 0 <= x3 < n && a1 != x2 && a1 != x3 && x2 != x3
    requires (a1, x2) in pairs && x2 in stops
    ensures ChoosePlan(a1, n, pairs, stops).Some?
  {
    assert Sat(a1, n, pairs, stops, x2, x3, false);
  }

  // ---------------------------------------------------------------------------
  // A two-card catalog

  function TextCard(qual: string, acc: string, ret: string, stop: bool): Card
  {
    Card(qual, "", map["accepts" := VStr(acc)], map["returns" := VStr(ret), "is_valid_stop" := VBool(stop)], [])
  }

  /**
   * Card 0 takes `T0` to `T1` and is no stop; card 1 takes `T1` to `T1` and is
   * a stop. The graph is `{(0, 1), (1, 1)}` with stop `{1}`, and from card 0
   * there is no plan: `[0, 1]` would need a third card.
   */
  lemma TwoCardCatalog()
    ensures var cards := [TextCard("a", "T0", "T1", false), TextCard("b", "T1", "T1", true)];
      && CompatPairs(cards) == {(0, 1), (1, 1)}
      && Stops(cards) == {1}
      && ChoosePlan(0, |cards|, CompatPairs(cards), Stops(cards)) == None
  {
    var cards := [TextCard("a", "T0", "T1", false), TextCard("b", "T1", "T1", true)];
    assert Returns(cards[0]) == "T1" && Returns(cards[1]) == "T1";
    assert Accepts(cards[0]) == "T0" && Accepts(cards[1]) == "T1";
    assert Edge(cards[0], cards[1]) && Edge(cards[1], cards[1]);
    assert !Edge(cards[0], cards[0]) && !Edge(cards[1], cards[0]) by {
      assert "T1" != "T0" by { assert "T1"[1] != "T0"[1]; }
    }
    InRange(cards);
    assert CompatPairs(cards) == {(0, 1), (1, 1)} by {
      forall p | p in CompatPairs(cards) ensures p in {(0, 1), (1, 1)} {
        var (i, j) := p;
        EdgeIff(cards, i, j);
      }
    }
    assert Stops(cards) == {1};
    SmallCatalogNoPlan(0, 2, CompatPairs(cards), Stops(cards));
  }
}
