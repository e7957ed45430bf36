/**
 * The compatibility graph of a card catalog: an edge `(i, j)` when the type
 * card `i` returns is the type card `j` accepts and the optional axis and
 * dtype gates agree, and the set of cards a plan may stop at.
 */
module Compat {
  import opened Strs
  import opened PyValues
  import opened Cards

  /** `str(ci.post.get("returns") or "")` */
  function Returns(c: Card): string
  {
    Label(Get(c.post, "returns"))
  }

  /** `str(cj.pre.get("accepts") or "")` */
  function Accepts(c: Card): string
  {
    Label(Get(c.pre, "accepts"))
  }

  /** A gate vetoes only when both sides declare a value and their texts differ. */
  predicate GateAgrees(produced: Value, required: Value)
  {
    (required != VNone && produced != VNone) ==> Str(produced) == Str(required)
  }

  /** The edge rule between the card that runs first and the card that runs next. */
  predicate Edge(ci: Card, cj: Card)
  {
    && Returns(ci) != "" && Accepts(cj) != ""
    && Returns(ci) == Accepts(cj)
    && GateAgrees(Get(ci.post, "produces_axis"), Get(cj.pre, "accepts_axis"))
    && GateAgrees(Get(ci.post, "produces_dtype"), Get(cj.pre, "accepts_dtype"))
  }

  /** `bool(c.post.get("is_valid_stop"))` */
  predicate IsStop(c: Card)
  {
    Truthy(Get(c.post, "is_valid_stop"))
  }

  /** Every edge of the catalog, self-pairs included. */
  function CompatPairs(cards: seq<Card>): set<(int, int)>
  {
    set i, j | 0 <= i < |cards| && 0 <= j < |cards| && Edge(cards[i], cards[j]) :: (i, j)
  }

  /** Every stop of the catalog. */
  function Stops(cards: seq<Card>): set<int>
  {
    set i | 0 <= i < |cards| && IsStop(cards[i])
  }

  /** `build_compat`: one pass over every ordered pair of positions. */
  method BuildCompat(ir: IR) returns (pairs: set<(int, int)>, stops: set<int>)
    ensures pairs == CompatPairs(ir.cards)
    ensures stops == Stops(ir.cards)
  {
    var cards := ir.cards;
    var n := |cards|;
    pairs, stops := {}, {};
    var i := 0;
    while i < n
      invariant 0 <= i <= n
      invariant forall a, b :: (a, b) in pairs <==> 0 <= a < i && 0 <= b < n && Edge(cards[a], cards[b])
      invariant forall a :: a in stops <==> 0 <= a < i && IsStop(cards[a])
    {
      var ci := cards[i];
      if Truthy(Get(ci.post, "is_valid_stop")) {
        stops := stops + {i};
      }
      var j := 0;
      while j < n
        invariant 0 <= j <= n
        invariant forall a, b :: (a, b) in pairs <==>
          (0 <= a < i && 0 <= b < n && Edge(cards[a], cards[b])) || (a == i && 0 <= b < j && Edge(cards[a], cards[b]))
      {
        var ok := EdgeTest(ci, cards[j]);
        if ok {
          pairs := pairs + {(i, j)};
        }
        j := j + 1;
      }
      i := i + 1;
    }
    AllPairs(cards, pairs);
    AllStops(cards, stops);
  }

  /** The test of one ordered pair: types first, then the axis and dtype gates. */
  method EdgeTest(ci: Card, cj: Card) returns (ok: bool)
    ensures ok <==> Edge(ci, cj)
  {
    var ret := Label(Get(ci.post, "returns"));
    var acc := Label(Get(cj.pre, "accepts"));
    ok := false;
    if ret != "" && acc != "" {
      ok := ret == acc;
      var outAxis := Get(ci.post, "produces_axis");
      var reqAxis := Get(cj.pre, "accepts_axis");
      if ok && reqAxis != VNone && outAxis != VNone {
        ok := Str(outAxis) == Str(reqAxis);
      }
      var outDtype := Get(ci.post, "produces_dtype");
      var reqDtype := Get(cj.pre, "accepts_dtype");
      if ok && reqDtype != VNone && outDtype != VNone {
        ok := Str(outDtype) == Str(reqDtype);
      }
    }
  }

  /** A set holding exactly the stop positions of the catalog is its stops. */
  lemma AllStops(cards: seq<Card>, stops: set<int>)
    requires forall a :: a in stops <==> 0 <= a < |cards| && IsStop(cards[a])
    ensures stops == Stops(cards)
  {
  }

  /** A set holding exactly the edges between positions of the catalog is its graph. */
  lemma AllPairs(cards: seq<Card>, pairs: set<(int, int)>)
    requires forall a, b :: (a, b) in pairs <==> 0 <= a < |cards| && 0 <= b < |cards| && Edge(cards[a], cards[b])
    ensures pairs == CompatPairs(cards)
  {
    var n := |cards|;
    forall p | p in CompatPairs(cards) ensures p in pairs {
      var a, b :| 0 <= a < n && 0 <= b < n && Edge(cards[a], cards[b]) && p == (a, b);
    }
    forall p | p in pairs ensures p in CompatPairs(cards) {
      var (a, b) := p;
      assert (a, b) in pairs;
      assert 0 <= a < n && 0 <= b < n && Edge(cards[a], cards[b]);
    }
  }

  // ---------------------------------------------------------------------------
  // Properties of the graph

  /** Every edge endpoint and every stop is a position in the catalog. */
  lemma InRange(cards: seq<Card>)
    ensures forall i, j :: (i, j) in CompatPairs(cards) ==> 0 <= i < |cards| && 0 <= j < |cards|
    ensures forall i :: i in Stops(cards) ==> 0 <= i < |cards|
  {
    forall i, j | (i, j) in CompatPairs(cards) ensures 0 <= i < |cards| && 0 <= j < |cards| {
      var a, b :| 0 <= a < |cards| && 0 <= b < |cards| && Edge(cards[a], cards[b]) && (i, j) == (a, b);
    }
  }

  /** A card is a stop iff its `is_valid_stop` is truthy, whatever its edges. */
  lemma StopIff(cards: seq<Card>, i: int)
    requires 0 <= i < |cards|
    ensures i in Stops(cards) <==> Truthy(Get(cards[i].post, "is_valid_stop"))
  {
  }

  /** No edge leaves a card whose `returns` is missing or falsy, or enters one whose `accepts` is. */
  lemma NoEdgeWithoutTypes(cards: seq<Card>, i: int, j: int)
    requires 0 <= i < |cards| && 0 <= j < |cards|
    requires !Truthy(Get(cards[i].post, "returns")) || !Truthy(Get(cards[j].pre, "accepts"))
    ensures (i, j) !in CompatPairs(cards)
  {
    LabelEmpty(Get(cards[i].post, "returns"));
    LabelEmpty(Get(cards[j].pre, "accepts"));
  }

  /** An edge needs the very same text on both sides: there is no case folding. */
  lemma EdgeNeedsSameType(cards: seq<Card>, i: int, j: int)
    requires (i, j) in CompatPairs(cards)
    ensures 0 <= i < |cards| && 0 <= j < |cards|
    ensures Returns(cards[i]) == Accepts(cards[j]) != ""
    ensures Truthy(Get(cards[i].post, "returns")) && Truthy(Get(cards[j].pre, "accepts"))
  {
    InRange(cards);
    LabelEmpty(Get(cards[i].post, "returns"));
    LabelEmpty(Get(cards[j].pre, "accepts"));
  }

  /** The axis gate vetoes an edge when both sides declare an axis and the texts differ. */
  lemma AxisGateVetoes(cards: seq<Card>, i: int, j: int)
    requires 0 <= i < |cards| && 0 <= j < |cards|
    requires Get(cards[i].post, "produces_axis") != VNone && Get(cards[j].pre, "accepts_axis") != VNone
    requires Str(Get(cards[i].post, "produces_axis")) != Str(Get(cards[j].pre, "accepts_axis"))
    ensures (i, j) !in CompatPairs(cards)
  {
  }

  /** The dtype gate vetoes an edge when both sides declare a dtype and the texts differ. */
  lemma DtypeGateVetoes(cards: seq<Card>, i: int, j: int)
    requires 0 <= i < |cards| && 0 <= j < |cards|
    requires Get(cards[i].post, "produces_dtype") != VNone && Get(cards[j].pre, "accepts_dtype") != VNone
    requires Str(Get(cards[i].post, "produces_dtype")) != Str(Get(cards[j].pre, "accepts_dtype"))
    ensures (i, j) !in CompatPairs(cards)
  {
  }

  /**
   * A gate with one side undeclared does nothing: without `produces_axis` and
   * `produces_dtype` on card `i`, an edge depends on the type labels alone.
   * This holds for `i == j` too, so a card whose own returns equals its own
   * accepts has a self-edge.
   */
  lemma GatesAbsent(cards: seq<Card>, i: int, j: int)
    requires 0 <= i < |cards| && 0 <= j < |cards|
    requires "produces_axis" !in cards[i].post && "produces_dtype" !in cards[i].post
    ensures (i, j) in CompatPairs(cards) <==> Returns(cards[i]) == Accepts(cards[j]) != ""
  {
    if Returns(cards[i]) == Accepts(cards[j]) != "" {
      assert Edge(cards[i], cards[j]);
    }
  }

  /** The edge relation, both directions: an ordered pair is an edge iff the rule holds. */
  lemma EdgeIff(cards: seq<Card>, i: int, j: int)
    ensures (i, j) in CompatPairs(cards) <==> 0 <= i < |cards| && 0 <= j < |cards| && Edge(cards[i], cards[j])
  {
    if (i, j) in CompatPairs(cards) {
      InRange(cards);
    }
  }
}
