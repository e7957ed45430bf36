/**
 * The card catalog: `Card` and `IR` records, the transformer callbacks that
 * turn parsed card items into facts and links, the folding of those items
 * into a card, and the name-to-position index (the last duplicate wins).
 * Parsing itself (the grammar and the LALR parser) is not part of this model:
 * the callbacks receive items that are already parsed.
 */
module Cards {
  import opened Strs
  import opened PyValues

  /**
   * One library operation: its qualified name, its profile, the facts it
   * states about its input (`pre`) and output (`post`), and its links
   * `(relation, target)` in source order.
   */
  datatype Card = Card(
    qualname: string,
    profile: string,
    pre: map<string, Value>,
    post: map<string, Value>,
    links: seq<(string, string)>)

  /** The loaded catalog: the cards in source order and the name-to-position map. */
  datatype IR = IR(cards: seq<Card>, index: map<string, nat>)

  /**
   * An item in the body of a card: a 3-tuple `(ns, key, value)`, a 2-tuple
   * `(rel, target)`, or anything else.
   */
  datatype Item =
    | Fact(ns: string, key: string, val: Value)
    | Link(rel: string, tgt: string)
    | Other

  // ---------------------------------------------------------------------------
  // Scalar callbacks

  /** Leading `-` characters removed, as `s.lstrip("-")`. */
  function LStripDashes(s: string): (r: string)
    ensures |r| <= |s| && r == s[|s| - |r|..]
    ensures |r| > 0 ==> r[0] != '-'
    ensures forall k :: 0 <= k < |s| - |r| ==> s[k] == '-'
    decreases |s|
  {
    if |s| > 0 && s[0] == '-' then LStripDashes(s[1..]) else s
  }

  /** The text is an integer: at most one `-`, then at least one ASCII digit. */
  predicate IsIntText(s: string)
  {
    var digits := LStripDashes(s);
    |digits| > 0 && AllDigits(digits)
  }

  /**
   * A signed number token: an `int` when the text without its leading `-` is
   * all digits, a `float` (kept as its text) otherwise. The lexer never
   * produces two leading `-`.
   */
  function SignedNumber(s: string): (v: Value)
    requires !StartsWith(s, "--")
    ensures v.VInt? <==> IsIntText(s)
    ensures v.VFloat? <==> !IsIntText(s)
    ensures v.VFloat? ==> v.text == s
  {
    var digits := LStripDashes(s);
    if |digits| > 0 && AllDigits(digits) then
      if |s| > 0 && s[0] == '-' then VInt(-(DigitsValue(digits) as int)) else VInt(DigitsValue(digits))
    else VFloat(s)
  }

  /** Every integer's decimal text is read back as that integer. */
  lemma SignedNumberInt(i: int)
    ensures !StartsWith(IntToString(i), "--")
    ensures SignedNumber(IntToString(i)) == VInt(i)
  {
    var n := if i < 0 then -i else i;
    NatToStringDigits(n);
    var d := NatToString(n);
    var s := IntToString(i);
    assert s == if i < 0 then "-" + d else d;
    SignedDigitsText(s, i < 0, d);
  }

  /** Digits after at most one `-`: the dashes stripped are exactly the sign. */
  lemma SignedDigitsText(s: string, neg: bool, d: string)
    requires |d| > 0 && AllDigits(d) && s == (if neg then "-" + d else d)
    ensures !StartsWith(s, "--") && LStripDashes(s) == d && (|s| > 0 && s[0] == '-') == neg
  {
    assert IsDigit(d[0]);
    if neg {
      assert s[1..] == d;
      assert s[1] == d[0];
    }
  }

  /** A leading `+` makes the token a float, not an int. */
  lemma SignedNumberPlus(d: string)
    requires |d| > 0 && AllDigits(d)
    ensures !StartsWith("+" + d, "--") && SignedNumber("+" + d) == VFloat("+" + d)
  {
    var s := "+" + d;
    assert LStripDashes(s) == s;
    assert !IsDigit(s[0]);
  }

  /**
   * An escaped string token: the first and last character (the quotes) are
   * dropped and nothing is unescaped.
   */
  function EscapedString(t: string): (r: string)
    ensures |t| >= 2 ==> |r| == |t| - 2 && forall k :: 0 <= k < |r| ==> r[k] == t[k + 1]
    ensures |t| < 2 ==> r == ""
  {
    if |t| >= 2 then t[1..|t| - 1] else ""
  }

  /** `fact`: a `(namespace, key, value)` triple. */
  function MakeFact(ns: string, key: string, val: Value): (it: Item)
    ensures it.Fact? && it.ns == ns && it.key == key && it.val == val
  {
    Fact(ns, key, val)
  }

  /** `modal_fact`: the same triple as `fact`; the modal word is dropped. */
  function MakeModalFact(modal: string, ns: string, key: string, val: Value): (it: Item)
    ensures it == MakeFact(ns, key, val)
  {
    Fact(ns, key, val)
  }

  /**
   * `fact` and `modal_fact` as written: the value goes through `_ToPython`
   * wrapped in `Tree("value", …)`. `_ToPython` has no `value` callback, so
   * Lark's default callback rebuilds the node, and the stored value is
   * `Tree('value', [v])` rather than `v`.
   */
  function MakeFactAsWritten(ns: string, key: string, val: Value): Item
  {
    Fact(ns, key, VTree("value", [val]))
  }

  /** Every fact among the items holds a Lark tree. */
  predicate TreeFacts(items: seq<Item>)
  {
    forall j :: 0 <= j < |items| && items[j].Fact? ==> items[j].val.VTree?
  }

  /** Every value of the card's `pre` and `post` is a Lark tree. */
  predicate TreeValues(c: Card)
  {
    (forall k :: k in c.pre ==> c.pre[k].VTree?) && (forall k :: k in c.post ==> c.post[k].VTree?)
  }

  /** Folding facts that hold trees into a card whose values are trees gives a card whose values are trees. */
  lemma {:induction false} TreeFactsTreeValues(c: Card, items: seq<Item>)
    requires TreeValues(c) && TreeFacts(items)
    ensures TreeValues(ApplyAll(c, items))
    decreases |items|
  {
    if |items| > 0 {
      var n := |items| - 1;
      assert TreeFacts(items[..n]) by {
        forall j | 0 <= j < n && items[..n][j].Fact? ensures items[..n][j].val.VTree? {
          assert items[..n][j] == items[j];
        }
      }
      TreeFactsTreeValues(c, items[..n]);
      assert items[n].Fact? ==> items[n].val.VTree?;
    }
  }

  /** Two modal facts that differ only in their modal word are the same item. */
  lemma ModalWordIgnored(m1: string, m2: string, ns: string, key: string, val: Value)
    ensures MakeModalFact(m1, ns, key, val) == MakeModalFact(m2, ns, key, val)
  {
  }

  /** `link`: a `(relation, target)` pair. */
  function MakeLink(rel: string, tgt: string): (it: Item)
    ensures it.Link? && it.rel == rel && it.tgt == tgt
  {
    Link(rel, tgt)
  }

  // ---------------------------------------------------------------------------
  // Folding the items of a card

  /** What one item does to the card being built. */
  function Apply(c: Card, it: Item): Card
  {
    match it
    case Fact(ns, key, val) =>
      if ns == "pre" then c.(pre := c.pre[key := val])
      else if ns == "post" then c.(post := c.post[key := val])
      else c
    case Link(rel, tgt) => c.(links := c.links + [(rel, tgt)])
    case Other => c
  }

  /** The card after its items are applied in order. */
  function ApplyAll(c: Card, items: seq<Item>): Card
    decreases |items|
  {
    if |items| == 0 then c else Apply(ApplyAll(c, items[..|items| - 1]), items[|items| - 1])
  }

  function Empty(qual: string, profile: string): Card
  {
    Card(qual, profile, map[], map[], [])
  }

  /** The card the `card` callback builds from its name, profile and items. */
  function CardOf(qual: string, profile: string, items: seq<Item>): Card
  {
    ApplyAll(Empty(qual, profile), items)
  }

  /** A fact is the one that counts for its key when no later item sets that key. */
  predicate LastFactFor(items: seq<Item>, i: int)
    requires 0 <= i < |items| && items[i].Fact?
  {
    forall j :: i < j < |items| ==> !(items[j].Fact? && items[j].ns == items[i].ns && items[j].key == items[i].key)
  }

  /** Folding never changes the name or the profile. */
  lemma {:induction false} ApplyAllKeepsName(c: Card, items: seq<Item>)
    ensures ApplyAll(c, items).qualname == c.qualname
    ensures ApplyAll(c, items).profile == c.profile
    decreases |items|
  {
    if |items| > 0 {
      ApplyAllKeepsName(c, items[..|items| - 1]);
    }
  }

  /**
   * A `pre`/`post` fact that no later fact overrides is in the card with its
   * value: a later fact for the same key overwrites an earlier one.
   */
  lemma {:induction false} LastFactWins(c: Card, items: seq<Item>, i: int)
    requires 0 <= i < |items| && items[i].Fact? && items[i].ns in {"pre", "post"}
    requires LastFactFor(items, i)
    ensures var r := ApplyAll(c, items);
      var d := if items[i].ns == "pre" then r.pre else r.post;
      items[i].key in d && d[items[i].key] == items[i].val
    decreases |items|
  {
    var n := |items| - 1;
    if i < n {
      var init := items[..n];
      assert init[i] == items[i];
      assert LastFactFor(init, i) by {
        forall j | i < j < |init|
          ensures !(init[j].Fact? && init[j].ns == init[i].ns && init[j].key == init[i].key)
        {
          assert init[j] == items[j];
        }
      }
      LastFactWins(c, init, i);
      assert !(items[n].Fact? && items[n].ns == items[i].ns && items[n].key == items[i].key);
    }
  }

  /**
   * Every key of the built card's `pre` (`post`) comes from the starting card
   * or from a fact of that namespace in the items; facts of any other
   * namespace are ignored.
   */
  lemma {:induction false} FactKeysFromItems(c: Card, items: seq<Item>, key: string)
    ensures key in ApplyAll(c, items).pre ==>
      key in c.pre || exists i :: 0 <= i < |items| && items[i].Fact? && items[i].ns == "pre" && items[i].key == key
    ensures key in ApplyAll(c, items).post ==>
      key in c.post || exists i :: 0 <= i < |items| && items[i].Fact? && items[i].ns == "post" && items[i].key == key
    decreases |items|
  {
    if |items| > 0 {
      var n := |items| - 1;
      var init := items[..n];
      FactKeysFromItems(c, init, key);
      forall i | 0 <= i < n ensures init[i] == items[i] { }
    }
  }

  /** The links of a card are the links of its items, in source order. */
  lemma {:induction false} LinksInOrder(c: Card, a: seq<Item>, b: seq<Item>)
    ensures ApplyAll(c, a + b).links == ApplyAll(c, a).links + ApplyAll(Empty("", ""), b).links
    decreases |b|
  {
    if |b| == 0 {
      assert a + b == a;
    } else {
      var n := |b| - 1;
      assert (a + b)[..|a + b| - 1] == a + b[..n];
      LinksInOrder(c, a, b[..n]);
    }
  }

  /** A lone link item contributes exactly its pair; no other item contributes a link. */
  lemma LinkItem(c: Card, it: Item)
    ensures it.Link? ==> ApplyAll(c, [it]).links == c.links + [(it.rel, it.tgt)]
    ensures !it.Link? ==> ApplyAll(c, [it]).links == c.links
  {
    assert [it][..0] == [];
  }

  // ---------------------------------------------------------------------------
  // The transformer that collects cards

  /** Collects the cards of a catalog in source order. */
  class Builder {
    var cards: seq<Card>

    constructor ()
      ensures cards == []
    {
      cards := [];
    }

    /**
     * The `card` callback: starts an empty card, applies the items in order
     * and appends the card.
     */
    method AddCard(qual: string, profile: string, items: seq<Item>)
      modifies this
      ensures cards == old(cards) + [CardOf(qual, profile, items)]
    {
      var c := Empty(qual, profile);
      var k := 0;
      while k < |items|
        invariant 0 <= k <= |items|
        invariant c == ApplyAll(Empty(qual, profile), items[..k])
      {
        var it := items[k];
        match it {
          case Fact(ns, key, val) =>
            if ns == "pre" {
              c := c.(pre := c.pre[key := val]);
            } else if ns == "post" {
              c := c.(post := c.post[key := val]);
            }
          case Link(rel, tgt) =>
            c := c.(links := c.links + [(rel, tgt)]);
          case Other =>
        }
        assert items[..k + 1][..k] == items[..k];
        k := k + 1;
      }
      assert items[..k] == items;
      cards := cards + [c];
    }
  }

  // ---------------------------------------------------------------------------
  // The name-to-position index

  /** `{c.qualname: i for i, c in enumerate(cards)}`: later positions overwrite earlier ones. */
  function Index(cards: seq<Card>): map<string, nat>
    decreases |cards|
  {
    if |cards| == 0 then map[]
    else Index(cards[..|cards| - 1])[cards[|cards| - 1].qualname := |cards| - 1]
  }

  /**
   * A name is indexed iff some card has it, and it maps to the last card with
   * that name.
   */
  lemma {:induction false} IndexLastWins(cards: seq<Card>, q: string)
    ensures q in Index(cards) <==> exists i :: 0 <= i < |cards| && cards[i].qualname == q
    ensures q in Index(cards) ==>
      var i := Index(cards)[q];
      && i < |cards|
      && cards[i].qualname == q
      && forall j :: i < j < |cards| ==> cards[j].qualname != q
    decreases |cards|
  {
    if |cards| > 0 {
      var n := |cards| - 1;
      var init := cards[..n];
      IndexLastWins(init, q);
      forall i | 0 <= i < n ensures init[i] == cards[i] { }
      if cards[n].qualname != q {
        if exists i :: 0 <= i < |cards| && cards[i].qualname == q {
          var i :| 0 <= i < |cards| && cards[i].qualname == q;
          assert init[i].qualname == q;
        }
      }
    }
  }

  /** `load_cards` once the catalog text is parsed: one card per parsed card, then the index. */
  method LoadCards(parsed: seq<(string, string, seq<Item>)>) returns (ir: IR)
    ensures |ir.cards| == |parsed|
    ensures forall k :: 0 <= k < |parsed| ==> ir.cards[k] == CardOf(parsed[k].0, parsed[k].1, parsed[k].2)
    ensures ir.index == Index(ir.cards)
  {
    var b := new Builder();
    var k := 0;
    while k < |parsed|
      invariant 0 <= k <= |parsed|
      invariant |b.cards| == k
      invariant forall m :: 0 <= m < k ==> b.cards[m] == CardOf(parsed[m].0, parsed[m].1, parsed[m].2)
    {
      b.AddCard(parsed[k].0, parsed[k].1, parsed[k].2);
      k := k + 1;
    }
    ir := IR(b.cards, Index(b.cards));
  }

  /** Every step of a plan names a card of the catalog. */
  predicate PlanInRange(cards: seq<Card>, plan: seq<int>)
  {
    forall k :: 0 <= k < |plan| ==> 0 <= plan[k] < |cards|
  }
}
