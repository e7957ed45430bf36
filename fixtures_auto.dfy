/**
 * Fixture materialisation: the type labels a catalog mentions, and one
 * fixture per label, taken from a trait pack when it has one and a
 * placeholder otherwise. Loading the pack and writing the fixture file are
 * not part of this model: the pack is an input (the decoded YAML value) and
 * the fixtures are the result.
 */
module FixturesAuto {
  import opened Strs
  import opened PyValues
  import opened Cards

  // ---------------------------------------------------------------------------
  // Type labels

  /** `{v}` when `v` is a non-empty string, `{}` otherwise. */
  function StrLabel(v: Value): set<string>
  {
    if v.VStr? && v.s != "" then {v.s} else {}
  }

  /** The labels one card contributes: its accepts and its returns. */
  function CardLabels(c: Card): set<string>
  {
    StrLabel(Get(c.pre, "accepts")) + StrLabel(Get(c.post, "returns"))
  }

  /** The labels of a catalog: those of all its cards. */
  function TypeLabels(cards: seq<Card>): set<string>
  {
    set i, l | 0 <= i < |cards| && l in CardLabels(cards[i]) :: l
  }

  /**
   * `collect_type_labels`: the labels of the catalog, gathered card by card.
   * A label is collected iff it is not empty and some card accepts or
   * returns it as a string.
   */
  method CollectTypeLabels(ir: IR) returns (labels: set<string>)
    ensures labels == TypeLabels(ir.cards)
    ensures forall l :: l in labels <==> LabelOfSomeCard(ir.cards, l)
  {
    labels := {};
    var k := 0;
    while k < |ir.cards|
      invariant 0 <= k <= |ir.cards|
      invariant labels == TypeLabels(ir.cards[..k])
    {
      var c := ir.cards[k];
      var a, r := Get(c.pre, "accepts"), Get(c.post, "returns");
      if a.VStr? && a.s != "" {
        labels := labels + {a.s};
      }
      if r.VStr? && r.s != "" {
        labels := labels + {r.s};
      }
      TypeLabelsStep(ir.cards, k);
      k := k + 1;
    }
    assert ir.cards[..k] == ir.cards;
    forall l ensures l in labels <==> LabelOfSomeCard(ir.cards, l) {
      TypeLabelsSpec(ir.cards, l);
    }
  }

  /** `l` is a non-empty string that some card accepts or returns. */
  predicate LabelOfSomeCard(cards: seq<Card>, l: string)
  {
    l != "" && exists i :: 0 <= i < |cards| && (Get(cards[i].pre, "accepts") == VStr(l) || Get(cards[i].post, "returns") == VStr(l))
  }

  /** The labels of a catalog are exactly the non-empty strings its cards accept or return. */
  lemma TypeLabelsSpec(cards: seq<Card>, l: string)
    ensures l in TypeLabels(cards) <==> LabelOfSomeCard(cards, l)
  {
    if LabelOfSomeCard(cards, l) {
      var i :| 0 <= i < |cards| && (Get(cards[i].pre, "accepts") == VStr(l) || Get(cards[i].post, "returns") == VStr(l));
      assert l in CardLabels(cards[i]);
    }
  }

  /** One more card adds its own labels. */
  lemma TypeLabelsStep(cards: seq<Card>, k: int)
    requires 0 <= k < |cards|
    ensures TypeLabels(cards[..k + 1]) == TypeLabels(cards[..k]) + CardLabels(cards[k])
  {
    var a, b := cards[..k + 1], cards[..k];
    forall l | l in TypeLabels(a) ensures l in TypeLabels(b) + CardLabels(cards[k]) {
      var i :| 0 <= i < |a| && l in CardLabels(a[i]);
      if i < k { assert b[i] == a[i]; }
    }
    forall l | l in TypeLabels(b) + CardLabels(cards[k]) ensures l in TypeLabels(a) {
      if l in TypeLabels(b) {
        var i :| 0 <= i < |b| && l in CardLabels(b[i]);
        assert a[i] == b[i];
      } else {
        assert a[k] == cards[k];
      }
    }
  }

  // ---------------------------------------------------------------------------
  // Fixtures

  /** The fixture given to a label the pack does not cover. */
  function PlaceholderFixture(lbl: string): Value
  {
    VDict([
      Entry(VStr("imports"), VList([])),
      Entry(VStr("setup"), VStr("curr = None  # TODO: provide fixture for type '" + lbl + "'")),
      Entry(VStr("serializer"), VStr("repr"))])
  }

  /** `(pack.get("fixtures") or {}) if isinstance(pack, dict) else {}` */
  function PackFixtures(pack: Value): Value
  {
    if pack.VDict? then
      var f := DictGet(pack.entries, VStr("fixtures"));
      if Truthy(f) then f else VDict([])
    else VDict([])
  }

  /**
   * `lbl in fixtures_from_pack` and, when it is, `fixtures_from_pack[lbl]`.
   * A dict is looked up by key. For a list or a tuple `in` tests the items
   * and for a string it tests substrings, and indexing either by a string
   * raises; any other value cannot be searched and raises. `Err` stands for
   * the raised `TypeError`.
   */
  function PackEntry(fromPack: Value, lbl: string): Result<Option<Value>>
  {
    match fromPack
    case VDict(es) =>
      var i := EntryIndex(es, VStr(lbl));
      Ok(if i < 0 then None else Some(es[i].val))
    case VList(xs) => if VStr(lbl) in xs then Err("TypeError") else Ok(None)
    case VTuple(xs) => if VStr(lbl) in xs then Err("TypeError") else Ok(None)
    case VStr(s) => if Contains(s, lbl) then Err("TypeError") else Ok(None)
    case _ => Err("TypeError")
  }

  /** The fixture one label gets: the pack's entry verbatim, else the placeholder. */
  function FixtureFor(fromPack: Value, lbl: string): Result<Value>
  {
    match PackEntry(fromPack, lbl)
    case Err(msg) => Err(msg)
    case Ok(None) => Ok(PlaceholderFixture(lbl))
    case Ok(Some(v)) => Ok(v)
  }

  /** The fixtures of labels taken in the given order, or the first error. */
  function FixturesFor(fromPack: Value, lbls: seq<string>): Result<seq<(string, Value)>>
    decreases |lbls|
  {
    if |lbls| == 0 then Ok([])
    else
      match FixturesFor(fromPack, lbls[..|lbls| - 1])
      case Err(msg) => Err(msg)
      case Ok(out) =>
        match FixtureFor(fromPack, lbls[|lbls| - 1])
        case Err(msg) => Err(msg)
        case Ok(v) => Ok(out + [(lbls[|lbls| - 1], v)])
  }

  /** A failure stays a failure when more labels follow. */
  lemma {:induction false} FixturesForErr(fromPack: Value, lbls: seq<string>, more: seq<string>)
    requires FixturesFor(fromPack, lbls).Err?
    ensures FixturesFor(fromPack, lbls + more) == FixturesFor(fromPack, lbls)
    decreases |more|
  {
    if |more| == 0 {
      assert lbls + more == lbls;
    } else {
      var init := more[..|more| - 1];
      FixturesForErr(fromPack, lbls, init);
      assert (lbls + more)[..|lbls + more| - 1] == lbls + init;
    }
  }

  /** The least remaining label comes first in sorted order. */
  lemma SortedElemsLeast(s: set<string>, m: string)
    requires IsLeast(m, s)
    ensures SortedElems(s) == [m] + SortedElems(s - {m})
  {
    var r := [m] + SortedElems(s - {m});
    forall i | 1 <= i < |r| ensures Below(m, r[i]) {
      assert r[i] in s - {m};
    }
    assert StrictlySorted(r) by {
      forall i, j | 0 <= i < j < |r| ensures Below(r[i], r[j]) {
        if i > 0 {
          assert r[i] == SortedElems(s - {m})[i - 1] && r[j] == SortedElems(s - {m})[j - 1];
        }
      }
    }
    StrictlySortedUnique(SortedElems(s), r);
  }

  /**
   * `materialize_fixtures`: the labels in sorted order, each with the pack's
   * fixture for it or the placeholder. `Err` when looking a label up in the
   * pack raises.
   */
  method MaterializeFixtures(language: string, library: string, labels: set<string>, pack: Value)
    returns (out: Result<seq<(string, Value)>>)
    ensures out == FixturesFor(PackFixtures(pack), SortedElems(labels))
  {
    var fromPack := PackFixtures(pack);
    var fixtures: seq<(string, Value)> := [];
    var rest := labels;
    ghost var done: seq<string> := [];
    while rest != {}
      invariant done + SortedElems(rest) == SortedElems(labels)
      invariant FixturesFor(fromPack, done) == Ok(fixtures)
      decreases |rest|
    {
      LeastExists(rest);
      var lbl :| IsLeast(lbl, rest);
      MaterializeStep(fromPack, labels, done, fixtures, rest, lbl);
      var entry := PackEntry(fromPack, lbl);
      if entry.Err? {
        out := Err(entry.msg);
        return;
      }
      var fixture := if entry.value.Some? then entry.value.value else PlaceholderFixture(lbl);
      assert FixtureFor(fromPack, lbl) == Ok(fixture);
      fixtures := fixtures + [(lbl, fixture)];
      done := done + [lbl];
      rest := rest - {lbl};
    }
    assert |SortedElems(rest)| == 0;
    assert done + SortedElems(rest) == done;
    out := Ok(fixtures);
  }

  /**
   * One turn of the loop: the least remaining label is the next in sorted
   * order; its fixture follows the earlier ones, and a failure on it is the
   * failure of the whole.
   */
  lemma MaterializeStep(fromPack: Value, labels: set<string>, done: seq<string>, fixtures: seq<(string, Value)>,
                        rest: set<string>, lbl: string)
    requires done + SortedElems(rest) == SortedElems(labels)
    requires FixturesFor(fromPack, done) == Ok(fixtures)
    requires IsLeast(lbl, rest)
    ensures (done + [lbl]) + SortedElems(rest - {lbl}) == SortedElems(labels)
    ensures FixtureFor(fromPack, lbl).Err? ==>
      FixturesFor(fromPack, SortedElems(labels)) == Err(FixtureFor(fromPack, lbl).msg)
    ensures FixtureFor(fromPack, lbl).Ok? ==>
      FixturesFor(fromPack, done + [lbl]) == Ok(fixtures + [(lbl, FixtureFor(fromPack, lbl).value)])
  {
    SortedStep(labels, done, rest, lbl);
    var later := SortedElems(rest - {lbl});
    FixturesForLast(fromPack, done, lbl);
    if FixtureFor(fromPack, lbl).Err? {
      FixturesForErr(fromPack, done + [lbl], later);
    }
  }

  /** Taking the least remaining label keeps the labels in sorted order. */
  lemma SortedStep(labels: set<string>, done: seq<string>, rest: set<string>, lbl: string)
    requires done + SortedElems(rest) == SortedElems(labels)
    requires IsLeast(lbl, rest)
    ensures (done + [lbl]) + SortedElems(rest - {lbl}) == SortedElems(labels)
  {
    SortedElemsLeast(rest, lbl);
    var later := SortedElems(rest - {lbl});
    assert done + [lbl] + later == done + ([lbl] + later);
  }

  /** One more label: its fixture after the earlier ones. */
  lemma FixturesForLast(fromPack: Value, lbls: seq<string>, lbl: string)
    ensures FixturesFor(fromPack, lbls + [lbl]) ==
      match FixturesFor(fromPack, lbls)
      case Err(msg) => Err(msg)
      case Ok(out) =>
        match FixtureFor(fromPack, lbl)
        case Err(msg) => Err(msg)
        case Ok(v) => Ok(out + [(lbl, v)])
  {
    assert (lbls + [lbl])[..|lbls|] == lbls;
  }

  /**
   * Labels taken in order give one fixture each, in the same order, each the
   * fixture for its label; they fail exactly when one of them does.
   */
  lemma {:induction false} FixturesForSpec(fromPack: Value, lbls: seq<string>)
    ensures var r := FixturesFor(fromPack, lbls);
      && (r.Ok? <==> forall k :: 0 <= k < |lbls| ==> FixtureFor(fromPack, lbls[k]).Ok?)
      && (r.Ok? ==> |r.value| == |lbls|)
      && (r.Ok? ==> forall k :: 0 <= k < |lbls| ==> r.value[k].0 == lbls[k] && Ok(r.value[k].1) == FixtureFor(fromPack, lbls[k]))
    decreases |lbls|
  {
    if |lbls| > 0 {
      var init := lbls[..|lbls| - 1];
      FixturesForSpec(fromPack, init);
      assert forall k :: 0 <= k < |init| ==> init[k] == lbls[k];
    }
  }

  /**
   * The materialised keys are exactly the labels, in sorted order, each with
   * the fixture for it.
   */
  lemma MaterializedFixtures(labels: set<string>, pack: Value)
    requires FixturesFor(PackFixtures(pack), SortedElems(labels)).Ok?
    ensures var out := FixturesFor(PackFixtures(pack), SortedElems(labels)).value;
      && DictKeys(out) == SortedElems(labels)
      && StrictlySorted(DictKeys(out))
      && (forall l :: l in DictKeys(out) <==> l in labels)
      && (forall k :: 0 <= k < |out| ==> Ok(out[k].1) == FixtureFor(PackFixtures(pack), out[k].0))
  {
    var lbls := SortedElems(labels);
    FixturesForSpec(PackFixtures(pack), lbls);
  }

  /**
   * From a fixtures dict, a label it holds gets that entry verbatim and any
   * other label the placeholder; nothing fails.
   */
  lemma FixtureFromDict(es: seq<Entry>, lbl: string)
    ensures var i := EntryIndex(es, VStr(lbl));
      FixtureFor(VDict(es), lbl) == Ok(if i >= 0 then es[i].val else PlaceholderFixture(lbl))
  {
  }

  /** A pack that is not a dict, or has no truthy fixtures, gives every label the placeholder. */
  lemma NoPackFixtures(labels: set<string>, pack: Value)
    requires !pack.VDict? || !Truthy(DictGet(pack.entries, VStr("fixtures")))
    ensures var r := FixturesFor(PackFixtures(pack), SortedElems(labels));
      var lbls := SortedElems(labels);
      && r.Ok? && |r.value| == |lbls|
      && forall k :: 0 <= k < |lbls| ==> r.value[k] == (lbls[k], PlaceholderFixture(lbls[k]))
  {
    var lbls := SortedElems(labels);
    FixturesForSpec(PackFixtures(pack), lbls);
  }
}
