/**
 * The price evaluator of a product variant (ProductFinal.calculate_price).
 *
 * A variant's price starts from its local base price, or the product's base
 * price when the variant has none, and is then adjusted by three ordered rule
 * sources: the variant's attributes (newest update first), the product's
 * features (newest update first) and the product's one optional special
 * feature. A Final rule replaces the running price and stops every later rule;
 * a Percentage rule adds a percentage of the STARTING price; an Increase rule
 * adds its amount. Tax is added at the end. Money is exact (`real`).
 */
module Pricing {
  import opened Wrappers

  /** type_price: how a rule's price combines with the running price. */
  datatype PriceMode = Percentage | Increase | Final

  /** The price part of an Attribute, a Feature or a FeatureSpecial. */
  datatype Rule = Rule(mode: PriceMode, price: real)

  /** What calculate_price returns: the adjusted price, its tax and their sum. */
  datatype Prices = Prices(priceBase: real, tax: real, priceTotal: real)

  /** The state the evaluator carries from rule to rule: the running price and the `update` flag. */
  datatype Running = Running(price: real, update: bool)

  /** The starting price: the variant's own base price when set, else the product's. */
  function StartPrice(local: Option<real>, productBase: real): real {
    local.GetOr(productBase)
  }

  /** One rule applied to the running state; `start` is the starting price, the base of every percentage. */
  function Step(start: real, s: Running, r: Rule): Running {
    if !s.update then s
    else match r.mode
      case Final => Running(r.price, false)
      case Increase => Running(s.price + r.price, true)
      case Percentage => Running(s.price + start * r.price / 100.0, true)
  }

  /** The rules applied in order, first to last. */
  function Fold(start: real, s: Running, rules: seq<Rule>): Running
    decreases |rules|
  {
    if rules == [] then s
    else Step(start, Fold(start, s, rules[..|rules| - 1]), rules[|rules| - 1])
  }

  /** The special feature, when the product has one, as a rule list of length at most one. */
  function SpecialRules(special: Option<Rule>): seq<Rule> {
    match special
    case Some(r) => [r]
    case None => []
  }

  /** Every rule the evaluator sees, in the order it sees them. */
  function AllRules(attrs: seq<Rule>, feats: seq<Rule>, special: Option<Rule>): seq<Rule> {
    attrs + feats + SpecialRules(special)
  }

  /** The tax-exclusive price of a variant. */
  function AdjustedPrice(start: real, attrs: seq<Rule>, feats: seq<Rule>, special: Option<Rule>): real {
    Fold(start, Running(start, true), AllRules(attrs, feats, special)).price
  }

  /** The full price breakdown: tax is `rate` percent of the adjusted price. */
  function Evaluate(start: real, attrs: seq<Rule>, feats: seq<Rule>, special: Option<Rule>, rate: real): Prices {
    Taxed(AdjustedPrice(start, attrs, feats, special), rate)
  }

  /** A tax-exclusive price with `rate` percent of tax added. */
  function Taxed(base: real, rate: real): Prices {
    var tax := base * rate / 100.0;
    Prices(base, tax, base + tax)
  }

  // ---------------------------------------------------------------------------
  // Reference definitions: the first Final rule, and the additive contributions

  predicate HasFinal(rules: seq<Rule>) {
    exists i :: 0 <= i < |rules| && rules[i].mode == Final
  }

  /** The position of the first Final rule. */
  function FirstFinal(rules: seq<Rule>): (k: nat)
    requires HasFinal(rules)
    ensures k < |rules| && rules[k].mode == Final
    ensures forall i :: 0 <= i < k ==> rules[i].mode != Final
  {
    if rules[0].mode == Final then 0
    else
      assert HasFinal(rules[1..]) by {
        var i :| 0 <= i < |rules| && rules[i].mode == Final;
        assert rules[1..][i - 1] == rules[i];
      }
      1 + FirstFinal(rules[1..])
  }

  /** What a non-final rule adds: a percentage of the starting price, or its amount. */
  function Contribution(start: real, r: Rule): real {
    if r.mode == Percentage then start * r.price / 100.0 else r.price
  }

  function Sum(start: real, rules: seq<Rule>): real {
    if rules == [] then 0.0 else Contribution(start, rules[0]) + Sum(start, rules[1..])
  }

  // ---------------------------------------------------------------------------
  // Properties of the fold

  lemma {:induction false} SumAppend(start: real, a: seq<Rule>, b: seq<Rule>)
    ensures Sum(start, a + b) == Sum(start, a) + Sum(start, b)
  {
    if a == [] {
      assert a + b == b;
    } else {
      assert (a + b)[1..] == a[1..] + b;
      SumAppend(start, a[1..], b);
    }
  }

  /** Once a Final rule has cleared the flag, no later rule changes anything. */
  lemma {:induction false} FoldStopped(start: real, s: Running, rules: seq<Rule>)
    requires !s.update
    ensures Fold(start, s, rules) == s
  {
    if rules != [] {
      FoldStopped(start, s, rules[..|rules| - 1]);
    }
  }

  /** Folding a concatenation is folding the second part from where the first part ended. */
  lemma {:induction false} FoldAppend(start: real, s: Running, a: seq<Rule>, b: seq<Rule>)
    ensures Fold(start, s, a + b) == Fold(start, Fold(start, s, a), b)
  {
    if b == [] {
      assert a + b == a;
    } else {
      assert (a + b)[..|a + b| - 1] == a + b[..|b| - 1];
      FoldAppend(start, s, a, b[..|b| - 1]);
    }
  }

  /** Without a Final rule the fold adds every contribution to the running price. */
  lemma {:induction false} FoldNoFinal(start: real, s: Running, rules: seq<Rule>)
    requires s.update && !HasFinal(rules)
    ensures Fold(start, s, rules) == Running(s.price + Sum(start, rules), true)
  {
    if rules != [] {
      var n := |rules| - 1;
      assert !HasFinal(rules[..n]) by {
        forall i | 0 <= i < n ensures rules[..n][i].mode != Final {
          assert rules[..n][i] == rules[i];
        }
      }
      FoldNoFinal(start, s, rules[..n]);
      assert rules == rules[..n] + [rules[n]];
      SumAppend(start, rules[..n], [rules[n]]);
      assert Sum(start, [rules[n]]) == Contribution(start, rules[n]);
    }
  }

  /** The first Final rule decides the price. */
  lemma FoldFirstFinal(start: real, s: Running, rules: seq<Rule>)
    requires s.update && HasFinal(rules)
    ensures Fold(start, s, rules) == Running(rules[FirstFinal(rules)].price, false)
  {
    var k := FirstFinal(rules);
    assert !HasFinal(rules[..k]) by {
      forall i | 0 <= i < k ensures rules[..k][i].mode != Final {
        assert rules[..k][i] == rules[i];
      }
    }
    FoldNoFinal(start, s, rules[..k]);
    assert rules[..k + 1] == rules[..k] + [rules[k]];
    assert rules[..k + 1][..k] == rules[..k];
    assert Fold(start, s, rules[..k + 1]) == Running(rules[k].price, false);
    SplitAt(rules, k + 1);
    FoldAppend(start, s, rules[..k + 1], rules[k + 1..]);
    FoldStopped(start, Running(rules[k].price, false), rules[k + 1..]);
  }

  lemma SplitAt(rules: seq<Rule>, n: nat)
    requires n <= |rules|
    ensures rules == rules[..n] + rules[n..]
  {
  }

  /**
   * The adjusted price in closed form: the price of the first Final rule when
   * there is one, otherwise the starting price plus every contribution.
   */
  lemma AdjustedPriceClosedForm(start: real, attrs: seq<Rule>, feats: seq<Rule>, special: Option<Rule>)
    ensures var rules := AllRules(attrs, feats, special);
      AdjustedPrice(start, attrs, feats, special)
        == if HasFinal(rules) then rules[FirstFinal(rules)].price else start + Sum(start, rules)
  {
    var rules := AllRules(attrs, feats, special);
    if HasFinal(rules) {
      FoldFirstFinal(start, Running(start, true), rules);
    } else {
      FoldNoFinal(start, Running(start, true), rules);
    }
  }

  /**
   * A Final attribute decides the price: the newest one (the first in the
   * newest-first order) sets it, and the later attributes, all features and
   * the special feature have no influence whatever their modes.
   */
  lemma AttributeFinalDecides(start: real, attrs: seq<Rule>, feats: seq<Rule>, special: Option<Rule>)
    requires HasFinal(attrs)
    ensures AdjustedPrice(start, attrs, feats, special) == attrs[FirstFinal(attrs)].price
  {
    var rules := AllRules(attrs, feats, special);
    var k := FirstFinal(attrs);
    assert forall i | 0 <= i <= k :: rules[i] == attrs[i];
    assert HasFinal(rules);
    assert FirstFinal(rules) == k;
    AdjustedPriceClosedForm(start, attrs, feats, special);
  }

  /** With no attribute Final, a Final feature decides the price and the special feature has no influence. */
  lemma FeatureFinalDecides(start: real, attrs: seq<Rule>, feats: seq<Rule>, special: Option<Rule>)
    requires !HasFinal(attrs) && HasFinal(feats)
    ensures AdjustedPrice(start, attrs, feats, special) == feats[FirstFinal(feats)].price
  {
    var rules := AllRules(attrs, feats, special);
    var k := FirstFinal(feats);
    assert forall i | 0 <= i < |attrs| :: rules[i] == attrs[i];
    assert forall i | 0 <= i <= k :: rules[|attrs| + i] == feats[i];
    assert rules[|attrs| + k].mode == Final;
    assert forall i | 0 <= i < |attrs| + k :: rules[i].mode != Final by {
      forall i | 0 <= i < |attrs| + k ensures rules[i].mode != Final {
        if i >= |attrs| {
          assert rules[|attrs| + (i - |attrs|)] == feats[i - |attrs|];
        }
      }
    }
    assert FirstFinal(rules) == |attrs| + k;
    AdjustedPriceClosedForm(start, attrs, feats, special);
  }

  /** Without any Final rule the price is the start plus the sum of all contributions. */
  lemma NoFinalIsSum(start: real, attrs: seq<Rule>, feats: seq<Rule>, special: Option<Rule>)
    requires !HasFinal(AllRules(attrs, feats, special))
    ensures AdjustedPrice(start, attrs, feats, special) == start + Sum(start, attrs) + Sum(start, feats) + Sum(start, SpecialRules(special))
  {
    AdjustedPriceClosedForm(start, attrs, feats, special);
    SumAppend(start, attrs + feats, SpecialRules(special));
    SumAppend(start, attrs, feats);
  }

  /** Taking one rule out of a list takes its contribution out of the sum. */
  lemma SumWithout(start: real, b: seq<Rule>, j: nat)
    requires j < |b|
    ensures Sum(start, b) == Contribution(start, b[j]) + Sum(start, b[..j] + b[j + 1..])
  {
    assert b == b[..j] + ([b[j]] + b[j + 1..]);
    SumAppend(start, b[..j], [b[j]] + b[j + 1..]);
    assert ([b[j]] + b[j + 1..])[1..] == b[j + 1..];
    SumAppend(start, b[..j], b[j + 1..]);
  }

  /** Removing the same rule from two rearrangements of each other leaves rearrangements of each other. */
  lemma RemoveMatching(a: seq<Rule>, b: seq<Rule>, j: nat)
    requires multiset(a) == multiset(b) && |a| > 0 && j < |b| && b[j] == a[0]
    ensures multiset(a[1..]) == multiset(b[..j] + b[j + 1..])
  {
    var x := a[0];
    assert a == [x] + a[1..];
    assert b == b[..j] + [x] + b[j + 1..];
    var ma, mb := multiset(a[1..]), multiset(b[..j] + b[j + 1..]);
    assert multiset(a) == multiset{x} + ma;
    assert multiset(b) == multiset{x} + mb;
    forall y ensures ma[y] == mb[y] {
      assert (multiset{x} + ma)[y] == (multiset{x} + mb)[y];
    }
  }

  /** The sum of contributions does not depend on the order of the rules. */
  lemma {:induction false} SumPermutation(start: real, a: seq<Rule>, b: seq<Rule>)
    requires multiset(a) == multiset(b)
    ensures Sum(start, a) == Sum(start, b)
  {
    if a == [] {
      assert |b| == |multiset(b)| == 0;
    } else {
      var x := a[0];
      assert x in multiset(b);
      var j :| 0 <= j < |b| && b[j] == x;
      var rest := b[..j] + b[j + 1..];
      RemoveMatching(a, b, j);
      SumPermutation(start, a[1..], rest);
      SumWithout(start, b, j);
    }
  }

  /** Rearranging rules neither creates nor removes a Final rule. */
  lemma FinalUnderPermutation(a: seq<Rule>, b: seq<Rule>)
    requires multiset(a) == multiset(b)
    ensures HasFinal(a) == HasFinal(b)
  {
    if HasFinal(b) {
      var i :| 0 <= i < |b| && b[i].mode == Final;
      assert b[i] in multiset(a);
      var j :| 0 <= j < |a| && a[j] == b[i];
    }
    if HasFinal(a) {
      var i :| 0 <= i < |a| && a[i].mode == Final;
      assert a[i] in multiset(b);
      var j :| 0 <= j < |b| && b[j] == a[i];
    }
  }

  /**
   * Without Final rules the order of the rules does not matter: any
   * rearrangement of the same rules among attributes, features and special
   * feature gives the same price.
   */
  lemma NoFinalOrderIrrelevant(start: real, attrs: seq<Rule>, feats: seq<Rule>, special: Option<Rule>,
                               attrs': seq<Rule>, feats': seq<Rule>, special': Option<Rule>)
    requires !HasFinal(AllRules(attrs, feats, special))
    requires multiset(AllRules(attrs, feats, special)) == multiset(AllRules(attrs', feats', special'))
    ensures AdjustedPrice(start, attrs, feats, special) == AdjustedPrice(start, attrs', feats', special')
  {
    var rules, rules' := AllRules(attrs, feats, special), AllRules(attrs', feats', special');
    FinalUnderPermutation(rules, rules');
    AdjustedPriceClosedForm(start, attrs, feats, special);
    AdjustedPriceClosedForm(start, attrs', feats', special');
    SumPermutation(start, rules, rules');
  }

  /**
   * Base 100, one Increase attribute of 10 and 21% tax give 110 / 23.10 /
   * 133.10; with the attribute raised to 20, 120 / 25.20 / 145.20.
   */
  lemma IncreaseExample()
    ensures Evaluate(100.0, [Rule(Increase, 10.0)], [], None, 21.0) == Prices(110.0, 23.1, 133.1)
    ensures Evaluate(100.0, [Rule(Increase, 20.0)], [], None, 21.0) == Prices(120.0, 25.2, 145.2)
  {
    assert AllRules([Rule(Increase, 10.0)], [], None) == [Rule(Increase, 10.0)];
    assert AllRules([Rule(Increase, 20.0)], [], None) == [Rule(Increase, 20.0)];
    assert [Rule(Increase, 10.0)][..0] == [] == [Rule(Increase, 20.0)][..0];
  }

  // ---------------------------------------------------------------------------
  // The evaluator as the source runs it: three loops over the rule sources

  /** One of the source's rule loops: every rule is visited, but only applied while `update` holds. */
  method ApplyRules(start: real, price0: real, update0: bool, rules: seq<Rule>) returns (price: real, update: bool)
    ensures Running(price, update) == Fold(start, Running(price0, update0), rules)
  {
    price, update := price0, update0;
    var i := 0;
    while i < |rules|
      invariant 0 <= i <= |rules|
      invariant Running(price, update) == Fold(start, Running(price0, update0), rules[..i])
    {
      assert rules[..i + 1][..i] == rules[..i];
      if update {
        match rules[i].mode
        case Final =>
          price := rules[i].price;
          update := false;
        case Increase =>
          price := price + rules[i].price;
        case Percentage =>
          price := price + start * rules[i].price / 100.0;
      }
      i := i + 1;
    }
    assert rules[..|rules|] == rules;
  }

  /**
   * The three loops of calculate_price, the second skipped once a Final rule
   * was met, compute the adjusted price.
   */
  lemma ThreeSources(start: real, attrs: seq<Rule>, feats: seq<Rule>, special: Option<Rule>,
                     s1: Running, s2: Running, s3: Running)
    requires s1 == Fold(start, Running(start, true), attrs)
    requires s2 == if s1.update then Fold(start, s1, feats) else s1
    requires s3 == Fold(start, s2, SpecialRules(special))
    ensures s3.price == AdjustedPrice(start, attrs, feats, special)
  {
    var s0 := Running(start, true);
    if !s1.update {
      FoldStopped(start, s1, feats);
    }
    FoldAppend(start, s0, attrs, feats);
    FoldAppend(start, s0, attrs + feats, SpecialRules(special));
  }

  /** The three rule loops of calculate_price, from the starting price `start`. */
  method AdjustPrice(start: real, attrs: seq<Rule>, feats: seq<Rule>, special: Option<Rule>) returns (price: real)
    ensures price == AdjustedPrice(start, attrs, feats, special)
  {
    // attributes, newest first
    var update;
    price, update := ApplyRules(start, start, true, attrs);
    ghost var afterAttrs := Running(price, update);

    // features, newest first, only while no Final rule was met
    if update {
      price, update := ApplyRules(start, price, update, feats);
    }
    ghost var afterFeats := Running(price, update);

    // the special feature: the same three-mode logic applied to at most one rule
    price, update := ApplyRules(start, price, update, SpecialRules(special));
    ThreeSources(start, attrs, feats, special, afterAttrs, afterFeats, Running(price, update));
  }

  /** calculate_price: the adjusted price from the local (else the product's) base price, with tax added. */
  method CalculatePrice(local: Option<real>, productBase: real, taxRate: real,
                        attrs: seq<Rule>, feats: seq<Rule>, special: Option<Rule>) returns (r: Prices)
    ensures r == Evaluate(StartPrice(local, productBase), attrs, feats, special, taxRate)
    ensures r.tax == r.priceBase * taxRate / 100.0 && r.priceTotal == r.priceBase + r.tax
  {
    var price := AdjustPrice(StartPrice(local, productBase), attrs, feats, special);
    r := Taxed(price, taxRate);
  }
}
