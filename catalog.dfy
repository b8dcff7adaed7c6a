/**
 * The catalogue tables that a variant's price depends on, and the store that
 * keeps each variant's stored price (ProductFinal.price / price_base) in step
 * with them: ProductFinal.calculate_price, recalculate and save, and the
 * price-change propagation done by the save methods of Feature, Attribute,
 * FeatureSpecial, Product and TypeTax. Also the default-tax bookkeeping of
 * TypeTax.save, the one-row-per-pair guard of ProductFinalAttribute, and what
 * the lock_delete chains guarantee about the tables.
 *
 * Tables whose rows carry an `updated` timestamp (ProductFeature and
 * ProductFinalAttribute) are sequences in ascending update order: saving a
 * row moves it to the end, and "newest first" reads the sequence backwards.
 */
module Catalog {
  import opened Wrappers
  import opened Pricing
  import opened Deletion

  type TaxId = nat
  type AttrId = nat
  type FeatId = nat
  type SpecialId = nat
  type ProdId = nat
  type VarId = nat
  type RowId = nat
  type GroupId = nat

  /** type_value of a rule: Free ('F'), Boolean ('B'), List ('O'), or anything else stored in the column. */
  datatype ValueKind = FreeValue | BooleanValue | ListValue | OtherKind

  /** TypeTax: a rate in percent and the default flag. */
  datatype TypeTax = TypeTax(rate: real, isDefault: bool)

  /** The fields of GenAttr (Attribute, Feature) that matter here. */
  datatype GenAttr = GenAttr(rule: Rule, kind: ValueKind, listValue: Option<GroupId>)

  /** FeatureSpecial: a GenAttr plus whether unit values must be unique. */
  datatype FeatureSpecial = FeatureSpecial(attr: GenAttr, unique: bool)

  datatype Product = Product(priceBase: real, tax: TaxId, special: Option<SpecialId>)

  /** ProductFinal's definitional fields; its stored price lives in the store's `prices`. */
  datatype Variant = Variant(product: ProdId, priceBaseLocal: Option<real>)

  datatype ProductFeature = ProductFeature(product: ProdId, feature: FeatId, value: string)

  datatype VariantAttribute = VariantAttribute(pk: RowId, variant: VarId, attribute: AttrId, value: string)

  /** ProductFinal.price (tax included) and ProductFinal.price_base. */
  datatype StoredPrice = StoredPrice(price: real, priceBase: real)

  datatype Tables = Tables(
    taxes: map<TaxId, TypeTax>,
    attributes: map<AttrId, GenAttr>,
    features: map<FeatId, GenAttr>,
    specials: map<SpecialId, FeatureSpecial>,
    products: map<ProdId, Product>,
    productFeatures: seq<ProductFeature>,
    variants: map<VarId, Variant>,
    variantAttrs: seq<VariantAttribute>)

  predicate ProductRefsOk(t: Tables, p: Product) {
    p.tax in t.taxes && (p.special.Some? ==> p.special.value in t.specials)
  }

  /** Every foreign key points at an existing row. */
  ghost predicate Integrity(t: Tables) {
    && (forall p :: p in t.products ==> ProductRefsOk(t, t.products[p]))
    && (forall v :: v in t.variants ==> t.variants[v].product in t.products)
    && (forall r :: r in t.productFeatures ==> r.product in t.products && r.feature in t.features)
    && (forall r :: r in t.variantAttrs ==> r.variant in t.variants && r.attribute in t.attributes)
  }

  // ---------------------------------------------------------------- pricing

  /** The rules of variant v's attribute rows, newest first. */
  function AttributeRules(rows: seq<VariantAttribute>, attributes: map<AttrId, GenAttr>, v: VarId): seq<Rule>
    requires forall r :: r in rows ==> r.attribute in attributes
  {
    if rows == [] then []
    else
      var last := rows[|rows| - 1];
      var rest := rows[..|rows| - 1];
      assert forall r :: r in rest ==> r in rows;
      (if last.variant == v then [attributes[last.attribute].rule] else []) + AttributeRules(rest, attributes, v)
  }

  /** The rules of product p's feature rows, newest first. */
  function FeatureRules(rows: seq<ProductFeature>, features: map<FeatId, GenAttr>, p: ProdId): seq<Rule>
    requires forall r :: r in rows ==> r.feature in features
  {
    if rows == [] then []
    else
      var last := rows[|rows| - 1];
      var rest := rows[..|rows| - 1];
      assert forall r :: r in rest ==> r in rows;
      (if last.product == p then [features[last.feature].rule] else []) + FeatureRules(rest, features, p)
  }

  function SpecialRule(t: Tables, p: ProdId): Option<Rule>
    requires Integrity(t) && p in t.products
  {
    match t.products[p].special
    case None => None
    case Some(s) => Some(t.specials[s].attr.rule)
  }

  /** What calculate_price returns for variant v over the tables t. */
  function Expected(t: Tables, v: VarId): Prices
    requires Integrity(t) && v in t.variants
  {
    var vr := t.variants[v];
    var p := t.products[vr.product];
    Evaluate(StartPrice(vr.priceBaseLocal, p.priceBase),
             AttributeRules(t.variantAttrs, t.attributes, v),
             FeatureRules(t.productFeatures, t.features, vr.product),
             SpecialRule(t, vr.product),
             t.taxes[p.tax].rate)
  }

  /** recalculate stores price_total as `price` and the adjusted price as `price_base`. */
  function Stored(r: Prices): StoredPrice {
    StoredPrice(r.priceTotal, r.priceBase)
  }

  /** Every variant has a stored price, and it is the one calculate_price gives now. */
  ghost predicate Synced(t: Tables, prices: map<VarId, StoredPrice>)
    requires Integrity(t)
  {
    && t.variants.Keys <= prices.Keys
    && forall v {:trigger prices[v]} :: v in t.variants ==> prices[v] == Stored(Expected(t, v))
  }

  /**
   * The variant saved last wins: after a row for (v, a) is (re)saved, its
   * attribute's rule is the first one calculate_price applies to v.
   */
  lemma LatestAttributeFirst(rows: seq<VariantAttribute>, attributes: map<AttrId, GenAttr>, row: VariantAttribute)
    requires forall r :: r in rows ==> r.attribute in attributes
    requires row.attribute in attributes
    ensures var rules := AttributeRules(rows + [row], attributes, row.variant);
            |rules| > 0 && rules[0] == attributes[row.attribute].rule
  {
    assert (rows + [row])[..|rows|] == rows;
  }

  // ------------------------------------------------------------ dependents

  /** Products that have a feature row for f. */
  function FeatureProducts(rows: seq<ProductFeature>, f: FeatId): set<ProdId> {
    set r | r in rows && r.feature == f :: r.product
  }

  /** The variants Feature.save recalculates: those whose product has a row for f. */
  function FeatureDependents(t: Tables, f: FeatId): (deps: set<VarId>)
    requires Integrity(t)
    ensures deps <= t.variants.Keys
    ensures f !in t.features ==> deps == {}
  {
    assert f !in t.features ==> FeatureProducts(t.productFeatures, f) == {};
    set v | v in t.variants && t.variants[v].product in FeatureProducts(t.productFeatures, f)
  }

  /** The variants Attribute.save recalculates: those with a row for a. */
  function AttributeDependents(t: Tables, a: AttrId): (deps: set<VarId>)
    requires Integrity(t)
    ensures deps <= t.variants.Keys
    ensures a !in t.attributes ==> deps == {}
  {
    set r | r in t.variantAttrs && r.attribute == a :: r.variant
  }

  /** The variants FeatureSpecial.save recalculates: those whose product uses s. */
  function SpecialDependents(t: Tables, s: SpecialId): (deps: set<VarId>)
    requires Integrity(t)
    ensures deps <= t.variants.Keys
    ensures s !in t.specials ==> deps == {}
  {
    set v | v in t.variants && t.products[t.variants[v].product].special == Some(s)
  }

  /** The variants Product.save recalculates: its own. */
  function ProductDependents(t: Tables, p: ProdId): (deps: set<VarId>)
    requires Integrity(t)
    ensures deps <= t.variants.Keys
    ensures p !in t.products ==> deps == {}
  {
    set v | v in t.variants && t.variants[v].product == p
  }

  /** The variants TypeTax.save recalculates: those of the products taxed at x. */
  function TaxDependents(t: Tables, x: TaxId): (deps: set<VarId>)
    requires Integrity(t)
    ensures deps <= t.variants.Keys
    ensures x !in t.taxes ==> deps == {}
  {
    set v | v in t.variants && t.products[t.variants[v].product].tax == x
  }

  // --------------------------------------------------- what an edit changes

  lemma {:induction false} AttributeRulesFrame(rows: seq<VariantAttribute>, m1: map<AttrId, GenAttr>,
                                               m2: map<AttrId, GenAttr>, v: VarId)
    requires forall r :: r in rows ==> r.attribute in m1 && r.attribute in m2
    requires forall r :: r in rows && r.variant == v ==> m1[r.attribute].rule == m2[r.attribute].rule
    ensures AttributeRules(rows, m1, v) == AttributeRules(rows, m2, v)
  {
    if rows != [] {
      var rest := rows[..|rows| - 1];
      assert forall r :: r in rest ==> r in rows;
      AttributeRulesFrame(rest, m1, m2, v);
    }
  }

  lemma {:induction false} FeatureRulesFrame(rows: seq<ProductFeature>, m1: map<FeatId, GenAttr>,
                                             m2: map<FeatId, GenAttr>, p: ProdId)
    requires forall r :: r in rows ==> r.feature in m1 && r.feature in m2
    requires forall r :: r in rows && r.product == p ==> m1[r.feature].rule == m2[r.feature].rule
    ensures FeatureRules(rows, m1, p) == FeatureRules(rows, m2, p)
  {
    if rows != [] {
      var rest := rows[..|rows| - 1];
      assert forall r :: r in rest ==> r in rows;
      FeatureRulesFrame(rest, m1, m2, p);
    }
  }

  /** Storing feature f changes the price of no variant outside FeatureDependents, and of none if its rule is unchanged. */
  lemma FeatureEdit(t: Tables, f: FeatId, a: GenAttr)
    requires Integrity(t)
    ensures Integrity(t.(features := t.features[f := a]))
    ensures forall v :: v in t.variants && (v !in FeatureDependents(t, f) || (f in t.features && t.features[f].rule == a.rule))
                        ==> Expected(t.(features := t.features[f := a]), v) == Expected(t, v)
  {
    var u := t.(features := t.features[f := a]);
    forall v | v in t.variants && (v !in FeatureDependents(t, f) || (f in t.features && t.features[f].rule == a.rule))
      ensures Expected(u, v) == Expected(t, v)
    {
      var p := t.variants[v].product;
      FeatureRulesFrame(t.productFeatures, t.features, u.features, p);
    }
  }

  /** Storing attribute a changes the price of no variant outside AttributeDependents, and of none if its rule is unchanged. */
  lemma AttributeEdit(t: Tables, a: AttrId, g: GenAttr)
    requires Integrity(t)
    ensures Integrity(t.(attributes := t.attributes[a := g]))
    ensures forall v :: v in t.variants && (v !in AttributeDependents(t, a) || (a in t.attributes && t.attributes[a].rule == g.rule))
                        ==> Expected(t.(attributes := t.attributes[a := g]), v) == Expected(t, v)
  {
    var u := t.(attributes := t.attributes[a := g]);
    forall v | v in t.variants && (v !in AttributeDependents(t, a) || (a in t.attributes && t.attributes[a].rule == g.rule))
      ensures Expected(u, v) == Expected(t, v)
    {
      AttributeRulesFrame(t.variantAttrs, t.attributes, u.attributes, v);
    }
  }

  /** Storing special feature s changes the price of no variant outside SpecialDependents, and of none if its rule is unchanged. */
  lemma SpecialEdit(t: Tables, s: SpecialId, fs: FeatureSpecial)
    requires Integrity(t)
    ensures Integrity(t.(specials := t.specials[s := fs]))
    ensures forall v :: v in t.variants && (v !in SpecialDependents(t, s) || (s in t.specials && t.specials[s].attr.rule == fs.attr.rule))
                        ==> Expected(t.(specials := t.specials[s := fs]), v) == Expected(t, v)
  {
  }

  /** Storing product p changes the price of no variant of another product, and of none if its price, tax and special feature are unchanged. */
  lemma ProductEdit(t: Tables, p: ProdId, prod: Product)
    requires Integrity(t) && ProductRefsOk(t, prod)
    ensures Integrity(t.(products := t.products[p := prod]))
    ensures forall v :: v in t.variants && (v !in ProductDependents(t, p) || (p in t.products && t.products[p] == prod))
                        ==> Expected(t.(products := t.products[p := prod]), v) == Expected(t, v)
  {
  }

  // -------------------------------------------------------- default tax flag

  predicate OtherDefault(taxes: map<TaxId, TypeTax>, x: TaxId) {
    exists y :: y in taxes && y != x && taxes[y].isDefault
  }

  ghost predicate AtMostOneDefault(taxes: map<TaxId, TypeTax>) {
    forall y, z :: y in taxes && z in taxes && taxes[y].isDefault && taxes[z].isDefault ==> y == z
  }

  ghost predicate ExactlyOneDefault(taxes: map<TaxId, TypeTax>) {
    AtMostOneDefault(taxes) && exists y :: y in taxes && taxes[y].isDefault
  }

  /**
   * The tax table after TypeTax.save stores `tax` under x: a default tax
   * clears every other default flag; a non-default one becomes the default
   * when no other tax is.
   */
  function TaxesAfterSave(taxes: map<TaxId, TypeTax>, x: TaxId, tax: TypeTax): (r: map<TaxId, TypeTax>)
    ensures r.Keys == taxes.Keys + {x}
    ensures r[x].rate == tax.rate && forall y :: y in taxes && y != x ==> r[y].rate == taxes[y].rate
    ensures AtMostOneDefault(taxes) ==> ExactlyOneDefault(r)
    ensures tax.isDefault ==> r[x].isDefault
    ensures !tax.isDefault && OtherDefault(taxes, x) ==> r == taxes[x := tax]
    ensures !tax.isDefault && !OtherDefault(taxes, x) ==> r == taxes[x := tax.(isDefault := true)]
    ensures tax.isDefault ==> forall y :: y in r && y != x ==> !r[y].isDefault
  {
    if tax.isDefault then
      var r := (map y | y in taxes && y != x :: taxes[y].(isDefault := false))[x := tax];
      assert forall y :: y in r && r[y].isDefault ==> y == x;
      r
    else if OtherDefault(taxes, x) then
      taxes[x := tax]
    else
      var r := taxes[x := tax.(isDefault := true)];
      assert forall y :: y in r && r[y].isDefault ==> y == x;
      r
  }

  /** Storing tax x changes the price of no variant if its rate is unchanged, and otherwise only those of TaxDependents. */
  lemma TaxEdit(t: Tables, x: TaxId, tax: TypeTax)
    requires Integrity(t)
    ensures Integrity(t.(taxes := TaxesAfterSave(t.taxes, x, tax)))
    ensures forall v :: v in t.variants && (v !in TaxDependents(t, x) || (x in t.taxes && t.taxes[x].rate == tax.rate))
                        ==> Expected(t.(taxes := TaxesAfterSave(t.taxes, x, tax)), v) == Expected(t, v)
  {
  }

  // ------------------------------------------- ProductFinalAttribute rows

  datatype AttrRowError = SameAttribute

  /** ProductFinalAttribute.validate: another row already gives this variant this attribute. */
  function ValidateAttributeRow(rows: seq<VariantAttribute>, pk: Option<RowId>, variant: VarId, attribute: AttrId)
    : (err: Option<AttrRowError>)
    ensures err.Some? <==> exists r :: r in rows && r.variant == variant && r.attribute == attribute
                                       && (pk.None? || r.pk != pk.value)
  {
    if pk.None? then
      if exists r :: r in rows && r.variant == variant && r.attribute == attribute then Some(SameAttribute) else None
    else
      if exists r :: r in rows && r.variant == variant && r.attribute == attribute && r.pk != pk.value
      then Some(SameAttribute) else None
  }

  /** No two rows share a primary key or a (variant, attribute) pair. */
  ghost predicate RowsWellKeyed(rows: seq<VariantAttribute>) {
    forall i, j :: 0 <= i < j < |rows| ==>
      rows[i].pk != rows[j].pk && (rows[i].variant != rows[j].variant || rows[i].attribute != rows[j].attribute)
  }

  /** A primary key above every one in use, as the database assigns to a new row. */
  function FreshPk(rows: seq<VariantAttribute>): (k: RowId)
    ensures forall r :: r in rows ==> r.pk < k
  {
    if rows == [] then 0
    else
      var k := FreshPk(rows[1..]);
      assert forall r :: r in rows ==> r == rows[0] || r in rows[1..];
      if rows[0].pk < k then k else rows[0].pk + 1
  }

  /** The rows with `pk` removed, order kept. */
  function Without(rows: seq<VariantAttribute>, pk: RowId): (r: seq<VariantAttribute>)
    ensures forall x :: x in r <==> x in rows && x.pk != pk
  {
    if rows == [] then []
    else (if rows[0].pk == pk then [] else [rows[0]]) + Without(rows[1..], pk)
  }

  /** Saving a row: an update leaves its old place, and either way it becomes the most recently updated. */
  function Upsert(rows: seq<VariantAttribute>, row: VariantAttribute): (r: seq<VariantAttribute>)
    ensures forall x :: x in r <==> x == row || (x in rows && x.pk != row.pk)
    ensures r[|r| - 1] == row
  {
    Without(rows, row.pk) + [row]
  }

  lemma {:induction false} WithoutKeepsWellKeyed(rows: seq<VariantAttribute>, pk: RowId)
    requires RowsWellKeyed(rows)
    ensures RowsWellKeyed(Without(rows, pk))
  {
    if rows != [] {
      WithoutKeepsWellKeyed(rows[1..], pk);
      var w := Without(rows[1..], pk);
      forall y | y in w
        ensures y.pk != rows[0].pk && (y.variant != rows[0].variant || y.attribute != rows[0].attribute)
      {
        var j :| 0 <= j < |rows[1..]| && rows[1..][j] == y;
        assert rows[j + 1] == y;
      }
    }
  }

  /** A row that passed validate, saved under its own or a fresh key, keeps the table well keyed. */
  lemma UpsertKeepsWellKeyed(rows: seq<VariantAttribute>, pk: Option<RowId>, row: VariantAttribute)
    requires RowsWellKeyed(rows)
    requires ValidateAttributeRow(rows, pk, row.variant, row.attribute).None?
    requires row.pk == pk.GetOr(FreshPk(rows))
    ensures RowsWellKeyed(Upsert(rows, row))
  {
    WithoutKeepsWellKeyed(rows, row.pk);
    var w := Without(rows, row.pk);
    var u := Upsert(rows, row);
    forall i, j | 0 <= i < j < |u|
      ensures u[i].pk != u[j].pk && (u[i].variant != u[j].variant || u[i].attribute != u[j].attribute)
    {
      if j == |u| - 1 {
        assert u[i] == w[i];
        assert u[i] in rows;
      } else {
        assert u[i] == w[i] && u[j] == w[j];
      }
    }
  }

  // ------------------------------------------------------------ deletion

  /** The relationships of tax x that still have rows. */
  function TaxPresent(t: Tables, x: TaxId): set<Relation> {
    if exists p :: p in t.products && t.products[p].tax == x then {Products} else {}
  }

  function FeaturePresent(t: Tables, f: FeatId): set<Relation> {
    if exists r :: r in t.productFeatures && r.feature == f then {ProductFeatures} else {}
  }

  function AttributePresent(t: Tables, a: AttrId): set<Relation> {
    if exists r :: r in t.variantAttrs && r.attribute == a then {ProductsFinalAttributes} else {}
  }

  function SpecialPresent(t: Tables, s: SpecialId): set<Relation> {
    if exists p :: p in t.products && t.products[p].special == Some(s) then {Products} else {}
  }

  /** `others` are the relationships held outside these tables (images, documents, related products). */
  function ProductPresent(t: Tables, p: ProdId, others: set<Relation>): set<Relation> {
    (if exists v :: v in t.variants && t.variants[v].product == p then {ProductsFinal} else {})
    + (if exists r :: r in t.productFeatures && r.product == p then {ProductFeatures} else {})
    + others * {ProductsImage, ProductsDocument, ProductsRelated, ProductsRelatedSold}
  }

  /** `others` are the relationships held outside these tables (images, stock units, flagships). */
  function VariantPresent(t: Tables, v: VarId, others: set<Relation>): set<Relation> {
    (if exists r :: r in t.variantAttrs && r.variant == v then {ProductsFinalAttributes} else {})
    + others * {ProductsFinalImage, ProductsUnique, FlagshipProducts}
  }

  /**
   * Prices in sync over t stay in sync over u when u keeps some of t's
   * variants, each with its stored price and its calculated price.
   */
  lemma SyncedCarries(t: Tables, u: Tables, prices: map<VarId, StoredPrice>, prices': map<VarId, StoredPrice>)
    requires Integrity(t) && Integrity(u) && Synced(t, prices)
    requires u.variants.Keys <= t.variants.Keys
    requires forall w :: w in u.variants ==> w in prices' && w in prices && prices'[w] == prices[w]
    requires forall w :: w in u.variants ==> w in t.variants && Expected(u, w) == Expected(t, w)
    ensures Synced(u, prices')
  {
  }

  /**
   * Prices in sync over t are in sync over u when every variant of u was
   * recalculated (deps) or kept both its stored and its calculated price.
   */
  lemma SyncedUpdate(t: Tables, u: Tables, prices: map<VarId, StoredPrice>, prices': map<VarId, StoredPrice>, deps: set<VarId>)
    requires Integrity(t) && Integrity(u) && Synced(t, prices)
    requires forall w :: w in u.variants && w in deps ==> w in prices' && prices'[w] == Stored(Expected(u, w))
    requires forall w :: w in u.variants && w !in deps ==> w in t.variants && w in prices' && w in prices && prices'[w] == prices[w]
    requires forall w :: w in u.variants && w !in deps ==> w in t.variants && Expected(u, w) == Expected(t, w)
    ensures Synced(u, prices')
  {
  }

  /** Storing variant v keeps every reference and the price of every other variant. */
  lemma VariantStored(t: Tables, v: VarId, vr: Variant)
    requires Integrity(t) && vr.product in t.products
    ensures Integrity(t.(variants := t.variants[v := vr]))
    ensures forall w :: w in t.variants && w != v ==> Expected(t.(variants := t.variants[v := vr]), w) == Expected(t, w)
  {
    var u := t.(variants := t.variants[v := vr]);
    assert Integrity(u);
    forall w | w in t.variants && w != v ensures Expected(u, w) == Expected(t, w) {
      ExpectedSame(t, u, w);
    }
  }

  /** ProductFinal.save keeps prices in sync: the saved variant is priced afresh and no other price changes. */
  lemma VariantSaveKeepsSync(t: Tables, prices: map<VarId, StoredPrice>, v: VarId, vr: Variant)
    requires Integrity(t) && Synced(t, prices) && vr.product in t.products
    ensures Integrity(t.(variants := t.variants[v := vr]))
    ensures var u := t.(variants := t.variants[v := vr]);
            Synced(u, prices[v := Stored(Expected(u, v))])
  {
    VariantStored(t, v, vr);
    var u := t.(variants := t.variants[v := vr]);
    SyncedUpdate(t, u, prices, prices[v := Stored(Expected(u, v))], {v});
  }

  /** The stored prices after the variants in deps are recalculated over t; the others keep theirs. */
  function Refreshed(t: Tables, prices: map<VarId, StoredPrice>, deps: set<VarId>): map<VarId, StoredPrice>
    requires Integrity(t) && deps <= t.variants.Keys
  {
    map w | w in prices :: if w in deps then Stored(Expected(t, w)) else prices[w]
  }

  /** Refreshing no variant keeps every stored price. */
  lemma RefreshedNothing(t: Tables, prices: map<VarId, StoredPrice>)
    requires Integrity(t)
    ensures Refreshed(t, prices, {}) == prices
  {
  }

  /** Refreshing one more variant is storing its calculated price. */
  lemma RefreshedStep(t: Tables, prices: map<VarId, StoredPrice>, done: set<VarId>, w: VarId)
    requires Integrity(t) && done <= t.variants.Keys && w in t.variants && w in prices
    ensures Refreshed(t, prices, done)[w := Stored(Expected(t, w))] == Refreshed(t, prices, done + {w})
  {
  }

  /** Taking w from the variants still to do adds it to those done. */
  lemma DoneGrows(deps: set<VarId>, todo: set<VarId>, w: VarId)
    requires w in todo && todo <= deps
    ensures deps - (todo - {w}) == (deps - todo) + {w}
  {
  }

  /** With nothing left to do, every variant is done. */
  lemma DoneAll(deps: set<VarId>, todo: set<VarId>)
    requires todo == {}
    ensures deps - todo == deps
  {
  }

  /** The variants Feature.save recalculates when it stores a over f: none unless f existed with another price. */
  function FeatureRecalc(t: Tables, f: FeatId, a: GenAttr): set<VarId>
    requires Integrity(t)
  {
    if f in t.features && t.features[f].rule.price != a.rule.price then FeatureDependents(t, f) else {}
  }

  /** The variants Attribute.save recalculates when it stores g over a. */
  function AttributeRecalc(t: Tables, a: AttrId, g: GenAttr): set<VarId>
    requires Integrity(t)
  {
    if a in t.attributes && t.attributes[a].rule.price != g.rule.price then AttributeDependents(t, a) else {}
  }

  /** The variants FeatureSpecial.save recalculates when it stores fs over s. */
  function SpecialRecalc(t: Tables, s: SpecialId, fs: FeatureSpecial): set<VarId>
    requires Integrity(t)
  {
    if s in t.specials && t.specials[s].attr.rule.price != fs.attr.rule.price then SpecialDependents(t, s) else {}
  }

  /** The variants Product.save recalculates: none unless p existed with another base price or tax. */
  function ProductRecalc(t: Tables, p: ProdId, prod: Product): set<VarId>
    requires Integrity(t)
  {
    if p in t.products && (t.products[p].priceBase != prod.priceBase || t.products[p].tax != prod.tax)
    then ProductDependents(t, p) else {}
  }

  /** The variants TypeTax.save recalculates: none unless x existed with another rate. */
  function TaxRecalc(t: Tables, x: TaxId, tax: TypeTax): set<VarId>
    requires Integrity(t)
  {
    if x in t.taxes && t.taxes[x].rate != tax.rate then TaxDependents(t, x) else {}
  }

  /**
   * Feature.save keeps prices in sync unless the edit changes the feature's
   * mode and not its price, which it does not propagate.
   */
  lemma FeatureSaveKeepsSync(t: Tables, prices: map<VarId, StoredPrice>, f: FeatId, a: GenAttr)
    requires Integrity(t) && Synced(t, prices)
    requires !(f in t.features && ModeOnlyChange(t.features[f].rule, a.rule))
    ensures var u := t.(features := t.features[f := a]);
            Integrity(u) && Synced(u, Refreshed(u, prices, FeatureRecalc(t, f, a)))
  {
    FeatureEdit(t, f, a);
    var u := t.(features := t.features[f := a]);
    var deps := FeatureRecalc(t, f, a);
    forall w | w in u.variants && w !in deps ensures Expected(u, w) == Expected(t, w) {
      assert w !in FeatureDependents(t, f) || t.features[f].rule == a.rule;
    }
    RefreshedKeepsSync(t, u, prices, deps);
  }

  /** Attribute.save keeps prices in sync unless the edit changes the attribute's mode and not its price. */
  lemma AttributeSaveKeepsSync(t: Tables, prices: map<VarId, StoredPrice>, a: AttrId, g: GenAttr)
    requires Integrity(t) && Synced(t, prices)
    requires !(a in t.attributes && ModeOnlyChange(t.attributes[a].rule, g.rule))
    ensures var u := t.(attributes := t.attributes[a := g]);
            Integrity(u) && Synced(u, Refreshed(u, prices, AttributeRecalc(t, a, g)))
  {
    AttributeEdit(t, a, g);
    var u := t.(attributes := t.attributes[a := g]);
    var deps := AttributeRecalc(t, a, g);
    forall w | w in u.variants && w !in deps ensures Expected(u, w) == Expected(t, w) {
      assert w !in AttributeDependents(t, a) || t.attributes[a].rule == g.rule;
    }
    RefreshedKeepsSync(t, u, prices, deps);
  }

  /** FeatureSpecial.save keeps prices in sync unless the edit changes the special feature's mode and not its price. */
  lemma SpecialSaveKeepsSync(t: Tables, prices: map<VarId, StoredPrice>, s: SpecialId, fs: FeatureSpecial)
    requires Integrity(t) && Synced(t, prices)
    requires !(s in t.specials && ModeOnlyChange(t.specials[s].attr.rule, fs.attr.rule))
    ensures var u := t.(specials := t.specials[s := fs]);
            Integrity(u) && Synced(u, Refreshed(u, prices, SpecialRecalc(t, s, fs)))
  {
    SpecialEdit(t, s, fs);
    var u := t.(specials := t.specials[s := fs]);
    var deps := SpecialRecalc(t, s, fs);
    forall w | w in u.variants && w !in deps ensures Expected(u, w) == Expected(t, w) {
      assert w !in SpecialDependents(t, s) || t.specials[s].attr.rule == fs.attr.rule;
    }
    RefreshedKeepsSync(t, u, prices, deps);
  }

  /**
   * Product.save keeps prices in sync unless the edit changes the product's
   * special feature and neither its base price nor its tax.
   */
  lemma ProductSaveKeepsSync(t: Tables, prices: map<VarId, StoredPrice>, p: ProdId, prod: Product)
    requires Integrity(t) && Synced(t, prices) && ProductRefsOk(t, prod)
    requires p in t.products ==> t.products[p].special == prod.special || t.products[p].priceBase != prod.priceBase
                                 || t.products[p].tax != prod.tax
    ensures var u := t.(products := t.products[p := prod]);
            Integrity(u) && Synced(u, Refreshed(u, prices, ProductRecalc(t, p, prod)))
  {
    ProductEdit(t, p, prod);
    var u := t.(products := t.products[p := prod]);
    var deps := ProductRecalc(t, p, prod);
    forall w | w in u.variants && w !in deps ensures Expected(u, w) == Expected(t, w) {
      assert w !in ProductDependents(t, p) || t.products[p] == prod;
    }
    RefreshedKeepsSync(t, u, prices, deps);
  }

  /** TypeTax.save always keeps prices in sync: a changed rate reaches every product taxed at it. */
  lemma TaxSaveKeepsSync(t: Tables, prices: map<VarId, StoredPrice>, x: TaxId, tax: TypeTax)
    requires Integrity(t) && Synced(t, prices)
    ensures var u := t.(taxes := TaxesAfterSave(t.taxes, x, tax));
            Integrity(u) && Synced(u, Refreshed(u, prices, TaxRecalc(t, x, tax)))
  {
    TaxEdit(t, x, tax);
    var u := t.(taxes := TaxesAfterSave(t.taxes, x, tax));
    RefreshedKeepsSync(t, u, prices, TaxRecalc(t, x, tax));
  }

  /** Refreshing deps keeps prices in sync when the edit from t to u changes no calculated price outside deps. */
  lemma RefreshedKeepsSync(t: Tables, u: Tables, prices: map<VarId, StoredPrice>, deps: set<VarId>)
    requires Integrity(t) && Integrity(u) && Synced(t, prices)
    requires u.variants == t.variants && deps <= u.variants.Keys
    requires forall w :: w in u.variants && w !in deps ==> Expected(u, w) == Expected(t, w)
    ensures Synced(u, Refreshed(u, prices, deps))
  {
    var r := Refreshed(u, prices, deps);
    forall w | w in u.variants ensures w in r && r[w] == Stored(Expected(u, w)) {
      assert prices[w] == Stored(Expected(t, w));
    }
  }

  /** A tax its lock_delete lets through is used by no product: removing it keeps every reference and every price. */
  lemma TaxDeletion(t: Tables, prices: map<VarId, StoredPrice>, x: TaxId)
    requires Integrity(t) && Synced(t, prices)
    requires LockDelete(TypeTaxModel, TaxPresent(t, x)) == Inherited
    ensures Integrity(t.(taxes := t.taxes - {x}))
    ensures Synced(t.(taxes := t.taxes - {x}), prices)
  {
    Unblocked(TypeTaxModel, TaxPresent(t, x), Products);
    var u := t.(taxes := t.taxes - {x});
    assert Integrity(u);
    forall w | w in u.variants ensures Expected(u, w) == Expected(t, w) {
      ExpectedSame(t, u, w);
    }
    SyncedCarries(t, u, prices, prices);
  }

  /** A feature its lock_delete lets through is used by no product: removing it keeps every reference and every price. */
  lemma FeatureDeletion(t: Tables, prices: map<VarId, StoredPrice>, f: FeatId)
    requires Integrity(t) && Synced(t, prices)
    requires LockDelete(FeatureModel, FeaturePresent(t, f)) == Inherited
    ensures Integrity(t.(features := t.features - {f}))
    ensures Synced(t.(features := t.features - {f}), prices)
  {
    Unblocked(FeatureModel, FeaturePresent(t, f), ProductFeatures);
    var u := t.(features := t.features - {f});
    FeatureRemoved(t, f);
    SyncedCarries(t, u, prices, prices);
  }

  lemma FeatureRemoved(t: Tables, f: FeatId)
    requires Integrity(t) && forall r :: r in t.productFeatures ==> r.feature != f
    ensures Integrity(t.(features := t.features - {f}))
    ensures forall w :: w in t.variants ==> Expected(t.(features := t.features - {f}), w) == Expected(t, w)
  {
    var u := t.(features := t.features - {f});
    assert Integrity(u);
    forall w | w in t.variants ensures Expected(u, w) == Expected(t, w) {
      FeatureRulesFrame(t.productFeatures, t.features, u.features, t.variants[w].product);
      ExpectedSame(t, u, w);
    }
  }

  /** An attribute its lock_delete lets through is used by no variant: removing it keeps every reference and every price. */
  lemma AttributeDeletion(t: Tables, prices: map<VarId, StoredPrice>, a: AttrId)
    requires Integrity(t) && Synced(t, prices)
    requires LockDelete(AttributeModel, AttributePresent(t, a)) == Inherited
    ensures Integrity(t.(attributes := t.attributes - {a}))
    ensures Synced(t.(attributes := t.attributes - {a}), prices)
  {
    Unblocked(AttributeModel, AttributePresent(t, a), ProductsFinalAttributes);
    var u := t.(attributes := t.attributes - {a});
    AttributeRemoved(t, a);
    SyncedCarries(t, u, prices, prices);
  }

  lemma AttributeRemoved(t: Tables, a: AttrId)
    requires Integrity(t) && forall r :: r in t.variantAttrs ==> r.attribute != a
    ensures Integrity(t.(attributes := t.attributes - {a}))
    ensures forall w :: w in t.variants ==> Expected(t.(attributes := t.attributes - {a}), w) == Expected(t, w)
  {
    var u := t.(attributes := t.attributes - {a});
    assert Integrity(u);
    forall w | w in t.variants ensures Expected(u, w) == Expected(t, w) {
      AttributeRulesFrame(t.variantAttrs, t.attributes, u.attributes, w);
      ExpectedSame(t, u, w);
    }
  }

  /** A special feature its lock_delete lets through is used by no product: removing it keeps every reference and every price. */
  lemma SpecialDeletion(t: Tables, prices: map<VarId, StoredPrice>, s: SpecialId)
    requires Integrity(t) && Synced(t, prices)
    requires LockDelete(FeatureSpecialModel, SpecialPresent(t, s)) == Inherited
    ensures Integrity(t.(specials := t.specials - {s}))
    ensures Synced(t.(specials := t.specials - {s}), prices)
  {
    Unblocked(FeatureSpecialModel, SpecialPresent(t, s), Products);
    var u := t.(specials := t.specials - {s});
    assert Integrity(u);
    forall w | w in u.variants ensures Expected(u, w) == Expected(t, w) {
      ExpectedSame(t, u, w);
    }
    SyncedCarries(t, u, prices, prices);
  }

  /** A product its lock_delete lets through has no variants and no feature rows: removing it keeps every reference and every price. */
  lemma ProductDeletion(t: Tables, prices: map<VarId, StoredPrice>, p: ProdId, others: set<Relation>)
    requires Integrity(t) && Synced(t, prices)
    requires LockDelete(ProductModel, ProductPresent(t, p, others)) == Inherited
    ensures Integrity(t.(products := t.products - {p}))
    ensures Synced(t.(products := t.products - {p}), prices)
  {
    Unblocked(ProductModel, ProductPresent(t, p, others), ProductsFinal);
    Unblocked(ProductModel, ProductPresent(t, p, others), ProductFeatures);
    var u := t.(products := t.products - {p});
    assert Integrity(u);
    forall w | w in u.variants ensures Expected(u, w) == Expected(t, w) {
      ExpectedSame(t, u, w);
    }
    SyncedCarries(t, u, prices, prices);
  }

  /** A price depends only on its own row, its product, that product's tax rate and the rules it collects. */
  lemma ExpectedSame(t: Tables, u: Tables, v: VarId)
    requires Integrity(t) && Integrity(u) && v in t.variants && v in u.variants
    requires t.variants[v] == u.variants[v]
    requires var p := t.variants[v].product;
             && t.products[p] == u.products[p]
             && t.taxes[t.products[p].tax].rate == u.taxes[t.products[p].tax].rate
             && SpecialRule(t, p) == SpecialRule(u, p)
             && FeatureRules(t.productFeatures, t.features, p) == FeatureRules(u.productFeatures, u.features, p)
    requires AttributeRules(t.variantAttrs, t.attributes, v) == AttributeRules(u.variantAttrs, u.attributes, v)
    ensures Expected(t, v) == Expected(u, v)
  {
  }

  /** A variant its lock_delete lets through has no attribute rows: removing it and its price keeps every reference and every other price. */
  lemma VariantDeletion(t: Tables, prices: map<VarId, StoredPrice>, v: VarId, others: set<Relation>)
    requires Integrity(t) && Synced(t, prices)
    requires LockDelete(ProductFinalModel, VariantPresent(t, v, others)) == Inherited
    ensures Integrity(t.(variants := t.variants - {v}))
    ensures Synced(t.(variants := t.variants - {v}), prices - {v})
  {
    Unblocked(ProductFinalModel, VariantPresent(t, v, others), ProductsFinalAttributes);
    var u := t.(variants := t.variants - {v});
    VariantRemoved(t, v);
    SyncedCarries(t, u, prices, prices - {v});
  }

  lemma VariantRemoved(t: Tables, v: VarId)
    requires Integrity(t) && forall r :: r in t.variantAttrs ==> r.variant != v
    ensures Integrity(t.(variants := t.variants - {v}))
    ensures forall w :: w in t.variants && w != v ==> Expected(t.(variants := t.variants - {v}), w) == Expected(t, w)
  {
    var u := t.(variants := t.variants - {v});
    assert Integrity(u);
    forall w | w in u.variants ensures Expected(u, w) == Expected(t, w) {
      ExpectedSame(t, u, w);
    }
  }

  // --------------------------------------------------------------- store

  /** A rule edit that changes the mode but not the price: the save methods do not propagate it. */
  predicate ModeOnlyChange(before: Rule, after: Rule) {
    before.price == after.price && before.mode != after.mode
  }

  class Store {
    var tables: Tables
    /** ProductFinal.price and price_base of every variant. */
    var prices: map<VarId, StoredPrice>

    ghost predicate Valid()
      reads this
    {
      && Integrity(tables)
      && prices.Keys == tables.variants.Keys
      && AtMostOneDefault(tables.taxes)
      && RowsWellKeyed(tables.variantAttrs)
    }

    /** An empty catalogue. */
    constructor ()
      ensures Valid() && Synced(tables, prices)
      ensures tables == Tables(map[], map[], map[], map[], map[], [], map[], []) && prices == map[]
    {
      tables := Tables(map[], map[], map[], map[], map[], [], map[], []);
      prices := map[];
    }

    /** ProductFinal.calculate_price: collect the variant's rules, then evaluate them. */
    method CalculatePrice(v: VarId) returns (r: Prices)
      requires Integrity(tables) && v in tables.variants
      ensures r == Expected(tables, v)
    {
      var vr := tables.variants[v];
      var p := tables.products[vr.product];
      var attrs := AttributeRules(tables.variantAttrs, tables.attributes, v);
      var feats := FeatureRules(tables.productFeatures, tables.features, vr.product);
      r := Pricing.CalculatePrice(vr.priceBaseLocal, p.priceBase, tables.taxes[p.tax].rate,
                                  attrs, feats, SpecialRule(tables, vr.product));
    }

    /**
     * ProductFinal.recalculate: write the computed price only when it differs
     * from the stored one. Afterwards it is the computed one, so calling again
     * writes nothing.
     */
    method Recalculate(v: VarId) returns (written: bool)
      requires Valid() && v in tables.variants
      modifies this`prices
      ensures Valid()
      ensures prices == old(prices)[v := Stored(Expected(tables, v))]
      ensures written <==> old(prices[v]) != Stored(Expected(tables, v))
    {
      var r := CalculatePrice(v);
      written := prices[v].price != r.priceTotal || prices[v].priceBase != r.priceBase;
      if written {
        prices := prices[v := Stored(r)];
      }
    }

    /** The loop the save methods run over their dependent variants. */
    method RecalculateEach(deps: set<VarId>)
      requires Valid() && deps <= tables.variants.Keys
      modifies this`prices
      ensures Valid()
      ensures prices == Refreshed(tables, old(prices), deps)
    {
      var todo := deps;
      RefreshedNothing(tables, prices);
      while todo != {}
        invariant Valid() && todo <= deps
        invariant prices == Refreshed(tables, old(prices), deps - todo)
        decreases todo
      {
        var w :| w in todo;
        ghost var done := deps - todo;
        var written := Recalculate(w);
        RefreshedStep(tables, old(prices), done, w);
        DoneGrows(deps, todo, w);
        todo := todo - {w};
      }
      DoneAll(deps, todo);
    }

    /** ProductFinal.save: store the variant with its price computed first. */
    method SaveVariant(v: VarId, vr: Variant)
      requires Valid() && vr.product in tables.products
      modifies this
      ensures Valid()
      ensures tables == old(tables).(variants := old(tables.variants)[v := vr])
      ensures prices == old(prices)[v := Stored(Expected(tables, v))]
    {
      VariantStored(tables, v, vr);
      tables := tables.(variants := tables.variants[v := vr]);
      var r := CalculatePrice(v);
      prices := prices[v := Stored(r)];
    }

    /**
     * Feature.save: store the feature; when it existed and its price changed,
     * recalculate the variants of every product using it.
     */
    method SaveFeature(f: FeatId, a: GenAttr) returns (recalculated: set<VarId>)
      requires Valid()
      modifies this
      ensures Valid()
      ensures tables == old(tables).(features := old(tables.features)[f := a])
      ensures recalculated == FeatureRecalc(old(tables), f, a)
      ensures prices == Refreshed(tables, old(prices), recalculated)
    {
      recalculated := FeatureRecalc(tables, f, a);
      FeatureEdit(tables, f, a);
      tables := tables.(features := tables.features[f := a]);
      RecalculateEach(recalculated);
    }

    /**
     * Attribute.save: store the attribute; when it existed and its price
     * changed, recalculate every variant that has a row for it.
     */
    method SaveAttribute(id: AttrId, g: GenAttr) returns (recalculated: set<VarId>)
      requires Valid()
      modifies this
      ensures Valid()
      ensures tables == old(tables).(attributes := old(tables.attributes)[id := g])
      ensures recalculated == AttributeRecalc(old(tables), id, g)
      ensures prices == Refreshed(tables, old(prices), recalculated)
    {
      recalculated := AttributeRecalc(tables, id, g);
      AttributeEdit(tables, id, g);
      tables := tables.(attributes := tables.attributes[id := g]);
      RecalculateEach(recalculated);
    }

    /**
     * FeatureSpecial.save: store the special feature; when it existed and its
     * price changed, recalculate the variants of every product using it.
     */
    method SaveFeatureSpecial(s: SpecialId, fs: FeatureSpecial) returns (recalculated: set<VarId>)
      requires Valid()
      modifies this
      ensures Valid()
      ensures tables == old(tables).(specials := old(tables.specials)[s := fs])
      ensures recalculated == SpecialRecalc(old(tables), s, fs)
      ensures prices == Refreshed(tables, old(prices), recalculated)
    {
      recalculated := SpecialRecalc(tables, s, fs);
      SpecialEdit(tables, s, fs);
      tables := tables.(specials := tables.specials[s := fs]);
      RecalculateEach(recalculated);
    }

    /**
     * Product.save: store the product; when it existed and its base price or
     * its tax changed, recalculate its variants. A change of special feature
     * alone is not propagated.
     */
    method SaveProduct(p: ProdId, prod: Product) returns (recalculated: set<VarId>)
      requires Valid() && ProductRefsOk(tables, prod)
      modifies this
      ensures Valid()
      ensures tables == old(tables).(products := old(tables.products)[p := prod])
      ensures recalculated == ProductRecalc(old(tables), p, prod)
      ensures prices == Refreshed(tables, old(prices), recalculated)
    {
      recalculated := ProductRecalc(tables, p, prod);
      ProductEdit(tables, p, prod);
      tables := tables.(products := tables.products[p := prod]);
      RecalculateEach(recalculated);
    }

    /**
     * TypeTax.save: store the tax with the default-flag bookkeeping (after
     * which exactly one tax is the default); when it existed and its rate
     * changed, recalculate the variants of every product taxed at it.
     */
    method SaveTypeTax(x: TaxId, tax: TypeTax) returns (recalculated: set<VarId>)
      requires Valid()
      modifies this
      ensures Valid()
      ensures tables == old(tables).(taxes := TaxesAfterSave(old(tables.taxes), x, tax))
      ensures ExactlyOneDefault(tables.taxes)
      ensures recalculated == TaxRecalc(old(tables), x, tax)
      ensures prices == Refreshed(tables, old(prices), recalculated)
    {
      recalculated := TaxRecalc(tables, x, tax);
      TaxEdit(tables, x, tax);
      tables := tables.(taxes := TaxesAfterSave(tables.taxes, x, tax));
      RecalculateEach(recalculated);
    }

    /**
     * ProductFinalAttribute.save: refuse a second row for the same (variant,
     * attribute) pair; otherwise store the row (a new one under a fresh key)
     * as the most recently updated. The variant is not recalculated.
     */
    method SaveVariantAttribute(pk: Option<RowId>, variant: VarId, attribute: AttrId, value: string)
      returns (err: Option<AttrRowError>)
      requires Valid() && variant in tables.variants && attribute in tables.attributes
      requires pk.Some? ==> exists r :: r in tables.variantAttrs && r.pk == pk.value
      modifies this`tables
      ensures Valid()
      ensures err == ValidateAttributeRow(old(tables.variantAttrs), pk, variant, attribute)
      ensures err.Some? ==> tables == old(tables)
      ensures err.None? ==> tables == old(tables).(variantAttrs := Upsert(old(tables.variantAttrs),
                              VariantAttribute(pk.GetOr(FreshPk(old(tables.variantAttrs))), variant, attribute, value)))
    {
      err := ValidateAttributeRow(tables.variantAttrs, pk, variant, attribute);
      if err.None? {
        var row := VariantAttribute(pk.GetOr(FreshPk(tables.variantAttrs)), variant, attribute, value);
        UpsertKeepsWellKeyed(tables.variantAttrs, pk, row);
        tables := tables.(variantAttrs := Upsert(tables.variantAttrs, row));
      }
    }
  }
}
