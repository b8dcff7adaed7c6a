/**
 * The lock_delete chains of the catalogue models. Each model checks its
 * dependent relationships in a fixed order and refuses deletion naming the
 * first one that still has rows; when none has, the decision is left to the
 * framework's own lock_delete (the `super()` call), which is not part of this
 * model. A relationship stands for the message that names it.
 */
module Deletion {

  /** The reverse relationships a chain inspects. */
  datatype Relation =
    | Products | Features | Attributes | FeatureSpecials | Categories | Subcategories
    | Options | ProductsFinal | ProductsImage | ProductsDocument | ProductFeatures
    | ProductsRelated | ProductsRelatedSold | ProductsFinalAttributes | ProductsFinalImage
    | ProductsUnique | FlagshipProducts

  /** The models that define a lock_delete chain. */
  datatype Model =
    | TypeTaxModel | FamilyModel | CategoryModel | SubcategoryModel
    | GroupValueFeatureModel | GroupValueAttributeModel | GroupValueFeatureSpecialModel
    | FeatureModel | AttributeModel | FeatureSpecialModel | BrandModel
    | ProductModel | ProductFinalModel

  /** Blocked by a relationship, or left to the framework's generic check. */
  datatype Verdict = Blocked(relation: Relation) | Inherited

  /** The order in which each model's lock_delete tests its relationships. */
  function Chain(m: Model): seq<Relation> {
    match m
    case TypeTaxModel => [Products]
    case FamilyModel => [Products, Features, Attributes, FeatureSpecials, Categories]
    case CategoryModel => [Products, Features, Attributes, FeatureSpecials, Subcategories]
    case SubcategoryModel => [Products]
    case GroupValueFeatureModel => [Options, Features]
    case GroupValueAttributeModel => [Options, Attributes]
    case GroupValueFeatureSpecialModel => [Options, FeatureSpecials]
    case FeatureModel => [ProductFeatures]
    case AttributeModel => [ProductsFinalAttributes]
    case FeatureSpecialModel => [Products]
    case BrandModel => [Products]
    case ProductModel =>
      [ProductsFinal, ProductsImage, ProductsDocument, ProductFeatures, ProductsRelated, ProductsRelatedSold]
    case ProductFinalModel =>
      [ProductsFinalAttributes, ProductsFinalImage, ProductsUnique, FlagshipProducts]
  }

  /** The first relationship of `chain` that still has rows (`present`), if any. */
  function FirstPresent(chain: seq<Relation>, present: set<Relation>): (r: Verdict)
    ensures r.Inherited? <==> forall i :: 0 <= i < |chain| ==> chain[i] !in present
    ensures r.Blocked? ==> exists i :: 0 <= i < |chain| && chain[i] == r.relation && chain[i] in present
                                       && forall j :: 0 <= j < i ==> chain[j] !in present
  {
    if chain == [] then Inherited
    else if chain[0] in present then Blocked(chain[0])
    else
      var r := FirstPresent(chain[1..], present);
      assert r.Blocked? ==> exists i :: 0 <= i < |chain| && chain[i] == r.relation && chain[i] in present
                                        && forall j :: 0 <= j < i ==> chain[j] !in present by {
        if r.Blocked? {
          var i :| 0 <= i < |chain[1..]| && chain[1..][i] == r.relation && chain[1..][i] in present
                   && forall j :: 0 <= j < i ==> chain[1..][j] !in present;
          assert forall j :: 0 < j < i + 1 ==> chain[j] == chain[1..][j - 1];
        }
      }
      r
  }

  /** lock_delete of model `m`, given which of its relationships still have rows. */
  function LockDelete(m: Model, present: set<Relation>): Verdict {
    FirstPresent(Chain(m), present)
  }

  /** A deletion the chain lets through has no rows in any relationship of the chain. */
  lemma Unblocked(m: Model, present: set<Relation>, r: Relation)
    requires LockDelete(m, present) == Inherited && r in Chain(m)
    ensures r !in present
  {
    var i :| 0 <= i < |Chain(m)| && Chain(m)[i] == r;
  }

  /**
   * A product with variants is always blocked by its variants, whatever else
   * still refers to it; one with no dependents at all is left to the framework.
   */
  lemma ProductChainOrder(present: set<Relation>)
    ensures ProductsFinal in present ==> LockDelete(ProductModel, present) == Blocked(ProductsFinal)
    ensures (forall r :: r in Chain(ProductModel) ==> r !in present) ==> LockDelete(ProductModel, present) == Inherited
  {
    var c := Chain(ProductModel);
    assert c[0] == ProductsFinal;
    if ProductsFinal in present {
      assert FirstPresent(c, present) == Blocked(ProductsFinal);
    }
    if forall r :: r in c ==> r !in present {
      assert forall i :: 0 <= i < |c| ==> c[i] !in present;
    }
  }
}
