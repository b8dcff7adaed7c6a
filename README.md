# codenerix_products: price rules, propagation and catalogue guards in Dafny

This project models the core of the product catalogue in `codenerix_products`.

**Prices.** A variant (`ProductFinal`) is priced by `calculate_price`. It starts from the variant's local base price, or else its product's. It then applies:

- the rules of the variant's attributes, newest first;
- then those of its product's features, newest first;
- then the product's special feature.

Each rule is a percentage of the starting price, an increase, or a final price. The first final price stops the evaluation. Tax is added at the product's tax rate.

**Propagation.** Saving a tax, feature, attribute, special feature or product whose price-relevant field changed recalculates every dependent variant. `recalculate` writes only when the stored price differs.

**Guards.** The model also covers:

- the bookkeeping of the default tax flag;
- the one-row-per-pair rule of variant attributes;
- the unique-value and stock rules of stock units (`ProductUnique`), and their `duplicate` (split) and `locked_stock`;
- the "one principal / flagship / outstanding image per owner" flags of product and variant images;
- the single public flagship product;
- the `lock_delete` chains that refuse deletion while dependents exist.

**Views.** From the views it models:

- the value dispatch of the attribute and feature forms;
- the choice of the image listed for a variant;
- the composition of the free-text search filter.

Modules:

- `Wrappers`: Option and Result.
- `Pricing`: the rule fold, its closed form, and the `calculate_price` loops as a method proved against it.
- `Deletion`: the `lock_delete` chains as ordered lists of relationships.
- `Catalog`: the catalogue tables, and the `Store` class whose save methods propagate prices. It also holds the default-tax and attribute-row rules, and why each permitted deletion is safe.
- `Stock`: stock units, the save guard, the split, and the `UnitTable` class.
- `Flags`: the image flags and the flagship table.
- `Views`: the form dispatch, the image choice and the search filter.

Facts about the source that the model keeps:

- The save methods of Feature, Attribute and FeatureSpecial compare only the rule's price, so a change of the price mode alone is not propagated (codenerix_products/models.py:554-565, 585-596, 617-628).
- `ProductFinalAttribute.save` validates and stores the row but does not recalculate its variant (codenerix_products/models.py:1487-1491).
- `ProductUnique.save` applies the one-unit rule of a unique special feature on every save, not only on insertion (codenerix_products/models.py:1594-1603).
- `calculate_price` does not round its results (codenerix_products/models.py:1100-1145).

## Model

| member | source | states |
|---|---|---|
| Pricing.FoldNoFinal | codenerix_products/models.py:1108-1139 | with no final rule among them, applying rules adds each one's contribution (percentage of the start price, or the increase) to the running price |
| Pricing.FoldFirstFinal | codenerix_products/models.py:1108-1139 | with a final rule among them, the result is the first final rule's price and evaluation has stopped |
| Pricing.AdjustedPriceClosedForm | codenerix_products/models.py:1100-1142 | the tax-exclusive price is the first final rule's price if there is one, else the start price plus the sum of all contributions |
| Pricing.AttributeFinalDecides | codenerix_products/models.py:1108-1118 | a final-price attribute decides the price whatever the features and special feature are |
| Pricing.FeatureFinalDecides | codenerix_products/models.py:1120-1130 | with no final attribute, a final-price feature decides the price whatever the special feature is |
| Pricing.NoFinalIsSum | codenerix_products/models.py:1108-1139 | with no final rule, the price is the start price plus the attribute, feature and special contributions |
| Pricing.SumPermutation | codenerix_products/models.py:1108-1139 | the total contribution of a set of rules does not depend on their order |
| Pricing.FinalUnderPermutation | codenerix_products/models.py:1108-1139 | whether a final rule is present does not depend on rule order |
| Pricing.NoFinalOrderIrrelevant | codenerix_products/models.py:1110 | the newest-first ordering matters only when a final rule is present: without one, any reordering gives the same price |
| Pricing.IncreaseExample | codenerix_products/models.py:1115-1144 | base 100 with an Increase attribute of 10 at 21% gives 110 / 23.10 / 133.10, and with 20 gives 120 / 25.20 / 145.20 |
| Pricing.ApplyRules | codenerix_products/models.py:1110-1118 | the source's rule loop (visit every rule, apply while the update flag holds) computes the rule fold |
| Pricing.ThreeSources | codenerix_products/models.py:1108-1139 | running the attribute rules, then the feature rules only while the update flag holds, then the special rule, gives the tax-exclusive price of the closed form |
| Pricing.AdjustPrice | codenerix_products/models.py:1108-1139 | the three rule loops, the feature loop skipped once a final rule was met, compute the tax-exclusive adjusted price |
| Pricing.CalculatePrice | codenerix_products/models.py:1100-1145 | the three loops compute the rule fold from the local or product base price; tax is rate percent of the price and the total is price plus tax |
| Deletion.FirstPresent | codenerix_products/models.py:1088-1098 | a chain lets deletion through exactly when no relationship has rows, and otherwise blocks it naming the first relationship in chain order that has rows |
| Deletion.ProductChainOrder | codenerix_products/models.py:746-760 | a product with variants is refused because of its variants whatever else refers to it; one with no dependents is left to the framework |
| Catalog.LatestAttributeFirst | codenerix_products/models.py:1110 | after a variant's attribute row is saved, its rule is the first one the evaluator applies to that variant |
| Catalog.FeatureDependents | codenerix_products/models.py:559-561 | the variants a feature save recalculates are existing variants, and none for an unknown feature |
| Catalog.AttributeDependents | codenerix_products/models.py:590-592 | the variants an attribute save recalculates are existing variants, and none for an unknown attribute |
| Catalog.SpecialDependents | codenerix_products/models.py:622-624 | the variants a special-feature save recalculates are existing variants, and none for an unknown one |
| Catalog.ProductDependents | codenerix_products/models.py:767-768 | the variants a product save recalculates are existing variants, and none for an unknown product |
| Catalog.TaxDependents | codenerix_products/models.py:143-146 | the variants a tax save recalculates are existing variants, and none for an unknown tax |
| Catalog.FeatureEdit | codenerix_products/models.py:554-565 | storing a feature keeps every reference valid and changes no price outside its dependents, nor any when its rule is unchanged |
| Catalog.AttributeEdit | codenerix_products/models.py:585-596 | storing an attribute keeps references valid and changes no price outside its dependents, nor any when its rule is unchanged |
| Catalog.SpecialEdit | codenerix_products/models.py:617-628 | storing a special feature keeps references valid and changes no price outside its dependents, nor any when its rule is unchanged |
| Catalog.ProductEdit | codenerix_products/models.py:762-773 | storing a product changes no price of another product's variants, nor any when the product is unchanged |
| Catalog.TaxesAfterSave | codenerix_products/models.py:133-138 | the tax table after a save: same keys plus the saved one, rates as given; a default tax stays default; a default tax clears the default flag of every other tax; a non-default one changes nothing else when another tax is default, and becomes the default when no other tax is; at most one default before gives exactly one after |
| Catalog.TaxEdit | codenerix_products/models.py:132-149 | the tax save keeps references valid and changes no price outside the products taxed at it, nor any when its rate is unchanged |
| Catalog.ValidateAttributeRow | codenerix_products/models.py:1477-1485 | a row is refused exactly when another row (any row, for a new one) already links the same variant and attribute |
| Catalog.Without | codenerix_products/models.py:1487-1491 | removing a row by key keeps exactly the rows with other keys |
| Catalog.Upsert | codenerix_products/models.py:1487-1491 | the stored row replaces the one with its key and becomes the most recently updated |
| Catalog.UpsertKeepsWellKeyed | codenerix_products/models.py:1477-1491 | a save that passes validation keeps keys distinct and at most one row per variant and attribute |
| Catalog.TaxDeletion | codenerix_products/models.py:126-130 | a tax whose lock_delete passes is used by no product; removing it keeps every reference and stored price valid |
| Catalog.FeatureDeletion | codenerix_products/models.py:567-571 | a feature whose lock_delete passes is used by no product; removing it keeps references and prices valid |
| Catalog.AttributeDeletion | codenerix_products/models.py:598-602 | an attribute whose lock_delete passes is used by no variant; removing it keeps references and prices valid |
| Catalog.SpecialDeletion | codenerix_products/models.py:630-634 | a special feature whose lock_delete passes is used by no product; removing it keeps references and prices valid |
| Catalog.ProductDeletion | codenerix_products/models.py:746-760 | a product whose lock_delete passes has no variants or feature rows; removing it keeps references and prices valid |
| Catalog.VariantDeletion | codenerix_products/models.py:1088-1098 | a variant whose lock_delete passes has no attribute rows; removing it and its price keeps references and prices valid |
| Catalog.Store.CalculatePrice | codenerix_products/models.py:1100-1145 | the price of a stored variant is the rule fold over its own rows, its product's rows and special feature, with its product's tax |
| Catalog.Store.Recalculate | codenerix_products/models.py:1080-1086 | afterwards the variant's stored price is the computed one and nothing else changes; it reports a write exactly when the stored price differed (so a second call writes nothing) |
| Catalog.Store.RecalculateEach | codenerix_products/models.py:1080-1086 | every listed variant gets its computed price and no other price changes |
| Catalog.Store.SaveVariant | codenerix_products/models.py:1076-1078 | storing a variant computes and stores its own price first; no other variant's price changes |
| Catalog.Store.SaveFeature | codenerix_products/models.py:554-565 | an existing feature whose price changed recalculates exactly the variants of products using it; no other price changes |
| Catalog.Store.SaveAttribute | codenerix_products/models.py:585-596 | an existing attribute whose price changed recalculates exactly the variants having it; no other price changes |
| Catalog.Store.SaveFeatureSpecial | codenerix_products/models.py:617-628 | an existing special feature whose price changed recalculates exactly the variants of products using it; no other price changes |
| Catalog.Store.SaveProduct | codenerix_products/models.py:762-773 | an existing product whose base price or tax changed recalculates exactly its variants; no other price changes |
| Catalog.Store.SaveTypeTax | codenerix_products/models.py:132-149 | after a tax save exactly one tax is the default; a rate change recalculates exactly the variants of the products taxed at it; no other price changes |
| Catalog.RefreshedKeepsSync | codenerix_products/models.py:1080-1086 | recalculating a set of variants restores every stored price when the edit changed no computed price outside that set |
| Catalog.VariantSaveKeepsSync | codenerix_products/models.py:1076-1086 | after a variant save every stored price is again the one calculate_price gives |
| Catalog.FeatureSaveKeepsSync | codenerix_products/models.py:554-565 | after a feature save every stored price is the computed one, unless the save changed only the rule's mode |
| Catalog.AttributeSaveKeepsSync | codenerix_products/models.py:585-596 | after an attribute save every stored price is the computed one, unless the save changed only the rule's mode |
| Catalog.SpecialSaveKeepsSync | codenerix_products/models.py:617-628 | after a special-feature save every stored price is the computed one, unless the save changed only the rule's mode |
| Catalog.ProductSaveKeepsSync | codenerix_products/models.py:762-773 | after a product save every stored price is the computed one, unless the special feature changed while the base price and the tax did not |
| Catalog.TaxSaveKeepsSync | codenerix_products/models.py:132-149 | after a tax save every stored price is the computed one |
| Catalog.Store.SaveVariantAttribute | codenerix_products/models.py:1487-1491 | the row is refused exactly as validation says and the tables are untouched then; otherwise it is stored (new rows under a fresh key) as the newest row |
| Stock.SaveCheck | codenerix_products/models.py:1590-1606 | a unit without a variant is refused; for a product whose special feature is unique, a unit is refused when another unit of the same product has its value, else when its original stock exceeds one; other units pass |
| Stock.Created | codenerix_products/models.py:1608-1610 | a new unit starts with its real stock equal to its original stock and nothing locked |
| Stock.SaveKeepsValuesUnique | codenerix_products/models.py:1590-1611 | a save that passes the check keeps every unique-valued product free of repeated unit values |
| Stock.Split | codenerix_products/models.py:1546-1588 | a split succeeds exactly when more units are held than requested and enough locked (or free) stock covers it; otherwise it reports not enough locked units (locked split), not enough free units (free split), no need to split (all units taken) or not enough units (more than held); the new unit holds the quantity (locked when asked) and the three stock counters are conserved |
| Stock.SplitAsTyped | codenerix_products/models.py:1552-1560 | the split as typed fails on the misspelt counter whenever a split would be possible |
| Stock.SplitAsTypedNeverSplits | codenerix_products/models.py:1552-1560 | a unit of 5 with nothing locked cannot give 2 free units as typed, though the intended split allows it |
| Stock.SplitAsWritten | codenerix_products/models.py:1566-1576 | the split as written succeeds when the intended one does but the new unit is stored through the insert path |
| Stock.SplitAsWrittenLosesLocks | codenerix_products/models.py:1566-1576 | a locked split of q > 0 units as written leaves q fewer locked units in total |
| Stock.SplitStored | codenerix_products/models.py:1567-1576 | storing the two halves of a split unit whose product needs no unique values keeps every unit attached to a variant and keeps values unique |
| Stock.UnitTable.Save | codenerix_products/models.py:1590-1611 | a refused unit leaves the table; a new one gets the next key with fresh stock; an existing one is replaced; value uniqueness is kept |
| Stock.UnitTable.LockStock | codenerix_products/models.py:1542-1544 | the locked stock grows by the quantity when the save check passes, and nothing changes otherwise |
| Stock.UnitTable.Duplicate | codenerix_products/models.py:1546-1588 | the split's errors are reported, and a split of a unit whose product needs unique values is refused as already existing, since the new unit carries the same value; on success the unit is replaced by its remainder and the new unit stored under a fresh key; uniqueness is kept, so a unique-valued unit never splits |
| Flags.Settle | codenerix_products/models.py:939-958 | one flag's save step keeps the image keys, adds the saved one, and keeps a flag the saved image asked for |
| Flags.SettleOneHolder | codenerix_products/models.py:939-958 | after one flag's step no owner has two holders, and when the step looks at the owner's images the owner has one |
| Flags.SettleSetFlag | codenerix_products/models.py:941-942 | a saved image holding the flag is its owner's only holder and no owner gets two |
| Flags.SettleHeldElsewhere | codenerix_products/models.py:943 | an unmarked image is stored as it is when another image in scope holds the flag, and no owner gets two holders |
| Flags.SettleClaimsFlag | codenerix_products/models.py:943-944 | an unmarked image takes the flag when no other image in scope holds it, and no owner gets two holders |
| Flags.SaveImageKeepsOneHolder | codenerix_products/models.py:939-958 | after an image save its owner has exactly one principal, one flagship and one outstanding image, and no owner has two of any of them |
| Flags.AsWrittenLeavesNoPrincipal | codenerix_products/models.py:942-943 | when another owner's image is principal, saving a non-principal image of an owner without one leaves that owner without a principal image, unlike the corrected save |
| Flags.ImageTable.Save | codenerix_products/models.py:1408-1427 | the table after a save is the corrected save of the old one, and the image's owner holds each of the three flags |
| Flags.FlagshipTable.Save | codenerix_products/models.py:1636-1642 | a public flagship clears public on every other row and becomes the only public one; other saves change only their row |
| Views.Dispatch | codenerix_products/views.py:1592-1613 | a boolean value is stored as 1 or 0, a free value verbatim, a list value only when it names an option of the rule's group (else "Option invalid"), and any other kind is "Value invalid" |
| Views.ValueForm.FormValid | codenerix_products/views.py:1592-1623 | a rejected value adds its message to the value errors and redisplays; an accepted one is stored and the instance attached to the parent when one is given |
| Views.AttributeCreateAsWritten | codenerix_products/views.py:1439-1470 | the attribute create view as written crashes exactly when the value is rejected and never redisplays the form |
| Views.AttributeCreateRejectedValueCrashes | codenerix_products/views.py:1446-1460 | a list value outside the rule's option group, or a rule of unknown kind, makes that view crash where the form should be redisplayed with its message |
| Views.FirstPrincipal | codenerix_products/views.py:2548 | the first position flagged "True", or none exactly when no position is |
| Views.PrincipalPositions | codenerix_products/views.py:2548 | exactly the positions flagged "True", in increasing order |
| Views.ChooseImage | codenerix_products/views.py:2548-2557 | the variant's first principal image, else its product's first principal image, else none |
| Views.AllWordsMeaning | codenerix_products/views.py:2493-2497 | a field's conjunction of word filters matches exactly when the field contains every word |
| Views.AnyFieldMeaning | codenerix_products/views.py:2490-2501 | the composed filter matches a row exactly when some field contains every word |
| Views.ComposeQuery | codenerix_products/views.py:2490-2503 | the nested loops build no filter exactly when there are no words, and otherwise the or-of-ands over the fields |
| Views.Words | codenerix_products/views.py:2493 | splitting yields only non-empty words free of whitespace |
| Views.WordsOfJoin | codenerix_products/views.py:2493 | splitting words joined by spaces gives the same words back |

## Left out

- Money is exact `real` arithmetic. The source's Decimal/float mix, the float division of rule prices by 100 and the stored decimal places are not modelled.
- Pricing.CalculatePrice: a rule whose price mode is none of the three known codes is not modelled, because the form choices restrict the mode to those codes. The source would skip such a rule.
- Catalog.Store.CalculatePrice: a product with no tax is excluded by the data model, because the product forms require one. The source would raise on it.
- The optional surcharge of the price lookup helpers is not modelled; it is not used by `calculate_price`.
- Persistence, transactions and the ORM are abstracted. Tables are maps and sequences, and a save is one atomic state change.
- The rows' `updated` timestamps become their order in a sequence.
- The framework's own `lock_delete` (the `super()` call) is the verdict `Inherited`.
- The Family, Category, Subcategory, Brand and option-group chains are modelled only as chains. Their tables are not part of this model.
- Product images, documents, related products, variant images, stock units and flagships appear in the deletion lemmas only as the set of relationships that still have rows.
- Catalog.FeatureSaveKeepsSync: prices stay in sync only when more than the rule's mode changed. The source compares only the price before recalculating.
- Catalog.AttributeSaveKeepsSync: the same restriction to edits that change more than the mode, for the same reason.
- Catalog.SpecialSaveKeepsSync: the same restriction to edits that change more than the mode, for the same reason.
- Catalog.ProductSaveKeepsSync: prices stay in sync only when the special feature is unchanged, or the base price or the tax changed too. The source does not recalculate when the special feature changes and neither of the other two does.
- Catalog.Store.SaveVariantAttribute: the variant's price is not recalculated after an attribute row is saved, as in the source.
- ProductUnique's box, caducity and purchase-delivery-note links are not modelled. The relinking loop in `duplicate` touches other apps' tables.
- The "is new" flag of the product list depends on the wall clock and is not modelled.
- `FlagshipProduct.get_flagship` and `Product.pass_to_productfinal` are not modelled; they are queries and conveniences outside the price and guard logic.
- Views.Contains: the search uses case-insensitive containment (`icontains`); the model compares characters exactly.
- Views.Words: words are separated by space, tab, line feed, carriage return, \x0b, \x0c and \x1c-\x1f; Python's `str.split()` also splits on Unicode spaces (such as \x85 and \xa0), which the model treats as word characters.
- Views.Dispatch: a list value that is not a valid option key reaches the database lookup in the source, which may raise. The model treats it as an option that does not exist.
- Views.ValueForm.FormValid: the framework's redisplay and redirect are not modelled. The outcome says which one happens.

## Findings

| source | as written | input that shows it | evidently intended | confidence | as-written member | corrected member |
|---|---|---|---|---|---|---|
| codenerix_products/models.py:943 (and 1412) | a non-principal image becomes principal only if no image of any product is principal | two products, the first with a principal image; save a non-principal image of the second | the test looks only at the same product's images, so every product keeps one principal image | medium, not executed | Flags.AsWrittenLeavesNoPrincipal | Flags.SaveImageKeepsOneHolder |
| codenerix_products/models.py:1552-1558 | `duplicate` reads `stock_lock`, a counter the model does not have (it is `stock_locked`) | any unit with stock_real 5, stock_locked 0, quantity 2, locked False | the split reads and updates `stock_locked` | high, not executed | Stock.SplitAsTypedNeverSplits | Stock.Split |
| codenerix_products/models.py:1567-1572 | the new unit is saved with no key, so `save` resets its locked stock to 0 after the split set it | a locked split of 2 from a unit with 3 locked of 5 | the locked units move to the new unit and the locked total is conserved | medium, not executed | Stock.SplitAsWrittenLosesLocks | Stock.UnitTable.Duplicate |
| codenerix_products/views.py:1453 and 1460 | the attribute create view's error paths call `super(ProductFeatureCreate, self)` on a view that does not inherit from it, which raises a TypeError | an attribute of list kind and an option of another group | the form is redisplayed with "Option invalid" or "Value invalid" | high, not executed | Views.AttributeCreateRejectedValueCrashes | Views.ValueForm.FormValid |
