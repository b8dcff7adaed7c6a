/**
 * ProductUnique: the stock units of a variant, each with an optional value of
 * the product's special feature (an IMEI, a batch date) and three stock
 * counters. `save` guards value uniqueness and the one-item cap for products
 * whose special feature is unique and initialises the counters of a new unit;
 * `locked_stock` raises the locked counter; `duplicate` splits a unit in two.
 * Counters are FloatFields and are modelled as exact reals.
 */
module Stock {
  import opened Wrappers
  import opened Catalog

  type UnitId = nat

  datatype Unit = Unit(variant: VarId, value: Option<string>, stockOriginal: real, stockReal: real, stockLocked: real)

  datatype SaveError = NotProductFinal | AlreadyExists | QuantityExceeded

  datatype SplitError =
    | NotEnoughLocked | NotEnoughFree | NoNeedToSplit | NotEnoughProducts
    | MissingAttribute        // reading an attribute the unit does not have
    | SaveFailed(cause: SaveError)

  /** Every unit belongs to an existing variant. */
  ghost predicate UnitsRefOk(t: Tables, units: map<UnitId, Unit>) {
    forall k :: k in units ==> units[k].variant in t.variants
  }

  /** The variant's product has a special feature, and that feature demands unique values. */
  predicate UniqueValued(t: Tables, v: VarId)
    requires Integrity(t) && v in t.variants
  {
    match t.products[t.variants[v].product].special
    case None => false
    case Some(s) => t.specials[s].unique
  }

  predicate SameProduct(t: Tables, v: VarId, w: VarId)
    requires v in t.variants && w in t.variants
  {
    t.variants[v].product == t.variants[w].product
  }

  /** Another unit (not the one stored under `pk`) of the same product carries u's value; a missing value matches a missing value. */
  predicate Clash(t: Tables, units: map<UnitId, Unit>, pk: Option<UnitId>, u: Unit)
    requires UnitsRefOk(t, units) && u.variant in t.variants
  {
    exists k :: k in units && pk != Some(k) && units[k].value == u.value && SameProduct(t, units[k].variant, u.variant)
  }

  /** ProductUnique.save's checks, in the order it makes them. */
  function SaveCheck(t: Tables, units: map<UnitId, Unit>, pk: Option<UnitId>, u: Unit): (err: Option<SaveError>)
    requires Integrity(t) && UnitsRefOk(t, units)
    ensures err == Some(NotProductFinal) <==> u.variant !in t.variants
    ensures u.variant in t.variants && UniqueValued(t, u.variant) ==>
              (err == Some(AlreadyExists) <==> Clash(t, units, pk, u))
              && (err == Some(QuantityExceeded) <==> !Clash(t, units, pk, u) && u.stockOriginal > 1.0)
    ensures u.variant in t.variants && !UniqueValued(t, u.variant) ==> err.None?
  {
    if u.variant !in t.variants then Some(NotProductFinal)
    else if !UniqueValued(t, u.variant) then None
    else if Clash(t, units, pk, u) then Some(AlreadyExists)
    else if u.stockOriginal > 1.0 then Some(QuantityExceeded)
    else None
  }

  /** A unit stored for the first time: all of it is in stock and none of it locked. */
  function Created(u: Unit): (c: Unit)
    ensures c.stockReal == c.stockOriginal == u.stockOriginal && c.stockLocked == 0.0
    ensures c.variant == u.variant && c.value == u.value
  {
    u.(stockReal := u.stockOriginal, stockLocked := 0.0)
  }

  /** Among units of a product whose special feature is unique, no two carry the same value. */
  ghost predicate ValuesUnique(t: Tables, units: map<UnitId, Unit>)
    requires Integrity(t) && UnitsRefOk(t, units)
  {
    forall a, b :: a in units && b in units && a != b
                   && SameProduct(t, units[a].variant, units[b].variant) && UniqueValued(t, units[a].variant)
                   ==> units[a].value != units[b].value
  }

  /** A unit that passed save's checks, stored under its own key or a new one, keeps values unique. */
  lemma SaveKeepsValuesUnique(t: Tables, units: map<UnitId, Unit>, pk: Option<UnitId>, key: UnitId, u: Unit)
    requires Integrity(t) && UnitsRefOk(t, units) && ValuesUnique(t, units)
    requires SaveCheck(t, units, pk, u).None?
    requires pk == Some(key) || (pk.None? && key !in units)
    ensures UnitsRefOk(t, units[key := u]) && ValuesUnique(t, units[key := u])
  {
    var m := units[key := u];
    forall a, b | a in m && b in m && a != b && SameProduct(t, m[a].variant, m[b].variant) && UniqueValued(t, m[a].variant)
      ensures m[a].value != m[b].value
    {
      if a == key {
        assert b in units && pk != Some(b);
      } else if b == key {
        assert a in units && pk != Some(a);
        assert SameProduct(t, units[a].variant, u.variant);
      }
    }
  }

  /**
   * duplicate's arithmetic: split quantity q off u, taking it from the locked
   * units when `locked` and from the free ones otherwise. Returns the
   * remaining unit and the new one.
   */
  function Split(u: Unit, q: real, locked: bool): (r: Result<(Unit, Unit), SplitError>)
    ensures r.Ok? <==> u.stockReal > q && (if locked then u.stockLocked >= q else u.stockReal - u.stockLocked >= q)
    ensures r == Err(NoNeedToSplit) <==> u.stockReal == q
    ensures r == Err(NotEnoughProducts) <==> u.stockReal < q
    ensures r == Err(NotEnoughLocked) <==> u.stockReal > q && locked && u.stockLocked < q
    ensures r == Err(NotEnoughFree) <==> u.stockReal > q && !locked && u.stockReal - u.stockLocked < q
    ensures r.Ok? ==>
              var (rest, piece) := r.value;
              && piece == u.(stockOriginal := q, stockReal := q, stockLocked := if locked then q else 0.0)
              && rest.variant == u.variant && rest.value == u.value
              && rest.stockOriginal + piece.stockOriginal == u.stockOriginal
              && rest.stockReal + piece.stockReal == u.stockReal
              && rest.stockLocked + piece.stockLocked == u.stockLocked
  {
    if u.stockReal > q then
      if locked && u.stockLocked < q then Err(NotEnoughLocked)
      else if !locked && u.stockReal - u.stockLocked < q then Err(NotEnoughFree)
      else
        var newlock := if locked then q else 0.0;
        Ok((u.(stockOriginal := u.stockOriginal - q, stockReal := u.stockReal - q, stockLocked := u.stockLocked - newlock),
            u.(stockOriginal := q, stockReal := q, stockLocked := newlock)))
    else if u.stockReal == q then Err(NoNeedToSplit)
    else Err(NotEnoughProducts)
  }

  /**
   * duplicate as written reads and writes `stock_lock`, which is not a field
   * of the unit: every call that passes the size check fails on that read.
   */
  function SplitAsTyped(u: Unit, q: real, locked: bool): (r: Result<(Unit, Unit), SplitError>)
    ensures u.stockReal > q ==> r == Err(MissingAttribute)
    ensures u.stockReal <= q ==> r == Split(u, q, locked)
  {
    if u.stockReal > q then Err(MissingAttribute)
    else if u.stockReal == q then Err(NoNeedToSplit)
    else Err(NotEnoughProducts)
  }

  /** No split ever succeeds as typed, while the same call with the field name corrected does. */
  lemma SplitAsTypedNeverSplits()
    ensures var u := Unit(0, None, 5.0, 5.0, 0.0);
            SplitAsTyped(u, 2.0, false) == Err(MissingAttribute) && Split(u, 2.0, false).Ok?
  {
  }

  /**
   * duplicate with the field name corrected still stores the new unit
   * through save, which treats it as new and resets its locked counter.
   */
  function SplitAsWritten(u: Unit, q: real, locked: bool): (r: Result<(Unit, Unit), SplitError>)
    ensures r.Ok? <==> Split(u, q, locked).Ok?
    ensures r.Ok? ==> r.value.0 == Split(u, q, locked).value.0 && r.value.1 == Created(Split(u, q, locked).value.1)
  {
    match Split(u, q, locked)
    case Ok((rest, piece)) => Ok((rest, Created(piece)))
    case Err(e) => Err(e)
  }

  /** Splitting off locked units as written loses them: the two locked counters no longer add up. */
  lemma SplitAsWrittenLosesLocks(u: Unit, q: real)
    requires SplitAsWritten(u, q, true).Ok? && q > 0.0
    ensures var (rest, piece) := SplitAsWritten(u, q, true).value;
            rest.stockLocked + piece.stockLocked == u.stockLocked - q < u.stockLocked
  {
  }

  /**
   * Storing the two halves of a split unit k of a product whose values need
   * not be unique, the new one under a fresh key n: every unit still belongs
   * to a variant, every key is below n + 1, and values stay unique.
   */
  lemma SplitStored(t: Tables, units: map<UnitId, Unit>, n: UnitId, k: UnitId, rest: Unit, piece: Unit)
    requires Integrity(t) && UnitsRefOk(t, units) && (forall j :: j in units ==> j < n) && k in units
    requires rest.variant == piece.variant == units[k].variant && !UniqueValued(t, piece.variant)
    ensures var m := units[n := piece][k := rest];
            && m == units[k := rest][n := piece]
            && UnitsRefOk(t, m) && (forall j :: j in m ==> j < n + 1)
            && (ValuesUnique(t, units) ==> ValuesUnique(t, m))
  {
    assert n !in units;
    if ValuesUnique(t, units) {
      SaveKeepsValuesUnique(t, units, None, n, piece);
      SaveKeepsValuesUnique(t, units[n := piece], Some(k), k, rest);
    }
  }

  /** The ProductUnique table. */
  class UnitTable {
    var units: map<UnitId, Unit>
    /** The key the next new unit gets. */
    var nextId: UnitId

    ghost predicate Valid(t: Tables)
      reads this
    {
      Integrity(t) && UnitsRefOk(t, units) && forall k :: k in units ==> k < nextId
    }

    constructor (t: Tables)
      requires Integrity(t)
      ensures Valid(t) && units == map[] && nextId == 0
    {
      units := map[];
      nextId := 0;
    }

    /**
     * ProductUnique.save: refuse as SaveCheck says; otherwise store the unit,
     * a new one (no key) under the next key with its counters initialised.
     */
    method Save(t: Tables, pk: Option<UnitId>, u: Unit) returns (r: Result<UnitId, SaveError>)
      requires Valid(t)
      modifies this
      ensures Valid(t)
      ensures SaveCheck(t, old(units), pk, u).Some? ==>
                r == Err(SaveCheck(t, old(units), pk, u).value) && units == old(units) && nextId == old(nextId)
      ensures SaveCheck(t, old(units), pk, u).None? && pk.None? ==>
                r == Ok(old(nextId)) && units == old(units)[old(nextId) := Created(u)] && nextId == old(nextId) + 1
      ensures SaveCheck(t, old(units), pk, u).None? && pk.Some? ==>
                r == Ok(pk.value) && units == old(units)[pk.value := u]
                && nextId == if pk.value < old(nextId) then old(nextId) else pk.value + 1
      ensures old(ValuesUnique(t, units)) ==> ValuesUnique(t, units)
    {
      var err := SaveCheck(t, units, pk, u);
      if err.Some? {
        return Err(err.value);
      }
      if pk.None? {
        if ValuesUnique(t, units) {
          SaveKeepsValuesUnique(t, units, pk, nextId, Created(u));
        }
        units := units[nextId := Created(u)];
        r := Ok(nextId);
        nextId := nextId + 1;
      } else {
        if ValuesUnique(t, units) {
          SaveKeepsValuesUnique(t, units, pk, pk.value, u);
        }
        units := units[pk.value := u];
        r := Ok(pk.value);
        if nextId <= pk.value {
          nextId := pk.value + 1;
        }
      }
    }

    /** ProductUnique.locked_stock: lock `quantity` more units of unit k, then save it. */
    method LockStock(t: Tables, k: UnitId, quantity: real) returns (r: Result<UnitId, SaveError>)
      requires Valid(t) && k in units
      modifies this
      ensures Valid(t) && nextId == old(nextId)
      ensures var locked := old(units[k]).(stockLocked := old(units[k]).stockLocked + quantity);
              && (r.Ok? <==> SaveCheck(t, old(units), Some(k), locked).None?)
              && (r.Ok? ==> r.value == k && units == old(units)[k := locked])
              && (r.Err? ==> units == old(units))
      ensures old(ValuesUnique(t, units)) ==> ValuesUnique(t, units)
    {
      var u := units[k];
      r := Save(t, Some(k), u.(stockLocked := u.stockLocked + quantity));
    }

    /**
     * ProductUnique.duplicate, with the locked counter read and written under
     * its real name and the new unit keeping the locked units it takes. Both
     * saves run in one transaction: if either refuses, nothing changes.
     */
    method Duplicate(t: Tables, k: UnitId, quantity: real, locked: bool) returns (r: Result<UnitId, SplitError>)
      requires Valid(t) && k in units
      modifies this
      ensures Valid(t)
      ensures r.Err? ==> units == old(units) && nextId == old(nextId)
      ensures Split(old(units[k]), quantity, locked).Err? ==> r == Err(Split(old(units[k]), quantity, locked).error)
      ensures r.Ok? ==> Split(old(units[k]), quantity, locked).Ok? && r.value == old(nextId) && nextId == old(nextId) + 1
                        && units == old(units)[k := Split(old(units[k]), quantity, locked).value.0]
                                              [old(nextId) := Split(old(units[k]), quantity, locked).value.1]
      ensures r.Ok? <==> Split(old(units[k]), quantity, locked).Ok? && !UniqueValued(t, old(units[k]).variant)
      ensures Split(old(units[k]), quantity, locked).Ok? && UniqueValued(t, old(units[k]).variant) ==> r == Err(SaveFailed(AlreadyExists))
      ensures old(ValuesUnique(t, units)) ==> ValuesUnique(t, units)
    {
      var u := units[k];
      if u.stockReal > quantity {
        var newlock: real;
        if locked {
          if u.stockLocked >= quantity {
            newlock := quantity;
          } else {
            return Err(NotEnoughLocked);
          }
        } else {
          var available := u.stockReal - u.stockLocked;
          if available >= quantity {
            newlock := 0.0;
          } else {
            return Err(NotEnoughFree);
          }
        }
        var piece := u.(stockOriginal := quantity, stockReal := quantity, stockLocked := newlock);
        var rest := u.(stockOriginal := u.stockOriginal - quantity, stockReal := u.stockReal - quantity,
                       stockLocked := u.stockLocked - newlock);
        assert Split(u, quantity, locked) == Ok((rest, piece));

        // the new unit's save: a unique-valued product always clashes with u itself
        assert Clash(t, units, None, piece) by { assert k in units && units[k].value == piece.value; }
        var err := SaveCheck(t, units, None, piece);
        if err.Some? {
          assert UniqueValued(t, u.variant);
          return Err(SaveFailed(err.value));
        }
        var n := nextId;
        // the remaining unit's save, which no check refuses
        var err2 := SaveCheck(t, units[n := piece], Some(k), rest);
        assert err2.None?;
        SplitStored(t, units, nextId, k, rest, piece);
        units := units[n := piece][k := rest];
        nextId := nextId + 1;
        r := Ok(n);
      } else if u.stockReal == quantity {
        r := Err(NoNeedToSplit);
      } else {
        r := Err(NotEnoughProducts);
      }
    }
  }
}
