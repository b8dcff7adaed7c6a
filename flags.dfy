/**
 * Single-holder flags. An image of a product (ProductImage) or of a variant
 * (ProductFinalImage) can be the principal, the flagship and the outstanding
 * image of its owner; saving an image with a flag set takes the flag from the
 * owner's other images, and saving it with the flag unset claims the flag
 * when nobody else holds it. FlagshipProduct keeps at most one public row.
 */
module Flags {
  import opened Wrappers

  type ImageId = nat
  /** A product (ProductImage) or a variant (ProductFinalImage). */
  type OwnerId = nat

  datatype Flag = Principal | Flagship | Outstanding

  datatype Image = Image(owner: OwnerId, principal: bool, flagship: bool, outstanding: bool)

  function Has(img: Image, f: Flag): bool {
    match f
    case Principal => img.principal
    case Flagship => img.flagship
    case Outstanding => img.outstanding
  }

  function With(img: Image, f: Flag, b: bool): (r: Image)
    ensures Has(r, f) == b && r.owner == img.owner
    ensures forall g :: g != f ==> Has(r, g) == Has(img, g)
  {
    match f
    case Principal => img.(principal := b)
    case Flagship => img.(flagship := b)
    case Outstanding => img.(outstanding := b)
  }

  /** Which images the "does anybody else hold it" test looks at. */
  datatype Scope = OwnerImages | AllImages

  /** No owner has two images holding f. */
  ghost predicate AtMostOne(images: map<ImageId, Image>, f: Flag) {
    forall a, b :: (a in images && b in images && images[a].owner == images[b].owner
                    && Has(images[a], f) && Has(images[b], f)) ==> a == b
  }

  /** Some image of `owner` holds f. */
  ghost predicate Held(images: map<ImageId, Image>, owner: OwnerId, f: Flag) {
    exists k :: k in images && images[k].owner == owner && Has(images[k], f)
  }

  predicate OtherHolds(images: map<ImageId, Image>, key: ImageId, owner: OwnerId, f: Flag, scope: Scope) {
    exists k :: k in images && k != key && Has(images[k], f) && (scope == AllImages || images[k].owner == owner)
  }

  /**
   * One flag's bookkeeping when image `img` is saved under `key`: a set flag
   * is cleared on the owner's other images; an unset one is claimed when no
   * other image in `scope` holds it.
   */
  function Settle(images: map<ImageId, Image>, key: ImageId, img: Image, f: Flag, scope: Scope): (r: map<ImageId, Image>)
    ensures r.Keys == images.Keys + {key} && r[key].owner == img.owner
    ensures Has(img, f) ==> Has(r[key], f)
  {
    if Has(img, f) then
      (map k | k in images :: if k != key && images[k].owner == img.owner then With(images[k], f, false) else images[k])[key := img]
    else if OtherHolds(images, key, img.owner, f, scope) then
      images[key := img]
    else
      images[key := With(img, f, true)]
  }

  /** Settling f touches no owner and no other flag. */
  lemma SettleFrame(images: map<ImageId, Image>, key: ImageId, img: Image, f: Flag, scope: Scope, g: Flag)
    requires g != f
    ensures var r := Settle(images, key, img, f, scope);
            forall k :: k in r ==> r[k].owner == (images[key := img])[k].owner
                                   && Has(r[k], g) == Has((images[key := img])[k], g)
  {
  }

  /** No owner has two images holding f, not counting the image under `key`. */
  ghost predicate AtMostOneBesides(images: map<ImageId, Image>, key: ImageId, f: Flag) {
    forall a, b :: (a in images && b in images && a != key && b != key && images[a].owner == images[b].owner
                    && Has(images[a], f) && Has(images[b], f)) ==> a == b
  }

  /**
   * Settling f leaves at most one holder per owner, whatever the saved image
   * held before, and, looking only at the owner's images, leaves the owner one.
   */
  lemma SettleOneHolder(images: map<ImageId, Image>, key: ImageId, img: Image, f: Flag, scope: Scope)
    requires AtMostOneBesides(images, key, f)
    ensures var r := Settle(images, key, img, f, scope);
            && AtMostOne(r, f)
            && (scope == OwnerImages ==> Held(r, img.owner, f))
  {
    if Has(img, f) {
      SettleSetFlag(images, key, img, f, scope);
    } else if OtherHolds(images, key, img.owner, f, scope) {
      SettleHeldElsewhere(images, key, img, f, scope);
    } else {
      SettleClaimsFlag(images, key, img, f, scope);
    }
  }

  /** A saved image holding f is the only holder among its owner's images. */
  lemma SettleSetFlag(images: map<ImageId, Image>, key: ImageId, img: Image, f: Flag, scope: Scope)
    requires AtMostOneBesides(images, key, f) && Has(img, f)
    ensures var r := Settle(images, key, img, f, scope);
            AtMostOne(r, f) && Held(r, img.owner, f)
  {
    var r := Settle(images, key, img, f, scope);
    assert forall k :: k in r && r[k].owner == img.owner && Has(r[k], f) ==> k == key;
    assert key in r && r[key] == img;
  }

  /** An unmarked image leaves f where it is when another image in scope holds it. */
  lemma SettleHeldElsewhere(images: map<ImageId, Image>, key: ImageId, img: Image, f: Flag, scope: Scope)
    requires AtMostOneBesides(images, key, f) && !Has(img, f) && OtherHolds(images, key, img.owner, f, scope)
    ensures var r := Settle(images, key, img, f, scope);
            && r == images[key := img]
            && AtMostOne(r, f)
            && (scope == OwnerImages ==> Held(r, img.owner, f))
  {
    var r := images[key := img];
    assert forall k :: k in r && Has(r[k], f) ==> k != key;
    if scope == OwnerImages {
      var k :| k in images && k != key && Has(images[k], f) && images[k].owner == img.owner;
      assert k in r && r[k] == images[k];
    }
  }

  /** An unmarked image claims f when no other image in scope holds it. */
  lemma SettleClaimsFlag(images: map<ImageId, Image>, key: ImageId, img: Image, f: Flag, scope: Scope)
    requires AtMostOneBesides(images, key, f) && !Has(img, f) && !OtherHolds(images, key, img.owner, f, scope)
    ensures var r := Settle(images, key, img, f, scope);
            AtMostOne(r, f) && Held(r, img.owner, f)
  {
    var r := images[key := With(img, f, true)];
    assert forall k :: k in r && Has(r[k], f) && (scope == AllImages || r[k].owner == img.owner) ==> k == key;
    assert key in r && Has(r[key], f);
  }

  /** Settling g, whatever image is saved, leaves flag f on the other images as it was. */
  lemma BesidesUntouched(images: map<ImageId, Image>, key: ImageId, img: Image, f: Flag, g: Flag)
    requires f != g && AtMostOneBesides(images, key, f)
    ensures AtMostOneBesides(Settle(images, key, img, g, OwnerImages), key, f)
  {
    SettleFrame(images, key, img, g, OwnerImages, f);
  }

  /** ProductImage.save / ProductFinalImage.save with every test restricted to the owner's images. */
  function SaveImage(images: map<ImageId, Image>, key: ImageId, img: Image): map<ImageId, Image> {
    var a := Settle(images, key, img, Principal, OwnerImages);
    var b := Settle(a, key, a[key], Flagship, OwnerImages);
    Settle(b, key, b[key], Outstanding, OwnerImages)
  }

  /** The same save as written: the principal test looks at every image of every owner. */
  function SaveImageAsWritten(images: map<ImageId, Image>, key: ImageId, img: Image): map<ImageId, Image> {
    var a := Settle(images, key, img, Principal, AllImages);
    var b := Settle(a, key, a[key], Flagship, OwnerImages);
    Settle(b, key, b[key], Outstanding, OwnerImages)
  }

  /** Settling g with key's stored image leaves flag f's invariants as they were. */
  lemma OtherFlagUntouched(images: map<ImageId, Image>, key: ImageId, f: Flag, g: Flag, owner: OwnerId)
    requires key in images && f != g
    ensures var r := Settle(images, key, images[key], g, OwnerImages);
            && (AtMostOne(images, f) ==> AtMostOne(r, f))
            && (Held(images, owner, f) ==> Held(r, owner, f))
  {
    var r := Settle(images, key, images[key], g, OwnerImages);
    SettleFrame(images, key, images[key], g, OwnerImages, f);
    assert images[key := images[key]] == images;
    if Held(images, owner, f) {
      var k :| k in images && images[k].owner == owner && Has(images[k], f);
      assert k in r && r[k].owner == owner && Has(r[k], f);
    }
  }

  /**
   * After an image is saved, its owner has exactly one principal, one
   * flagship and one outstanding image, and no other owner has two.
   */
  lemma SaveImageKeepsOneHolder(images: map<ImageId, Image>, key: ImageId, img: Image)
    requires AtMostOne(images, Principal) && AtMostOne(images, Flagship) && AtMostOne(images, Outstanding)
    ensures var r := SaveImage(images, key, img);
            && r.Keys == images.Keys + {key}
            && AtMostOne(r, Principal) && AtMostOne(r, Flagship) && AtMostOne(r, Outstanding)
            && Held(r, img.owner, Principal) && Held(r, img.owner, Flagship) && Held(r, img.owner, Outstanding)
  {
    var a := Settle(images, key, img, Principal, OwnerImages);
    SettleOneHolder(images, key, img, Principal, OwnerImages);
    BesidesUntouched(images, key, img, Flagship, Principal);
    BesidesUntouched(images, key, img, Outstanding, Principal);
    var b := Settle(a, key, a[key], Flagship, OwnerImages);
    SettleOneHolder(a, key, a[key], Flagship, OwnerImages);
    OtherFlagUntouched(a, key, Principal, Flagship, img.owner);
    BesidesUntouched(a, key, a[key], Outstanding, Flagship);
    var c := Settle(b, key, b[key], Outstanding, OwnerImages);
    SettleOneHolder(b, key, b[key], Outstanding, OwnerImages);
    OtherFlagUntouched(b, key, Principal, Outstanding, img.owner);
    OtherFlagUntouched(b, key, Flagship, Outstanding, img.owner);
  }

  /**
   * As written, an image saved unmarked for an owner with no principal image
   * stays unmarked whenever any other owner has a principal image, so its
   * owner is left without one; restricted to the owner's images, it becomes
   * the principal.
   */
  lemma AsWrittenLeavesNoPrincipal(images: map<ImageId, Image>, key: ImageId, img: Image, other: ImageId)
    requires AtMostOne(images, Principal) && AtMostOne(images, Flagship) && AtMostOne(images, Outstanding)
    requires !img.principal && !Held(images, img.owner, Principal)
    requires other in images && other != key && images[other].principal
    ensures !Held(SaveImageAsWritten(images, key, img), img.owner, Principal)
    ensures Held(SaveImage(images, key, img), img.owner, Principal)
  {
    SaveImageKeepsOneHolder(images, key, img);
    assert OtherHolds(images, key, img.owner, Principal, AllImages);
    assert AtMostOneBesides(images, key, Principal);
    SettleHeldElsewhere(images, key, img, Principal, AllImages);
    var a := images[key := img];
    NotHeldAfterStore(images, key, img, Principal);
    var b := Settle(a, key, a[key], Flagship, OwnerImages);
    NotHeldUntouched(a, key, Principal, Flagship, img.owner);
    NotHeldUntouched(b, key, Principal, Outstanding, img.owner);
  }

  /** Storing an image without f under key gives its owner no holder of f. */
  lemma NotHeldAfterStore(images: map<ImageId, Image>, key: ImageId, img: Image, f: Flag)
    requires !Has(img, f) && !Held(images, img.owner, f)
    ensures !Held(images[key := img], img.owner, f)
  {
  }

  lemma NotHeldUntouched(images: map<ImageId, Image>, key: ImageId, f: Flag, g: Flag, owner: OwnerId)
    requires key in images && f != g && !Held(images, owner, f)
    ensures !Held(Settle(images, key, images[key], g, OwnerImages), owner, f)
  {
    SettleFrame(images, key, images[key], g, OwnerImages, f);
    assert images[key := images[key]] == images;
  }

  /** Every key is below n, the next key the table hands out. */
  ghost predicate KeysBelow<V>(m: map<nat, V>, n: nat) {
    forall k :: k in m ==> k < n
  }

  /** Adding key to a table whose keys are below n0 keeps every key below any n above both. */
  lemma KeysBelowGrow<V>(before: map<nat, V>, after: map<nat, V>, key: nat, n0: nat, n: nat)
    requires KeysBelow(before, n0) && n0 <= n && key < n && after.Keys == before.Keys + {key}
    ensures KeysBelow(after, n)
  {
  }

  /** The images of one model (ProductImage or ProductFinalImage). */
  class ImageTable {
    var images: map<ImageId, Image>
    var nextId: ImageId

    ghost predicate Valid()
      reads this
    {
      && KeysBelow(images, nextId)
      && AtMostOne(images, Principal) && AtMostOne(images, Flagship) && AtMostOne(images, Outstanding)
    }

    constructor ()
      ensures Valid() && images == map[] && nextId == 0
    {
      images := map[];
      nextId := 0;
    }

    /** save: settle the three flags in turn (one transaction), then store the image. */
    method Save(pk: Option<ImageId>, img: Image) returns (key: ImageId)
      requires Valid()
      modifies this
      ensures Valid()
      ensures key == pk.GetOr(old(nextId))
      ensures images == SaveImage(old(images), key, img)
      ensures Held(images, img.owner, Principal) && Held(images, img.owner, Flagship) && Held(images, img.owner, Outstanding)
    {
      key := pk.GetOr(nextId);
      ghost var before := images;
      SaveImageKeepsOneHolder(images, key, img);
      // principal, then flagship, then outstanding
      images := Settle(images, key, img, Principal, OwnerImages);
      images := Settle(images, key, images[key], Flagship, OwnerImages);
      images := Settle(images, key, images[key], Outstanding, OwnerImages);
      assert images == SaveImage(before, key, img);
      ghost var n0 := nextId;
      if nextId <= key {
        nextId := key + 1;
      }
      KeysBelowGrow(before, images, key, n0, nextId);
    }
  }

  /** FlagshipProduct: a variant shown as flagship, and whether it is the public one. */
  datatype FlagshipRow = FlagshipRow(variant: nat, public: bool)

  ghost predicate AtMostOnePublic(rows: map<nat, FlagshipRow>) {
    forall a, b :: a in rows && b in rows && rows[a].public && rows[b].public ==> a == b
  }

  class FlagshipTable {
    var rows: map<nat, FlagshipRow>
    var nextId: nat

    ghost predicate Valid()
      reads this
    {
      KeysBelow(rows, nextId) && AtMostOnePublic(rows)
    }

    constructor ()
      ensures Valid() && rows == map[] && nextId == 0
    {
      rows := map[];
      nextId := 0;
    }

    /** FlagshipProduct.save: a public row makes every other row non-public. */
    method Save(pk: Option<nat>, fp: FlagshipRow) returns (key: nat)
      requires Valid()
      modifies this
      ensures Valid()
      ensures key == pk.GetOr(old(nextId))
      ensures rows.Keys == old(rows).Keys + {key} && rows[key] == fp
      ensures forall k :: k in old(rows) && k != key ==>
                rows[k] == if fp.public then old(rows)[k].(public := false) else old(rows)[k]
      ensures fp.public ==> forall k :: k in rows && rows[k].public ==> k == key
    {
      key := pk.GetOr(nextId);
      if fp.public {
        if pk.Some? {
          rows := map k | k in rows :: if k != key then rows[k].(public := false) else rows[k];
        } else {
          rows := map k | k in rows :: rows[k].(public := false);
        }
      }
      rows := rows[key := fp];
      if nextId <= key {
        nextId := key + 1;
      }
    }
  }
}
