/** The product gateway's static helpers over the `tmall_bundles` attribute:
    the attribute with all white space removed, whether the product is an MMS
    bundle, and its comma-separated quantities. */
module ProductGateway {
  import opened PhpStrings
  import opened PhpValues
  import opened EntityStore

  /** `getSanitisedTmallBundles($product)`: the attribute (FALSE when unset)
      as a string, without white space. */
  function SanitisedTmallBundles(product: Record): (r: string)
    ensures forall i :: 0 <= i < |r| ==> !IsPcreSpace(r[i])
  {
    StripSpace(Text(Attr(product, "tmall_bundles", Bool(false))))
  }

  /** `isMmsEntity($product)`: the sanitised string cast to bool. */
  predicate IsMmsEntity(product: Record)
  {
    Truthy(Str(SanitisedTmallBundles(product)))
  }

  /** `getTmallQuantities($product)`: the sanitised string split at commas. */
  function TmallQuantities(product: Record): seq<string>
  {
    Explode(",", SanitisedTmallBundles(product))
  }

  /** Sanitising is idempotent. */
  lemma SanitisedIsStable(product: Record)
    ensures StripSpace(SanitisedTmallBundles(product)) == SanitisedTmallBundles(product)
  {
    StripSpaceKeeps(SanitisedTmallBundles(product));
  }

  /** A product is an MMS bundle exactly when the sanitised string is neither
      empty nor "0". */
  lemma IsMmsEntityMeaning(product: Record)
    ensures IsMmsEntity(product) <==> |SanitisedTmallBundles(product)| > 0 && SanitisedTmallBundles(product) != "0"
  {
  }

  /** One quantity more than there are commas; the pieces hold no comma and
      join back to the sanitised string. */
  lemma TmallQuantitiesMeaning(product: Record)
    ensures |TmallQuantities(product)| == CountChar(',', SanitisedTmallBundles(product)) + 1
    ensures forall k :: 0 <= k < |TmallQuantities(product)| ==> !Contains(TmallQuantities(product)[k], ",")
    ensures Implode(",", TmallQuantities(product)) == SanitisedTmallBundles(product)
  {
    var s := SanitisedTmallBundles(product);
    ExplodeCount(',', s);
    ExplodePiecesAreSeparatorFree(",", s);
    ImplodeExplode(",", s);
  }

  /** A product without the attribute is no bundle, and its quantity list is
      the one empty string (no implicit quantity). */
  lemma UnsetBundles(product: Record)
    requires "tmall_bundles" !in product.attrs
    ensures SanitisedTmallBundles(product) == "" && !IsMmsEntity(product) && TmallQuantities(product) == [""]
  {
    ExplodeNoChar(',', "");
  }

  /** A comma-free sanitised string is one quantity, as it stands. */
  lemma SingleQuantity(product: Record)
    requires forall i :: 0 <= i < |SanitisedTmallBundles(product)| ==> SanitisedTmallBundles(product)[i] != ','
    ensures TmallQuantities(product) == [SanitisedTmallBundles(product)]
  {
    ExplodeNoChar(',', SanitisedTmallBundles(product));
  }
}
