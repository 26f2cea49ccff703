/** The listing payload of a product row: the product input, the variants, the product
    metafields, the copy written back to the sheet, the tags and the price. */
module BuildShopifyInput {
  import opened Wrappers
  import opened Text
  import opened Records
  import opened Schemas
  import opened ShopifyHelpers
  import Constants

  datatype ProductOption = ProductOption(name: string)

  /** The `productInput` record; `options` is present only for more than one size. */
  datatype ProductInput = ProductInput(
    title: string, descriptionHtml: string, status: string, vendor: Option<string>,
    productType: Option<string>, tags: seq<string>, handle: string, options: Option<seq<ProductOption>>)

  datatype BuildResult = BuildResult(
    productInput: ProductInput, variants: seq<VariantSpec>, metafields: seq<MetafieldInput>,
    sheetUpdates: seq<(string, string)>, tags: seq<string>, price: string)

  /** The SKU the variants are derived from: the row's SKU, else its product key, else
      `SKU-` and the clock reading. */
  function BaseSku(row: SheetRow, now: nat): (sku: string)
    ensures GetString(row, Constants.SKU).Some? ==> sku == GetString(row, Constants.SKU).value
    ensures GetString(row, Constants.SKU).None? && GetString(row, Constants.PRODUCT_KEY).Some? ==>
      sku == GetString(row, Constants.PRODUCT_KEY).value
    ensures GetString(row, Constants.SKU).None? && GetString(row, Constants.PRODUCT_KEY).None? ==>
      sku == "SKU-" + NatToString(now)
  {
    GetString(row, Constants.SKU).OrElse(GetString(row, Constants.PRODUCT_KEY)).GetOr("SKU-" + NatToString(now))
  }

  /** The copy written back to the sheet: title, description and the tags joined by
      `, `, and the meta description when it is non-empty. */
  function SheetUpdates(title: string, descriptionHtml: string, tags: seq<string>, metaDescription: Option<string>): (u: seq<(string, string)>)
    ensures UniqueKeys(u)
    ensures Get(u, Constants.TITLE) == Some(title)
    ensures Get(u, Constants.DESCRIPTION) == Some(descriptionHtml)
    ensures Get(u, Constants.TAGS) == Some(Join(tags, ", "))
    ensures Get(u, Constants.META_DESCRIPTION) ==
      if metaDescription.Some? && metaDescription.value != "" then metaDescription else None
    ensures |u| == if metaDescription.Some? && metaDescription.value != "" then 4 else 3
    ensures forall k :: Get(u, k).Some? ==> (k == Constants.TITLE || k == Constants.DESCRIPTION || k == Constants.TAGS || k == Constants.META_DESCRIPTION)
  {
    var u := CopyUpdates(title, descriptionHtml, Join(tags, ", "));
    if metaDescription.Some? && metaDescription.value != "" then Put(u, Constants.META_DESCRIPTION, metaDescription.value) else u
  }

  /** The three columns always written back. */
  function CopyUpdates(title: string, descriptionHtml: string, tags: string): (u: seq<(string, string)>)
    ensures UniqueKeys(u) && |u| == 3
    ensures Get(u, Constants.TITLE) == Some(title)
    ensures Get(u, Constants.DESCRIPTION) == Some(descriptionHtml)
    ensures Get(u, Constants.TAGS) == Some(tags)
    ensures Get(u, Constants.META_DESCRIPTION).None?
    ensures forall k :: Get(u, k).Some? ==> (k == Constants.TITLE || k == Constants.DESCRIPTION || k == Constants.TAGS)
  {
    Put(Put(Put([], Constants.TITLE, title), Constants.DESCRIPTION, descriptionHtml), Constants.TAGS, tags)
  }

  /** `buildShopifyInput`, with the metafield column names as `metafieldKeys` and the two
      clock readings, for the SKU fallback and for the handle, as `skuNow` and `handleNow`. */
  function BuildShopifyInput(row: SheetRow, aiContent: Option<AIContent>, metafieldKeys: seq<string>,
                             skuNow: nat, handleNow: nat): (r: BuildResult)
    ensures ResolvedTitle(row, aiContent).None? ==> r.productInput.title == "Untitled Product"
    ensures ResolvedTitle(row, aiContent).Some? ==> r.productInput.title == ResolvedTitle(row, aiContent).value
    ensures r.productInput.descriptionHtml == ResolvedDescription(row, aiContent).GetOr("")
    ensures r.price == GetString(row, Constants.PRICE).GetOr("0")
    ensures var sizes := ParseSizes(GetString(row, Constants.SIZES));
      |r.variants| == |sizes| >= 1 &&
      forall i :: 0 <= i < |r.variants| ==>
        r.variants[i].title == sizes[i] && r.variants[i].price == Some(r.price) &&
        r.variants[i].sku == Trim(BaseSku(row, skuNow)) + "-" + sizes[i]
    ensures r.productInput.options.Some? <==> |r.variants| > 1
    ensures r.productInput.options.Some? ==> r.productInput.options.value == [ProductOption("Size")]
    ensures r.productInput.status == "DRAFT"
    ensures r.tags == MergedTags(GetString(row, Constants.TAGS), if aiContent.Some? then Some(aiContent.value.tags) else None)
    ensures r.productInput.tags == r.tags
    ensures r.productInput.handle == BuildHandle(row, handleNow)
    ensures r.metafields == RowMetafields(row, aiContent, metafieldKeys)
    ensures r.sheetUpdates == SheetUpdates(r.productInput.title, r.productInput.descriptionHtml, r.tags, ResolvedMetaDescription(row, aiContent))
  {
    var title := ResolvedTitle(row, aiContent).GetOr("Untitled Product");
    var descriptionHtml := ResolvedDescription(row, aiContent).GetOr("");
    var metaDescription := ResolvedMetaDescription(row, aiContent);
    var tags := MergedTags(GetString(row, Constants.TAGS), if aiContent.Some? then Some(aiContent.value.tags) else None);
    var sizes := ParseSizes(GetString(row, Constants.SIZES));
    var baseSku := BaseSku(row, skuNow);
    var price := GetString(row, Constants.PRICE).GetOr("0");
    var variants := BuildVariants(sizes, baseSku, Some(price));
    var productInput := ProductInput(
      title, descriptionHtml, "DRAFT", GetString(row, Constants.VENDOR), GetString(row, Constants.PRODUCT_TYPE),
      tags, BuildHandle(row, handleNow), if |sizes| > 1 then Some([ProductOption("Size")]) else None);
    BuildResult(productInput, variants, RowMetafields(row, aiContent, metafieldKeys),
                SheetUpdates(title, descriptionHtml, tags, metaDescription), tags, price)
  }
}
