/** The fixed tables of the ledger layout: column names, status values, sizes, image
    roles and the metafield column mapping. */
module Constants {

  // Column names of the Products tab.
  const BATCH_ID := "BatchID"
  const STATUS := "Status"
  const ROW_ID := "RowID"
  const SHOPIFY_PRODUCT_ID := "ShopifyProductId"
  const PRODUCT_KEY := "ProductKey"
  const SKU := "SKU"
  const TITLE := "Title"
  const DESCRIPTION := "Description"
  const META_DESCRIPTION := "MetaDescription"
  const TAGS := "Tags"
  const STYLE := "Style"
  const CATEGORY := "Category"
  const COLOR := "Color"
  const PATTERN := "Pattern"
  const PRICE := "Price"
  const VENDOR := "Vendor"
  /** The product type is read from the Category column. */
  const PRODUCT_TYPE := "Category"
  const HANDLE := "Handle"
  const MAIN_IMAGE_ID := "MainImageId"
  const CLOSE_IMAGE_ID := "CloseImageId"
  const MODEL_IMAGE_ID := "ModelImageId"
  const MODEL2_IMAGE_ID := "Model2ImageId"
  const CREATED_AT := "CreatedAt"
  const UPDATED_AT := "UpdatedAt"
  const SIZES := "Sizes"
  const METAFIELD_FABRIC := "MetafieldFabric"
  const METAFIELD_COLOR := "MetafieldColor"
  const METAFIELD_PATTERN := "MetafieldPattern"
  const METAFIELD_TARGET_GENDER := "MetafieldTargetGender"
  const METAFIELD_AGE_GROUP := "MetafieldAgeGroup"
  const METAFIELD_SLEEVE_LENGTH := "MetafieldSleeveLength"
  const METAFIELD_CLOTHING_FEATURE := "MetafieldClothingFeature"
  const GPC_CODE := "GPCCode"
  const GPC_ATTRIBUTES := "GPCAttributes"
  const GOOGLE_PRODUCT_CATEGORY := "GoogleProductCategory"
  const STRUCTURED_DATA := "StructuredData"
  const GPC_DESCRIPTION := "GPCDescription"
  const GPC_SEGMENT := "GPCSegment"
  const GPC_SEGMENT_NAME := "GPCSegmentName"
  const GPC_FAMILY := "GPCFamily"
  const GPC_FAMILY_NAME := "GPCFamilyName"
  const GPC_CLASS := "GPCClass"
  const GPC_CLASS_NAME := "GPCClassName"
  const GPC_BRICK := "GPCBrick"
  const GPC_BRICK_NAME := "GPCBrickName"

  // Status values.
  const STATUS_PENDING := "PENDING_REVIEW"
  const STATUS_APPROVED := "APPROVED"
  const STATUS_CREATED := "CREATED"
  const STATUS_COMPLETE := "COMPLETE"

  /** Status values (upper-cased) that mark a row as approved for publishing. */
  const APPROVED_VALUES: seq<string> := ["APPROVED", "GODKENDT"]

  /** The sizes in their canonical order. */
  const SIZE_OPTIONS: seq<string> := ["One-size", "XS", "S", "M", "L", "XL"]

  /** The stock column of each size, in SIZE_OPTIONS order. */
  const SIZE_STOCK_COLUMNS: seq<(string, string)> := [
    ("One-size", "Stock: One-size"), ("XS", "Stock: XS"), ("S", "Stock: S"),
    ("M", "Stock: M"), ("L", "Stock: L"), ("XL", "Stock: XL")]

  /** The image roles placed first, in this order. */
  const ROLE_ORDER: seq<string> := ["main", "close", "model", "model2"]

  /** The ledger column that stores the file id of each image role. */
  const ROLE_COLUMN_MAP: map<string, string> := map[
    "main" := MAIN_IMAGE_ID, "close" := CLOSE_IMAGE_ID,
    "model" := MODEL_IMAGE_ID, "model2" := MODEL2_IMAGE_ID]

  const KNOWN_IMAGE_COLUMNS: seq<string> := [MAIN_IMAGE_ID, CLOSE_IMAGE_ID, MODEL_IMAGE_ID, MODEL2_IMAGE_ID]

  /** Ledger column to product metafield key, in declaration order. */
  const METAFIELD_COLUMN_MAP: seq<(string, string)> := [
    (METAFIELD_FABRIC, "fabric"),
    (METAFIELD_COLOR, "color"),
    (METAFIELD_PATTERN, "pattern"),
    (METAFIELD_TARGET_GENDER, "target_gender"),
    (METAFIELD_AGE_GROUP, "age_group"),
    (METAFIELD_SLEEVE_LENGTH, "sleeve_length"),
    (METAFIELD_CLOTHING_FEATURE, "clothing_feature"),
    (GPC_CODE, "gpc_code"),
    (GPC_ATTRIBUTES, "gpc_attributes"),
    (GOOGLE_PRODUCT_CATEGORY, "google_product_category"),
    (STRUCTURED_DATA, "structured_data"),
    (GPC_DESCRIPTION, "gpc_description"),
    (GPC_SEGMENT, "gpc_segment"),
    (GPC_SEGMENT_NAME, "gpc_segment_name"),
    (GPC_FAMILY, "gpc_family"),
    (GPC_FAMILY_NAME, "gpc_family_name"),
    (GPC_CLASS, "gpc_class"),
    (GPC_CLASS_NAME, "gpc_class_name"),
    (GPC_BRICK, "gpc_brick"),
    (GPC_BRICK_NAME, "gpc_brick_name")]

  /** The metafield keys the row schema accepts: the values of METAFIELD_COLUMN_MAP. */
  const METAFIELD_KEY_WHITELIST: seq<string> := [
    "fabric", "color", "pattern", "target_gender", "age_group", "sleeve_length",
    "clothing_feature", "gpc_code", "gpc_attributes", "google_product_category",
    "structured_data", "gpc_description", "gpc_segment", "gpc_segment_name", "gpc_family",
    "gpc_family_name", "gpc_class", "gpc_class_name", "gpc_brick", "gpc_brick_name"]

  lemma WhitelistIsColumnMapValues()
    ensures |METAFIELD_KEY_WHITELIST| == |METAFIELD_COLUMN_MAP|
    ensures forall i :: 0 <= i < |METAFIELD_KEY_WHITELIST| ==> METAFIELD_KEY_WHITELIST[i] == METAFIELD_COLUMN_MAP[i].1
  {
  }
}
