/** The validation and normalisation rules of the record schemas: the optional string
    cell, the sheet-row shape, the AI-content metafield transform, the variant inventory
    quantity, the image asset and the log and error entries. */
module Schemas {
  import opened Wrappers
  import opened Text
  import opened Lists
  import Constants

  /** A raw value as it reaches a schema: JavaScript's `undefined`, `null`, a string, an
      integral number, a boolean, or anything else (objects, arrays, functions). */
  datatype CellValue = Absent | Null | Str(s: string) | Num(n: int) | Bool(b: bool) | Other

  function BoolToString(b: bool): string {
    if b then "true" else "false"
  }

  /** A present cell value: non-empty and without surrounding whitespace. */
  predicate Clean(s: string) {
    s != [] && !IsWhite(s[0]) && !IsWhite(s[|s| - 1])
  }

  /** A clean value is exactly a non-empty value that trims to itself. */
  lemma CleanIsTrimmed(s: string)
    ensures Clean(s) <==> s != [] && Trim(s) == s
  {
    if Clean(s) {
      TrimByNoop(s, IsWhite);
    }
  }

  /** Trims `t`, and gives absent for an empty result. */
  function NonBlank(t: string): (r: Option<string>)
    ensures r.Some? <==> Trim(t) != []
    ensures r.Some? ==> r.value == Trim(t) && Clean(r.value)
  {
    if |Trim(t)| == 0 then None else Some(Trim(t))
  }

  lemma NonBlankOfClean(t: string)
    requires t == [] || (!IsWhite(t[0]) && !IsWhite(t[|t| - 1]))
    ensures t != [] ==> NonBlank(t) == Some(t)
  {
    TrimByNoop(t, IsWhite);
  }

  /** A written-out number has no surrounding whitespace. */
  lemma NumberWrittenOut(n: int)
    ensures NonBlank(IntToString(n)) == Some(IntToString(n))
  {
    WrittenOut(IntToString(n));
  }

  lemma WrittenOut(t: string)
    requires |t| >= 1 && !IsWhite(t[0]) && !IsWhite(t[|t| - 1])
    ensures NonBlank(t) == Some(t)
  {
    NonBlankOfClean(t);
  }

  lemma BoolWrittenOut(b: bool)
    ensures NonBlank(BoolToString(b)) == Some(BoolToString(b))
  {
    var t := BoolToString(b);
    assert t[0] in {'t', 'f'} && t[|t| - 1] == 'e';
    NonBlankOfClean(t);
  }

  /** The `optionalStringCell` preprocess: absent, null and other values become absent;
      strings are trimmed; numbers and booleans are written out and trimmed; an empty
      result becomes absent. */
  function OptionalStringCell(v: CellValue): (r: Option<string>)
    ensures r.Some? ==> Clean(r.value)
    ensures v.Str? ==> r == NonBlank(v.s)
    ensures v.Absent? || v.Null? || v.Other? ==> r.None?
    ensures v.Num? ==> r == Some(IntToString(v.n))
    ensures v.Bool? ==> r == Some(BoolToString(v.b))
  {
    match v
    case Absent => None
    case Null => None
    case Str(s) => NonBlank(s)
    case Num(n) =>
      NumberWrittenOut(n);
      NonBlank(IntToString(n))
    case Bool(b) =>
      BoolWrittenOut(b);
      NonBlank(BoolToString(b))
    case Other => None
  }

  /** The preprocess applied to an optional string field. */
  function OptionalText(s: Option<string>): (r: Option<string>)
    ensures r.Some? ==> Clean(r.value)
    ensures r.Some? <==> s.Some? && Trim(s.value) != []
  {
    match s
    case None => None
    case Some(t) => OptionalStringCell(Str(t))
  }

  /** A value the preprocess produced passes through it unchanged. */
  lemma OptionalStringCellIdempotent(v: CellValue)
    ensures OptionalStringCell(v).Some? ==> OptionalStringCell(Str(OptionalStringCell(v).value)) == OptionalStringCell(v)
  {
    var r := OptionalStringCell(v);
    if r.Some? {
      CleanPassesThrough(r.value);
    }
  }

  /** A clean string is its own preprocessed value. */
  lemma CleanPassesThrough(t: string)
    requires Clean(t)
    ensures OptionalStringCell(Str(t)) == Some(t)
  {
    NonBlankOfClean(t);
  }

  lemma OptionalTextIdempotent(s: Option<string>)
    ensures OptionalText(OptionalText(s)) == OptionalText(s)
  {
    var r := OptionalText(s);
    if r.Some? {
      NonBlankOfClean(r.value);
    }
  }

  // ---------------------------------------------------------------------------
  // Sheet rows

  /** The columns the row schema names; every other column passes through verbatim. */
  const KNOWN_COLUMNS: set<string> := {
    Constants.BATCH_ID, Constants.STATUS, Constants.ROW_ID, Constants.SHOPIFY_PRODUCT_ID,
    Constants.PRODUCT_KEY, Constants.SKU, Constants.TITLE, Constants.DESCRIPTION,
    Constants.META_DESCRIPTION, Constants.TAGS, Constants.STYLE, Constants.CATEGORY,
    Constants.COLOR, Constants.PATTERN, Constants.PRICE, Constants.VENDOR, Constants.HANDLE,
    Constants.MAIN_IMAGE_ID, Constants.CLOSE_IMAGE_ID, Constants.MODEL_IMAGE_ID,
    Constants.MODEL2_IMAGE_ID, Constants.SIZES, Constants.CREATED_AT, Constants.UPDATED_AT,
    "Stock: One-size", "Stock: XS", "Stock: S", "Stock: M", "Stock: L", "Stock: XL",
    Constants.METAFIELD_FABRIC, Constants.METAFIELD_COLOR, Constants.METAFIELD_PATTERN,
    Constants.METAFIELD_TARGET_GENDER, Constants.METAFIELD_AGE_GROUP,
    Constants.METAFIELD_SLEEVE_LENGTH, Constants.METAFIELD_CLOTHING_FEATURE,
    Constants.GPC_CODE, Constants.GPC_ATTRIBUTES, Constants.GOOGLE_PRODUCT_CATEGORY,
    Constants.STRUCTURED_DATA, Constants.GPC_DESCRIPTION, Constants.GPC_SEGMENT,
    Constants.GPC_SEGMENT_NAME, Constants.GPC_FAMILY, Constants.GPC_FAMILY_NAME,
    Constants.GPC_CLASS, Constants.GPC_CLASS_NAME, Constants.GPC_BRICK, Constants.GPC_BRICK_NAME}

  /** A validated product row: its sheet row number, the header map it was read with and
      its present cell values by column name. */
  datatype SheetRow = SheetRow(rowNumber: int, headerMap: map<string, nat>, cells: map<string, string>)

  /** The value of column `key`, if present. */
  function Cell(row: SheetRow, key: string): Option<string> {
    if key in row.cells then Some(row.cells[key]) else None
  }

  /** `SheetRowSchema.parse`: the row number must be an integer of at least 2; named
      columns go through the optional string preprocess, other columns pass through. */
  function ParseSheetRow(rowNumber: int, headerMap: map<string, nat>, raw: map<string, string>): (r: Result<SheetRow, string>)
    ensures r.Ok? <==> rowNumber >= 2
    ensures r.Ok? ==> r.value.rowNumber == rowNumber && r.value.headerMap == headerMap
    ensures r.Ok? ==> forall k :: k in r.value.cells <==> k in raw && (k in KNOWN_COLUMNS ==> Trim(raw[k]) != [])
    ensures r.Ok? ==> forall k :: k in r.value.cells && k in KNOWN_COLUMNS ==> Clean(r.value.cells[k]) && r.value.cells[k] == Trim(raw[k])
    ensures r.Ok? ==> forall k :: k in r.value.cells && k !in KNOWN_COLUMNS ==> r.value.cells[k] == raw[k]
  {
    if rowNumber < 2 then Err("rowNumber: Number must be greater than or equal to 2")
    else Ok(SheetRow(rowNumber, headerMap, RowCells(raw, KNOWN_COLUMNS)))
  }

  /** The preprocess applied to the columns in `known`: blank ones are dropped, the others
      trimmed; columns outside `known` are kept verbatim. */
  function RowCells(raw: map<string, string>, known: set<string>): (c: map<string, string>)
    ensures forall k :: k in c <==> k in raw && (k in known ==> Trim(raw[k]) != [])
    ensures forall k :: k in c && k in known ==> Clean(c[k]) && c[k] == Trim(raw[k])
    ensures forall k :: k in c && k !in known ==> c[k] == raw[k]
  {
    map k | k in raw && (k !in known || NonBlank(raw[k]).Some?) ::
      if k in known then NonBlank(raw[k]).value else raw[k]
  }

  /** A record whose every value is already clean passes through the preprocess as it is. */
  lemma RowCellsOfClean(raw: map<string, string>, known: set<string>)
    requires forall k :: k in raw ==> Clean(raw[k])
    ensures RowCells(raw, known) == raw
  {
    var c := RowCells(raw, known);
    forall k | k in raw
      ensures k in c && c[k] == raw[k]
    {
      CleanIsTrimmed(raw[k]);
    }
    assert c.Keys == raw.Keys;
  }

  // ---------------------------------------------------------------------------
  // AI content

  /** Generated listing copy.  `descriptionHtml` and `metaDescription` are read by the
      copy resolvers but are not fields of the schema; they are carried as inputs. */
  datatype AIContent = AIContent(
    title: string, description: string, meta_description: string, tags: seq<string>,
    category: string, style: string, color: string, pattern: string,
    vendor: Option<string>, metafields: Option<seq<(string, string)>>,
    descriptionHtml: Option<string>, metaDescription: Option<string>)

  /** Whether `m` is a whitelisted metafield key. */
  predicate Whitelisted(k: string) {
    k in Constants.METAFIELD_KEY_WHITELIST
  }

  /** The surviving form of one record entry. */
  function KeepEntry(e: (string, CellValue)): (r: Option<(string, string)>)
    ensures r.Some? <==> Whitelisted(e.0) && OptionalStringCell(e.1).Some?
    ensures r.Some? ==> r.value == (e.0, OptionalStringCell(e.1).value) && Clean(r.value.1)
  {
    if Whitelisted(e.0) && OptionalStringCell(e.1).Some? then Some((e.0, OptionalStringCell(e.1).value)) else None
  }

  /** The record entries that survive the transform, in record order. */
  function Normalized(entries: seq<(string, CellValue)>): (r: seq<(string, string)>)
    ensures forall p :: p in r ==> Whitelisted(p.0) && Clean(p.1)
  {
    var r := FilterMap(entries, KeepEntry);
    forall p | p in r
      ensures Whitelisted(p.0) && Clean(p.1)
    {
      FilterMapMembership(entries, KeepEntry, p);
    }
    r
  }

  /** An entry survives exactly when some record entry keeps it. */
  lemma NormalizedMembership(entries: seq<(string, CellValue)>, p: (string, string))
    ensures p in Normalized(entries) <==> exists i :: 0 <= i < |entries| && KeepEntry(entries[i]) == Some(p)
  {
    FilterMapMembership(entries, KeepEntry, p);
  }

  lemma NormalizedEmpty(entries: seq<(string, CellValue)>)
    ensures Normalized(entries) == [] <==> forall i :: 0 <= i < |entries| ==> KeepEntry(entries[i]).None?
  {
    FilterMapEmpty(entries, KeepEntry);
  }

  /** The metafields transform: only whitelisted keys with a non-empty written-out scalar
      value survive, trimmed; the whole record is absent when nothing survives. */
  function TransformMetafields(raw: Option<seq<(string, CellValue)>>): (r: Option<seq<(string, string)>>)
    ensures r.Some? ==> raw.Some? && r.value == Normalized(raw.value) && |r.value| > 0
    ensures r.None? <==> raw.None? || forall i :: 0 <= i < |raw.value| ==> KeepEntry(raw.value[i]).None?
  {
    match raw
    case None => None
    case Some(entries) =>
      NormalizedEmpty(entries);
      if |Normalized(entries)| == 0 then None else Some(Normalized(entries))
  }

  /** What survives the transform: a whitelisted key with its trimmed, non-empty value. */
  lemma TransformMetafieldsEntries(raw: seq<(string, CellValue)>, k: string, v: string)
    ensures TransformMetafields(Some(raw)).Some? ==>
      ((k, v) in TransformMetafields(Some(raw)).value <==>
       Whitelisted(k) && Clean(v) && exists i :: 0 <= i < |raw| && raw[i].0 == k && OptionalStringCell(raw[i].1) == Some(v))
  {
    NormalizedMembership(raw, (k, v));
  }

  /** The schema's requirement on generated content: at least one tag. */
  predicate ValidAIContent(c: AIContent) {
    |c.tags| >= 1
  }

  // ---------------------------------------------------------------------------
  // Variants

  /** `Math.max(0, n)`. */
  function Clamp(n: int): (r: nat)
    ensures r >= n && (n >= 0 ==> r == n) && (n < 0 ==> r == 0)
  {
    if n < 0 then 0 else n
  }

  /** The `inventoryQuantity` preprocess: numbers and numeric strings become
      `max(0, n)`; blank, non-numeric and other values become absent. */
  function InventoryQuantity(v: CellValue): (r: Option<nat>)
    ensures v.Num? ==> r == Some(Clamp(v.n))
    ensures v.Str? ==> (r.Some? <==> ParseInt(Trim(v.s)).Some?)
    ensures v.Str? && r.Some? ==> r.value == Clamp(ParseInt(Trim(v.s)).value)
    ensures v.Absent? || v.Null? || v.Bool? || v.Other? ==> r.None?
  {
    match v
    case Num(n) => Some(Clamp(n))
    case Str(s) =>
      var t := Trim(s);
      if |t| == 0 then None
      else
        (match ParseInt(t)
         case Some(n) => Some(Clamp(n))
         case None => None)
    case Absent => None
    case Null => None
    case Bool(_) => None
    case Other => None
  }

  /** A written-out quantity is read back as itself. */
  lemma InventoryQuantityOfString(n: nat)
    ensures InventoryQuantity(Str(IntToString(n))) == Some(n)
  {
    TrimByNoop(IntToString(n), IsWhite);
    ParseIntOfIntToString(n);
  }

  /** One option value of a variant. */
  datatype OptionValue = OptionValue(name: string, value: string)

  datatype VariantSpec = VariantSpec(title: string, sku: string, optionValues: seq<OptionValue>,
                                     price: Option<string>, inventoryQuantity: Option<nat>)

  // ---------------------------------------------------------------------------
  // Image assets, log and error entries

  /** A positioned image of a product. */
  datatype ImageAsset = ImageAsset(driveFileId: string, filename: string, role: string, position: int,
                                   mimeType: Option<string>, sizeBytes: Option<nat>, modifiedTime: Option<string>)

  /** The image asset constraints: a positive integer position and clean optional texts. */
  predicate ValidImageAsset(a: ImageAsset) {
    a.position >= 1 &&
    (a.mimeType.Some? ==> Clean(a.mimeType.value)) &&
    (a.modifiedTime.Some? ==> Clean(a.modifiedTime.value))
  }

  datatype LogEntry = LogEntry(timestamp: string, action: string, productKey: Option<string>, message: string)

  datatype ErrorEntry = ErrorEntry(timestamp: string, productKey: Option<string>, step: string,
                                   message: string, hint: Option<string>, payloadSnippet: Option<string>)

  /** `LogEntrySchema.parse`: the product key goes through the optional string preprocess. */
  function MakeLogEntry(timestamp: string, action: string, productKey: Option<string>, message: string): (e: LogEntry)
    ensures e.timestamp == timestamp && e.action == action && e.message == message
    ensures e.productKey.Some? ==> Clean(e.productKey.value)
  {
    LogEntry(timestamp, action, OptionalText(productKey), message)
  }

  /** `ErrorEntrySchema.parse`: key, hint and payload snippet go through the preprocess. */
  function MakeErrorEntry(timestamp: string, productKey: Option<string>, step: string, message: string,
                          hint: Option<string>, payloadSnippet: Option<string>): (e: ErrorEntry)
    ensures e.timestamp == timestamp && e.step == step && e.message == message
    ensures e.productKey.Some? ==> Clean(e.productKey.value)
    ensures e.hint.Some? ==> Clean(e.hint.value)
  {
    ErrorEntry(timestamp, OptionalText(productKey), step, message, OptionalText(hint), OptionalText(payloadSnippet))
  }
}
