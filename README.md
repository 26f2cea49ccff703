# Product automation core, modelled in Dafny

This project models the deterministic core of a product-listing service. The service
turns product photos uploaded to a Drive folder, and a Google Sheets ledger, into
Shopify listings. The model covers these parts:

- the image filename parser and the deterministic position assignment;
- the retry loop with exponential back-off;
- the price, GS1 product classification (GPC) and pattern lookups;
- the cell and record normalisation rules of the schemas;
- the listing helpers and the listing payload builder;
- the spreadsheet ledger (Products, Logs, Errors and Config tabs) as an in-memory class;
- draft staging;
- the publish saga;
- the resolution of category metafields and of metaobject handles, with their per-type caches.

Google Drive, Google Sheets, Shopify and OpenAI are not called. Each is either an
oracle given as a parameter (the outcome of every call, fixed in advance) or in-memory
state (the ledger). The model records every external call in order, so the step order
of the saga can be stated. Clocks are parameters: each timestamp is an opaque string
passed in.

One Dafny module stands for each source file. Shared helper modules hold what the
TypeScript gets from its runtime:

- `Text`: trim, ASCII case mapping, `includes`, `indexOf`, `split`/`join`, run replacement, number to string;
- `Sorting`: `Array.prototype.sort` as a stable insertion sort;
- `Grouping`: bucketing by key;
- `Records`: plain objects in insertion order;
- `Lists`: `filter`/`map` chains and `Set` de-duplication;
- `Keyed`: `map.set` loops;
- `Paging`: cursor pagination;
- `Json`: JSON string literals;
- `Wrappers`: `Option` and `Result`.

`Constants` transcribes the column, status, size and role tables of
`src/config/constants.ts`.

## Model

| member | source | states |
|---|---|---|
| MapFilenames.ParseFilenameNone | src/processors/mapFilenames.ts:17-28 | A name fails to parse exactly when its trimmed form has no underscore, starts with one, or has a blank role segment. A blank key cannot occur once the name is trimmed and does not start with `_`. |
| MapFilenames.ParseFilenameKey | src/processors/mapFilenames.ts:18-23 | The product key is the trimmed text before the first underscore. It is non-empty and never contains `_`. |
| MapFilenames.NormalizeRoleShape | src/processors/mapFilenames.ts:25-34 | The role is the lower-cased segment with every non-`[a-z0-9]` character removed, or `misc` if nothing is left. `model`/`model2` are kept verbatim. The role is never empty and only holds `[a-z0-9]`. |
| MapFilenames.RoleOfShape | src/processors/mapFilenames.ts:40-42 | The bucket of a file is its parsed role. A name that does not parse goes to `misc` and is not dropped. |
| MapFilenames.NonCanonical | src/processors/mapFilenames.ts:49-50 | The remaining roles are exactly the bucket roles outside main/close/model/model2, without repeats. |
| MapFilenames.AssignDeterministicPositions | src/processors/mapFilenames.ts:37-84 | The map-filling, bucket-sorting and `position++` loops produce exactly the reference assignment `Assets`: one asset per file, positions 1..n in output order, each a valid image asset. |
| MapFilenames.EmitRoles | src/processors/mapFilenames.ts:54-81 | The loop over the ordered roles emits the sorted bucket of each role, numbered on from the previous roles. |
| MapFilenames.PushBucket | src/processors/mapFilenames.ts:68-80 | The inner loop appends one asset per bucket file, at the next positions. |
| MapFilenames.EmittedAssets | src/processors/mapFilenames.ts:49-58 | Canonical roles followed by the sorted remaining roles, laid out and numbered, give `Assets`. |
| MapFilenames.CanonicalThenSorted | src/processors/mapFilenames.ts:49-52 | The ordered role list has no repeats and includes every bucket role. |
| MapFilenames.OrderedRolesCover | src/processors/mapFilenames.ts:49-58 | Every file's role is in the ordered role list, and that list has no repeats. |
| MapFilenames.PlacedPermutation | src/processors/mapFilenames.ts:40-80 | The output files are a permutation of the input, each filed under its own role. |
| MapFilenames.AssetsShape | src/processors/mapFilenames.ts:54-80 | There is exactly one asset per input file. Positions are 1..n in output order across all roles, not counted per role. Files whose names do not parse are in `misc`. |
| MapFilenames.AssetsRoleOrder | src/processors/mapFilenames.ts:49-58 | Along the output, roles follow main, close, model, model2, then the other roles ascending. |
| MapFilenames.AssetsContiguous | src/processors/mapFilenames.ts:57-81 | The assets of one role are contiguous. |
| MapFilenames.FileBeforeTransitive | src/processors/mapFilenames.ts:61-66 | The bucket comparator is transitive among files that all have, or all lack, a modification time. |
| MapFilenames.FileBeforeTotal | src/processors/mapFilenames.ts:61-66 | Two files that both have, or both lack, a modification time are ordered one way or the other unless they share a filename. |
| MapFilenames.OrderableTotal | src/processors/mapFilenames.ts:61-66 | Suppose that within each role filenames are distinct and either all files or none carry a modification time. Then the comparator is a strict total order on each bucket. |
| MapFilenames.PlacedWithinRole | src/processors/mapFilenames.ts:61-66 | Under that condition, files within a role are ordered by modification time when both have one and they differ, and by filename otherwise. |
| MapFilenames.OrderedRolesAgree | src/processors/mapFilenames.ts:49-52 | Reordering the input does not change the role order. |
| MapFilenames.AssetsOrderIndependent | src/processors/mapFilenames.ts:37-84 | Under the same condition, any reordering of the input gives the same output. |
| Backoff.Resolve | src/utils/backoff.ts:1-19 | Absent options take the defaults: 3 retries, base 1000 ms, factor 3, and every error retried. |
| Backoff.RunFrom | src/utils/backoff.ts:21-40 | The reference loop never reports fewer calls than the attempt it starts from. |
| Backoff.WithBackoff | src/utils/backoff.ts:15-40 | The `while (attempt <= retries)` loop produces exactly the trace of the reference definition. |
| Backoff.RunFromShape | src/utils/backoff.ts:24-36 | From any attempt: at most `retries+1` calls in all. Each retried failure is notified with its attempt number and waits `baseMs * factor^k`. A success is returned as is. A failure is thrown unchanged, and only on the last attempt or when `shouldRetry` refuses. |
| Backoff.ShapeStep | src/utils/backoff.ts:26-34 | A retried failure, notified with its attempt number and followed by its wait, in front of the calls after it, keeps the call-by-call behaviour one attempt earlier. |
| Backoff.RunFromDescribed | src/utils/backoff.ts:24-36 | The reference definition meets the loop's step-by-step description. |
| Backoff.DescribesUnique | src/utils/backoff.ts:24-36 | The step-by-step description fixes the trace uniquely. |
| Backoff.DescribesRunFrom | src/utils/backoff.ts:24-36 | Any trace meeting the description is the reference trace. |
| Backoff.CallsBounded | src/utils/backoff.ts:24-31 | `fn` is called between 1 and `retries+1` times. Every call but the last failed. The result is the last call's value, or exactly its error with no wrapper. |
| Backoff.RetriesNotified | src/utils/backoff.ts:32-34 | `onRetry` is called once per retried failure, with attempt numbers 1, 2, … in order. The k-th wait is `baseMs * factor^k`. |
| Backoff.NoRetryStops | src/utils/backoff.ts:29-31 | When `shouldRetry` refuses, the error is rethrown at once, with no further call, notification or wait. |
| Backoff.FirstSuccessReturned | src/utils/backoff.ts:26 | The first success is returned and `fn` is not called again. |
| Backoff.NegativeRetries | src/utils/backoff.ts:24-39 | With negative `retries`, `fn` is never called and the generic error is thrown. |
| Backoff.AlwaysFailingTwoRetries | src/utils/backoff.ts:24-31 | An always-failing `fn` with `retries=2` is called exactly 3 times, then its last error is thrown. |
| Backoff.FailTwiceThenSucceed | src/utils/backoff.ts:24-34 | With the defaults, failing twice and then succeeding returns the value after 3 calls. It makes exactly 2 `onRetry` calls (attempts 1 and 2) and waits 1000 then 3000 ms. |
| Merchandising.FirstMatch | src/utils/merchandising.ts:131-135 | The first entry in table order whose key is contained in the style or contains it. No earlier entry matches, and -1 means none does. |
| Merchandising.PriceFor | src/utils/merchandising.ts:128-137 | `'499'` for an absent or empty style. Otherwise the price of the first matching `PRICE_MAP` entry, or `'499'`. |
| Merchandising.WalkTable | src/utils/merchandising.ts:131-135 | The `for…of` walk with early return finds the first match in table order. |
| Merchandising.DeterminePrice | src/utils/merchandising.ts:128-137 | The loop computes `PriceFor`. The price is always a `PRICE_MAP` value or `'499'`. |
| Merchandising.PriceIsFirstMatch | src/utils/merchandising.ts:130-135 | The first matching entry in table order gives the price. This is not the longest match. |
| Merchandising.PriceWithoutMatch | src/utils/merchandising.ts:136 | A style matching no key gives `'499'`. |
| Merchandising.CapPrices | src/utils/merchandising.ts:128-137 | `'Classic Cap'` and `'cap'` both give `'399'`. |
| Merchandising.ShirtPrice | src/utils/merchandising.ts:128-137 | `'shirt'` gives `'649'`, because `'short sleeve shirt'` contains it and comes before `'t-shirt'`. |
| Merchandising.GpcMappingFor | src/utils/merchandising.ts:143-161 | An exact key wins. Next comes the first substring match in either direction, in table order. Failing both, the cap mapping for an accessories/tilbehør category, else t-shirt. |
| Merchandising.DetermineGpc | src/utils/merchandising.ts:139-171 | The mapping is `GpcMappingFor`. `code` is segment-family-class-brick joined by `-`. `description` is the four names joined by ` > `. |
| Merchandising.EmptyStyleGivesCap | src/utils/merchandising.ts:143-148 | An empty or absent style gives the cap mapping whatever the category, because every key contains `''`. |
| Merchandising.ExactKeyWins | src/utils/merchandising.ts:144 | A style equal to a key, after lower-casing, gives that key's mapping. |
| Merchandising.GpcKeysDistinct | src/utils/merchandising.ts:26-126 | The GPC table keys are distinct, so the exact lookup is well defined. |
| Merchandising.UnmatchedStyleUsesCategory | src/utils/merchandising.ts:154-161 | A style matching no key gives cap for an accessories category and t-shirt otherwise. |
| Merchandising.GpcMappingInTable | src/utils/merchandising.ts:143-161 | The mapping is always one of the table's mappings. |
| Merchandising.CodeSplits | src/utils/merchandising.ts:163 | The code splits back on `-` into segment, family, class and brick. |
| Gpc.FirstEntry | src/utils/gpc.ts:99-109 | `.find` over an ordered token table: the first entry with a contained token. No earlier entry has one. |
| Gpc.Normalize | src/utils/gpc.ts:95-97 | Normalising trims and lower-cases, so it keeps the trimmed length. |
| Gpc.ResolveGenderCode | src/utils/gpc.ts:99-103 | The gender code is one of the table's codes or the default `30004340`. |
| Gpc.ResolveAgeCode | src/utils/gpc.ts:105-109 | The age code is one of the table's codes or the default `30000147`. |
| Gpc.ResolveSleeveLengthCode | src/utils/gpc.ts:111-127 | Absent exactly for a blank input. Otherwise one of the four sleeve codes or `30002515`. |
| Gpc.ResolveHoodedCode | src/utils/gpc.ts:172-179 | Absent exactly for a blank input. Otherwise hooded `30002654` or not hooded `30002960`. |
| Gpc.ResolveShirtType | src/utils/gpc.ts:133-142 | T-shirt, polo or the other-shirt code. |
| Gpc.ResolveJacketType | src/utils/gpc.ts:148-166 | Bomber, parka, cardigan, vest, poncho or the other-jacket code. |
| Gpc.NormalizeStyle | src/utils/gpc.ts:231-241 | No profile exactly when the trimmed style is empty. Otherwise the style class of the normalised style. |
| Gpc.AttributeId | src/utils/gpc.ts:182-222 | Every attribute id is an 8-digit string. |
| Gpc.WithHood | src/utils/gpc.ts:204-222 | The hood attribute is added exactly when a hood code was resolved. Nothing else changes. |
| Gpc.GarmentBase | src/utils/gpc.ts:182-197 | Non-cap attributes: age, gender, material `30000720`, and the sleeve only when resolved. |
| Gpc.ShirtGarment | src/utils/gpc.ts:200-203 | A shirt's attributes are exactly the garment base plus the shirt type `20001940`. |
| Gpc.SweaterGarment | src/utils/gpc.ts:204-213 | A sweater has the garment base and the sweater type `20001942`, with hood `20003164` exactly when resolved. It has no cap, shirt or jacket type. |
| Gpc.JacketGarment | src/utils/gpc.ts:214-223 | A jacket has the garment base and the jacket type `20001938`, with hood `20003164` exactly when resolved. It has no cap, shirt or sweater type. |
| Gpc.AssembleAttributes | src/utils/gpc.ts:181-229 | The switch over the profile key. Cap adds only `20001947=30010323`. Non-cap always has material, with sleeve only when given. Hood is added only for sweater or jacket. Exactly one type attribute is added per garment kind. |
| Gpc.BuildAttributes | src/utils/gpc.ts:181-229 | The same, stated in terms of the resolvers: age `20000045` and gender `20001131` are always present. |
| Gpc.DeriveGpcProfile | src/utils/gpc.ts:243-255 | Undefined exactly when the trimmed style is empty. Otherwise the base profile of the style class, with its description and attributes. |
| Gpc.AttributePairs | src/utils/gpc.ts:275-278 | `id=value` for exactly the attributes with a non-empty value. |
| Gpc.FormatAttributes | src/utils/gpc.ts:275-280 | Undefined exactly when no attribute has a value. |
| Gpc.FormatAttributesSplits | src/utils/gpc.ts:275-280 | The formatted string splits on `;` back into the `id=value` pairs. |
| Gpc.ProfileValues | src/utils/gpc.ts:257-298 | The projections carry 13 values. |
| Gpc.Record | src/utils/gpc.ts:257-298 | An object literal with distinct keys maps each key to its value. |
| Gpc.GpcColumnsDistinct | src/utils/gpc.ts:257-298 | The 13 column names, and likewise the 13 metafield keys, are distinct. |
| Gpc.ColumnUpdates | src/utils/gpc.ts:257-273 | The column projection holds exactly the 13 GPC columns, with the profile's values. |
| Gpc.Metafields | src/utils/gpc.ts:282-298 | The metafield projection holds exactly the 13 GPC keys, with the same values as the columns. |
| Gpc.ProjectedValues | src/utils/gpc.ts:257-298 | The code column holds the profile code, the attributes column holds the formatted attributes, and `gpc_description` holds the description. |
| Gpc.DescriptionShape | src/utils/gpc.ts:243-255 | The description is segmentName > familyName > className > brickName. |
| Gpc.StylePrecedence | src/utils/gpc.ts:234-240 | Cap before hoodie/sweater/pullover, before jacket/coat/blazer, before shirt. |
| Gpc.ClassifyFirst | src/utils/gpc.ts:99-109 | The first table entry with a contained token decides. |
| Gpc.NormalizeNoop | src/utils/gpc.ts:95-97 | A trimmed, lower-case value normalises to itself. |
| Gpc.FemaleMapsToMale | src/utils/gpc.ts:82-103 | `'female'` resolves to the male code `30004039`, because `'male'` is matched first. |
| Gpc.UnisexGender | src/utils/gpc.ts:82-103 | A value containing `unisex`, or matching no token, gives `30004340`. |
| Gpc.CapAttributes | src/utils/gpc.ts:187-190 | A cap profile has exactly age, gender and `20001947=30010323`, with no sleeve or material. |
| Gpc.ClothingAttributes | src/utils/gpc.ts:192-222 | A non-cap profile always has material `30000720`. Sleeve appears exactly for a non-blank sleeve length. Hood appears exactly for sweater or jacket with a non-blank clothing feature. |
| Gpc.AgeAndGenderAlways | src/utils/gpc.ts:181-185 | Age and gender are always present, and default to `30000147` and `30004340` for blank inputs. |
| Gpc.BlankCodes | src/utils/gpc.ts:99-109 | Blank gender and age give the defaults. |
| Patterns.HandleFor | src/utils/patterns.ts:1-50 | A table hit is one of the table's handles. |
| Patterns.MapPatternToHandle | src/utils/patterns.ts:61-66 | Undefined for an absent or empty input, and for one that normalises to nothing. Otherwise it is the table's handle for the normalised text, and undefined when that text is not a key: the hyphenated fallback never finds a handle the direct lookup missed. |
| Patterns.FallbackAgrees | src/utils/patterns.ts:65 | For normalised text, a handle found under the hyphenated spelling is the handle of the spaced spelling. |
| Patterns.HyphenFallbackMisses | src/utils/patterns.ts:65 | Normalised text that is not a key stays a miss when its spaces become hyphens. |
| Patterns.NormalizeShape | src/utils/patterns.ts:52-59 | The normalised text is lower-case letters and digits in words separated by single spaces. It has no leading, trailing or double space. |
| Patterns.NormalFixed | src/utils/patterns.ts:52-59 | Such a text normalises to itself. |
| Patterns.NormalSteps | src/utils/patterns.ts:52-59 | Each normalisation step leaves such a text unchanged. |
| Patterns.SpacedOfNormal | src/utils/patterns.ts:57 | Collapsing whitespace leaves such a text unchanged. |
| Patterns.NormalizeIdempotent | src/utils/patterns.ts:52-59 | Normalising is idempotent. |
| Patterns.IgnoresCase | src/utils/patterns.ts:52-65 | Inputs that differ only in case normalise alike and map to the same handle. |
| Patterns.NoLettersNoHandle | src/utils/patterns.ts:61-64 | An input without letters or digits normalises to nothing and gives undefined. |
| Patterns.TieDyeKey | src/utils/patterns.ts:1-50 | The key `tie dye` maps to `tie-dye`. |
| Patterns.TieDye | src/utils/patterns.ts:52-65 | `'Tie-Dye'` and `'tie dye'` both map to `tie-dye`. |
| Patterns.HandleOfHit | src/utils/patterns.ts:65 | A direct hit is returned without the fallback. |
| Patterns.TieDyeNormalizes | src/utils/patterns.ts:52-59 | `'Tie-Dye'` normalises to `'tie dye'`. |
| Schemas.CleanIsTrimmed | src/config/schemas.ts:6-19 | A clean cell text is exactly a non-empty text equal to its own trim. |
| Schemas.NonBlank | src/config/schemas.ts:10-11 | A text is present exactly when its trim is non-empty, and then it is the trim. |
| Schemas.NumberWrittenOut | src/config/schemas.ts:13-15 | A stringified number is never blank and has no surrounding whitespace. |
| Schemas.BoolWrittenOut | src/config/schemas.ts:13-15 | A stringified boolean is never blank and has no surrounding whitespace. |
| Schemas.OptionalStringCell | src/config/schemas.ts:6-19 | Null or undefined becomes absent. Strings are trimmed, and a blank one becomes absent. Numbers and booleans are stringified. Other types become absent. A present value is clean. |
| Schemas.OptionalText | src/config/schemas.ts:6-19 | A string cell is present exactly when it is non-blank, and then it is clean. |
| Schemas.OptionalStringCellIdempotent | src/config/schemas.ts:6-19 | Applying the preprocess to its own result changes nothing. |
| Schemas.CleanPassesThrough | src/config/schemas.ts:9-11 | A clean text passes through unchanged. |
| Schemas.OptionalTextIdempotent | src/config/schemas.ts:6-19 | The string-cell normalisation is idempotent. |
| Schemas.ParseSheetRow | src/config/schemas.ts:21-77 | A row parses exactly when `rowNumber >= 2`. Known columns keep only non-blank cells, trimmed. Other columns pass through unchanged. |
| Schemas.RowCells | src/config/schemas.ts:26-77 | Known columns are trimmed and blank ones dropped. Other columns are kept as they are. |
| Schemas.RowCellsOfClean | src/config/schemas.ts:26-77 | A row of clean cells is unchanged by the schema. |
| Schemas.KeepEntry | src/config/schemas.ts:85-100 | An entry survives exactly when its key is whitelisted and its value is a non-blank scalar, and it is then trimmed. |
| Schemas.Normalized | src/config/schemas.ts:85-101 | Every kept entry is whitelisted and clean. |
| Schemas.NormalizedMembership | src/config/schemas.ts:85-101 | The kept entries are exactly the surviving input entries. |
| Schemas.NormalizedEmpty | src/config/schemas.ts:85-105 | Nothing is kept exactly when no entry survives. |
| Schemas.TransformMetafields | src/config/schemas.ts:81-109 | The transform is absent exactly when the input is absent or no entry survives. Otherwise it is the non-empty list of kept entries. |
| Schemas.TransformMetafieldsEntries | src/config/schemas.ts:81-109 | A pair is in the result exactly when its key is whitelisted and some input entry under that key normalises to its value. |
| Schemas.Clamp | src/config/schemas.ts:140 | `Math.max(0, n)` is non-negative, and is `n` for non-negative `n`. |
| Schemas.InventoryQuantity | src/config/schemas.ts:136-151 | Numbers and numeric strings become `max(0, n)`. Blank, non-numeric and other values are absent. |
| Schemas.InventoryQuantityOfString | src/config/schemas.ts:142-148 | A written-out quantity reads back as itself. |
| Schemas.MakeLogEntry | src/config/schemas.ts:168-173 | A log entry keeps its fields, and a present product key is clean. |
| Schemas.MakeErrorEntry | src/config/schemas.ts:177-184 | An error entry keeps its fields, and a present product key and hint are clean. |
| ShopifyHelpers.GetString | src/shopify/helpers.ts:4-9 | A row value is read as present exactly when its trim is non-empty, and it is then trimmed. |
| ShopifyHelpers.SlugifyShape | src/shopify/helpers.ts:11-17 | A slug holds only `[a-z0-9-]`, has no leading or trailing `-` and has no `--`. |
| ShopifyHelpers.SlugifyIdempotent | src/shopify/helpers.ts:11-17 | Slugifying a slug changes nothing. |
| ShopifyHelpers.HandleBase | src/shopify/helpers.ts:19-23 | The base is the first non-blank of Handle, ProductKey, SKU and Title, trimmed, or `untitled`. |
| ShopifyHelpers.CandidatesOfFour | src/shopify/helpers.ts:20-22 | The filtered candidates are the non-blank ones, in that order. |
| ShopifyHelpers.CandidateOfCell | src/shopify/helpers.ts:20-22 | A candidate is the trimmed non-blank cell value. |
| ShopifyHelpers.BuildHandle | src/shopify/helpers.ts:19-26 | The handle is the slug of the base, then `-`, then the clock value, which reads back as the number given. |
| ShopifyHelpers.HandleParts | src/shopify/helpers.ts:24 | Slug, dash and digits can be read back apart. |
| ShopifyHelpers.SizeOption | src/shopify/helpers.ts:34 | A part is kept exactly when it is one of `SIZE_OPTIONS`. |
| ShopifyHelpers.RecognisedSizes | src/shopify/helpers.ts:30-34 | Every recognised size is one of `SIZE_OPTIONS`. |
| ShopifyHelpers.ParseSizes | src/shopify/helpers.ts:28-39 | Never empty, and always drawn from `SIZE_OPTIONS`. An absent or empty input gives `['One-size']`. |
| ShopifyHelpers.ParseSizesParts | src/shopify/helpers.ts:30-38 | The recognised parts in input order, or `['One-size']` when none is recognised. |
| ShopifyHelpers.ParseSizesMembers | src/shopify/helpers.ts:30-38 | A size is in the result exactly when it is a size option and some comma-separated part trims to it. |
| ShopifyHelpers.SizesInOrder | src/shopify/helpers.ts:30-34 | Trimming, dropping blanks and keeping size options in one pass is the same as doing it in two. |
| ShopifyHelpers.BuildVariants | src/shopify/helpers.ts:41-58 | One variant per size, in order. Each has `title=size`, `sku='<trimmed base>-<size>'`, one Size option and the shared price. |
| ShopifyHelpers.VariantSkusDistinct | src/shopify/helpers.ts:49 | Distinct sizes give distinct SKUs. |
| ShopifyHelpers.SuffixOfSku | src/shopify/helpers.ts:49 | The size can be read back from the end of the SKU. |
| ShopifyHelpers.MergeTags | src/shopify/helpers.ts:60-71 | The `Set`-filling loops compute `MergedTags`. |
| ShopifyHelpers.AddAll | src/shopify/helpers.ts:67-69 | Adding to the set in a loop keeps first occurrences and no repeats. |
| ShopifyHelpers.MergedTagsProperties | src/shopify/helpers.ts:60-71 | Tags are trimmed and non-blank, with no duplicates. They are exactly the sheet and AI tags. The de-duplicated sheet tags come first, and the rest are AI tags not among the sheet tags. |
| ShopifyHelpers.RowMetafields | src/shopify/helpers.ts:90-95 | One metafield input per source entry, in order. |
| ShopifyHelpers.MetafieldsFromRow | src/shopify/helpers.ts:73-96 | The two loops compute `RowMetafields`. |
| ShopifyHelpers.CollectSheetValues | src/shopify/helpers.ts:74-80 | The sheet loop records every non-blank keyed cell. |
| ShopifyHelpers.FillFromAi | src/shopify/helpers.ts:82-88 | The AI loop fills only keys still unset. |
| ShopifyHelpers.SheetSourcesGet | src/shopify/helpers.ts:74-80 | After the sheet loop, a key holds the trimmed non-blank cell when it is a metafield key, and nothing otherwise. |
| ShopifyHelpers.FirstUsable | src/shopify/helpers.ts:83-86 | An AI value used for a key is non-blank. |
| ShopifyHelpers.FirstUsableIsFirst | src/shopify/helpers.ts:83-86 | The AI value used is the first non-blank one under that key. |
| ShopifyHelpers.AiFillGet | src/shopify/helpers.ts:82-88 | AI values only fill missing keys. A key already set keeps its value. |
| ShopifyHelpers.AiFillAt | src/shopify/helpers.ts:82-88 | One more AI entry keeps the fill rule. |
| ShopifyHelpers.SourcesGet | src/shopify/helpers.ts:73-88 | Sheet values win, and the AI value fills a key only when the sheet has none. No key appears twice. |
| ShopifyHelpers.RowMetafieldsShape | src/shopify/helpers.ts:90-95 | Every entry has namespace `custom` and type `single_line_text_field`, and no key repeats. |
| ShopifyHelpers.ResolvedTitle | src/shopify/helpers.ts:98-100 | A trimmed non-empty row title wins over the AI title. |
| ShopifyHelpers.ResolvedDescription | src/shopify/helpers.ts:102-104 | A trimmed non-empty row description wins over the AI description. |
| ShopifyHelpers.ResolvedMetaDescription | src/shopify/helpers.ts:106-108 | A trimmed non-empty row meta description wins over the AI one. |
| BuildShopifyInput.BaseSku | src/processors/buildShopifyInput.ts:36 | The base SKU is SKU, else ProductKey, else `SKU-` and the clock reading. |
| BuildShopifyInput.SheetUpdates | src/processors/buildShopifyInput.ts:41-49 | Title, Description and Tags are always written, with tags joined by `', '`. MetaDescription is written only when resolved and non-empty. Nothing else is written. |
| BuildShopifyInput.CopyUpdates | src/processors/buildShopifyInput.ts:41-45 | The three always-written columns, with no meta description. |
| BuildShopifyInput.BuildShopifyInput | src/processors/buildShopifyInput.ts:29-80 | The title defaults to `'Untitled Product'` and the description to `''`. The price defaults to `'0'` and every variant carries it. There is one variant per parsed size, so at least one. `options` is `[{name:'Size'}]` exactly when there is more than one size. Status is `DRAFT`, and the input's tags equal the returned merged tags. The metafields and the sheet copy are those of the helpers. |
| Sheets.SanitizeCell | src/google/sheets.ts:24-32 | A present cell is trimmed and non-empty. Null and undefined are absent. |
| Sheets.SanitizeIdempotent | src/google/sheets.ts:24-32 | Sanitising a sanitised cell changes nothing. |
| Sheets.CleanReadsBack | src/google/sheets.ts:26-28 | A clean text passes through unchanged. |
| Sheets.SanitizeAgreesWithSchema | src/google/sheets.ts:24-32 | On strings, numbers, booleans and missing values, `sanitizeCell` agrees with the schema's optional-cell preprocess. |
| Sheets.Blanks | src/google/sheets.ts:42-44 | A run of empty cells. |
| Sheets.SetCell | src/google/sheets.ts:178-186 | Writing one cell changes that cell and no other, and extends the grid only as far as that row. |
| Sheets.HeaderMap | src/google/sheets.ts:34-40 | Blank headers are skipped. Every other header maps to an index holding it, and to its last occurrence when it is repeated. |
| Sheets.HeaderMapInjective | src/google/sheets.ts:34-40 | Different headers map to different columns. |
| Sheets.ColumnName | src/google/sheets.ts:46-56 | The bijective base-26 numeral is empty only for 0 and is over `A`–`Z`. |
| Sheets.ColumnNumberOfName | src/google/sheets.ts:46-56 | Reading the letters back gives the number, so the encoding is invertible. |
| Sheets.ColumnNameInjective | src/google/sheets.ts:46-56 | Different columns get different letters. |
| Sheets.ColumnNames | src/google/sheets.ts:46-56 | Index 0 is `A`, 25 is `Z`, 26 is `AA` and 701 is `ZZ`. |
| Sheets.ColumnIndexToLetter | src/google/sheets.ts:46-56 | The `while (temp > 0)` loop produces the bijective base-26 letters of `index + 1`. They are non-empty and read back as `index + 1`. |
| Sheets.RawCellsCell | src/google/sheets.ts:84-94 | A column of a read row is the sanitised cell under its header. |
| Sheets.SchemaKeepsRawCells | src/google/sheets.ts:91-96 | The row schema leaves sanitised cells as they are. |
| Sheets.ReadRow | src/google/sheets.ts:84-103 | A data row is kept exactly when the schema accepts it. That fails only when a header named `rowNumber` or `headerMap` clobbers those fields. |
| Sheets.DataRows | src/google/sheets.ts:79-105 | Every accepted data row is kept in order, with sheet row number `i + 2`. |
| Sheets.RowsAt | src/google/sheets.ts:84-103 | Data row `i` is read as sheet row `i + 2`. |
| Sheets.RowsAreDataRows | src/google/sheets.ts:84-103 | Rows built one at a time are the snapshot rows. |
| Sheets.DataRowsSnoc | src/google/sheets.ts:84-103 | An appended data row is read as the last row. |
| Sheets.DataRowCell | src/google/sheets.ts:84-103 | Every row carries the header map, and its cells are the sanitised grid cells. |
| Sheets.KeyRowIndex | src/google/sheets.ts:194-196 | `find`: the first row whose lower-cased key matches, or -1 when none does. |
| Sheets.FindByKey | src/google/sheets.ts:194-196 | The row found has the key. Nothing is found exactly when no row has it. |
| Sheets.FindByKeyFirst | src/google/sheets.ts:194-196 | When some row has the key, the first such row is found. |
| Sheets.RowByProductKey | src/google/sheets.ts:336-341 | A blank key finds nothing. Otherwise the first row whose lower-cased key equals the trimmed, lower-cased key, and none when no row matches. |
| Sheets.RowByProductKeyFinds | src/google/sheets.ts:336-341 | A row with a matching key is always found. |
| Sheets.ApprovedRowsNeedingCreate | src/google/sheets.ts:118-132 | The filter never adds rows. |
| Sheets.ApprovedRowsMembers | src/google/sheets.ts:121-131 | A row is selected exactly when it has a ProductKey, has no ShopifyProductId, and has an upper-cased status of APPROVED or GODKENDT. |
| Sheets.ApprovedRowsInOrder | src/google/sheets.ts:121-131 | The filter keeps row order. |
| Sheets.RowWrites | src/google/sheets.ts:158-170 | One write per update whose column the header map knows, on the row's own sheet row. There are no writes exactly when no column matches. |
| Sheets.UpdatedCell | src/google/sheets.ts:158-186 | A written column holds the update's value, with undefined written as `''`. |
| Sheets.UntouchedCell | src/google/sheets.ts:158-186 | Every other cell is unchanged. |
| Sheets.ApplyWritesLength | src/google/sheets.ts:178-186 | Writes within the sheet do not add rows. |
| Sheets.LettersEndAt | src/google/sheets.ts:166 | In a range like `C7`, the letters end where the digits start. |
| Sheets.LettersThenDigits | src/google/sheets.ts:166 | Letters followed by digits split apart uniquely. |
| Sheets.StripPrefix | src/google/sheets.ts:166 | A common prefix can be removed. |
| Sheets.RangesDistinct | src/google/sheets.ts:164-166 | Writes to different cells name different A1 ranges. |
| Sheets.Overlay | src/google/sheets.ts:145-149 | Overlaying the extra updates keeps keys unique. |
| Sheets.OverlayGet | src/google/sheets.ts:145-149 | An extra update overrides, and other keys keep their value. |
| Sheets.ProductIdUpdates | src/google/sheets.ts:139-149 | The id, CREATED and UpdatedAt are set, and each is overridden by an extra update under the same key. |
| Sheets.WrittenColumnReadsBack | src/google/sheets.ts:154-187 | After the write, re-reading the sheet gives the written value, sanitised, in that column. |
| Sheets.IdBlocksCreate | src/google/sheets.ts:123-127 | A row with a ShopifyProductId is never selected, whatever its status. |
| Sheets.MarkedRowLeavesQueue | src/google/sheets.ts:134-152 | After `updateRowWithProductId` with a non-blank id, the row is no longer selected. |
| Sheets.BuildRowArray | src/google/sheets.ts:42-44 | The row array has one cell per header, holding that header's value or `''`. |
| Sheets.AsCells | src/google/sheets.ts:215-224 | The appended strings become cells in order. |
| Sheets.BuiltRowReadsBack | src/google/sheets.ts:42-44 | An appended row array reads back, under each header, as the sanitised value given. |
| Sheets.DraftValues | src/google/sheets.ts:205-213 | The draft holds the key, PENDING_REVIEW, RowID defaulting to the key, and `CreatedAt = UpdatedAt`. |
| Sheets.DraftSteps | src/google/sheets.ts:189-236 | An existing row with the same lower-cased key is returned and the sheet is unchanged. Without headers, the call fails with the missing-headers error and nothing is appended. Otherwise one row is appended and the re-read row is returned. |
| Sheets.AppendedRowReads | src/google/sheets.ts:215-231 | The appended row is read back as the last data row, with the values given. |
| Sheets.AppendKeepsRow | src/google/sheets.ts:218-228 | Appending does not change the existing rows. |
| Sheets.PendingReadsBack | src/google/sheets.ts:209 | The pending status reads back unchanged. |
| Sheets.FindLast | src/google/sheets.ts:229-231 | When only the last row has the key, it is the one found. |
| Sheets.DraftOutcomeIsAppended | src/google/sheets.ts:205-235 | With a clean key not yet present, the sheet gains the draft row and the call returns it. |
| Sheets.DraftRowCreated | src/google/sheets.ts:205-235 | The created row is sheet row `n + 2`. It has the key, and PENDING_REVIEW, the RowID and CreatedAt in the columns the sheet has. |
| Sheets.DraftRowIdempotent | src/google/sheets.ts:189-236 | A second call with the same key appends nothing and returns the same row. |
| Sheets.LogRow | src/google/sheets.ts:241-244 | A log row has 4 cells, with the product key or `''`. |
| Sheets.LogRows | src/google/sheets.ts:241-244 | One row per entry, in order. |
| Sheets.ErrorRow | src/google/sheets.ts:259-267 | An error row has 6 cells, with absent optional fields written as `''`. |
| Sheets.ConfigIndex | src/google/sheets.ts:311 | `findIndex`: the first config row whose first cell is the key, or -1. |
| Sheets.ConfigValue | src/google/sheets.ts:291-297 | A missing key has no value. |
| Sheets.SetConfig | src/google/sheets.ts:300-334 | An upsert: an existing key is updated in place, and a new key adds one row. |
| Sheets.ConfigRoundTrip | src/google/sheets.ts:281-334 | After setting a key, reading it gives the sanitised value. |
| Sheets.ConfigIndexIs | src/google/sheets.ts:311 | The first-occurrence index is unique. |
| Sheets.ConfigOthers | src/google/sheets.ts:300-334 | Setting one key leaves every other key's value unchanged. |
| Sheets.ConfigSetIdempotent | src/google/sheets.ts:300-334 | Setting the same key and value twice is the same as once. |
| Sheets.Ledger.constructor | src/google/sheets.ts:19-22 | A ledger over a Products grid and a Config tab starts with empty Logs and Errors. |
| Sheets.ReadRows | src/google/sheets.ts:84-103 | The `dataRows.forEach` loop returns exactly the accepted data rows, in sheet order, each with its row number. |
| Sheets.Ledger.FetchProductsSheet | src/google/sheets.ts:64-106 | The row-pushing loop returns the header row, the header map and the accepted data rows. |
| Sheets.Ledger.GetApprovedRowsNeedingCreate | src/google/sheets.ts:118-132 | Returns the filtered rows of the current sheet. |
| Sheets.Ledger.GetRowByProductKey | src/google/sheets.ts:336-341 | Returns the key lookup on the current sheet. |
| Sheets.Ledger.UpdateRowValues | src/google/sheets.ts:154-187 | The grid receives the row's writes. The header, Config, Logs and Errors are unchanged. |
| Sheets.Ledger.UpdateRowWithProductId | src/google/sheets.ts:134-152 | The grid receives the id, CREATED and UpdatedAt, overridden by the extra updates. Nothing else changes. |
| Sheets.Ledger.EnsureDraftRow | src/google/sheets.ts:189-236 | The grid and the result are those of the idempotent draft creation. Nothing else changes. |
| Sheets.Ledger.AppendProductsRow | src/google/sheets.ts:218-226 | The append adds one row at the end. |
| Sheets.Ledger.WriteLogs | src/google/sheets.ts:238-256 | One Logs row is appended per entry. Nothing else changes. |
| Sheets.Ledger.WriteError | src/google/sheets.ts:258-279 | One Errors row is appended. Nothing else changes. |
| Sheets.Ledger.GetConfigKey | src/google/sheets.ts:281-298 | The loop returns the sanitised value of the first row with the key. |
| Sheets.Ledger.SetConfigKey | src/google/sheets.ts:300-334 | Config becomes the upsert. Nothing else changes. |
| StageDrafts.StringValue | src/processors/stageDrafts.ts:38-42 | A string cell is present exactly when its trimmed text is non-empty, and then it is that clean trimmed text. |
| StageDrafts.LockedStatus | src/processors/stageDrafts.ts:44-50 | A row whose upper-cased status is APPROVED or COMPLETE is locked, so no copy is generated for it. |
| StageDrafts.GodkendtIsNotLocked | src/processors/stageDrafts.ts:44-47 | GODKENDT counts as approved when creating products but does not lock a draft. |
| StageDrafts.ExponentAt | src/processors/stageDrafts.ts:68-69 | The position of the first `e`/`E` in a numeric string, or -1 when it has none. |
| StageDrafts.DigitsReading | src/processors/stageDrafts.ts:67-70 | A plain digit string parses as a positive finite count exactly when it has a non-zero digit and its value is below 2^1024 - 2^970, from where `Number()` gives Infinity. |
| StageDrafts.DigitsLiteral | src/processors/stageDrafts.ts:67-70 | A digit string read as a numeric literal is in stock exactly when its value is positive and below 2^1024 - 2^970. |
| StageDrafts.CountInStock | src/processors/stageDrafts.ts:64-70 | A count written out is in stock exactly when it is positive and below 2^1024 - 2^970. |
| StageDrafts.DigitsPositive | src/processors/stageDrafts.ts:67-69 | A digit string has a positive value exactly when it has a non-zero digit. |
| StageDrafts.DecimalReading | src/processors/stageDrafts.ts:67-69 | A string without surrounding white space that starts with neither `0` nor `+` is in stock exactly when it is a well-formed decimal whose significand, scaled by its exponent, is positive, below 2^1024 - 2^970 and above 2^-1075. |
| StageDrafts.ExponentOverflow | src/processors/stageDrafts.ts:67-69 | `1eX` is in stock exactly when 10^X is below 2^1024 - 2^970, so `1e400` is not. |
| StageDrafts.ExponentUnderflow | src/processors/stageDrafts.ts:67-69 | `1e-X` is in stock exactly when 10^X is below 2^1075, so `1e-400`, which reads as 0, is not. |
| StageDrafts.NatDigits | src/processors/stageDrafts.ts:64-70 | The decimal digits of n contain a non-zero digit exactly when n > 0. |
| StageDrafts.NegativeNotInStock | src/processors/stageDrafts.ts:67-70 | A negative count is never in stock. |
| StageDrafts.NegativeLiteral | src/processors/stageDrafts.ts:67-70 | No literal starting with `-` is positive. |
| StageDrafts.InStock | src/processors/stageDrafts.ts:61-72 | The filter keeps at most one entry per stock column. |
| StageDrafts.InStockMembers | src/processors/stageDrafts.ts:61-72 | A size is kept exactly when its stock column holds a positive finite number. |
| StageDrafts.InStockInOrder | src/processors/stageDrafts.ts:61-72 | Kept sizes follow the table's order. |
| StageDrafts.BuildInventorySizes | src/processors/stageDrafts.ts:74-77 | No size in stock gives `One-size`. |
| StageDrafts.StockTableNames | src/processors/stageDrafts.ts:61-62 | The stock table lists exactly SIZE_OPTIONS, with no size repeated. |
| StageDrafts.InStockOrdered | src/processors/stageDrafts.ts:61-72 | The sizes in stock are a subsequence of SIZE_OPTIONS. |
| StageDrafts.InStockAreSizes | src/processors/stageDrafts.ts:61-72 | Every size in stock is a size option. |
| StageDrafts.InStockNames | src/processors/stageDrafts.ts:61-72 | Every size kept is named in the table. |
| StageDrafts.SplitSpaced | src/processors/stageDrafts.ts:75 | Splitting a `, `-joined list on commas gives its items with a leading space. |
| StageDrafts.JoinedSizes | src/processors/stageDrafts.ts:75 | Splitting a joined list of sizes and recognising each part gives the list back. |
| StageDrafts.InventorySizesRoundTrip | src/processors/stageDrafts.ts:60-78 | The Sizes cell written at staging is parsed at publish time (helpers.ts parseSizes) into exactly the sizes in stock, or `One-size` when none is. |
| StageDrafts.RoleColumn | src/processors/stageDrafts.ts:83-84 | A role with a column maps to one of the known image columns. |
| StageDrafts.ImageUpdates | src/processors/stageDrafts.ts:80-90 | The updates have unique column keys. |
| StageDrafts.BuildImageUpdates | src/processors/stageDrafts.ts:80-90 | The `forEach` loop computes the first-filled-slot image updates. |
| StageDrafts.SlotOf | src/processors/stageDrafts.ts:82-88 | A column is unset exactly when no asset maps to it. When set, it holds the drive id of the first asset mapping to it whose id is non-empty. An empty slot is kept only when every such id is empty. |
| StageDrafts.SlotSnoc | src/processors/stageDrafts.ts:85-87 | A later asset fills its column only when the column is still unset or empty. |
| StageDrafts.ImageUpdatesSlot | src/processors/stageDrafts.ts:80-90 | The value under each column is that column's slot. |
| StageDrafts.ImageUpdatesColumns | src/processors/stageDrafts.ts:83-87 | Only known image columns with a mapping asset are written. |
| StageDrafts.ImageUpdatesEmpty | src/processors/stageDrafts.ts:136 | There are no image updates exactly when no asset's role has a column. |
| StageDrafts.MetafieldUpdates | src/processors/stageDrafts.ts:92-101 | The update columns are unique. |
| StageDrafts.BuildMetafieldUpdates | src/processors/stageDrafts.ts:92-101 | Missing metafields give no updates. Otherwise the mapped columns are filled from the loop. |
| StageDrafts.FillColumns | src/processors/stageDrafts.ts:95-99 | The loop over the column map computes the metafield updates. |
| StageDrafts.MetafieldColumn | src/processors/stageDrafts.ts:95-99 | A mapped column takes the metafield's value when it is truthy, and is otherwise absent. |
| StageDrafts.MetafieldAbsent | src/processors/stageDrafts.ts:95-99 | Columns outside the map are never written. |
| StageDrafts.MetafieldColumnsDistinct | src/processors/stageDrafts.ts:95 | The column map has no repeated column. |
| StageDrafts.StagingUpdates | src/processors/stageDrafts.ts:115-134 | Status, RowID and CreatedAt are filled only when blank. UpdatedAt is always set. Sizes is rewritten when it differs from the derived sizes. Every other key keeps its image update. |
| StageDrafts.PutIf | src/processors/stageDrafts.ts:117-134 | A conditional set changes only its own key. |
| StageDrafts.ImageColumnsApart | src/processors/stageDrafts.ts:115-134 | Image columns are never bookkeeping columns. |
| StageDrafts.StagingOfImages | src/processors/stageDrafts.ts:114-134 | Staging sets the status exactly when it is blank, and writes every image column's slot unchanged. |
| StageDrafts.CopyBase | src/processors/stageDrafts.ts:173-185 | The copy updates list the eleven copy columns in order. |
| StageDrafts.MetafieldsPayload | src/processors/stageDrafts.ts:187-195 | Seven metafields, with fabric defaulting to Upcycled. |
| StageDrafts.Entries | src/processors/stageDrafts.ts:208-209 | One entry per key, in order. |
| StageDrafts.GpcColumnEntries | src/processors/stageDrafts.ts:208 | The GPC column updates pair each column with the profile's value. |
| StageDrafts.GpcMetafieldEntries | src/processors/stageDrafts.ts:209 | The GPC metafields pair each key with the profile's value. |
| StageDrafts.GpcColumnsOf | src/processors/stageDrafts.ts:207-210 | No repeated GPC column. |
| StageDrafts.GpcMetafieldsOf | src/processors/stageDrafts.ts:207-210 | No repeated GPC metafield. |
| StageDrafts.LayeredGet | src/processors/stageDrafts.ts:207-212 | `Object.assign`: a later layer overrides an earlier one. |
| StageDrafts.CopyKeysDistinct | src/processors/stageDrafts.ts:173-185 | No copy column is repeated. |
| StageDrafts.CopyKeepsBase | src/processors/stageDrafts.ts:173-212 | No later layer overrides the base copy columns. |
| StageDrafts.GeneratedCopy | src/processors/stageDrafts.ts:173-185 | The written copy holds the AI title, description, meta description, tags joined by `, `, style, category, colour, pattern, the vendor defaulting to Pleasant, the re-derived sizes and UpdatedAt. |
| StageDrafts.PayloadFabric | src/processors/stageDrafts.ts:188 | Fabric defaults to Upcycled. |
| StageDrafts.FabricWritten | src/processors/stageDrafts.ts:188-212 | The fabric column receives the fabric metafield, and Upcycled when the AI gives none. |
| StageDrafts.FabricColumn | src/processors/stageDrafts.ts:207-212 | The fabric column comes from the metafield map and not from GPC. |
| StageDrafts.GpcCodeWritten | src/processors/stageDrafts.ts:197-212 | With a derived profile, the GPC code column holds the profile's base code. |
| StageDrafts.DataRowNumber | src/processors/stageDrafts.ts:242-249 | Snapshot rows have sheet row numbers of at least 2. |
| StageDrafts.DraftRowNumber | src/processors/stageDrafts.ts:113 | A created draft row has row number at least 2. |
| StageDrafts.ReloadedRowNumber | src/processors/stageDrafts.ts:142 | A reloaded row has row number at least 2. |
| StageDrafts.BaseRow | src/processors/stageDrafts.ts:113 | An existing row is used as it is. Otherwise the draft row is ensured. |
| StageDrafts.StageSingleProduct | src/processors/stageDrafts.ts:103-225 | The grid and the new log rows are those of the staging function. Config and Errors are unchanged. |
| StageDrafts.StagePlacedAssets | src/processors/stageDrafts.ts:113-225 | The grid and the new log rows are those of staging the placed images on the row found or created; a failed lookup stops with its error. |
| StageDrafts.ResolveBaseRow | src/processors/stageDrafts.ts:113 | The grid and the base row follow the base-row function. |
| StageDrafts.StageRow | src/processors/stageDrafts.ts:114-140 | The grid and the logs follow staging on the base row. |
| StageDrafts.FinishStaging | src/processors/stageDrafts.ts:142-224 | The reload and copy generation follow the specification function. |
| StageDrafts.ContinueAfterReload | src/processors/stageDrafts.ts:143-224 | Same, given the reloaded row. |
| StageDrafts.WriteCopy | src/processors/stageDrafts.ts:214-222 | The copy updates are written to the reloaded row, then one generated log row is appended. |
| StageDrafts.AfterReloadReport | src/processors/stageDrafts.ts:142-224 | A missing reload fails with the reload error and leaves the grid. `imageUpdated` reports the image updates. `staged` holds exactly when copy generation was due and succeeded. A staged product logs one generated entry. Otherwise only the images-synced entry is logged, when there were image updates. |
| StageDrafts.StageOnRowReport | src/processors/stageDrafts.ts:114-224 | `imageUpdated` holds exactly when some asset's role has a column. At most one log is written, and one is written exactly when the product was staged or its images were updated. |
| StageDrafts.AfterStagingLogs | src/processors/stageDrafts.ts:142-224 | Same, after the row update. |
| StageDrafts.StageReport | src/processors/stageDrafts.ts:103-225 | No files means no change and `{staged: false, imageUpdated: false}`. Otherwise `imageUpdated` reflects the role columns of the assigned assets. At most one log per product. |
| StageDrafts.StageAssetsReport | src/processors/stageDrafts.ts:112-224 | Same, given the assets. |
| StageDrafts.CopyUpdatesUnique | src/processors/stageDrafts.ts:173-212 | The merged copy updates have unique keys. |
| StageDrafts.Rewritten | src/processors/stageDrafts.ts:139 | Rewriting a row keeps the number of rows. |
| StageDrafts.StagedImageReadsBack | src/processors/stageDrafts.ts:114-139 | After staging, each image column with a slot reads back as that drive id. |
| StageDrafts.StagedStatusPending | src/processors/stageDrafts.ts:117-119 | A blank status reads back as PENDING_REVIEW after staging. |
| StageDrafts.WrittenNotBlank | src/processors/stageDrafts.ts:139 | A written non-blank value is no longer blank. |
| StageDrafts.CopyStopsRegeneration | src/processors/stageDrafts.ts:49-58 | Once non-blank title, description, meta description and tags are written, the row no longer asks for copy generation. |
| StageDrafts.LastBy | src/processors/stageDrafts.ts:243-249 | The lookup holds only rows from the snapshot. |
| StageDrafts.LastByLast | src/processors/stageDrafts.ts:244-249 | A key is present exactly when some row has it, and then it maps to the last such row. |
| StageDrafts.BuildRowLookup | src/processors/stageDrafts.ts:243-249 | The loop builds the last-wins lookup. |
| StageDrafts.RowLookupLast | src/processors/stageDrafts.ts:244-249 | The row lookup is keyed by the lower-cased trimmed ProductKey, with the last row winning. |
| StageDrafts.LookupRowNumbers | src/processors/stageDrafts.ts:242-249 | Looked-up rows have row numbers of at least 2. |
| StageDrafts.PayloadSnippet | src/processors/stageDrafts.ts:274 | The snippet is at most 500 characters. |
| StageDrafts.Tally | src/processors/stageDrafts.ts:252-267 | Each product adds one to processed and to exactly one of the outcome counts. An error adds an error detail. |
| StageDrafts.FailureRows | src/processors/stageDrafts.ts:263-276 | One Errors row per failure. |
| StageDrafts.StepRun | src/processors/stageDrafts.ts:251-277 | Each step keeps the tallies consistent. |
| StageDrafts.StageAll | src/processors/stageDrafts.ts:251-277 | processed equals the number of groups, and so does the sum of staged, image updates, skipped and errors. Errors equal the error details and the Errors rows. |
| StageDrafts.StageAllErrorsAgree | src/processors/stageDrafts.ts:263-276 | Each error detail matches its Errors row. |
| StageDrafts.StepRunErrors | src/processors/stageDrafts.ts:263-276 | One step keeps that agreement. |
| StageDrafts.SnapshotLookup | src/processors/stageDrafts.ts:242-249 | The snapshot lookup holds data rows only. |
| StageDrafts.StageDrafts | src/processors/stageDrafts.ts:227-280 | No groups returns the zero summary and changes nothing. Otherwise the grid, logs, errors and summary are those of staging every group in order. |
| StageDrafts.StageAllSnoc | src/processors/stageDrafts.ts:251-277 | Staging one more group extends the run by one step. |
| StageDrafts.StageGroup | src/processors/stageDrafts.ts:252-276 | One loop iteration: stage the product, record any error, and tally. |
| StageDrafts.RecordOutcome | src/processors/stageDrafts.ts:256-276 | The tally, plus an Errors row on failure. |
| StageDrafts.CountOutcome | src/processors/stageDrafts.ts:256-267 | The summary is tallied. |
| PublishProduct.UserErrorTexts | src/processors/publishProduct.ts:79 | One message per user error, in order. |
| PublishProduct.EnsureNoUserErrors | src/processors/publishProduct.ts:77-81 | It fails exactly when user errors are present and non-empty, with a message starting `<operation> failed: `. |
| PublishProduct.UserErrorsReported | src/processors/publishProduct.ts:77-81 | Every user error's text appears in the failure message. |
| PublishProduct.OptionIds | src/processors/publishProduct.ts:256-263 | The option map holds only non-empty names and ids. |
| PublishProduct.OptionIdsLast | src/processors/publishProduct.ts:258-262 | A name is mapped exactly when some option has a non-empty name and id, and then to the id of the last such option. |
| PublishProduct.BuildOptionIds | src/processors/publishProduct.ts:256-263 | The `forEach` loop builds that map. |
| PublishProduct.OptionPayloadOf | src/processors/publishProduct.ts:271-282 | The payload's name is the option value. It carries `optionId` exactly when the option name is known, and `optionName` otherwise. |
| PublishProduct.OptionPayloads | src/processors/publishProduct.ts:271-282 | One payload per option value, in order. |
| PublishProduct.VariantPayload | src/processors/publishProduct.ts:265-305 | The price falls back to the build price. Option values appear exactly when options are expected. The inventory item appears for a SKU or a quantity, and is tracked exactly when there is a quantity. DENY and the location quantity appear exactly when there is a quantity. |
| PublishProduct.VariantInputs | src/processors/publishProduct.ts:265-305 | One payload per variant, in order. |
| PublishProduct.Owned | src/processors/publishProduct.ts:160-163 | Each metafield is paired with the owner id. |
| PublishProduct.VariantMetafieldPairing | src/processors/publishProduct.ts:317-322 | An owned entry is produced exactly when the created variant at index i has an id, and the field is in the build's metafields for index i (or none). |
| PublishProduct.ResolveMetafields | src/processors/publishProduct.ts:209-223 | Resolution never adds entries. Every kept entry is justified. Non-pattern entries are kept. A failure comes from resolving some pattern entry. |
| PublishProduct.ResolveCalls | src/processors/publishProduct.ts:209-221 | One resolve call per pattern candidate at most. |
| PublishProduct.InOrderAppend | src/processors/publishProduct.ts:202-383 | Concatenated call phases stay in order. |
| PublishProduct.SameRank | src/processors/publishProduct.ts:209-221 | Calls of one kind are in order. |
| PublishProduct.Then | src/processors/publishProduct.ts:202-383 | Sequencing steps concatenates their calls and logs. |
| PublishProduct.Fail | src/processors/publishProduct.ts:384-386 | A failing step passes on its error. |
| PublishProduct.Preparation | src/processors/publishProduct.ts:203-224 | Preparation writes no log. Its sheet updates have unique keys and touch only copy columns. AI generation comes first, then pattern resolution, then asset collection. |
| PublishProduct.PreparationOrder | src/processors/publishProduct.ts:203-224 | The preparation calls are ordered. |
| PublishProduct.ProductCreation | src/processors/publishProduct.ts:226-245 | It logs `publish:shopify:create` and sends one productCreate. It succeeds exactly when the call succeeds with no user errors and a non-empty product id. An empty id fails with the missing-id error. |
| PublishProduct.VariantMetafieldsWrite | src/processors/publishProduct.ts:175-185 | One variant metafieldsSet call. |
| PublishProduct.VariantCreation | src/processors/publishProduct.ts:247-333 | No variants means no calls. Otherwise the first call is productVariantsBulkCreate with the variant payloads, using the option ids only when options are expected. |
| PublishProduct.ReadCalls | src/processors/publishProduct.ts:86-93 | One read per asset. |
| PublishProduct.ReadFiles | src/processors/publishProduct.ts:86-93 | Reading succeeds exactly when every file reads. Each file keeps its filename and data. A failure is some file's error. |
| PublishProduct.StagedFiles | src/processors/publishProduct.ts:98-104 | One staged-upload input per file, with the byte length written in decimal. |
| PublishProduct.UploadCalls | src/processors/publishProduct.ts:115-139 | One upload per file, to its target. |
| PublishProduct.FirstUploadError | src/processors/publishProduct.ts:115-139 | No error exactly when every upload succeeds. Otherwise some upload's error. |
| PublishProduct.MediaInputs | src/processors/publishProduct.ts:141-145 | One media input per target, with the alt text defaulting to the filename. |
| PublishProduct.After | src/processors/publishProduct.ts:83-156 | Prefixing calls keeps the error. |
| PublishProduct.ImageUpload | src/processors/publishProduct.ts:83-156 | No assets means no calls. Calls follow the order read, stage, upload, attach. |
| PublishProduct.StagedUpload | src/processors/publishProduct.ts:95-156 | stagedUploadsCreate comes first. |
| PublishProduct.UploadAndAttach | src/processors/publishProduct.ts:111-156 | The uploads come before productCreateMedia. |
| PublishProduct.ImageStep | src/processors/publishProduct.ts:335-343 | No assets means no calls. |
| PublishProduct.MetafieldStep | src/processors/publishProduct.ts:345-353 | No metafields means no calls. Otherwise one metafieldsSet owned by the product. |
| PublishProduct.AfterVariants | src/processors/publishProduct.ts:335-358 | The result carries the prepared assets. |
| PublishProduct.AfterCreate | src/processors/publishProduct.ts:247-358 | The result carries the created product id. |
| PublishProduct.ShopifySteps | src/processors/publishProduct.ts:226-358 | productCreate comes first. A failed create stops everything after it. |
| PublishProduct.Attempt | src/processors/publishProduct.ts:202-358 | Every call belongs to a phase, and the phases come in source order. |
| PublishProduct.AsUpdates | src/processors/publishProduct.ts:355-358 | Lifting sheet updates keeps their keys and values. |
| PublishProduct.CompletionUpdates | src/processors/publishProduct.ts:355-360 | The completion updates have unique keys. |
| PublishProduct.ArchiveCalls | src/processors/publishProduct.ts:362-372 | One archive per asset. |
| PublishProduct.Publish | src/processors/publishProduct.ts:187-410 | Row updates have unique keys. |
| PublishProduct.Conclude | src/processors/publishProduct.ts:360-408 | Row updates have unique keys. |
| PublishProduct.ErrorRows | src/processors/publishProduct.ts:399-406 | One Errors row per entry. |
| PublishProduct.GridAfter | src/processors/publishProduct.ts:360 | A failure leaves the grid unchanged. |
| PublishProduct.PublishProduct | src/processors/publishProduct.ts:187-410 | The result, the calls, the logs, the errors and the grid are those of the publish function. Header and Config are unchanged. |
| PublishProduct.Settle | src/processors/publishProduct.ts:360-408 | Records the concluded outcome on the ledger. |
| PublishProduct.ConcludeOk | src/processors/publishProduct.ts:355-383 | On success: update the row, archive the assets, and log start, the steps and complete. |
| PublishProduct.ConcludeErr | src/processors/publishProduct.ts:384-408 | On failure: log start, the steps and the error, write one Errors row, and leave the row. |
| PublishProduct.RecordedOk | src/processors/publishProduct.ts:360-383 | The success writes match the record. |
| PublishProduct.NoErrorsRecorded | src/processors/publishProduct.ts:360-383 | A success writes no Errors row. |
| PublishProduct.RecordedErr | src/processors/publishProduct.ts:384-408 | The failure writes match the record. |
| PublishProduct.Complete | src/processors/publishProduct.ts:355-383 | Writes the row, archives the assets, then writes the logs once at the end. |
| PublishProduct.WriteCompletion | src/processors/publishProduct.ts:360 | Writes the completion updates to the row. |
| PublishProduct.Report | src/processors/publishProduct.ts:384-408 | Writes the logs and one Errors row, and leaves the grid. |
| PublishProduct.ArchiveAssets | src/processors/publishProduct.ts:362-372 | Archives every asset, ignoring failures. |
| PublishProduct.AttemptPublish | src/processors/publishProduct.ts:202-358 | The imperative attempt equals the attempt function. |
| PublishProduct.PublishCreated | src/processors/publishProduct.ts:247-358 | Equals the after-create function. |
| PublishProduct.SetMetafields | src/processors/publishProduct.ts:158-173 | Equals the metafield step. |
| PublishProduct.CreateVariants | src/processors/publishProduct.ts:247-333 | Equals the variant-creation function. |
| PublishProduct.LedgerColumnsNotCopy | src/processors/publishProduct.ts:355-360 | Status, ShopifyProductId and UpdatedAt are not copy columns. |
| PublishProduct.CompletionUpdatesWritten | src/processors/publishProduct.ts:355-360 | Status is COMPLETE, the product id and UpdatedAt are set, and every build sheet update is kept. |
| PublishProduct.PublishOutcome | src/processors/publishProduct.ts:187-410 | Success holds exactly when the row is updated. It carries a non-empty id, no error, no Errors row and an updateRow call. A failure carries an error. A missing key fails with no calls, logs or errors. Any other failure writes one Errors row with the same message and ends the logs with `publish:error`. |
| PublishProduct.PublishInOrder | src/processors/publishProduct.ts:187-410 | The whole call sequence is in source order. |
| PublishProduct.ConcludeInOrder | src/processors/publishProduct.ts:360-372 | Row update and archiving come after the Shopify calls. |
| PublishProduct.LedgerCallsInOrder | src/processors/publishProduct.ts:360-372 | The same, given the calls. |
| PublishProduct.MissingIdStops | src/processors/publishProduct.ts:240-245 | A productCreate with no id fails with the missing-id error. productCreate is the last call and the row is not updated. |
| PublishProduct.PublishConcludes | src/processors/publishProduct.ts:187-410 | With a key, publishing concludes the attempt. |
| PublishProduct.ConcludeStops | src/processors/publishProduct.ts:384-408 | A failed attempt makes no further calls. |
| PublishProduct.AttemptStopsAtCreate | src/processors/publishProduct.ts:240-245 | The attempt stops at productCreate. |
| PublishProduct.CreateLast | src/processors/publishProduct.ts:233-245 | productCreate is the last call. |
| PublishProduct.PublishedRowReadsComplete | src/processors/publishProduct.ts:355-360 | After a successful publish, the row's Status reads back as COMPLETE. A failure leaves the grid unchanged. |
| PublishProduct.CompleteReadsBack | src/processors/publishProduct.ts:357 | COMPLETE survives sanitising. |
| CategoryMetaobjects.TokenShape | src/shopify/categoryMetaobjects.ts:45-54 | A normalised token is lower-case letters and digits in words separated by single spaces, with no leading or trailing space. |
| CategoryMetaobjects.NormalizeTokenIdempotent | src/shopify/categoryMetaobjects.ts:45-54 | Normalising a token twice is the same as once. |
| CategoryMetaobjects.WordsFixed | src/shopify/categoryMetaobjects.ts:45-54 | Normalisation leaves an already normalised token unchanged. |
| CategoryMetaobjects.TokenNotReference | src/shopify/categoryMetaobjects.ts:45-54 | A normalised token never looks like a Metaobject or TaxonomyValue gid. |
| CategoryMetaobjects.FirstWhere | src/shopify/categoryMetaobjects.ts:79 | The index of the first delimiter, or -1 when there is none. |
| CategoryMetaobjects.SplitWhere | src/shopify/categoryMetaobjects.ts:79 | Splitting on `,`, `;` and `/` gives at least one part, and no part contains a delimiter. Text without delimiters is one part. |
| CategoryMetaobjects.TrimmedPart | src/shopify/categoryMetaobjects.ts:80-81 | A kept part is non-empty and trimmed. |
| CategoryMetaobjects.TrimmedEntry | src/shopify/categoryMetaobjects.ts:67-71 | A kept JSON entry is non-empty and trimmed. |
| CategoryMetaobjects.ExtractValues | src/shopify/categoryMetaobjects.ts:56-82 | Every extracted value is non-empty and trimmed. |
| CategoryMetaobjects.ExtractDelimited | src/shopify/categoryMetaobjects.ts:78-81 | When the text is not a parsable bracketed array, the values are its trimmed non-empty delimiter-separated parts, and none contains a delimiter. |
| CategoryMetaobjects.ExtractUndelimited | src/shopify/categoryMetaobjects.ts:56-82 | Text with no delimiter and no JSON array extracts to itself, trimmed. |
| CategoryMetaobjects.NormalizeTaxonomyValue | src/shopify/categoryMetaobjects.ts:256-266 | A value is normalised exactly when, trimmed, it is a TaxonomyValue gid or all digits. The result is always a TaxonomyValue gid. |
| CategoryMetaobjects.NormalizeTaxonomyIdempotent | src/shopify/categoryMetaobjects.ts:256-266 | Normalising a normalised value changes nothing. |
| CategoryMetaobjects.DigitsAndGidAlike | src/shopify/categoryMetaobjects.ts:259-264 | A bare number and its gid normalise to the same gid. |
| CategoryMetaobjects.AliasCandidates | src/shopify/categoryMetaobjects.ts:268-276 | The token comes first, followed by its replacements, with no repeats. An unaliased token gives just itself. |
| CategoryMetaobjects.CandidatesShape | src/shopify/categoryMetaobjects.ts:275 | The de-duplicated list starts with the token and holds exactly the token and its replacements. |
| CategoryMetaobjects.EntryRefWellFormed | src/shopify/categoryMetaobjects.ts:196-206 | JSON entries are classified as taxonomy, reference or token. |
| CategoryMetaobjects.FieldRefsWellFormed | src/shopify/categoryMetaobjects.ts:186-231 | Every reference taken from a field is well formed. |
| CategoryMetaobjects.NodeRefsWellFormed | src/shopify/categoryMetaobjects.ts:182-231 | Every reference taken from a node is well formed. |
| CategoryMetaobjects.KeysSeparated | src/shopify/categoryMetaobjects.ts:178-231 | A node's tokens never look like Metaobject gids. |
| CategoryMetaobjects.FoldAppend | src/shopify/categoryMetaobjects.ts:163-249 | Folding the pages in turn is the same as folding all their nodes. |
| CategoryMetaobjects.NodeStepReference | src/shopify/categoryMetaobjects.ts:202-221 | A Metaobject gid maps to the node that last names it. |
| CategoryMetaobjects.NodeStepToken | src/shopify/categoryMetaobjects.ts:233-238 | A token keeps its first mapping. |
| CategoryMetaobjects.NodeStepTaxonomy | src/shopify/categoryMetaobjects.ts:240-244 | A taxonomy id keeps its first mapping. |
| CategoryMetaobjects.CatalogToken | src/shopify/categoryMetaobjects.ts:233-238 | A token is in the catalog exactly when some node has it, and it maps to the first such node. |
| CategoryMetaobjects.CatalogTaxonomy | src/shopify/categoryMetaobjects.ts:240-244 | A taxonomy id is in the catalog exactly when some node has it, and it maps to the first such node. |
| CategoryMetaobjects.CatalogReference | src/shopify/categoryMetaobjects.ts:201-202 | A Metaobject gid is in the catalog exactly when some node names it, and it maps to the last such node. |
| CategoryMetaobjects.AllKeysSeparated | src/shopify/categoryMetaobjects.ts:178-245 | Every node's keys are separated. |
| CategoryMetaobjects.HexIgnored | src/shopify/categoryMetaobjects.ts:225-228 | A hex-looking field adds no reference. |
| CategoryMetaobjects.FirstMatch | src/shopify/categoryMetaobjects.ts:322-324 | No match exactly when no candidate is in the synonyms. Otherwise the id of the first candidate that has a non-empty id. |
| CategoryMetaobjects.FirstMatchShift | src/shopify/categoryMetaobjects.ts:322-324 | Skipping a non-matching first candidate keeps the first match. |
| CategoryMetaobjects.Classify | src/shopify/categoryMetaobjects.ts:300-331 | A blank value is skipped. An unresolved value is the trimmed input. A Metaobject gid resolves to itself. Any other resolution is an id in the catalog. |
| CategoryMetaobjects.LookupValue | src/shopify/categoryMetaobjects.ts:309-330 | Non-gid values resolve to catalogued ids or stay unresolved. |
| CategoryMetaobjects.LookupToken | src/shopify/categoryMetaobjects.ts:315-330 | A token resolves to a synonym id or stays unresolved. |
| CategoryMetaobjects.Outcomes | src/shopify/categoryMetaobjects.ts:299-331 | One outcome per value. |
| CategoryMetaobjects.OutcomeAt | src/shopify/categoryMetaobjects.ts:299-331 | Outcome `i` is the classification of value `i`, so the outcomes keep the order of the values. |
| CategoryMetaobjects.ResolvedMember | src/shopify/categoryMetaobjects.ts:299-333 | An id is returned exactly when some value resolves to it. |
| CategoryMetaobjects.UnresolvedMember | src/shopify/categoryMetaobjects.ts:299-333 | A value is returned unresolved exactly when some input value trims to it and does not resolve. |
| CategoryMetaobjects.Resolve | src/shopify/categoryMetaobjects.ts:297-333 | Resolved ids are distinct, and they are exactly the values that resolve. The unresolved values are exactly those that do not resolve, and none is empty. |
| CategoryMetaobjects.IdsMembers | src/shopify/categoryMetaobjects.ts:333 | The resolved ids are exactly the Resolved outcomes. |
| CategoryMetaobjects.LeftoversMembers | src/shopify/categoryMetaobjects.ts:300-331 | The leftovers are exactly the Unresolved outcomes. |
| CategoryMetaobjects.ClassifyEach | src/shopify/categoryMetaobjects.ts:297-331 | The `forEach` loop splits the outcomes into resolved and unresolved. |
| CategoryMetaobjects.OutcomeStep | src/shopify/categoryMetaobjects.ts:299-331 | Value `i` extends the list its outcome belongs to and leaves the other list as it was. |
| CategoryMetaobjects.OutcomeAppend | src/shopify/categoryMetaobjects.ts:299-331 | One more outcome extends exactly one of the two lists. |
| CategoryMetaobjects.ClassifyInto | src/shopify/categoryMetaobjects.ts:299-331 | The callback pushes a resolved value's id onto `resolved`, an unresolved value onto `unresolved`, and a blank value onto neither. |
| CategoryMetaobjects.ReferenceKept | src/shopify/categoryMetaobjects.ts:304-307 | A Metaobject gid resolves to itself. |
| CategoryMetaobjects.TaxonomyResolvesToFirstNode | src/shopify/categoryMetaobjects.ts:309-313 | A taxonomy value resolves to the first node that carries it. |
| CategoryMetaobjects.ClassifyByToken | src/shopify/categoryMetaobjects.ts:315-330 | Without a taxonomy hit, the value is looked up by token. |
| CategoryMetaobjects.TokenResolvesToFirstNode | src/shopify/categoryMetaobjects.ts:315-330 | An unaliased token resolves exactly when its first node has a non-empty id, and then to that node. |
| CategoryMetaobjects.AliasResolves | src/shopify/categoryMetaobjects.ts:321-326 | An alias resolves through its replacement when the token itself misses. |
| CategoryMetaobjects.AddNode | src/shopify/categoryMetaobjects.ts:178-245 | Adds one node's keys to the catalog. |
| CategoryMetaobjects.AddNodes | src/shopify/categoryMetaobjects.ts:178-245 | The `forEach` loop folds all the nodes of a page. |
| Paging.PageReturned | src/shopify/metaobjects.ts:36-60 | After an answer that returned, the next request carries its end cursor, and the loop goes on exactly when the listing has not stopped. |
| Paging.PageThrew | src/shopify/metaobjects.ts:36-49 | An answer that throws stops the loop after its request. |
| Paging.NullCursorRestarts | src/shopify/metaobjects.ts:36-61 | After a page that says there is more but has no end cursor, the next request is the first request again. |
| CategoryMetaobjects.LoadedCatalogOk | src/shopify/categoryMetaobjects.ts:163-252 | A load whose requests all return gives the catalog of every page up to the last. |
| CategoryMetaobjects.CategoryCatalogs.Cache | src/shopify/categoryMetaobjects.ts:251 | A loaded catalog is cached, and the cache stays consistent. |
| CategoryMetaobjects.LoadedCatalogErr | src/shopify/categoryMetaobjects.ts:163-175 | A failed page request fails the load with its error. |
| CategoryMetaobjects.LoadPages | src/shopify/categoryMetaobjects.ts:157-249 | The `while (hasNextPage)` loop returns the catalog of all pages, and sends one request per page up to the last. |
| CategoryMetaobjects.CategoryCatalogs.constructor | src/shopify/categoryMetaobjects.ts:150 | The cache starts empty and no request has been sent. |
| CategoryMetaobjects.CategoryCatalogs.Remember | src/shopify/categoryMetaobjects.ts:250-252 | Appends the load's requests, and caches the catalog only when no request threw. |
| CategoryMetaobjects.CategoryCatalogs.LoadCatalog | src/shopify/categoryMetaobjects.ts:152-254 | A cached type sends no request. Otherwise all pages are fetched, and a successful catalog is cached. |
| CategoryMetaobjects.CategoryCatalogs.Resolution | src/shopify/categoryMetaobjects.ts:278-334 | No values gives nothing. A key without a definition leaves every value unresolved. A load failure is passed on. Resolved ids are distinct. |
| CategoryMetaobjects.CategoryCatalogs.ResolveCategoryMetaobjectIds | src/shopify/categoryMetaobjects.ts:278-334 | Returns the resolution. With no values or no definition, nothing is requested. |
| CategoryMetaobjects.CategoryCatalogs.ValuesOf | src/shopify/categoryMetaobjects.ts:349-351 | The extracted values, or the raw value when none is extracted. |
| CategoryMetaobjects.CategoryCatalogs.Converted | src/shopify/categoryMetaobjects.ts:341-368 | Non-category entries are unchanged. A changed entry moves to the standard definition as a non-empty reference list. A failure comes from resolution. |
| CategoryMetaobjects.CategoryCatalogs.ConvertedEach | src/shopify/categoryMetaobjects.ts:341-369 | One conversion per entry. |
| CategoryMetaobjects.CategoryCatalogs.ConvertCategoryMetafields | src/shopify/categoryMetaobjects.ts:336-372 | The loop collects the conversions. |
| CategoryMetaobjects.CategoryCatalogs.ConvertEntries | src/shopify/categoryMetaobjects.ts:339-371 | The loop keeps every entry's conversion in order, and stops at the first entry whose resolution throws, with that error. |
| CategoryMetaobjects.CategoryCatalogs.ConvertEntry | src/shopify/categoryMetaobjects.ts:341-368 | Converts one entry. |
| CategoryMetaobjects.CategoryCatalogs.ConvertShape | src/shopify/categoryMetaobjects.ts:336-372 | On success there is one output per input, each the entry's conversion, and non-category entries are unchanged. A failure is the first failing entry's error. |
| Metaobjects.NormalizeHandle | src/shopify/metaobjects.ts:20-22 | A normalised handle holds only lower-case letters and digits. |
| Metaobjects.NormalizeHandleIdempotent | src/shopify/metaobjects.ts:20-22 | Normalising a handle twice is the same as once. |
| Metaobjects.NormalizeHandleUntrimmed | src/shopify/metaobjects.ts:20-22 | The trim makes no difference: the handle is the lower-cased letters and digits of the input. |
| Metaobjects.HandleIgnoresCase | src/shopify/metaobjects.ts:20-22 | Upper- and lower-casing the input do not change the handle. |
| Metaobjects.HandleIgnoresPunctuation | src/shopify/metaobjects.ts:20-22 | Removing a character that is not a letter or digit does not change the handle. |
| Metaobjects.Lookup | src/shopify/metaobjects.ts:76-77 | A value is found exactly when its normalised handle is mapped, and then to that id. |
| Metaobjects.LookupLast | src/shopify/metaobjects.ts:52-57 | A value is found exactly when some node's handle normalises like it, and then to the last such node's id. |
| Metaobjects.EmptyHandleNotMapped | src/shopify/metaobjects.ts:53-56 | A handle that normalises to empty is never mapped. |
| Metaobjects.PageStep | src/shopify/metaobjects.ts:52-57 | Each page adds its nodes' handles, in order, to the map of the pages before it. |
| Metaobjects.LoadedErr | src/shopify/metaobjects.ts:36-49 | A page request that throws makes the load reject with its error. |
| Metaobjects.LoadedOk | src/shopify/metaobjects.ts:36-66 | A load whose requests all return gives the handle map of every page up to the last. |
| Metaobjects.MetaobjectCache.Remember | src/shopify/metaobjects.ts:63-70 | Appends the load's requests, and remembers its map, or its error as the rejected promise. |
| Metaobjects.MetaobjectCache.RememberFailure | src/shopify/metaobjects.ts:68 | A failed load is remembered, and the cache stays consistent. |
| Metaobjects.MetaobjectCache.RememberMap | src/shopify/metaobjects.ts:63 | A loaded map is cached, and the cache stays consistent. |
| Metaobjects.MetaobjectCache.constructor | src/shopify/metaobjects.ts:17-18 | The cache starts empty and no request has been sent. |
| Metaobjects.MetaobjectCache.Load | src/shopify/metaobjects.ts:24-71 | A cached type, or one whose load failed before, sends no request and returns the same result. Otherwise all pages are requested, and the map or the failure is remembered. |
| Metaobjects.LoadPages | src/shopify/metaobjects.ts:31-66 | The `while (hasNext)` loop returns the handle map of all pages and sends one request per page. |
| Metaobjects.MetaobjectCache.ResolveMetaobjectId | src/shopify/metaobjects.ts:73-82 | A missing or empty value resolves to nothing and sends no request. Otherwise the value's normalised handle is looked up in the loaded map, and a load failure is passed on. A found id is the cached map's entry. After the first load of a type, the cache holds its map, or its failure, and nothing else changes; a known type leaves both caches as they were. |

Where the service's design notes and its code disagree, the model follows the code:

- `determinePrice` and `determineGpc` take the first table entry that matches in declaration order, not the longest match (`Merchandising.PriceIsFirstMatch`, `Merchandising.ExactKeyWins`).
- `publishProduct` writes its log rows once, at the end. The row is marked COMPLETE in the same update that records the product id, so `updateRowWithProductId`'s CREATED status never reaches the sheet on its own (`Sheets.ProductIdUpdates`, `PublishProduct.CompletionUpdatesWritten`).
- `assignDeterministicPositions` keeps files whose names do not parse, under the role `misc`; it does not drop them (`MapFilenames.RoleOfShape`, `MapFilenames.EmittedAssets`).
- `resolveGenderCode('female')` yields the male code, because `female` contains `male` and the male row comes first. The model keeps that behaviour (`Gpc.FemaleMapsToMale`).

## Left out

- Network, authentication, HTTP routes, environment configuration and logging are not modelled. Logger calls (warnings, errors, info) have no counterpart. `src/google/auth.ts`, `src/shopify/client.ts`, `src/env.ts`, `src/logger.ts` and `src/routes/` are not part of this model.
- Google Drive (`listAllProductImageGroups`, `readFileAsBase64`, `moveToArchive`) and `collectRowAssets` are oracles. Their answers are parameters, or fields of the publish oracle.
- The OpenAI call (`generateContentForRow`) is an oracle from the row to generated content. In staging, the primary image passed to it is not modelled. `src/ai/generateContent.ts` is not part of this model.
- `src/shopify/mutations.ts` (GraphQL texts) and `src/shopify/metafieldDefinitions.ts` are not part of this model. A Shopify call is recorded as a `Call` value instead of a query string.
- Concurrency is not modelled. `Promise.all` fan-out in `uploadImages`, pattern resolution and archiving is modelled as sequential, in array order. The `pending` map of `loadMetaobjects` is kept only for what it leaves behind after a load that threw: later loads of that type fail with the same error without a request. Two loads in flight at once are not modelled.
- Timers are not modelled. `withBackoff` records the delays it would sleep, and does not sleep. `nowIso()` readings are opaque strings passed in, and one reading stands for all the readings of a step.
- Every Sheets call goes through `withBackoff` in the source. In the model, ledger reads and writes are in-memory and cannot fail, so transport retries of the ledger are not modelled.
- Numbers are integers, except in the stock test of `isInStock` (`StageDrafts.StockPositive`). There `Number.isFinite(Number(v)) && Number(v) > 0` is modelled on exact rationals: decimal literals with a fraction and an exponent, and hexadecimal, octal and binary literals. A value of at least 2^1024 - 2^970 rounds to Infinity and is not in stock. A positive value of at most 2^-1075 rounds to 0 and is not in stock (`StageDrafts.ExponentOverflow`, `StageDrafts.ExponentUnderflow`, `StageDrafts.CountInStock`). How values in between round is not modelled; rounding cannot change their sign or make them infinite, so the test does not depend on it. Elsewhere, floating point, `NaN`, infinities and `Math.floor` on fractions are not modelled.
- Schemas.InventoryQuantity: numeric strings are read as optionally signed decimal integers only; fractions and exponent or radix notation are left unread (the value is absent), because numbers are integers here.
- Strings are sequences of Unicode scalar values (Dafny's `char`), with ASCII case mapping and an ASCII whitespace set. JavaScript strings are sequences of UTF-16 code units. The two agree on text without characters outside the Basic Multilingual Plane (emoji, for one). On text with such characters they differ: the model counts each as one character where `length` counts two code units; `.slice(0, 500)` keeps 500 characters where the source keeps 500 code units and can cut a surrogate pair in half; character order puts such characters after U+E000-U+FFFF where code-unit order puts them before; and the JSON reader rejects a `\u` escape of a surrogate, where `JSON.parse` joins a pair of them into one character. `toLowerCase`/`toUpperCase` on non-ASCII letters and the NFD diacritic stripping in `normalizeToken` are not modelled.
- StageDrafts.PayloadSnippet: keeps the first 500 characters of the snippet, not the first 500 UTF-16 code units, so a product key with characters outside the Basic Multilingual Plane gives a snippet longer, in code units, than the source's. `PublishProduct.PublishError` slices its snippet the same way.
- `localeCompare` in the image ordering is modelled as lexicographic order on characters (`Text.LexLess`), not as locale collation, and `Array.prototype.sort` as a stable insertion sort.
- Regular expressions are written out as character-class predicates. `JSON.parse` is an oracle (`JsonArrayParser`) that returns a string array or nothing. `JSON.stringify` is written out only for arrays of strings and for the `{ productKey }` snippet.
- The Zod machinery is not modelled. Each schema is a function from raw values to a result with the same acceptance and normalisation rules.
- `METAFIELD_KEYS`, `CATEGORY_METAFIELD_KEYS` and `CATEGORY_STANDARD_DEFINITIONS` come from code that is not part of this model and are parameters.
- The publish context's `hasProductOptions` and `variantMetafields` are free parameters, but the source has no value for them. `BuildShopifyInputResult` (src/processors/buildShopifyInput.ts:14-21) declares neither, so `build.hasProductOptions` (src/processors/publishProduct.ts:255) is always undefined, and `build.variantMetafields[index]` (src/processors/publishProduct.ts:319) throws a TypeError as soon as one variant is created. Runs of the model with options expected, or with variant metafields written, are runs the program as written cannot have. The TypeError itself is not modelled: in the program, every publish that creates a variant fails at that step and takes the error path, while with `hasProductOptions` false and no variant metafields the model goes on past it, so the successful publish runs of `PublishProduct.PublishOutcome` that create variants are not runs of the program as written.
- The AI content's `descriptionHtml` and `metaDescription` are free fields of `Schemas.AIContent`, but `AIContentSchema` (src/config/schemas.ts:110-121) defines `description` and `meta_description` and drops unknown keys. So `aiContent?.descriptionHtml` and `aiContent?.metaDescription` (src/shopify/helpers.ts:103,107) are always undefined in the source, and a model run in which either is present is one the program cannot have.
- Patterns.IgnoresCase: states only that letter case does not change the handle. That punctuation and spacing do not change it either is shown only for `tie-dye`/`tie dye` (`Patterns.TieDye`), not for every input.
- Looking up a free-text key in a plain object (`GPC_MAP[style]`, `PATTERN_HANDLE_MAP[key]`) can reach `Object.prototype` members such as `constructor`. The model treats such keys as absent.
- Values written to the Products tab go through `valueInputOption: 'USER_ENTERED'`: the row update of `updateRowValues` (src/google/sheets.ts:182) and the append of `ensureDraftRow` (src/google/sheets.ts:222). Google Sheets parses such input: `0123` becomes the number 123, `TRUE` a boolean, text starting with `=` a formula, a date a serial number; the snapshot reads them back unformatted (src/google/sheets.ts:70). The model stores every written string verbatim as a text cell, which is what `RAW` input does. That is exact for the Config, Logs and Errors tabs, which are written `RAW` (src/google/sheets.ts:251,274,319,328), and for Products values the sheet keeps as text. The members listed below state their results under that assumption. With the product key `0123` the program appends a row, reads back `123`, fails the lower-cased match and throws `Failed to locate draft row for productKey 0123`; the next run appends a second row.
- Sheets.UpdatedCell: the written cell is the text given; under `USER_ENTERED` it is whatever the sheet parses that text to.
- Sheets.AsCells: appended strings become text cells; under `USER_ENTERED` the sheet parses each one.
- Sheets.WrittenColumnReadsBack: holds only for values the sheet keeps as text; `0123` reads back as `123`, and a formula as its result.
- Sheets.BuiltRowReadsBack: holds only for row values the sheet keeps as text.
- Sheets.AppendedRowReads: holds only for row values the sheet keeps as text.
- Sheets.DraftSteps: its append branch gives the grid with the row as text; the program's grid holds the parsed row, so the re-read can miss the key.
- Sheets.DraftOutcomeIsAppended: for a key the sheet reparses, such as `0123` or `TRUE`, the program throws `Failed to locate draft row` instead.
- Sheets.DraftRowCreated: for a key the sheet reparses, the program throws instead of returning the row, and the other columns may read back parsed.
- Sheets.DraftRowIdempotent: for a key the sheet reparses, the program's second call appends a second row.
- Sheets.Ledger.UpdateRowValues: stores the values as text; the program's sheet holds what it parses them to.
- Sheets.Ledger.UpdateRowWithProductId: stores the id, status and timestamp as text; the program's sheet may hold the timestamp parsed as a date.
- Sheets.Ledger.EnsureDraftRow: inherits the gap of `Sheets.DraftRowIdempotent` for keys the sheet reparses.
- Sheets.Ledger.AppendProductsRow: appends the row as text; the program's sheet holds it parsed.
- StageDrafts.StagedImageReadsBack: holds for drive ids the sheet keeps as text; an id made only of digits would read back as a number.
- StageDrafts.WrittenNotBlank: holds for values the sheet keeps as text; a formula reads back as its result, which can be blank.
- StageDrafts.CopyStopsRegeneration: holds for generated copy the sheet keeps as text; copy starting with `=` becomes a formula.
- The paginated loads (`Metaobjects.LoadPages`, `Metaobjects.MetaobjectCache.Load`, `CategoryMetaobjects.LoadPages`, `CategoryMetaobjects.CategoryCatalogs.LoadCatalog`) require `Paging.Ends(listing)`: some answer stops the loop. In the program, `while (hasNextPage)` (src/shopify/metaobjects.ts:36-61, src/shopify/categoryMetaobjects.ts:163-249) never ends when the server keeps answering `hasNextPage: true`. A page with `hasNextPage: true` and a null `endCursor` sends the first request again (`Paging.NullCursorRestarts`), so a server that answers that way repeats the listing forever. Such non-terminating loads are not modelled.
- PublishProduct.ResolveMetafields: states which entries are kept and why, but not that they keep the order of `build.metafields`; the body keeps it, without a lemma.
