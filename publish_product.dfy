/** `publishProduct`: the saga that lists one approved sheet row on Shopify. The AI, Drive
    and Shopify answers come from an oracle (`Services`), each external call made is
    recorded in order (`Call`), and the spreadsheet is the in-memory `Ledger`. */
module PublishProduct {
  import opened Wrappers
  import opened Text
  import opened Records
  import opened Schemas
  import opened ShopifyHelpers
  import opened Sheets
  import B = BuildShopifyInput
  import Constants
  import Json
  import Lists

  // ---------------------------------------------------------------------------
  // GraphQL user errors

  datatype UserError = UserError(field: Option<seq<string>>, message: string)

  /** One error as reported: the message, then the field path joined by `.` in
      parentheses when a path is given (an empty path still gives `()`). */
  function UserErrorText(e: UserError): string {
    e.message + (if e.field.Some? then " (" + Join(e.field.value, ".") + ")" else "")
  }

  function UserErrorTexts(errors: seq<UserError>): (r: seq<string>)
    ensures |r| == |errors| && forall i :: 0 <= i < |errors| ==> r[i] == UserErrorText(errors[i])
  {
    seq(|errors|, i requires 0 <= i < |errors| => UserErrorText(errors[i]))
  }

  /** `ensureNoUserErrors`: `None` when it returns, otherwise the message it throws. */
  function EnsureNoUserErrors(operation: string, userErrors: Option<seq<UserError>>): (r: Option<string>)
    ensures r.None? <==> userErrors.None? || userErrors.value == []
    ensures r.Some? ==> StartsWith(r.value, operation + " failed: ")
  {
    if userErrors.None? || userErrors.value == [] then None
    else Some(operation + " failed: " + Join(UserErrorTexts(userErrors.value), "; "))
  }

  /** Every user error, with its field path, is part of the thrown message. */
  lemma UserErrorsReported(operation: string, errors: seq<UserError>, i: nat)
    requires i < |errors|
    ensures EnsureNoUserErrors(operation, Some(errors)).Some?
    ensures Contains(EnsureNoUserErrors(operation, Some(errors)).value, UserErrorText(errors[i]))
  {
    var texts := UserErrorTexts(errors);
    JoinContains(texts, "; ", i);
    ContainsWithin(operation + " failed: ", Join(texts, "; "), "", texts[i]);
    assert operation + " failed: " + Join(texts, "; ") + "" == operation + " failed: " + Join(texts, "; ");
  }

  // ---------------------------------------------------------------------------
  // What the outside world answers

  datatype ProductOptionNode = ProductOptionNode(id: string, name: string)

  /** A `productCreate` payload: the product id (absent or empty when none came back),
      the product's options and the user errors. */
  datatype CreateResponse = CreateResponse(productId: Option<string>, options: seq<ProductOptionNode>,
                                           userErrors: Option<seq<UserError>>)

  datatype CreatedVariant = CreatedVariant(id: Option<string>)

  datatype VariantsResponse = VariantsResponse(productVariants: Option<seq<CreatedVariant>>,
                                               userErrors: Option<seq<UserError>>)

  /** A Drive file read into memory: its MIME type and its size in bytes. */
  datatype FileData = FileData(mimeType: string, byteLength: nat)

  datatype StagedTarget = StagedTarget(url: string, resourceUrl: string)

  datatype StagedResponse = StagedResponse(stagedTargets: seq<StagedTarget>, userErrors: Option<seq<UserError>>)

  /** The answer to the POST of a file to its staged target. */
  datatype UploadResponse = UploadResponse(ok: bool, status: nat, statusText: string, body: string)

  /** The oracle. `Err` is a thrown error (a transport failure or any other exception)
      and carries its message. Calls made once have one fixed answer; calls made per
      value or per file answer by their argument. */
  datatype Services = Services(
    generate: Result<AIContent, string>,
    resolvePattern: string -> Result<Option<string>, string>,
    collectAssets: Result<seq<ImageAsset>, string>,
    productCreate: Result<CreateResponse, string>,
    variantsBulkCreate: Result<VariantsResponse, string>,
    variantMetafieldsSet: Result<Option<seq<UserError>>, string>,
    readFile: string -> Result<FileData, string>,
    stagedUploadsCreate: Result<StagedResponse, string>,
    upload: (string, string) -> Result<UploadResponse, string>,
    productCreateMedia: Result<Option<seq<UserError>>, string>,
    metafieldsSet: Result<Option<seq<UserError>>, string>,
    archive: string -> Result<(), string>)

  /** The inputs that are not the row: one clock reading `now` for every timestamp,
      the clock `clock` for the listing fallbacks, the metafield columns, the Shopify
      location, and the two build fields `hasProductOptions` and `variantMetafields`. */
  datatype Context = Context(now: string, clock: nat, metafieldKeys: seq<string>, locationId: string,
                             hasProductOptions: bool, variantMetafields: seq<seq<MetafieldInput>>)

  // ---------------------------------------------------------------------------
  // Payloads

  datatype OptionPayload = OptionById(name: string, optionId: string) | OptionByName(name: string, optionName: string)

  /** The `inventoryItem` of a variant; `tracked` false stands for the field being absent. */
  datatype InventoryItem = InventoryItem(sku: Option<string>, tracked: bool)

  datatype InventoryQuantity = InventoryQuantity(locationId: string, availableQuantity: nat)

  datatype VariantInput = VariantInput(price: string, optionValues: Option<seq<OptionPayload>>,
                                       inventoryItem: Option<InventoryItem>, inventoryPolicy: Option<string>,
                                       inventoryQuantities: Option<seq<InventoryQuantity>>)

  /** A metafield input with the id of the object that owns it. */
  datatype OwnedMetafield = OwnedMetafield(ownerId: string, field: MetafieldInput)

  datatype StagedFile = StagedFile(filename: string, mimeType: string, fileSize: string)

  datatype MediaInput = MediaInput(originalSource: string, mediaContentType: string, alt: string)

  /** A file read for upload. */
  datatype LoadedFile = LoadedFile(filename: string, mimeType: string, byteLength: nat)

  /** The option ids by option name, filled in option order (a later option with the same
      name replaces an earlier one); options without a name or an id are skipped. */
  function OptionIds(options: seq<ProductOptionNode>): (m: map<string, string>)
    ensures forall k :: k in m ==> k != "" && m[k] != ""
    decreases |options|
  {
    if options == [] then map[]
    else
      var m := OptionIds(options[..|options| - 1]);
      var o := options[|options| - 1];
      if o.name != "" && o.id != "" then m[o.name := o.id] else m
  }

  predicate Usable(o: ProductOptionNode) {
    o.name != "" && o.id != ""
  }

  /** Option `i` is the last usable option named `k`. */
  predicate LastNamed(options: seq<ProductOptionNode>, k: string, i: int) {
    0 <= i < |options| && Usable(options[i]) && options[i].name == k &&
    forall j :: i < j < |options| ==> !(Usable(options[j]) && options[j].name == k)
  }

  /** A name is mapped exactly when a usable option carries it, and to the id of the last
      such option. */
  lemma {:induction false} OptionIdsLast(options: seq<ProductOptionNode>, k: string)
    ensures k in OptionIds(options) <==> exists i :: 0 <= i < |options| && Usable(options[i]) && options[i].name == k
    ensures k in OptionIds(options) ==> exists i :: LastNamed(options, k, i) && OptionIds(options)[k] == options[i].id
    decreases |options|
  {
    if options != [] {
      var n := |options| - 1;
      var init := options[..n];
      OptionIdsLast(init, k);
      assert forall i :: 0 <= i < n ==> init[i] == options[i];
      var o := options[n];
      if Usable(o) && o.name == k {
        assert LastNamed(options, k, n);
      } else if k in OptionIds(options) {
        var i :| LastNamed(init, k, i) && OptionIds(init)[k] == init[i].id;
        assert LastNamed(options, k, i);
      }
    }
  }

  /** The `forEach` that fills `optionIdByName`. */
  method BuildOptionIds(options: seq<ProductOptionNode>) returns (optionIdByName: map<string, string>)
    ensures optionIdByName == OptionIds(options)
  {
    optionIdByName := map[];
    var i := 0;
    while i < |options|
      invariant 0 <= i <= |options|
      invariant optionIdByName == OptionIds(options[..i])
    {
      var option := options[i];
      assert options[..i + 1][..i] == options[..i];
      if option.name != "" && option.id != "" {
        optionIdByName := optionIdByName[option.name := option.id];
      }
      i := i + 1;
    }
    assert options[..i] == options;
  }

  /** One option value: named by its value, tied to the option id when the option name
      has one and to the option name otherwise. */
  function OptionPayloadOf(ov: OptionValue, ids: map<string, string>): (p: OptionPayload)
    ensures p.name == ov.value
    ensures p.OptionById? <==> ov.name in ids
    ensures p.OptionById? ==> p.optionId == ids[ov.name]
    ensures p.OptionByName? ==> p.optionName == ov.name
  {
    if ov.name in ids then OptionById(ov.value, ids[ov.name]) else OptionByName(ov.value, ov.name)
  }

  function OptionPayloads(ovs: seq<OptionValue>, ids: map<string, string>): (r: seq<OptionPayload>)
    ensures |r| == |ovs| && forall i :: 0 <= i < |ovs| ==> r[i] == OptionPayloadOf(ovs[i], ids)
  {
    seq(|ovs|, i requires 0 <= i < |ovs| => OptionPayloadOf(ovs[i], ids))
  }

  /** The payload of one variant: its own price or the listing's, the option values when
      options are expected, the SKU when there is one, and a tracked `DENY` inventory at
      the location when the quantity is known. */
  function VariantPayload(v: VariantSpec, price: string, expectsOptions: bool, ids: map<string, string>,
                          locationId: string): (p: VariantInput)
    ensures p.price == v.price.GetOr(price)
    ensures p.optionValues.Some? <==> expectsOptions
    ensures expectsOptions ==> p.optionValues.value == OptionPayloads(v.optionValues, ids)
    ensures p.inventoryItem.Some? <==> v.sku != "" || v.inventoryQuantity.Some?
    ensures p.inventoryItem.Some? ==> p.inventoryItem.value.sku == (if v.sku != "" then Some(v.sku) else None)
    ensures p.inventoryItem.Some? ==> (p.inventoryItem.value.tracked <==> v.inventoryQuantity.Some?)
    ensures p.inventoryPolicy.Some? <==> v.inventoryQuantity.Some?
    ensures p.inventoryPolicy.Some? ==> p.inventoryPolicy.value == "DENY"
    ensures p.inventoryQuantities.Some? <==> v.inventoryQuantity.Some?
    ensures v.inventoryQuantity.Some? ==>
      p.inventoryQuantities.value == [InventoryQuantity(locationId, v.inventoryQuantity.value)]
  {
    var optionValues := if expectsOptions then Some(OptionPayloads(v.optionValues, ids)) else None;
    var sku := if v.sku != "" then Some(v.sku) else None;
    match v.inventoryQuantity
    case None =>
      VariantInput(v.price.GetOr(price), optionValues, if sku.Some? then Some(InventoryItem(sku, false)) else None, None, None)
    case Some(q) =>
      VariantInput(v.price.GetOr(price), optionValues, Some(InventoryItem(sku, true)), Some("DENY"),
                   Some([InventoryQuantity(locationId, q)]))
  }

  function VariantInputs(variants: seq<VariantSpec>, price: string, expectsOptions: bool,
                         ids: map<string, string>, locationId: string): (r: seq<VariantInput>)
    ensures |r| == |variants|
    ensures forall i :: 0 <= i < |variants| ==> r[i] == VariantPayload(variants[i], price, expectsOptions, ids, locationId)
  {
    seq(|variants|, i requires 0 <= i < |variants| => VariantPayload(variants[i], price, expectsOptions, ids, locationId))
  }

  /** The metafields listed for variant `i`, none when the list is shorter. */
  function FieldsFor(fields: seq<seq<MetafieldInput>>, i: nat): seq<MetafieldInput> {
    if i < |fields| then fields[i] else []
  }

  predicate HasId(v: CreatedVariant) {
    v.id.Some? && v.id.value != ""
  }

  function Owned(ownerId: string, fields: seq<MetafieldInput>): (r: seq<OwnedMetafield>)
    ensures |r| == |fields| && forall i :: 0 <= i < |fields| ==> r[i] == OwnedMetafield(ownerId, fields[i])
  {
    seq(|fields|, i requires 0 <= i < |fields| => OwnedMetafield(ownerId, fields[i]))
  }

  /** The variant metafield entries: each created variant that has an id owns the
      metafields listed at its index. */
  function VariantMetafieldEntries(created: seq<CreatedVariant>, fields: seq<seq<MetafieldInput>>): (r: seq<OwnedMetafield>)
    decreases |created|
  {
    if created == [] then []
    else
      var n := |created| - 1;
      VariantMetafieldEntries(created[..n], fields) +
        (if HasId(created[n]) then Owned(created[n].id.value, FieldsFor(fields, n)) else [])
  }

  /** An entry is sent exactly when it pairs a created variant having an id with a
      metafield listed at that variant's index. */
  lemma {:induction false} VariantMetafieldPairing(created: seq<CreatedVariant>, fields: seq<seq<MetafieldInput>>,
                                                   e: OwnedMetafield)
    ensures e in VariantMetafieldEntries(created, fields) <==>
      exists i :: 0 <= i < |created| && HasId(created[i]) && e.ownerId == created[i].id.value &&
        e.field in FieldsFor(fields, i)
    decreases |created|
  {
    if created != [] {
      var n := |created| - 1;
      var init := created[..n];
      VariantMetafieldPairing(init, fields, e);
      assert forall i :: 0 <= i < n ==> init[i] == created[i];
      OwnedMember(created[n], FieldsFor(fields, n), e);
    }
  }

  /** The entries one created variant contributes. */
  lemma OwnedMember(v: CreatedVariant, fs: seq<MetafieldInput>, e: OwnedMetafield)
    ensures e in (if HasId(v) then Owned(v.id.value, fs) else []) <==>
      HasId(v) && e.ownerId == v.id.value && e.field in fs
  {
    if HasId(v) {
      var tail := Owned(v.id.value, fs);
      if e in tail {
        var j :| 0 <= j < |tail| && tail[j] == e;
        assert e.field == fs[j];
      }
      if e.ownerId == v.id.value && e.field in fs {
        var j :| 0 <= j < |fs| && fs[j] == e.field;
        assert tail[j] == e;
      }
    }
  }

  /** A metafield whose pattern value is not yet a global id is resolved to a metaobject. */
  predicate PatternCandidate(m: MetafieldInput) {
    m.key == "pattern" && m.value != "" && !StartsWith(m.value, "gid://")
  }

  function ResolvedEntry(m: MetafieldInput, id: string): MetafieldInput {
    m.(value := id, valueType := "metaobject_reference")
  }

  /** The resolution succeeded with a non-empty id. */
  predicate ResolvedTo(resolve: string -> Result<Option<string>, string>, m: MetafieldInput) {
    resolve(m.value).Ok? && resolve(m.value).value.Some? && resolve(m.value).value.value != ""
  }

  /** `x` is in the resolved list for a reason: a kept entry, or a resolved pattern. */
  predicate Justified(ms: seq<MetafieldInput>, resolve: string -> Result<Option<string>, string>, x: MetafieldInput) {
    (x in ms && !PatternCandidate(x)) ||
    exists m :: m in ms && PatternCandidate(m) && ResolvedTo(resolve, m) && x == ResolvedEntry(m, resolve(m.value).value.value)
  }

  /** The `Promise.all` over `build.metafields`: entries that are not pattern candidates
      are kept, a candidate is replaced by its metaobject reference or dropped when none
      is found, and the first thrown resolution (in list order) fails the whole. */
  function ResolveMetafields(ms: seq<MetafieldInput>, resolve: string -> Result<Option<string>, string>): (r: Result<seq<MetafieldInput>, string>)
    ensures r.Ok? ==> |r.value| <= |ms|
    ensures r.Ok? ==> forall x :: x in r.value ==> Justified(ms, resolve, x)
    ensures r.Ok? ==> forall m :: m in ms && !PatternCandidate(m) ==> m in r.value
    ensures r.Err? ==> exists m :: m in ms && PatternCandidate(m) && resolve(m.value) == Err(r.error)
    decreases |ms|
  {
    if ms == [] then Ok([])
    else
      var rest := ResolveMetafields(ms[1..], resolve);
      var m := ms[0];
      assert forall x :: x in ms[1..] ==> x in ms;
      if !PatternCandidate(m) then
        if rest.Err? then Err(rest.error) else Ok([m] + rest.value)
      else if resolve(m.value).Err? then Err(resolve(m.value).error)
      else if rest.Err? then Err(rest.error)
      else if ResolvedTo(resolve, m) then Ok([ResolvedEntry(m, resolve(m.value).value.value)] + rest.value)
      else Ok(rest.value)
  }

  /** One resolution call per pattern candidate, in list order. */
  function ResolveCalls(ms: seq<MetafieldInput>): (r: seq<Call>)
    ensures |r| <= |ms|
    ensures forall i :: 0 <= i < |r| ==> r[i].ResolvePattern?
    decreases |ms|
  {
    if ms == [] then []
    else (if PatternCandidate(ms[0]) then [ResolvePattern(ms[0].value)] else []) + ResolveCalls(ms[1..])
  }

  // ---------------------------------------------------------------------------
  // The calls made, and their order

  datatype Call =
    | GenerateContent
    | ResolvePattern(value: string)
    | CollectAssets
    | ProductCreate(input: B.ProductInput)
    | VariantsBulkCreate(productId: string, variants: seq<VariantInput>)
    | VariantMetafieldsSet(entries: seq<OwnedMetafield>)
    | ReadFile(driveFileId: string)
    | StagedUploadsCreate(files: seq<StagedFile>)
    | UploadFile(url: string, filename: string)
    | ProductCreateMedia(productId: string, media: seq<MediaInput>)
    | ProductMetafieldsSet(entries: seq<OwnedMetafield>)
    | UpdateRow(productId: string)
    | ArchiveFile(driveFileId: string)

  /** The place of a call's step in the saga. */
  function Rank(c: Call): nat {
    match c
    case GenerateContent => 0
    case ResolvePattern(_) => 1
    case CollectAssets => 2
    case ProductCreate(_) => 3
    case VariantsBulkCreate(_, _) => 4
    case VariantMetafieldsSet(_) => 5
    case ReadFile(_) => 6
    case StagedUploadsCreate(_) => 7
    case UploadFile(_, _) => 8
    case ProductCreateMedia(_, _) => 9
    case ProductMetafieldsSet(_) => 10
    case UpdateRow(_) => 11
    case ArchiveFile(_) => 12
  }

  /** The calls come step by step: no call belongs to an earlier step than one before it. */
  predicate InOrder(cs: seq<Call>) {
    forall i, j :: 0 <= i < j < |cs| ==> Rank(cs[i]) <= Rank(cs[j])
  }

  predicate Within(cs: seq<Call>, lo: nat, hi: nat) {
    forall i :: 0 <= i < |cs| ==> lo <= Rank(cs[i]) <= hi
  }

  lemma InOrderAppend(a: seq<Call>, b: seq<Call>, lo: nat, mid: nat, hi: nat)
    requires lo <= mid <= hi
    requires InOrder(a) && Within(a, lo, mid) && InOrder(b) && Within(b, mid, hi)
    ensures InOrder(a + b) && Within(a + b, lo, hi)
  {
    var c := a + b;
    forall i, j | 0 <= i < j < |c|
      ensures Rank(c[i]) <= Rank(c[j])
    {
      if j < |a| {
        assert c[i] == a[i] && c[j] == a[j];
      } else if i >= |a| {
        assert c[i] == b[i - |a|] && c[j] == b[j - |a|];
      } else {
        assert c[i] == a[i] && c[j] == b[j - |a|];
      }
    }
    forall i | 0 <= i < |c|
      ensures lo <= Rank(c[i]) <= hi
    {
      if i < |a| {
        assert c[i] == a[i];
      } else {
        assert c[i] == b[i - |a|];
      }
    }
  }

  /** Calls of one step are in order. */
  lemma SameRank(cs: seq<Call>, r: nat)
    requires forall i :: 0 <= i < |cs| ==> Rank(cs[i]) == r
    ensures InOrder(cs) && Within(cs, r, r)
  {
  }

  lemma SingleCall(c: Call)
    ensures InOrder([c]) && Within([c], Rank(c), Rank(c)) && [c] != [] && [c][0] == c
  {
  }

  // ---------------------------------------------------------------------------
  // Steps

  /** The effect of a helper that makes calls and may throw. */
  datatype Effect = Effect(calls: seq<Call>, error: Option<string>)

  /** A stretch of the saga: the calls it made, the log entries it pushed and how it ended. */
  datatype Step<T> = Step(calls: seq<Call>, logs: seq<LogEntry>, result: Result<T, string>)

  /** The first stretch followed by the next one. */
  function Then<X, Y>(first: Step<X>, next: Step<Y>): (s: Step<Y>)
    ensures s.calls == first.calls + next.calls && s.logs == first.logs + next.logs && s.result == next.result
  {
    Step(first.calls + next.calls, first.logs + next.logs, next.result)
  }

  /** A stretch that threw, passed on. */
  function Fail<X, Y>(s: Step<X>): (r: Step<Y>)
    requires s.result.Err?
    ensures r.calls == s.calls && r.logs == s.logs && r.result == Err(s.result.error)
  {
    Step(s.calls, s.logs, Err(s.result.error))
  }

  function Entry(now: string, action: string, productKey: string, message: string): LogEntry {
    LogEntry(now, action, Some(productKey), message)
  }

  const MISSING_PRODUCT_KEY := "Missing ProductKey; cannot publish"
  const NO_PRODUCT_ID := "Shopify productCreate did not return a product id"
  const PUBLISH_HINT := "Check Shopify admin and Drive files for partial progress"

  /** What the saga has once the AI copy, the listing payload, the resolved metafields and
      the assets are in hand. */
  datatype Prepared = Prepared(build: B.BuildResult, metafields: seq<MetafieldInput>, assets: seq<ImageAsset>)

  /** The AI call (always made), the listing payload, the pattern resolution and the
      asset collection. */
  function Preparation(row: SheetRow, services: Services, ctx: Context): (s: Step<Prepared>)
    ensures s.logs == []
    ensures s.result.Ok? ==> UniqueKeys(s.result.value.build.sheetUpdates) && CopyOnly(s.result.value.build.sheetUpdates)
    ensures InOrder(s.calls) && Within(s.calls, 0, 2)
  {
    match services.generate
    case Err(e) =>
      SameRank([GenerateContent], 0);
      Step([GenerateContent], [], Err(e))
    case Ok(ai) =>
      var build := B.BuildShopifyInput(row, Some(ai), ctx.metafieldKeys, ctx.clock, ctx.clock);
      PreparationOrder(build.metafields);
      var resolving := [GenerateContent] + ResolveCalls(build.metafields);
      match ResolveMetafields(build.metafields, services.resolvePattern)
      case Err(e) => Step(resolving, [], Err(e))
      case Ok(metafields) =>
        match services.collectAssets
        case Err(e) => Step(resolving + [CollectAssets], [], Err(e))
        case Ok(assets) => Step(resolving + [CollectAssets], [], Ok(Prepared(build, metafields, assets)))
  }

  /** The copy written back names only the title, description, tags and meta
      description columns. */
  ghost predicate CopyOnly(u: seq<(string, string)>) {
    forall k :: Get(u, k).Some? ==>
      (k == Constants.TITLE || k == Constants.DESCRIPTION || k == Constants.TAGS || k == Constants.META_DESCRIPTION)
  }

  /** The content call, the pattern lookups and the asset collection come in that order. */
  lemma PreparationOrder(ms: seq<MetafieldInput>)
    ensures InOrder([GenerateContent] + ResolveCalls(ms)) && Within([GenerateContent] + ResolveCalls(ms), 0, 1)
    ensures InOrder([GenerateContent] + ResolveCalls(ms) + [CollectAssets]) &&
            Within([GenerateContent] + ResolveCalls(ms) + [CollectAssets], 0, 2)
  {
    var rs := ResolveCalls(ms);
    SameRank([GenerateContent], 0);
    SameRank(rs, 1);
    InOrderAppend([GenerateContent], rs, 0, 0, 1);
    SameRank([CollectAssets], 2);
    InOrderAppend([GenerateContent] + rs, [CollectAssets], 0, 1, 2);
  }

  /** `productCreate`: a thrown call, user errors or a missing id all throw. */
  function ProductCreation(productKey: string, build: B.BuildResult, services: Services, now: string): (s: Step<CreateResponse>)
    ensures s.calls == [ProductCreate(build.productInput)]
    ensures |s.logs| == 1 && s.logs[0].action == "publish:shopify:create"
    ensures s.result.Ok? <==> (services.productCreate.Ok? &&
      EnsureNoUserErrors("productCreate", services.productCreate.value.userErrors).None? &&
      services.productCreate.value.productId.Some? && services.productCreate.value.productId.value != "")
    ensures s.result.Ok? ==> s.result.value == services.productCreate.value
    ensures (services.productCreate.Ok? && EnsureNoUserErrors("productCreate", services.productCreate.value.userErrors).None? &&
             (services.productCreate.value.productId.None? || services.productCreate.value.productId.value == "")) ==>
      s.result == Err(NO_PRODUCT_ID)
  {
    var logs := [Entry(now, "publish:shopify:create", productKey,
                       "Sending productCreate with " + NatToString(|build.variants|) + " variants")];
    var calls := [ProductCreate(build.productInput)];
    match services.productCreate
    case Err(e) => Step(calls, logs, Err(e))
    case Ok(response) =>
      var userError := EnsureNoUserErrors("productCreate", response.userErrors);
      if userError.Some? then Step(calls, logs, Err(userError.value))
      else if response.productId.None? || response.productId.value == "" then Step(calls, logs, Err(NO_PRODUCT_ID))
      else Step(calls, logs, Ok(response))
  }

  /** `setVariantMetafields` on a non-empty list. */
  function VariantMetafieldsWrite(entries: seq<OwnedMetafield>, services: Services): (e: Effect)
    ensures e.calls == [VariantMetafieldsSet(entries)]
  {
    match services.variantMetafieldsSet
    case Err(m) => Effect([VariantMetafieldsSet(entries)], Some(m))
    case Ok(userErrors) => Effect([VariantMetafieldsSet(entries)], EnsureNoUserErrors("variant metafieldsSet", userErrors))
  }

  /** The variants step: skipped without variants; otherwise the bulk create, then the
      variant metafields when any entry pairs up. */
  function VariantCreation(productKey: string, productId: string, build: B.BuildResult, created: CreateResponse,
                           services: Services, ctx: Context): (s: Step<()>)
    ensures build.variants == [] ==> s == Step([], [], Ok(()))
    ensures InOrder(s.calls) && Within(s.calls, 4, 5)
    ensures build.variants != [] ==> (s.calls != [] &&
      s.calls[0] == VariantsBulkCreate(productId, VariantInputs(build.variants, build.price, ctx.hasProductOptions,
        if ctx.hasProductOptions then OptionIds(created.options) else map[], ctx.locationId)))
  {
    if build.variants == [] then Step([], [], Ok(()))
    else
      var logs := [Entry(ctx.now, "publish:shopify:variants", productKey,
                         "Creating " + NatToString(|build.variants|) + " variants")];
      var ids := if ctx.hasProductOptions then OptionIds(created.options) else map[];
      var calls := [VariantsBulkCreate(productId, VariantInputs(build.variants, build.price, ctx.hasProductOptions, ids, ctx.locationId))];
      match services.variantsBulkCreate
      case Err(e) => Step(calls, logs, Err(e))
      case Ok(response) =>
        var userError := EnsureNoUserErrors("productVariantsBulkCreate", response.userErrors);
        if userError.Some? then Step(calls, logs, Err(userError.value))
        else
          var entries := VariantMetafieldEntries(response.productVariants.GetOr([]), ctx.variantMetafields);
          if entries == [] then Step(calls, logs, Ok(()))
          else
            var written := VariantMetafieldsWrite(entries, services);
            var logs' := logs + [Entry(ctx.now, "publish:shopify:variant-metafields", productKey,
                                       "Setting " + NatToString(|entries|) + " variant metafields")];
            Step(calls + written.calls, logs', if written.error.Some? then Err(written.error.value) else Ok(()))
  }

  function ReadCalls(assets: seq<ImageAsset>): (r: seq<Call>)
    ensures |r| == |assets| && forall i :: 0 <= i < |assets| ==> r[i] == ReadFile(assets[i].driveFileId)
  {
    seq(|assets|, i requires 0 <= i < |assets| => ReadFile(assets[i].driveFileId))
  }

  /** The files read for upload, or the first read (in asset order) that threw. */
  function ReadFiles(assets: seq<ImageAsset>, readFile: string -> Result<FileData, string>): (r: Result<seq<LoadedFile>, string>)
    ensures r.Ok? <==> forall i :: 0 <= i < |assets| ==> readFile(assets[i].driveFileId).Ok?
    ensures r.Ok? ==> |r.value| == |assets| && forall i :: 0 <= i < |assets| ==>
      r.value[i].filename == assets[i].filename &&
      readFile(assets[i].driveFileId) == Ok(FileData(r.value[i].mimeType, r.value[i].byteLength))
    ensures r.Err? ==> exists i :: 0 <= i < |assets| && readFile(assets[i].driveFileId) == Err(r.error)
    decreases |assets|
  {
    if assets == [] then Ok([])
    else
      var n := |assets| - 1;
      var init := ReadFiles(assets[..n], readFile);
      assert forall i :: 0 <= i < n ==> assets[..n][i] == assets[i];
      if init.Err? then Err(init.error)
      else match readFile(assets[n].driveFileId)
        case Err(e) => Err(e)
        case Ok(d) => Ok(init.value + [LoadedFile(assets[n].filename, d.mimeType, d.byteLength)])
  }

  function StagedFiles(files: seq<LoadedFile>): (r: seq<StagedFile>)
    ensures |r| == |files| && forall i :: 0 <= i < |files| ==>
      r[i] == StagedFile(files[i].filename, files[i].mimeType, NatToString(files[i].byteLength))
  {
    seq(|files|, i requires 0 <= i < |files| => StagedFile(files[i].filename, files[i].mimeType, NatToString(files[i].byteLength)))
  }

  function UploadCalls(files: seq<LoadedFile>, targets: seq<StagedTarget>): (r: seq<Call>)
    requires |targets| == |files|
    ensures |r| == |files| && forall i :: 0 <= i < |files| ==> r[i] == UploadFile(targets[i].url, files[i].filename)
  {
    seq(|files|, i requires 0 <= i < |files| => UploadFile(targets[i].url, files[i].filename))
  }

  /** The error of one upload: a thrown POST, or a response that is not ok, reported with
      its status, status text and, when it has one, body. */
  function UploadError(file: LoadedFile, target: StagedTarget, upload: (string, string) -> Result<UploadResponse, string>): Option<string> {
    match upload(target.url, file.filename)
    case Err(e) => Some(e)
    case Ok(response) =>
      if response.ok then None
      else Some("Failed to upload " + file.filename + " to staged target: " + NatToString(response.status) + " " +
                response.statusText + (if response.body != "" then " - " + response.body else ""))
  }

  /** The first failed upload, in file order. */
  function FirstUploadError(files: seq<LoadedFile>, targets: seq<StagedTarget>,
                            upload: (string, string) -> Result<UploadResponse, string>): (r: Option<string>)
    requires |targets| == |files|
    ensures r.None? <==> forall i :: 0 <= i < |files| ==> UploadError(files[i], targets[i], upload).None?
    ensures r.Some? ==> exists i :: 0 <= i < |files| && UploadError(files[i], targets[i], upload) == r
    decreases |files|
  {
    if files == [] then None
    else
      var n := |files| - 1;
      var init := FirstUploadError(files[..n], targets[..n], upload);
      assert forall i :: 0 <= i < n ==> files[..n][i] == files[i] && targets[..n][i] == targets[i];
      if init.Some? then init else UploadError(files[n], targets[n], upload)
  }

  /** The media created from the staged targets, each with the alt text or else the file
      name. */
  function MediaInputs(files: seq<LoadedFile>, targets: seq<StagedTarget>, altText: Option<string>): (r: seq<MediaInput>)
    requires |targets| == |files|
    ensures |r| == |files| && forall i :: 0 <= i < |files| ==>
      r[i] == MediaInput(targets[i].resourceUrl, "IMAGE", altText.GetOr(files[i].filename))
  {
    seq(|files|, i requires 0 <= i < |files| => MediaInput(targets[i].resourceUrl, "IMAGE", altText.GetOr(files[i].filename)))
  }

  function TargetCountError(files: nat, targets: nat): string {
    "Expected " + NatToString(files) + " staged upload targets but received " + NatToString(targets)
  }

  /** Calls made before an effect, added in front of its calls. */
  function After(prefix: seq<Call>, e: Effect): (r: Effect)
    ensures r.calls == prefix + e.calls && r.error == e.error
  {
    Effect(prefix + e.calls, e.error)
  }

  /** `uploadImages`: read every file, stage one upload target per file, post every file
      to its target, then attach the media to the product. */
  function ImageUpload(productId: string, assets: seq<ImageAsset>, altText: Option<string>, services: Services): (e: Effect)
    ensures assets == [] ==> e == Effect([], None)
    ensures InOrder(e.calls) && Within(e.calls, 6, 9)
  {
    if assets == [] then Effect([], None)
    else
      var fileReads := ReadCalls(assets);
      SameRank(fileReads, 6);
      match ReadFiles(assets, services.readFile)
      case Err(m) => Effect(fileReads, Some(m))
      case Ok(files) =>
        var rest := StagedUpload(productId, files, altText, services);
        InOrderAppend(fileReads, rest.calls, 6, 6, 9);
        After(fileReads, rest)
  }

  /** The staged upload targets, then the posts and the media. */
  function StagedUpload(productId: string, files: seq<LoadedFile>, altText: Option<string>, services: Services): (e: Effect)
    ensures InOrder(e.calls) && Within(e.calls, 7, 9)
    ensures e.calls != [] && e.calls[0] == StagedUploadsCreate(StagedFiles(files))
  {
    var staged := [StagedUploadsCreate(StagedFiles(files))];
    SingleCall(staged[0]);
    match services.stagedUploadsCreate
    case Err(m) => Effect(staged, Some(m))
    case Ok(response) =>
      var targets := response.stagedTargets;
      var userError := EnsureNoUserErrors("stagedUploadsCreate", response.userErrors);
      if userError.Some? then Effect(staged, userError)
      else if |targets| != |files| then Effect(staged, Some(TargetCountError(|files|, |targets|)))
      else
        var rest := UploadAndAttach(productId, files, targets, altText, services);
        InOrderAppend(staged, rest.calls, 7, 8, 9);
        After(staged, rest)
  }

  /** One post per file to its target, then `productCreateMedia` when none failed. */
  function UploadAndAttach(productId: string, files: seq<LoadedFile>, targets: seq<StagedTarget>, altText: Option<string>,
                           services: Services): (e: Effect)
    requires |targets| == |files|
    ensures InOrder(e.calls) && Within(e.calls, 8, 9)
  {
    var uploads := UploadCalls(files, targets);
    SameRank(uploads, 8);
    var failure := FirstUploadError(files, targets, services.upload);
    if failure.Some? then Effect(uploads, failure)
    else
      var media := [ProductCreateMedia(productId, MediaInputs(files, targets, altText))];
      InOrderAppend(uploads, media, 8, 9, 9);
      match services.productCreateMedia
      case Err(m) => Effect(uploads + media, Some(m))
      case Ok(userErrors) => Effect(uploads + media, EnsureNoUserErrors("productCreateMedia", userErrors))
  }

  /** The images step: skipped without assets. */
  function ImageStep(productKey: string, productId: string, assets: seq<ImageAsset>, altText: Option<string>,
                     services: Services, now: string): (s: Step<()>)
    ensures assets == [] ==> s == Step([], [], Ok(()))
    ensures InOrder(s.calls) && Within(s.calls, 6, 9)
  {
    if assets == [] then Step([], [], Ok(()))
    else
      var upload := ImageUpload(productId, assets, altText, services);
      Step(upload.calls, [Entry(now, "publish:shopify:images", productKey, "Uploading " + NatToString(|assets|) + " images")],
           if upload.error.Some? then Err(upload.error.value) else Ok(()))
  }

  /** The product metafields step (`setMetafields`): skipped without metafields,
      otherwise one `metafieldsSet` with the product as owner of every entry. */
  function MetafieldStep(productKey: string, productId: string, metafields: seq<MetafieldInput>,
                         services: Services, now: string): (s: Step<()>)
    ensures metafields == [] ==> s == Step([], [], Ok(()))
    ensures metafields != [] ==> s.calls == [ProductMetafieldsSet(Owned(productId, metafields))]
    ensures InOrder(s.calls) && Within(s.calls, 10, 10)
  {
    if metafields == [] then Step([], [], Ok(()))
    else
      var calls := [ProductMetafieldsSet(Owned(productId, metafields))];
      SameRank(calls, 10);
      var logs := [Entry(now, "publish:shopify:metafields", productKey, "Setting " + NatToString(|metafields|) + " metafields")];
      match services.metafieldsSet
      case Err(m) => Step(calls, logs, Err(m))
      case Ok(userErrors) =>
        var userError := EnsureNoUserErrors("metafieldsSet", userErrors);
        Step(calls, logs, if userError.Some? then Err(userError.value) else Ok(()))
  }

  /** What a fully successful run of the Shopify steps hands to the ledger step. */
  datatype Published = Published(productId: string, sheetUpdates: seq<(string, string)>, assets: seq<ImageAsset>)

  ghost predicate ValidPublished(p: Published) {
    p.productId != "" && UniqueKeys(p.sheetUpdates) && CopyOnly(p.sheetUpdates)
  }

  /** The images and metafields steps, after the variants. */
  function AfterVariants(productKey: string, productId: string, prepared: Prepared, services: Services, ctx: Context): (s: Step<Published>)
    requires productId != "" && UniqueKeys(prepared.build.sheetUpdates) && CopyOnly(prepared.build.sheetUpdates)
    ensures s.result.Ok? ==> ValidPublished(s.result.value) && s.result.value.assets == prepared.assets
    ensures InOrder(s.calls) && Within(s.calls, 6, 10)
  {
    var images := ImageStep(productKey, productId, prepared.assets, Get(prepared.build.sheetUpdates, Constants.TITLE), services, ctx.now);
    if images.result.Err? then Fail(images)
    else
      var metafields := MetafieldStep(productKey, productId, prepared.metafields, services, ctx.now);
      InOrderAppend(images.calls, metafields.calls, 6, 9, 10);
      if metafields.result.Err? then Then(images, Fail(metafields))
      else Then(images, Step(metafields.calls, metafields.logs,
                             Ok(Published(productId, prepared.build.sheetUpdates, prepared.assets))))
  }

  /** The steps that follow a product create that returned an id. */
  function AfterCreate(productKey: string, prepared: Prepared, created: CreateResponse, services: Services, ctx: Context): (s: Step<Published>)
    requires created.productId.Some? && created.productId.value != "" && UniqueKeys(prepared.build.sheetUpdates) && CopyOnly(prepared.build.sheetUpdates)
    ensures s.result.Ok? ==> ValidPublished(s.result.value) && s.result.value.productId == created.productId.value
    ensures s.result.Ok? ==> s.result.value.assets == prepared.assets
    ensures InOrder(s.calls) && Within(s.calls, 4, 10)
  {
    var productId := created.productId.value;
    var variants := VariantCreation(productKey, productId, prepared.build, created, services, ctx);
    if variants.result.Err? then Fail(variants)
    else
      var rest := AfterVariants(productKey, productId, prepared, services, ctx);
      InOrderAppend(variants.calls, rest.calls, 4, 6, 10);
      Then(variants, rest)
  }

  /** The Shopify steps: create, then the rest when an id came back. */
  function ShopifySteps(productKey: string, prepared: Prepared, services: Services, ctx: Context): (s: Step<Published>)
    requires UniqueKeys(prepared.build.sheetUpdates) && CopyOnly(prepared.build.sheetUpdates)
    ensures s.result.Ok? ==> ValidPublished(s.result.value) && s.result.value.assets == prepared.assets
    ensures InOrder(s.calls) && Within(s.calls, 3, 10)
    ensures s.calls != [] && s.calls[0] == ProductCreate(prepared.build.productInput)
    ensures var create := ProductCreation(productKey, prepared.build, services, ctx.now);
      create.result.Err? ==> s.calls == [ProductCreate(prepared.build.productInput)] && s.result == Err(create.result.error)
  {
    var create := ProductCreation(productKey, prepared.build, services, ctx.now);
    if create.result.Err? then Fail(create)
    else
      var rest := AfterCreate(productKey, prepared, create.result.value, services, ctx);
      InOrderAppend(create.calls, rest.calls, 3, 4, 10);
      Then(create, rest)
  }

  /** The `try` block up to the ledger step. */
  function Attempt(row: SheetRow, productKey: string, services: Services, ctx: Context): (s: Step<Published>)
    ensures s.result.Ok? ==> ValidPublished(s.result.value)
    ensures InOrder(s.calls) && Within(s.calls, 0, 10)
  {
    var prepared := Preparation(row, services, ctx);
    if prepared.result.Err? then Fail(prepared)
    else
      var rest := ShopifySteps(productKey, prepared.result.value, services, ctx);
      InOrderAppend(prepared.calls, rest.calls, 0, 2, 10);
      Then(prepared, rest)
  }

  // ---------------------------------------------------------------------------
  // The saga

  datatype PublishResult = PublishResult(success: bool, productId: Option<string>, error: Option<string>)

  /** Everything a publish does: the calls, the log entries written, the error entries
      written, the row update (when the row is written) and the result. */
  datatype Publication = Publication(calls: seq<Call>, logs: seq<LogEntry>, errors: seq<ErrorEntry>,
                                     rowUpdates: Option<seq<(string, Option<string>)>>, result: PublishResult)

  /** Record values as the optional values `updateRowValues` takes. */
  function AsUpdates(entries: seq<(string, string)>): (u: seq<(string, Option<string>)>)
    ensures |u| == |entries| && forall i :: 0 <= i < |entries| ==> u[i] == (entries[i].0, Some(entries[i].1))
    ensures UniqueKeys(entries) ==> UniqueKeys(u)
    ensures forall k :: Get(u, k) == if Get(entries, k).Some? then Some(Some(Get(entries, k).value)) else None
  {
    var u := seq(|entries|, i requires 0 <= i < |entries| => (entries[i].0, Some(entries[i].1)));
    forall k | true
      ensures Get(u, k) == if Get(entries, k).Some? then Some(Some(Get(entries, k).value)) else None
    {
      KeyIndexIs(u, k, KeyIndex(entries, k));
    }
    u
  }

  /** The ledger step's updates: the build's copy with Status COMPLETE, over the product id,
      CREATED and UpdatedAt. */
  function CompletionUpdates(productId: string, sheetUpdates: seq<(string, string)>, now: string): (u: seq<(string, Option<string>)>)
    requires UniqueKeys(sheetUpdates)
    ensures UniqueKeys(u)
  {
    ProductIdUpdates(productId, AsUpdates(Put(sheetUpdates, Constants.STATUS, Constants.STATUS_COMPLETE)), now)
  }

  function PublishError(productKey: string, message: string, now: string): ErrorEntry {
    ErrorEntry(now, Some(productKey), "publishProduct", message, Some(PUBLISH_HINT),
               Some(Json.Slice("{\"sheetRow\":" + Json.Quote(productKey) + "}", 500)))
  }

  function ArchiveCalls(assets: seq<ImageAsset>): (r: seq<Call>)
    ensures |r| == |assets| && forall i :: 0 <= i < |assets| ==> r[i] == ArchiveFile(assets[i].driveFileId)
  {
    seq(|assets|, i requires 0 <= i < |assets| => ArchiveFile(assets[i].driveFileId))
  }

  /** `publishProduct` on a row. */
  function Publish(row: SheetRow, services: Services, ctx: Context): (p: Publication)
    ensures p.rowUpdates.Some? ==> UniqueKeys(p.rowUpdates.value)
  {
    match GetString(row, Constants.PRODUCT_KEY)
    case None => Publication([], [], [], None, PublishResult(false, None, Some(MISSING_PRODUCT_KEY)))
    case Some(productKey) => Conclude(productKey, Attempt(row, productKey, services, ctx), ctx.now)
  }

  /** What follows the `try` block: on success the ledger step, the archive fan-out and
      the completion entry; on failure the error entry and the error row. */
  function Conclude(productKey: string, attempt: Step<Published>, now: string): (p: Publication)
    requires attempt.result.Ok? ==> UniqueKeys(attempt.result.value.sheetUpdates)
    ensures p.rowUpdates.Some? ==> UniqueKeys(p.rowUpdates.value)
  {
    var start := Entry(now, "publish:start", productKey, "Beginning Shopify publish");
    match attempt.result
    case Ok(done) =>
      Publication(attempt.calls + [UpdateRow(done.productId)] + ArchiveCalls(done.assets),
                  [start] + attempt.logs + [Entry(now, "publish:complete", productKey, "Published product " + done.productId)],
                  [], Some(CompletionUpdates(done.productId, done.sheetUpdates, now)),
                  PublishResult(true, Some(done.productId), None))
    case Err(message) =>
      Publication(attempt.calls, [start] + attempt.logs + [Entry(now, "publish:error", productKey, message)],
                  [PublishError(productKey, message, now)], None, PublishResult(false, None, Some(message)))
  }

  function ErrorRows(entries: seq<ErrorEntry>): (rows: seq<seq<string>>)
    ensures |rows| == |entries| && forall i :: 0 <= i < |entries| ==> rows[i] == ErrorRow(entries[i])
  {
    if entries == [] then [] else ErrorRows(entries[..|entries| - 1]) + [ErrorRow(entries[|entries| - 1])]
  }

  /** The products grid after a publication: its row update applied, when it has one. */
  function GridAfter(grid: seq<seq<CellValue>>, row: SheetRow, p: Publication): (g: seq<seq<CellValue>>)
    requires row.rowNumber >= 2
    ensures p.rowUpdates.None? ==> g == grid
  {
    if p.rowUpdates.Some? then ApplyWrites(grid, RowWrites(row, p.rowUpdates.value)) else grid
  }

  /** The Log and Errors tabs and the products grid after a publication: its log entries
      and error entries appended, its row update applied. */
  predicate Recorded(logRows0: seq<seq<string>>, errorRows0: seq<seq<string>>, grid0: seq<seq<CellValue>>,
                     logRows: seq<seq<string>>, errorRows: seq<seq<string>>, grid: seq<seq<CellValue>>,
                     row: SheetRow, p: Publication)
    requires row.rowNumber >= 2
  {
    logRows == logRows0 + LogRows(p.logs) && ErrorsRecorded(errorRows0, errorRows, p) && grid == GridAfter(grid0, row, p)
  }

  predicate ErrorsRecorded(errorRows0: seq<seq<string>>, errorRows: seq<seq<string>>, p: Publication) {
    errorRows == errorRows0 + ErrorRows(p.errors)
  }

  /** `publishProduct` against the spreadsheet: the row is updated only when every
      Shopify step succeeded, the log entries are written in one batch at the end, and a
      failure adds one row to the Errors tab. */
  method PublishProduct(ledger: Ledger, row: SheetRow, services: Services, ctx: Context)
      returns (result: PublishResult, calls: seq<Call>)
    requires row.rowNumber >= 2
    modifies ledger
    ensures var p := Publish(row, services, ctx);
      result == p.result && calls == p.calls &&
      Recorded(old(ledger.logRows), old(ledger.errorRows), old(ledger.grid), ledger.logRows, ledger.errorRows, ledger.grid, row, p)
    ensures ledger.headerRow == old(ledger.headerRow) && ledger.config == old(ledger.config)
  {
    var productKey := GetString(row, Constants.PRODUCT_KEY);
    if productKey.None? {
      assert LogRows([]) == [] && ErrorRows([]) == [];
      return PublishResult(false, None, Some(MISSING_PRODUCT_KEY)), [];
    }
    var attemptCalls, attemptLogs, outcome := AttemptPublish(row, productKey.value, services, ctx);
    result, calls := Settle(ledger, row, productKey.value, Step(attemptCalls, attemptLogs, outcome), services.archive, ctx.now);
  }

  /** The ledger writes after the `try` block. */
  method Settle(ledger: Ledger, row: SheetRow, productKey: string, attempt: Step<Published>,
                archive: string -> Result<(), string>, now: string) returns (result: PublishResult, calls: seq<Call>)
    requires row.rowNumber >= 2
    requires attempt.result.Ok? ==> UniqueKeys(attempt.result.value.sheetUpdates)
    modifies ledger
    ensures var p := Conclude(productKey, attempt, now);
      result == p.result && calls == p.calls &&
      Recorded(old(ledger.logRows), old(ledger.errorRows), old(ledger.grid), ledger.logRows, ledger.errorRows, ledger.grid, row, p)
    ensures ledger.headerRow == old(ledger.headerRow) && ledger.config == old(ledger.config)
  {
    if attempt.result.Ok? {
      result, calls := Complete(ledger, row, productKey, attempt, archive, now);
      RecordedOk(old(ledger.logRows), old(ledger.errorRows), old(ledger.grid), ledger.logRows, ledger.errorRows, ledger.grid,
                 row, productKey, attempt, now);
    } else {
      result, calls := Report(ledger, row, productKey, attempt, now);
      RecordedErr(old(ledger.logRows), old(ledger.errorRows), old(ledger.grid), ledger.logRows, ledger.errorRows, ledger.grid,
                  row, productKey, attempt, now);
    }
  }

  lemma ConcludeOk(productKey: string, attempt: Step<Published>, now: string)
    requires attempt.result.Ok? && UniqueKeys(attempt.result.value.sheetUpdates)
    ensures var done := attempt.result.value;
      Conclude(productKey, attempt, now) ==
      Publication(attempt.calls + [UpdateRow(done.productId)] + ArchiveCalls(done.assets),
                  [Entry(now, "publish:start", productKey, "Beginning Shopify publish")] + attempt.logs +
                  [Entry(now, "publish:complete", productKey, "Published product " + done.productId)],
                  [], Some(CompletionUpdates(done.productId, done.sheetUpdates, now)),
                  PublishResult(true, Some(done.productId), None))
  {
  }

  lemma ConcludeErr(productKey: string, attempt: Step<Published>, now: string)
    requires attempt.result.Err?
    ensures var message := attempt.result.error;
      Conclude(productKey, attempt, now) ==
      Publication(attempt.calls, [Entry(now, "publish:start", productKey, "Beginning Shopify publish")] + attempt.logs +
                  [Entry(now, "publish:error", productKey, message)],
                  [PublishError(productKey, message, now)], None, PublishResult(false, None, Some(message)))
  {
  }

  /** The success path's writes are those of the publication. */
  lemma RecordedOk(logRows0: seq<seq<string>>, errorRows0: seq<seq<string>>, grid0: seq<seq<CellValue>>,
                   logRows: seq<seq<string>>, errorRows: seq<seq<string>>, grid: seq<seq<CellValue>>,
                   row: SheetRow, productKey: string, attempt: Step<Published>, now: string)
    requires row.rowNumber >= 2
    requires attempt.result.Ok? && UniqueKeys(attempt.result.value.sheetUpdates)
    requires var done := attempt.result.value;
      logRows == logRows0 + LogRows([Entry(now, "publish:start", productKey, "Beginning Shopify publish")] + attempt.logs +
                                    [Entry(now, "publish:complete", productKey, "Published product " + done.productId)]) &&
      grid == ApplyWrites(grid0, RowWrites(row, CompletionUpdates(done.productId, done.sheetUpdates, now))) &&
      errorRows == errorRows0
    ensures Recorded(logRows0, errorRows0, grid0, logRows, errorRows, grid, row, Conclude(productKey, attempt, now))
  {
    ConcludeOk(productKey, attempt, now);
    NoErrorsRecorded(errorRows0, productKey, attempt, now);
  }

  lemma NoErrorsRecorded(errorRows0: seq<seq<string>>, productKey: string, attempt: Step<Published>, now: string)
    requires attempt.result.Ok? && UniqueKeys(attempt.result.value.sheetUpdates)
    ensures ErrorsRecorded(errorRows0, errorRows0, Conclude(productKey, attempt, now))
  {
    assert errorRows0 + ErrorRows([]) == errorRows0;
  }

  /** The failure path's writes are those of the publication. */
  lemma RecordedErr(logRows0: seq<seq<string>>, errorRows0: seq<seq<string>>, grid0: seq<seq<CellValue>>,
                    logRows: seq<seq<string>>, errorRows: seq<seq<string>>, grid: seq<seq<CellValue>>,
                    row: SheetRow, productKey: string, attempt: Step<Published>, now: string)
    requires row.rowNumber >= 2
    requires attempt.result.Err?
    requires var message := attempt.result.error;
      logRows == logRows0 + LogRows([Entry(now, "publish:start", productKey, "Beginning Shopify publish")] + attempt.logs +
                                    [Entry(now, "publish:error", productKey, message)]) &&
      errorRows == errorRows0 + ErrorRows([PublishError(productKey, message, now)]) &&
      grid == grid0
    ensures Recorded(logRows0, errorRows0, grid0, logRows, errorRows, grid, row, Conclude(productKey, attempt, now))
  {
    ConcludeErr(productKey, attempt, now);
  }

  /** The success path: the row update, the archive fan-out and the log batch. */
  method Complete(ledger: Ledger, row: SheetRow, productKey: string, attempt: Step<Published>,
                  archive: string -> Result<(), string>, now: string) returns (result: PublishResult, calls: seq<Call>)
    requires row.rowNumber >= 2
    requires attempt.result.Ok? && UniqueKeys(attempt.result.value.sheetUpdates)
    modifies ledger
    ensures var done := attempt.result.value;
      result == PublishResult(true, Some(done.productId), None) &&
      calls == attempt.calls + [UpdateRow(done.productId)] + ArchiveCalls(done.assets) &&
      ledger.logRows == old(ledger.logRows) + LogRows([Entry(now, "publish:start", productKey, "Beginning Shopify publish")] + attempt.logs +
                                                      [Entry(now, "publish:complete", productKey, "Published product " + done.productId)]) &&
      ledger.grid == ApplyWrites(old(ledger.grid), RowWrites(row, CompletionUpdates(done.productId, done.sheetUpdates, now)))
    ensures ledger.errorRows == old(ledger.errorRows)
    ensures ledger.headerRow == old(ledger.headerRow) && ledger.config == old(ledger.config)
  {
    var done := attempt.result.value;
    WriteCompletion(ledger, row, done, now);
    calls := attempt.calls + [UpdateRow(done.productId)];
    var archived := ArchiveAssets(done.assets, archive);
    calls := calls + archived;
    ledger.WriteLogs([Entry(now, "publish:start", productKey, "Beginning Shopify publish")] + attempt.logs +
                     [Entry(now, "publish:complete", productKey, "Published product " + done.productId)]);
    result := PublishResult(true, Some(done.productId), None);
  }

  /** The ledger step: the product id, CREATED and UpdatedAt, under the build's copy and
      Status COMPLETE. */
  method WriteCompletion(ledger: Ledger, row: SheetRow, done: Published, now: string)
    requires row.rowNumber >= 2 && UniqueKeys(done.sheetUpdates)
    modifies ledger
    ensures ledger.grid == ApplyWrites(old(ledger.grid), RowWrites(row, CompletionUpdates(done.productId, done.sheetUpdates, now)))
    ensures ledger.logRows == old(ledger.logRows) && ledger.errorRows == old(ledger.errorRows)
    ensures ledger.headerRow == old(ledger.headerRow) && ledger.config == old(ledger.config)
  {
    ledger.UpdateRowWithProductId(row, done.productId, AsUpdates(Put(done.sheetUpdates, Constants.STATUS, Constants.STATUS_COMPLETE)), now);
  }

  /** The `catch` path: the log batch with the error entry, then the error row. */
  method Report(ledger: Ledger, row: SheetRow, productKey: string, attempt: Step<Published>, now: string)
      returns (result: PublishResult, calls: seq<Call>)
    requires attempt.result.Err?
    modifies ledger
    ensures var message := attempt.result.error;
      result == PublishResult(false, None, Some(message)) && calls == attempt.calls &&
      ledger.logRows == old(ledger.logRows) + LogRows([Entry(now, "publish:start", productKey, "Beginning Shopify publish")] + attempt.logs +
                                                      [Entry(now, "publish:error", productKey, message)]) &&
      ledger.errorRows == old(ledger.errorRows) + ErrorRows([PublishError(productKey, message, now)])
    ensures ledger.grid == old(ledger.grid)
    ensures ledger.headerRow == old(ledger.headerRow) && ledger.config == old(ledger.config)
  {
    var message := attempt.result.error;
    ledger.WriteLogs([Entry(now, "publish:start", productKey, "Beginning Shopify publish")] + attempt.logs +
                     [Entry(now, "publish:error", productKey, message)]);
    ledger.WriteError(PublishError(productKey, message, now));
    assert ErrorRows([PublishError(productKey, message, now)]) == [ErrorRow(PublishError(productKey, message, now))];
    result, calls := PublishResult(false, None, Some(message)), attempt.calls;
  }

  /** The archive fan-out: every asset is moved to the archive, and a failure to move
      one is swallowed. */
  method ArchiveAssets(assets: seq<ImageAsset>, archive: string -> Result<(), string>) returns (calls: seq<Call>)
    ensures calls == ArchiveCalls(assets)
  {
    calls := [];
    var i := 0;
    while i < |assets|
      invariant 0 <= i <= |assets|
      invariant calls == ArchiveCalls(assets[..i])
    {
      calls := calls + [ArchiveFile(assets[i].driveFileId)];
      var moved := archive(assets[i].driveFileId);
      if moved.Err? {
        calls := calls;
      }
      i := i + 1;
    }
    assert assets[..i] == assets;
  }

  /** The `try` block up to the ledger step: the preparation, then `productCreate` and
      the steps after it. */
  method AttemptPublish(row: SheetRow, productKey: string, services: Services, ctx: Context)
      returns (calls: seq<Call>, logEntries: seq<LogEntry>, outcome: Result<Published, string>)
    ensures Step(calls, logEntries, outcome) == Attempt(row, productKey, services, ctx)
  {
    var prepared := Preparation(row, services, ctx);
    calls, logEntries := prepared.calls, prepared.logs;
    if prepared.result.Err? {
      return calls, logEntries, Err(prepared.result.error);
    }
    var build := prepared.result.value.build;
    logEntries := logEntries + [Entry(ctx.now, "publish:shopify:create", productKey,
                                      "Sending productCreate with " + NatToString(|build.variants|) + " variants")];
    calls := calls + [ProductCreate(build.productInput)];
    var created := services.productCreate;
    if created.Err? {
      return calls, logEntries, Err(created.error);
    }
    var userError := EnsureNoUserErrors("productCreate", created.value.userErrors);
    if userError.Some? {
      return calls, logEntries, Err(userError.value);
    }
    var productId := created.value.productId;
    if productId.None? || productId.value == "" {
      return calls, logEntries, Err(NO_PRODUCT_ID);
    }
    var rest := PublishCreated(productKey, prepared.result.value, created.value, services, ctx);
    Lists.Associate(prepared.calls, [ProductCreate(build.productInput)], rest.calls);
    Lists.Associate(prepared.logs, ProductCreation(productKey, build, services, ctx.now).logs, rest.logs);
    calls, logEntries, outcome := calls + rest.calls, logEntries + rest.logs, rest.result;
  }

  /** The variants, images and metafields steps, each skipped when its list is empty. */
  method PublishCreated(productKey: string, prepared: Prepared, created: CreateResponse, services: Services, ctx: Context)
      returns (s: Step<Published>)
    requires created.productId.Some? && created.productId.value != "" && UniqueKeys(prepared.build.sheetUpdates) && CopyOnly(prepared.build.sheetUpdates)
    ensures s == AfterCreate(productKey, prepared, created, services, ctx)
  {
    var productId := created.productId.value;
    var variants: Step<()> := Step([], [], Ok(()));
    if prepared.build.variants != [] {
      variants := CreateVariants(productKey, productId, prepared.build, created, services, ctx);
      if variants.result.Err? {
        return Fail(variants);
      }
    }
    var images: Step<()> := Step([], [], Ok(()));
    if prepared.assets != [] {
      var upload := ImageUpload(productId, prepared.assets, Get(prepared.build.sheetUpdates, Constants.TITLE), services);
      images := Step(upload.calls, [Entry(ctx.now, "publish:shopify:images", productKey,
                                          "Uploading " + NatToString(|prepared.assets|) + " images")],
                     if upload.error.Some? then Err(upload.error.value) else Ok(()));
      if images.result.Err? {
        return Then(variants, Fail(images));
      }
    }
    var metafields := SetMetafields(productKey, productId, prepared.metafields, services, ctx.now);
    var last: Step<Published> := if metafields.result.Err? then Fail(metafields)
      else Step(metafields.calls, metafields.logs, Ok(Published(productId, prepared.build.sheetUpdates, prepared.assets)));
    s := Then(variants, Then(images, last));
  }

  /** `setMetafields` with its log entry. */
  method SetMetafields(productKey: string, productId: string, metafields: seq<MetafieldInput>, services: Services, now: string)
      returns (s: Step<()>)
    ensures s == MetafieldStep(productKey, productId, metafields, services, now)
  {
    if metafields == [] {
      return Step([], [], Ok(()));
    }
    var logs := [Entry(now, "publish:shopify:metafields", productKey, "Setting " + NatToString(|metafields|) + " metafields")];
    var payload := Owned(productId, metafields);
    var response := services.metafieldsSet;
    if response.Err? {
      return Step([ProductMetafieldsSet(payload)], logs, Err(response.error));
    }
    var userError := EnsureNoUserErrors("metafieldsSet", response.value);
    s := Step([ProductMetafieldsSet(payload)], logs, if userError.Some? then Err(userError.value) else Ok(()));
  }

  /** The variants step on a non-empty variant list. */
  method CreateVariants(productKey: string, productId: string, build: B.BuildResult, created: CreateResponse,
                        services: Services, ctx: Context) returns (s: Step<()>)
    requires build.variants != []
    ensures s == VariantCreation(productKey, productId, build, created, services, ctx)
  {
    var logs := [Entry(ctx.now, "publish:shopify:variants", productKey, "Creating " + NatToString(|build.variants|) + " variants")];
    var optionIdByName: map<string, string> := map[];
    if ctx.hasProductOptions {
      optionIdByName := BuildOptionIds(created.options);
    }
    var variantsInput := VariantInputs(build.variants, build.price, ctx.hasProductOptions, optionIdByName, ctx.locationId);
    var calls := [VariantsBulkCreate(productId, variantsInput)];
    var response := services.variantsBulkCreate;
    if response.Err? {
      return Step(calls, logs, Err(response.error));
    }
    var userError := EnsureNoUserErrors("productVariantsBulkCreate", response.value.userErrors);
    if userError.Some? {
      return Step(calls, logs, Err(userError.value));
    }
    var entries := VariantMetafieldEntries(response.value.productVariants.GetOr([]), ctx.variantMetafields);
    if entries == [] {
      return Step(calls, logs, Ok(()));
    }
    logs := logs + [Entry(ctx.now, "publish:shopify:variant-metafields", productKey,
                          "Setting " + NatToString(|entries|) + " variant metafields")];
    var written := VariantMetafieldsWrite(entries, services);
    s := Step(calls + written.calls, logs, if written.error.Some? then Err(written.error.value) else Ok(()));
  }

  // ---------------------------------------------------------------------------
  // Properties of a publish

  /** The ledger columns are not copy columns. */
  lemma LedgerColumnsNotCopy()
    ensures !(Constants.STATUS == Constants.TITLE || Constants.STATUS == Constants.DESCRIPTION ||
              Constants.STATUS == Constants.TAGS || Constants.STATUS == Constants.META_DESCRIPTION)
    ensures !(Constants.SHOPIFY_PRODUCT_ID == Constants.TITLE || Constants.SHOPIFY_PRODUCT_ID == Constants.DESCRIPTION ||
              Constants.SHOPIFY_PRODUCT_ID == Constants.TAGS || Constants.SHOPIFY_PRODUCT_ID == Constants.META_DESCRIPTION)
    ensures !(Constants.UPDATED_AT == Constants.TITLE || Constants.UPDATED_AT == Constants.DESCRIPTION ||
              Constants.UPDATED_AT == Constants.TAGS || Constants.UPDATED_AT == Constants.META_DESCRIPTION)
    ensures Constants.STATUS != Constants.SHOPIFY_PRODUCT_ID && Constants.STATUS != Constants.UPDATED_AT
  {
    assert Constants.STATUS[0] == 'S' && Constants.SHOPIFY_PRODUCT_ID[1] == 'h' && Constants.UPDATED_AT[0] == 'U';
    assert Constants.TITLE[0] == 'T' && Constants.DESCRIPTION[0] == 'D' && Constants.TAGS[0] == 'T';
    assert Constants.META_DESCRIPTION[0] == 'M' && Constants.STATUS[1] == 't';
  }

  /** The ledger step writes Status COMPLETE (the CREATED default is overridden), the product
      id and UpdatedAt, and carries every copy column as built. */
  lemma CompletionUpdatesWritten(productId: string, sheetUpdates: seq<(string, string)>, now: string)
    requires UniqueKeys(sheetUpdates) && CopyOnly(sheetUpdates)
    ensures var u := CompletionUpdates(productId, sheetUpdates, now);
      Get(u, Constants.STATUS) == Some(Some(Constants.STATUS_COMPLETE)) &&
      Get(u, Constants.SHOPIFY_PRODUCT_ID) == Some(Some(productId)) &&
      Get(u, Constants.UPDATED_AT) == Some(Some(now)) &&
      forall k :: Get(sheetUpdates, k).Some? ==> Get(u, k) == Some(Some(Get(sheetUpdates, k).value))
  {
    LedgerColumnsNotCopy();
    var marked := Put(sheetUpdates, Constants.STATUS, Constants.STATUS_COMPLETE);
    var extra := AsUpdates(marked);
    assert Get(sheetUpdates, Constants.SHOPIFY_PRODUCT_ID).None? && Get(sheetUpdates, Constants.UPDATED_AT).None?;
    assert Get(extra, Constants.SHOPIFY_PRODUCT_ID).None? && Get(extra, Constants.UPDATED_AT).None?;
    assert Get(extra, Constants.STATUS) == Some(Some(Constants.STATUS_COMPLETE));
    forall k | Get(sheetUpdates, k).Some?
      ensures Get(extra, k) == Some(Some(Get(sheetUpdates, k).value))
    {
      assert k != Constants.STATUS;
    }
  }

  /** What a publish leaves behind. A row without a product key is refused before any
      call or log entry. Otherwise the row is written exactly when every step succeeded;
      a failure writes one error entry naming the message, ends the log with
      `publish:error`, and makes no call past the metafields step. */
  lemma PublishOutcome(row: SheetRow, services: Services, ctx: Context)
    ensures var p := Publish(row, services, ctx);
      (p.result.success <==> p.rowUpdates.Some?) &&
      (p.result.success ==> p.result.productId.Some? && p.result.productId.value != "" && p.result.error.None? &&
                            p.errors == [] && UpdateRow(p.result.productId.value) in p.calls) &&
      (!p.result.success ==> p.result.productId.None? && p.result.error.Some? &&
                             forall i :: 0 <= i < |p.calls| ==> Rank(p.calls[i]) <= 10)
    ensures var p := Publish(row, services, ctx);
      GetString(row, Constants.PRODUCT_KEY).None? ==>
        p.calls == [] && p.logs == [] && p.errors == [] && p.result.error == Some(MISSING_PRODUCT_KEY)
    ensures var p := Publish(row, services, ctx);
      GetString(row, Constants.PRODUCT_KEY).Some? && !p.result.success ==>
        |p.errors| == 1 && p.errors[0].message == p.result.error.value &&
        p.errors[0].productKey == GetString(row, Constants.PRODUCT_KEY) &&
        p.logs != [] && p.logs[|p.logs| - 1].action == "publish:error"
  {
    match GetString(row, Constants.PRODUCT_KEY)
    case None =>
    case Some(productKey) =>
      var attempt := Attempt(row, productKey, services, ctx);
      if attempt.result.Ok? {
        ConcludeOk(productKey, attempt, ctx.now);
        var done := attempt.result.value;
        assert (attempt.calls + [UpdateRow(done.productId)] + ArchiveCalls(done.assets))[|attempt.calls|] == UpdateRow(done.productId);
      } else {
        ConcludeErr(productKey, attempt, ctx.now);
      }
  }

  /** The calls of a publish follow the order of its steps: content, pattern lookups,
      assets, product, variants, variant metafields, image reads, staged targets, uploads,
      media, metafields, ledger, archive. */
  lemma PublishInOrder(row: SheetRow, services: Services, ctx: Context)
    ensures InOrder(Publish(row, services, ctx).calls)
  {
    match GetString(row, Constants.PRODUCT_KEY)
    case None =>
    case Some(productKey) =>
      ConcludeInOrder(productKey, Attempt(row, productKey, services, ctx), ctx.now);
  }

  lemma ConcludeInOrder(productKey: string, attempt: Step<Published>, now: string)
    requires attempt.result.Ok? ==> UniqueKeys(attempt.result.value.sheetUpdates)
    requires InOrder(attempt.calls) && Within(attempt.calls, 0, 10)
    ensures InOrder(Conclude(productKey, attempt, now).calls)
  {
    if attempt.result.Ok? {
      ConcludeOk(productKey, attempt, now);
      LedgerCallsInOrder(attempt.calls, attempt.result.value.productId, attempt.result.value.assets);
    } else {
      ConcludeErr(productKey, attempt, now);
    }
  }

  lemma LedgerCallsInOrder(calls: seq<Call>, productId: string, assets: seq<ImageAsset>)
    requires InOrder(calls) && Within(calls, 0, 10)
    ensures InOrder(calls + [UpdateRow(productId)] + ArchiveCalls(assets))
  {
    SameRank([UpdateRow(productId)], 11);
    InOrderAppend(calls, [UpdateRow(productId)], 0, 10, 11);
    SameRank(ArchiveCalls(assets), 12);
    InOrderAppend(calls + [UpdateRow(productId)], ArchiveCalls(assets), 0, 11, 12);
  }

  /** When `productCreate` answers without user errors but without a product id, the
      publish fails with the missing-id message, the row is not written, and no call
      follows `productCreate`. */
  lemma MissingIdStops(row: SheetRow, services: Services, ctx: Context)
    requires GetString(row, Constants.PRODUCT_KEY).Some? && Preparation(row, services, ctx).result.Ok?
    requires services.productCreate.Ok? && EnsureNoUserErrors("productCreate", services.productCreate.value.userErrors).None?
    requires services.productCreate.value.productId.None? || services.productCreate.value.productId.value == ""
    ensures var p := Publish(row, services, ctx);
      p.result == PublishResult(false, None, Some(NO_PRODUCT_ID)) && p.rowUpdates.None? &&
      p.calls != [] && p.calls[|p.calls| - 1].ProductCreate? && Within(p.calls, 0, 3)
  {
    var productKey := GetString(row, Constants.PRODUCT_KEY).value;
    PublishConcludes(row, services, ctx);
    AttemptStopsAtCreate(row, productKey, services, ctx);
    ConcludeStops(productKey, Attempt(row, productKey, services, ctx), ctx.now);
  }

  lemma PublishConcludes(row: SheetRow, services: Services, ctx: Context)
    requires GetString(row, Constants.PRODUCT_KEY).Some?
    ensures var productKey := GetString(row, Constants.PRODUCT_KEY).value;
      Publish(row, services, ctx) == Conclude(productKey, Attempt(row, productKey, services, ctx), ctx.now)
  {
  }

  lemma ConcludeStops(productKey: string, attempt: Step<Published>, now: string)
    requires attempt.result.Err?
    ensures var p := Conclude(productKey, attempt, now);
      p.result == PublishResult(false, None, Some(attempt.result.error)) && p.rowUpdates.None? && p.calls == attempt.calls
  {
  }

  lemma AttemptStopsAtCreate(row: SheetRow, productKey: string, services: Services, ctx: Context)
    requires Preparation(row, services, ctx).result.Ok?
    requires services.productCreate.Ok? && EnsureNoUserErrors("productCreate", services.productCreate.value.userErrors).None?
    requires services.productCreate.value.productId.None? || services.productCreate.value.productId.value == ""
    ensures var a := Attempt(row, productKey, services, ctx);
      a.result == Err(NO_PRODUCT_ID) && a.calls != [] && a.calls[|a.calls| - 1].ProductCreate? && Within(a.calls, 0, 3)
  {
    var prepared := Preparation(row, services, ctx);
    var build := prepared.result.value.build;
    var rest := ShopifySteps(productKey, prepared.result.value, services, ctx);
    assert rest.calls == [ProductCreate(build.productInput)] && rest.result == Err(NO_PRODUCT_ID);
    CreateLast(prepared.calls, build.productInput);
  }

  lemma CreateLast(calls: seq<Call>, input: B.ProductInput)
    requires Within(calls, 0, 2)
    ensures var cs := calls + [ProductCreate(input)];
      cs[|cs| - 1].ProductCreate? && Within(cs, 0, 3)
  {
  }

  /** After a successful publish the row's Status cell reads COMPLETE; after a failed one
      the products grid is untouched. */
  lemma PublishedRowReadsComplete(hm: map<string, nat>, grid: seq<seq<CellValue>>, i: nat, services: Services, ctx: Context)
    requires !Reserved(hm) && Injective(hm) && i < |grid| && Constants.STATUS in hm
    ensures var row := DataRows(hm, grid)[i];
      var p := Publish(row, services, ctx);
      var after := GridAfter(grid, row, p);
      (p.result.success ==> |DataRows(hm, after)| == |grid| &&
                            Cell(DataRows(hm, after)[i], Constants.STATUS) == Some(Constants.STATUS_COMPLETE)) &&
      (!p.result.success ==> after == grid)
  {
    var row := DataRows(hm, grid)[i];
    var p := Publish(row, services, ctx);
    PublishOutcome(row, services, ctx);
    if p.result.success {
      var productKey := GetString(row, Constants.PRODUCT_KEY).value;
      var attempt := Attempt(row, productKey, services, ctx);
      ConcludeOk(productKey, attempt, ctx.now);
      var done := attempt.result.value;
      CompletionUpdatesWritten(done.productId, done.sheetUpdates, ctx.now);
      WrittenColumnReadsBack(hm, grid, i, p.rowUpdates.value, Constants.STATUS);
      CompleteReadsBack();
    }
  }

  lemma CompleteReadsBack()
    ensures NonBlank(Constants.STATUS_COMPLETE) == Some(Constants.STATUS_COMPLETE)
  {
    NonBlankOfClean(Constants.STATUS_COMPLETE);
  }
}
