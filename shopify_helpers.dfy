/** The listing helpers: trimmed row reads, slugs and handles, size parsing, variant
    building, tag merging, the metafield sources of a row and the copy resolvers. */
module ShopifyHelpers {
  import opened Wrappers
  import opened Text
  import opened Lists
  import opened Sorting
  import opened Records
  import opened Schemas
  import Constants

  /** `getString`: the trimmed value of a column, absent when missing or blank. */
  function GetString(row: SheetRow, key: string): (r: Option<string>)
    ensures r.Some? <==> Cell(row, key).Some? && Trim(Cell(row, key).value) != []
    ensures r.Some? ==> r.value == Trim(Cell(row, key).value) && Clean(r.value)
  {
    match Cell(row, key)
    case None => None
    case Some(v) => NonBlank(v)
  }

  // ---------------------------------------------------------------------------
  // Slugs and handles

  predicate IsDash(c: char) {
    c == '-'
  }

  /** `slugify`: trim, lower-case, turn every run of characters outside `[a-z0-9]` into
      one `-`, strip `-` from both ends. */
  function Slugify(s: string): string {
    TrimBy(ReplaceRuns(ToLower(Trim(s)), IsLowerAlnum, '-'), IsDash)
  }

  /** A slug is words of `[a-z0-9]` joined by single `-`: no other character, no `-` at
      either end and no `--`. */
  lemma SlugifyShape(s: string)
    ensures Words(Slugify(s), '-')
  {
    var lowered := ToLower(Trim(s));
    ReplaceRunsSquashed(lowered, IsLowerAlnum, '-');
    TrimmedWords(ReplaceRuns(lowered, IsLowerAlnum, '-'), '-', IsDash);
  }

  lemma SlugifyIdempotent(s: string)
    ensures Slugify(Slugify(s)) == Slugify(s)
  {
    var n := Slugify(s);
    SlugifyShape(s);
    WordsSteps(n, '-');
    TrimByNoop(n, IsDash);
  }

  /** `(v ?? '').toString().trim()`, kept when non-empty. */
  function Candidate(v: Option<string>): Option<string> {
    NonBlank(v.GetOr(""))
  }

  /** The `buildHandle` base: the first non-blank of Handle, ProductKey, SKU and Title,
      trimmed, or `untitled`. */
  function HandleBase(row: SheetRow): (base: string)
    ensures base == GetString(row, Constants.HANDLE).OrElse(GetString(row, Constants.PRODUCT_KEY))
      .OrElse(GetString(row, Constants.SKU)).OrElse(GetString(row, Constants.TITLE)).GetOr("untitled")
    ensures Clean(base)
  {
    var h, p, k, t := Cell(row, Constants.HANDLE), Cell(row, Constants.PRODUCT_KEY), Cell(row, Constants.SKU), Cell(row, Constants.TITLE);
    var candidates := FilterMap([h, p, k, t], Candidate);
    CandidatesOfFour(h, p, k, t);
    CandidateOfCell(row, Constants.HANDLE);
    CandidateOfCell(row, Constants.PRODUCT_KEY);
    CandidateOfCell(row, Constants.SKU);
    CandidateOfCell(row, Constants.TITLE);
    if candidates == [] then "untitled" else candidates[0]
  }

  /** The kept form of one candidate, as a list of zero or one values. */
  function Kept(v: Option<string>): seq<string> {
    if Candidate(v).Some? then [Candidate(v).value] else []
  }

  lemma CandidatesOfFour(a: Option<string>, b: Option<string>, c: Option<string>, d: Option<string>)
    ensures FilterMap([a, b, c, d], Candidate) == Kept(a) + (Kept(b) + (Kept(c) + Kept(d)))
  {
    var xs := [a, b, c, d];
    FourTails(a, b, c, d);
    CandidatesStep(xs);
    CandidatesStep(xs[1..]);
    CandidatesStep(xs[1..][1..]);
    CandidatesStep(xs[1..][1..][1..]);
    Chain(FilterMap(xs, Candidate), FilterMap(xs[1..], Candidate), FilterMap(xs[1..][1..], Candidate),
          FilterMap(xs[1..][1..][1..], Candidate), Kept(a), Kept(b), Kept(c), Kept(d));
  }

  lemma Chain(f4: seq<string>, f3: seq<string>, f2: seq<string>, f1: seq<string>,
              ka: seq<string>, kb: seq<string>, kc: seq<string>, kd: seq<string>)
    requires f4 == ka + f3 && f3 == kb + f2 && f2 == kc + f1 && f1 == kd + []
    ensures f4 == ka + (kb + (kc + kd))
  {
  }

  lemma CandidatesStep(xs: seq<Option<string>>)
    requires xs != []
    ensures FilterMap(xs, Candidate) == Kept(xs[0]) + FilterMap(xs[1..], Candidate)
    ensures |xs| == 1 ==> FilterMap(xs, Candidate) == Kept(xs[0]) + []
  {
  }

  lemma FourTails<X>(a: X, b: X, c: X, d: X)
    ensures [a, b, c, d][1..] == [b, c, d] && [b, c, d][1..] == [c, d] && [c, d][1..] == [d] && [d][1..] == []
  {
  }

  lemma CandidateOfCell(row: SheetRow, key: string)
    ensures Candidate(Cell(row, key)) == GetString(row, key)
  {
    if Cell(row, key).None? {
      assert Trim("") == "";
    }
  }

  /** `buildHandle`: the slug of the base, `-`, and the clock reading `now` in decimal. */
  function BuildHandle(row: SheetRow, now: nat): (handle: string)
    ensures |handle| > |Slugify(HandleBase(row))|
    ensures handle[..|Slugify(HandleBase(row))|] == Slugify(HandleBase(row))
    ensures handle[|Slugify(HandleBase(row))|] == '-'
    ensures ParseInt(handle[|Slugify(HandleBase(row))| + 1..]) == Some(now)
  {
    var slug := Slugify(HandleBase(row));
    HandleParts(slug, NatToString(now));
    ParseIntOfNatToString(now);
    slug + "-" + NatToString(now)
  }

  lemma HandleParts(slug: string, digits: string)
    ensures var h := slug + "-" + digits;
      |h| > |slug| && h[..|slug|] == slug && h[|slug|] == '-' && h[|slug| + 1..] == digits
  {
  }

  // ---------------------------------------------------------------------------
  // Sizes and variants

  const ONE_SIZE: string := "One-size"

  /** A value kept by the `SIZE_OPTIONS.includes` filter. */
  function SizeOption(v: string): (r: Option<string>)
    ensures r.Some? <==> v in Constants.SIZE_OPTIONS
    ensures r.Some? ==> r.value == v
  {
    if v in Constants.SIZE_OPTIONS then Some(v) else None
  }

  /** One comma-separated part, trimmed, when it names a size. */
  function SizeOfPart(part: string): Option<string> {
    SizeOption(Trim(part))
  }

  /** The trimmed non-blank parts of `raw` that name sizes, in order. */
  function RecognisedSizes(raw: string): (r: seq<string>)
    ensures forall i :: 0 <= i < |r| ==> r[i] in Constants.SIZE_OPTIONS
  {
    var r := FilterMap(FilterMap(Split(raw, ','), NonBlank), SizeOption);
    forall i | 0 <= i < |r|
      ensures r[i] in Constants.SIZE_OPTIONS
    {
      FilterMapMembership(FilterMap(Split(raw, ','), NonBlank), SizeOption, r[i]);
    }
    r
  }

  /** `parseSizes`: `One-size` for an absent or empty value or when no part names a
      size; otherwise the sizes named, in order. */
  function ParseSizes(raw: Option<string>): (r: seq<string>)
    ensures r != []
    ensures forall i :: 0 <= i < |r| ==> r[i] in Constants.SIZE_OPTIONS
    ensures raw.None? || raw.value == [] ==> r == [ONE_SIZE]
  {
    if raw.None? || raw.value == [] then [ONE_SIZE]
    else
      var normalized := RecognisedSizes(raw.value);
      if normalized == [] then [ONE_SIZE] else normalized
  }

  /** The sizes are the parts, each trimmed, that name a size: one pass over the parts
      gives what the two filters give. */
  lemma ParseSizesParts(raw: string)
    requires raw != []
    ensures var sizes := FilterMap(Split(raw, ','), SizeOfPart);
      ParseSizes(Some(raw)) == if sizes == [] then [ONE_SIZE] else sizes
  {
    SizesInOrder(Split(raw, ','));
  }

  /** A size is listed exactly when some part trims to it. */
  lemma ParseSizesMembers(raw: string, x: string)
    requires raw != []
    requires FilterMap(Split(raw, ','), SizeOfPart) != []
    ensures x in ParseSizes(Some(raw)) <==>
      x in Constants.SIZE_OPTIONS && exists i :: 0 <= i < |Split(raw, ',')| && Trim(Split(raw, ',')[i]) == x
  {
    ParseSizesParts(raw);
    FilterMapMembership(Split(raw, ','), SizeOfPart, x);
  }

  lemma {:induction false} SizesInOrder(parts: seq<string>)
    ensures FilterMap(FilterMap(parts, NonBlank), SizeOption) == FilterMap(parts, SizeOfPart)
    decreases |parts|
  {
    if parts != [] {
      SizesInOrder(parts[1..]);
      var head := if NonBlank(parts[0]).Some? then [NonBlank(parts[0]).value] else [];
      FilterMapAppend(head, FilterMap(parts[1..], NonBlank), SizeOption);
      HeadSize(parts[0]);
    }
  }

  /** One part through both filters is the part through `SizeOfPart`. */
  lemma HeadSize(part: string)
    ensures FilterMap(if NonBlank(part).Some? then [NonBlank(part).value] else [], SizeOption) ==
      if SizeOfPart(part).Some? then [SizeOfPart(part).value] else []
  {
    assert "" !in Constants.SIZE_OPTIONS;
    if NonBlank(part).Some? {
      assert [NonBlank(part).value][1..] == [];
    }
  }

  /** One variant of a size. */
  function VariantFor(size: string, sku: string, price: Option<string>): VariantSpec {
    VariantSpec(size, sku + "-" + size, [OptionValue("Size", size)], price, None)
  }

  /** `buildVariants`: one variant per size, in order, titled by its size, with SKU
      `<trimmed base>-<size>`, a single Size option and the shared price. */
  function BuildVariants(sizes: seq<string>, baseSku: string, price: Option<string>): (r: seq<VariantSpec>)
    ensures |r| == |sizes|
    ensures forall i :: 0 <= i < |r| ==>
      r[i].title == sizes[i] && r[i].sku == Trim(baseSku) + "-" + sizes[i] &&
      r[i].optionValues == [OptionValue("Size", sizes[i])] &&
      r[i].price == price && r[i].inventoryQuantity.None?
    decreases |sizes|
  {
    if sizes == [] then []
    else [VariantFor(sizes[0], Trim(baseSku), price)] + BuildVariants(sizes[1..], baseSku, price)
  }

  /** Distinct sizes give distinct SKUs. */
  lemma VariantSkusDistinct(sizes: seq<string>, baseSku: string, price: Option<string>, i: nat, j: nat)
    requires i < j < |sizes| && sizes[i] != sizes[j]
    ensures BuildVariants(sizes, baseSku, price)[i].sku != BuildVariants(sizes, baseSku, price)[j].sku
  {
    var stem := Trim(baseSku) + "-";
    SuffixOfSku(stem, sizes[i]);
    SuffixOfSku(stem, sizes[j]);
  }

  lemma SuffixOfSku(stem: string, size: string)
    ensures (stem + size)[|stem|..] == size
  {
  }

  // ---------------------------------------------------------------------------
  // Tags

  /** The sheet tags: the comma-separated parts, trimmed, without blanks. */
  function ExplicitTags(sheetTags: Option<string>): seq<string> {
    FilterMap(Split(sheetTags.GetOr(""), ','), NonBlank)
  }

  /** The generated tags, trimmed, without blanks. */
  function GeneratedTags(aiTags: Option<seq<string>>): seq<string> {
    FilterMap(aiTags.GetOr([]), NonBlank)
  }

  /** What `mergeTags` returns: sheet tags then generated tags, each kept where it first
      occurs. */
  function MergedTags(sheetTags: Option<string>, aiTags: Option<seq<string>>): seq<string> {
    Dedup(ExplicitTags(sheetTags) + GeneratedTags(aiTags))
  }

  /** `mergeTags`: adds the sheet tags and then the generated tags to an insertion
      ordered set and lists it. */
  method MergeTags(sheetTags: Option<string>, aiTags: Option<seq<string>>) returns (tags: seq<string>)
    ensures tags == MergedTags(sheetTags, aiTags)
  {
    var explicitTags := ExplicitTags(sheetTags);
    var generatedTags := GeneratedTags(aiTags);
    var seen: set<string> := {};
    tags := [];
    tags, seen := AddAll(tags, seen, [], explicitTags);
    assert [] + explicitTags == explicitTags;
    tags, seen := AddAll(tags, seen, explicitTags, generatedTags);
  }

  /** `xs.forEach(x => set.add(x))` on a set listed as `tags` with members `seen`. */
  method AddAll(tags: seq<string>, seen: set<string>, ghost before: seq<string>, xs: seq<string>)
    returns (tags': seq<string>, seen': set<string>)
    requires tags == Dedup(before) && forall t :: t in seen <==> t in tags
    ensures tags' == Dedup(before + xs) && forall t :: t in seen' <==> t in tags'
  {
    tags', seen' := tags, seen;
    assert before + xs[..0] == before;
    for i := 0 to |xs|
      invariant tags' == Dedup(before + xs[..i])
      invariant forall t :: t in seen' <==> t in tags'
    {
      assert before + xs[..i + 1] == (before + xs[..i]) + [xs[i]];
      DedupSnoc(before + xs[..i], xs[i]);
      if xs[i] !in seen' {
        tags' := tags' + [xs[i]];
        seen' := seen' + {xs[i]};
      }
    }
    assert xs[..|xs|] == xs;
  }

  /** The merged tags are trimmed and non-blank, repeat nothing, are exactly the sheet and
      generated tags, start with the sheet tags in their order, and continue with
      generated tags that are not sheet tags. */
  lemma MergedTagsProperties(sheetTags: Option<string>, aiTags: Option<seq<string>>)
    ensures var m := MergedTags(sheetTags, aiTags);
      Distinct(m) &&
      (forall i :: 0 <= i < |m| ==> Clean(m[i])) &&
      (forall t :: t in m <==> t in ExplicitTags(sheetTags) || t in GeneratedTags(aiTags))
    ensures var m := MergedTags(sheetTags, aiTags);
      var first := Dedup(ExplicitTags(sheetTags));
      |first| <= |m| && m[..|first|] == first &&
      forall i :: |first| <= i < |m| ==> m[i] in GeneratedTags(aiTags) && m[i] !in ExplicitTags(sheetTags)
  {
    var e := ExplicitTags(sheetTags);
    var g := GeneratedTags(aiTags);
    var m := Dedup(e + g);
    DedupDistinct(e + g);
    DedupPrefix(e, g);
    forall t
      ensures t in m <==> t in e || t in g
    {
      DedupMembers(e + g, t);
    }
    forall i | 0 <= i < |m|
      ensures Clean(m[i])
    {
      DedupMembers(e + g, m[i]);
      if m[i] in e {
        FilterMapMembership(Split(sheetTags.GetOr(""), ','), NonBlank, m[i]);
      } else {
        FilterMapMembership(aiTags.GetOr([]), NonBlank, m[i]);
      }
    }
    forall i | |Dedup(e)| <= i < |m|
      ensures m[i] in g && m[i] !in e
    {
      DedupRest(e, g, i);
    }
  }

  // ---------------------------------------------------------------------------
  // Metafields

  /** One product metafield input. */
  datatype MetafieldInput = MetafieldInput(namespace: string, key: string, valueType: string, value: string)

  /** The sheet values of the metafield columns, in column order. */
  function SheetSources(row: SheetRow, keys: seq<string>): (r: seq<(string, string)>)
    decreases |keys|
  {
    if keys == [] then []
    else
      var s := SheetSources(row, keys[..|keys| - 1]);
      var k := keys[|keys| - 1];
      if GetString(row, k).Some? then Put(s, k, GetString(row, k).value) else s
  }

  /** `!sources[key]`: no value, or the empty string. */
  predicate Unset(sources: seq<(string, string)>, key: string) {
    Get(sources, key).None? || Get(sources, key).value == ""
  }

  /** The generated entries fill keys that are still unset with non-blank values. */
  function AiFill(sources: seq<(string, string)>, entries: seq<(string, string)>): (r: seq<(string, string)>)
    decreases |entries|
  {
    if entries == [] then sources
    else
      var s := AiFill(sources, entries[..|entries| - 1]);
      var e := entries[|entries| - 1];
      if Unset(s, e.0) && Trim(e.1) != [] then Put(s, e.0, e.1) else s
  }

  /** The `sources` record of `metafieldsFromRow`. */
  function Sources(row: SheetRow, aiContent: Option<AIContent>, keys: seq<string>): seq<(string, string)> {
    var s := SheetSources(row, keys);
    if aiContent.Some? && aiContent.value.metafields.Some? then AiFill(s, aiContent.value.metafields.value) else s
  }

  function AsMetafield(e: (string, string)): MetafieldInput {
    MetafieldInput("custom", e.0, "single_line_text_field", e.1)
  }

  /** What `metafieldsFromRow` returns: one `custom` single-line text metafield per
      source entry, in record order. */
  function RowMetafields(row: SheetRow, aiContent: Option<AIContent>, keys: seq<string>): (r: seq<MetafieldInput>)
    ensures |r| == |Sources(row, aiContent, keys)|
    ensures forall i :: 0 <= i < |r| ==> r[i] == AsMetafield(Sources(row, aiContent, keys)[i])
  {
    var s := Sources(row, aiContent, keys);
    seq(|s|, i requires 0 <= i < |s| => AsMetafield(s[i]))
  }

  /** `metafieldsFromRow`, with the metafield column names as `metafieldKeys`. */
  method MetafieldsFromRow(row: SheetRow, aiContent: Option<AIContent>, metafieldKeys: seq<string>)
    returns (metafields: seq<MetafieldInput>)
    ensures metafields == RowMetafields(row, aiContent, metafieldKeys)
  {
    var sources := CollectSheetValues(row, metafieldKeys);
    if aiContent.Some? && aiContent.value.metafields.Some? {
      sources := FillFromAi(sources, aiContent.value.metafields.value);
    }
    metafields := [];
    for j := 0 to |sources|
      invariant |metafields| == j
      invariant forall i :: 0 <= i < j ==> metafields[i] == AsMetafield(sources[i])
    {
      metafields := metafields + [AsMetafield(sources[j])];
    }
  }

  /** The loop over the metafield columns: each non-blank sheet value is recorded. */
  method CollectSheetValues(row: SheetRow, metafieldKeys: seq<string>) returns (sources: seq<(string, string)>)
    ensures sources == SheetSources(row, metafieldKeys)
  {
    sources := [];
    for i := 0 to |metafieldKeys|
      invariant sources == SheetSources(row, metafieldKeys[..i])
    {
      assert metafieldKeys[..i + 1][..i] == metafieldKeys[..i];
      var sheetValue := GetString(row, metafieldKeys[i]);
      if sheetValue.Some? {
        sources := Put(sources, metafieldKeys[i], sheetValue.value);
      }
    }
    assert metafieldKeys[..|metafieldKeys|] == metafieldKeys;
  }

  /** The loop over the generated metafields: a non-blank value fills an unset key. */
  method FillFromAi(sources: seq<(string, string)>, entries: seq<(string, string)>) returns (filled: seq<(string, string)>)
    ensures filled == AiFill(sources, entries)
  {
    filled := sources;
    for j := 0 to |entries|
      invariant filled == AiFill(sources, entries[..j])
    {
      assert entries[..j + 1][..j] == entries[..j];
      var (key, value) := entries[j];
      if Unset(filled, key) && Trim(value) != [] {
        filled := Put(filled, key, value);
      }
    }
    assert entries[..|entries|] == entries;
  }

  /** Every value present is non-empty. */
  ghost predicate Filled(sources: seq<(string, string)>) {
    forall k :: Get(sources, k).Some? ==> Get(sources, k).value != ""
  }

  /** The sheet sources hold exactly the non-blank metafield columns of the row. */
  lemma {:induction false} SheetSourcesGet(row: SheetRow, keys: seq<string>)
    ensures forall k :: Get(SheetSources(row, keys), k) == if k in keys then GetString(row, k) else None
    ensures UniqueKeys(SheetSources(row, keys))
    decreases |keys|
  {
    if keys != [] {
      var init := keys[..|keys| - 1];
      SheetSourcesGet(row, init);
      assert keys == init + [keys[|keys| - 1]];
    }
  }

  /** A generated entry whose value is usable for `key`. */
  predicate Usable(e: (string, string), key: string) {
    e.0 == key && Trim(e.1) != []
  }

  /** The value of the first generated entry usable for `key`. */
  function FirstUsable(entries: seq<(string, string)>, key: string): (r: Option<string>)
    ensures r.Some? ==> Trim(r.value) != []
    decreases |entries|
  {
    if entries == [] then None
    else
      var f := FirstUsable(entries[..|entries| - 1], key);
      if f.Some? then f
      else if Usable(entries[|entries| - 1], key) then Some(entries[|entries| - 1].1)
      else None
  }

  /** The search finds nothing exactly when no entry is usable, and otherwise the value of
      a usable entry with none before it. */
  lemma {:induction false} FirstUsableIsFirst(entries: seq<(string, string)>, key: string)
    ensures var r := FirstUsable(entries, key);
      (r.None? <==> forall i :: 0 <= i < |entries| ==> !Usable(entries[i], key)) &&
      (r.Some? ==> exists i :: 0 <= i < |entries| && entries[i] == (key, r.value) &&
                              forall j :: 0 <= j < i ==> !Usable(entries[j], key))
    decreases |entries|
  {
    FirstUsableNone(entries, key);
    FirstUsableSome(entries, key);
    var r := FirstUsable(entries, key);
    if r.Some? {
      var i :| FirstUsableAt(entries, key, i, r.value);
    }
  }

  /** Entry `i` holds `v` for `key` and no entry before it is usable. */
  predicate FirstUsableAt(entries: seq<(string, string)>, key: string, i: int, v: string) {
    0 <= i < |entries| && entries[i] == (key, v) && forall j :: 0 <= j < i ==> !Usable(entries[j], key)
  }

  lemma {:induction false} FirstUsableNone(entries: seq<(string, string)>, key: string)
    ensures FirstUsable(entries, key).None? <==> forall i :: 0 <= i < |entries| ==> !Usable(entries[i], key)
    decreases |entries|
  {
    if entries != [] {
      var init := entries[..|entries| - 1];
      FirstUsableNone(init, key);
      UnusableSnoc(entries, init, key);
    }
  }

  lemma {:induction false} FirstUsableSome(entries: seq<(string, string)>, key: string)
    ensures FirstUsable(entries, key).Some? ==> exists i :: FirstUsableAt(entries, key, i, FirstUsable(entries, key).value)
    decreases |entries|
  {
    if entries != [] {
      var n := |entries| - 1;
      var init := entries[..n];
      FirstUsableSome(init, key);
      var prev := FirstUsable(init, key);
      if prev.Some? {
        var i :| FirstUsableAt(init, key, i, prev.value);
        UsableAtSnoc(entries, init, key, i, prev.value);
      } else if Usable(entries[n], key) {
        FirstUsableNone(init, key);
        UnusablePrefix(entries, init, key);
        assert FirstUsableAt(entries, key, n, entries[n].1);
      }
    }
  }

  /** Nothing usable in `entries` means nothing usable before its last entry and the last
      entry unusable. */
  lemma UnusableSnoc(entries: seq<(string, string)>, init: seq<(string, string)>, key: string)
    requires entries != [] && init == entries[..|entries| - 1]
    ensures (forall i :: 0 <= i < |entries| ==> !Usable(entries[i], key)) <==>
      (forall i :: 0 <= i < |init| ==> !Usable(init[i], key)) && !Usable(entries[|entries| - 1], key)
  {
    assert forall i :: 0 <= i < |init| ==> init[i] == entries[i];
  }

  /** Nothing usable before the last entry. */
  lemma UnusablePrefix(entries: seq<(string, string)>, init: seq<(string, string)>, key: string)
    requires entries != [] && init == entries[..|entries| - 1]
    requires forall i :: 0 <= i < |init| ==> !Usable(init[i], key)
    ensures forall j :: 0 <= j < |init| ==> !Usable(entries[j], key)
  {
    assert forall j :: 0 <= j < |init| ==> init[j] == entries[j];
  }

  /** A first usable entry before the last entry is still the first one. */
  lemma UsableAtSnoc(entries: seq<(string, string)>, init: seq<(string, string)>, key: string, i: int, v: string)
    requires entries != [] && init == entries[..|entries| - 1] && FirstUsableAt(init, key, i, v)
    ensures FirstUsableAt(entries, key, i, v)
  {
    assert forall j :: 0 <= j <= i ==> init[j] == entries[j];
  }

  /** After the fill, a key keeps a value it had and otherwise holds the first usable
      generated value, if any. */
  lemma {:induction false} AiFillGet(sources: seq<(string, string)>, entries: seq<(string, string)>)
    requires Filled(sources) && UniqueKeys(sources)
    ensures forall k :: Get(AiFill(sources, entries), k) ==
                        if Get(sources, k).Some? then Get(sources, k) else FirstUsable(entries, k)
    ensures Filled(AiFill(sources, entries)) && UniqueKeys(AiFill(sources, entries))
    decreases |entries|
  {
    if entries != [] {
      AiFillGet(sources, entries[..|entries| - 1]);
      forall k
        ensures Get(AiFill(sources, entries), k) == if Get(sources, k).Some? then Get(sources, k) else FirstUsable(entries, k)
      {
        AiFillAt(sources, entries, k);
      }
    }
  }

  /** One more generated entry, seen from one key. */
  lemma AiFillAt(sources: seq<(string, string)>, entries: seq<(string, string)>, k: string)
    requires entries != []
    requires Filled(AiFill(sources, entries[..|entries| - 1]))
    requires Get(AiFill(sources, entries[..|entries| - 1]), k) ==
      if Get(sources, k).Some? then Get(sources, k) else FirstUsable(entries[..|entries| - 1], k)
    ensures Get(AiFill(sources, entries), k) == if Get(sources, k).Some? then Get(sources, k) else FirstUsable(entries, k)
  {
    var init := entries[..|entries| - 1];
    var s := AiFill(sources, init);
    if k == entries[|entries| - 1].0 && Get(s, k).Some? {
      assert Get(s, k).value != "";
    }
  }

  /** Sheet values win and generated values only fill the keys the sheet leaves blank;
      no key is listed twice. */
  lemma SourcesGet(row: SheetRow, aiContent: Option<AIContent>, keys: seq<string>, k: string)
    ensures Get(Sources(row, aiContent, keys), k) ==
      if k in keys && GetString(row, k).Some? then GetString(row, k)
      else if aiContent.Some? && aiContent.value.metafields.Some? then FirstUsable(aiContent.value.metafields.value, k)
      else None
    ensures UniqueKeys(Sources(row, aiContent, keys))
  {
    SheetSourcesGet(row, keys);
    var s := SheetSources(row, keys);
    if aiContent.Some? && aiContent.value.metafields.Some? {
      assert Filled(s);
      AiFillGet(s, aiContent.value.metafields.value);
    }
  }

  /** Every metafield of a row is a `custom` single-line text field, and no two share a key. */
  lemma RowMetafieldsShape(row: SheetRow, aiContent: Option<AIContent>, keys: seq<string>)
    ensures var r := RowMetafields(row, aiContent, keys);
      (forall i :: 0 <= i < |r| ==> r[i].namespace == "custom" && r[i].valueType == "single_line_text_field") &&
      (forall i, j :: 0 <= i < j < |r| ==> r[i].key != r[j].key)
  {
    SourcesGet(row, aiContent, keys, "");
  }

  // ---------------------------------------------------------------------------
  // Copy resolvers

  /** `resolvedTitle`: the row's title, else the generated one. */
  function ResolvedTitle(row: SheetRow, aiContent: Option<AIContent>): (r: Option<string>)
    ensures GetString(row, Constants.TITLE).Some? ==> r == GetString(row, Constants.TITLE)
    ensures GetString(row, Constants.TITLE).None? ==> r == if aiContent.Some? then Some(aiContent.value.title) else None
  {
    GetString(row, Constants.TITLE).OrElse(if aiContent.Some? then Some(aiContent.value.title) else None)
  }

  /** `resolvedDescription`: the row's description, else the generated HTML description. */
  function ResolvedDescription(row: SheetRow, aiContent: Option<AIContent>): (r: Option<string>)
    ensures GetString(row, Constants.DESCRIPTION).Some? ==> r == GetString(row, Constants.DESCRIPTION)
    ensures GetString(row, Constants.DESCRIPTION).None? ==> r == if aiContent.Some? then aiContent.value.descriptionHtml else None
  {
    GetString(row, Constants.DESCRIPTION).OrElse(if aiContent.Some? then aiContent.value.descriptionHtml else None)
  }

  /** `resolvedMetaDescription`: the row's meta description, else the generated one. */
  function ResolvedMetaDescription(row: SheetRow, aiContent: Option<AIContent>): (r: Option<string>)
    ensures GetString(row, Constants.META_DESCRIPTION).Some? ==> r == GetString(row, Constants.META_DESCRIPTION)
    ensures GetString(row, Constants.META_DESCRIPTION).None? ==> r == if aiContent.Some? then aiContent.value.metaDescription else None
  {
    GetString(row, Constants.META_DESCRIPTION).OrElse(if aiContent.Some? then aiContent.value.metaDescription else None)
  }
}
