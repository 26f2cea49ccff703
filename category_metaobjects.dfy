/** Category metafields as Shopify standard metaobject references: the value helpers, the
    catalog of synonym tokens, metaobject references and taxonomy ids a metaobject type's
    listing yields, its per-type cache, the resolution of category values against it and
    the conversion of category metafields. */
module CategoryMetaobjects {
  import opened Wrappers
  import opened Text
  import opened Lists
  import opened Sorting
  import opened Paging
  import opened Keyed
  import opened ShopifyHelpers
  import Json

  const TAXONOMY_PREFIX := "gid://shopify/TaxonomyValue/"
  const METAOBJECT_PREFIX := "gid://shopify/Metaobject/"

  /** `JSON.parse` of a string, as far as these helpers look at it: the entries of the
      array it yields, a string entry as `Some` and any other entry as `None`; `None` when
      the text does not parse or does not parse to an array. */
  type JsonArrayParser = string -> Option<seq<Option<string>>>

  // ---------------------------------------------------------------------------
  // Value helpers

  /** `normalizeToken`: trim, lower-case, each run of characters outside `[a-z0-9]`
      becomes one space, trim again. */
  function NormalizeToken(value: string): string {
    Trim(ReplaceRuns(ToLower(Trim(value)), IsLowerAlnum, ' '))
  }

  /** A token is words of `[a-z0-9]` separated by single spaces. */
  lemma TokenShape(value: string)
    ensures Words(NormalizeToken(value), ' ')
  {
    ReplaceRunsSquashed(ToLower(Trim(value)), IsLowerAlnum, ' ');
    TrimmedWords(ReplaceRuns(ToLower(Trim(value)), IsLowerAlnum, ' '), ' ', IsWhite);
  }

  lemma NormalizeTokenIdempotent(value: string)
    ensures NormalizeToken(NormalizeToken(value)) == NormalizeToken(value)
  {
    TokenShape(value);
    WordsFixed(NormalizeToken(value));
  }

  /** Words are their own token. */
  lemma WordsFixed(n: string)
    requires Words(n, ' ')
    ensures NormalizeToken(n) == n
  {
    WordsSteps(n, ' ');
  }

  /** A token never looks like a reference: it has no `:`. */
  lemma TokenNotReference(value: string)
    ensures !StartsWith(NormalizeToken(value), METAOBJECT_PREFIX)
    ensures !StartsWith(NormalizeToken(value), TAXONOMY_PREFIX)
  {
    TokenShape(value);
    WordsNotReference(NormalizeToken(value));
  }

  lemma WordsNotReference(t: string)
    requires Words(t, ' ')
    ensures !StartsWith(t, METAOBJECT_PREFIX) && !StartsWith(t, TAXONOMY_PREFIX)
  {
    if |t| > 3 {
      assert t[3] != ':';
      ColonFourth(t, METAOBJECT_PREFIX);
      ColonFourth(t, TAXONOMY_PREFIX);
    }
  }

  lemma ColonFourth(t: string, prefix: string)
    requires |t| > 3 && t[3] != ':' && |prefix| > 3 && prefix[3] == ':'
    ensures !StartsWith(t, prefix)
  {
    if |prefix| <= |t| {
      assert t[..|prefix|][3] != prefix[3];
    }
  }

  /** The separators of the delimiter path, `/[,;/]/`. */
  predicate IsValueDelimiter(c: char) {
    c == ',' || c == ';' || c == '/'
  }

  /** The index of the first character satisfying `p`, or -1. */
  function FirstWhere(s: string, p: char -> bool): (i: int)
    ensures -1 <= i < |s|
    ensures i >= 0 ==> p(s[i]) && forall j :: 0 <= j < i ==> !p(s[j])
    ensures i < 0 ==> forall j :: 0 <= j < |s| ==> !p(s[j])
  {
    if s == [] then -1
    else if p(s[0]) then 0
    else
      var i := FirstWhere(s[1..], p);
      assert forall j :: 1 <= j < |s| ==> s[1..][j - 1] == s[j];
      if i < 0 then -1 else i + 1
  }

  /** No character of `s` satisfies `p`. */
  predicate Free(s: string, p: char -> bool) {
    forall i :: 0 <= i < |s| ==> !p(s[i])
  }

  /** `s.split(re)` for a regular expression matching single characters `p`. */
  function SplitWhere(s: string, p: char -> bool): (r: seq<string>)
    ensures |r| >= 1
    ensures forall k :: 0 <= k < |r| ==> Free(r[k], p)
    ensures Free(s, p) ==> r == [s]
    decreases |s|
  {
    var i := FirstWhere(s, p);
    if i < 0 then [s]
    else
      var rest := SplitWhere(s[i + 1..], p);
      PrefixFree(s, i, p);
      PiecesWithout([s[..i]], rest, p);
      [s[..i]] + rest
  }

  /** The text before the first character satisfying `p` is free of `p`. */
  lemma PrefixFree(s: string, i: int, p: char -> bool)
    requires 0 <= i < |s| && forall j :: 0 <= j < i ==> !p(s[j])
    ensures Free(s[..i], p)
  {
    assert forall j :: 0 <= j < i ==> s[..i][j] == s[j];
  }

  /** Pieces free of `p` joined with more pieces free of `p`. */
  lemma PiecesWithout(a: seq<string>, b: seq<string>, p: char -> bool)
    requires forall k :: 0 <= k < |a| ==> Free(a[k], p)
    requires forall k :: 0 <= k < |b| ==> Free(b[k], p)
    ensures forall k :: 0 <= k < |a + b| ==> Free((a + b)[k], p)
  {
    forall k | 0 <= k < |a + b|
      ensures Free((a + b)[k], p)
    {
      if k >= |a| {
        assert (a + b)[k] == b[k - |a|];
      } else {
        assert (a + b)[k] == a[k];
      }
    }
  }

  /** `.map(v => v.trim()).filter(Boolean)` on one part. */
  function TrimmedPart(part: string): (r: Option<string>)
    ensures r.Some? ==> r.value != "" && Trim(r.value) == r.value
  {
    TrimIdempotent(part);
    if Trim(part) == "" then None else Some(Trim(part))
  }

  /** The same on a parsed array entry, which is dropped unless it is a string. */
  function TrimmedEntry(entry: Option<string>): (r: Option<string>)
    ensures r.Some? ==> r.value != "" && Trim(r.value) == r.value
  {
    if entry.Some? then TrimmedPart(entry.value) else None
  }

  /** The text a JSON array is parsed from: `[...]` or `{...}`. */
  predicate Bracketed(t: string) {
    (StartsWith(t, "[") && EndsWith(t, "]")) || (StartsWith(t, "{") && EndsWith(t, "}"))
  }

  /** `extractValues`: the string entries of a JSON array, or else the parts between
      `,`, `;` and `/`, each trimmed, blanks dropped. */
  function ExtractValues(raw: string, parse: JsonArrayParser): (r: seq<string>)
    ensures forall i :: 0 <= i < |r| ==> r[i] != "" && Trim(r[i]) == r[i]
  {
    var trimmed := Trim(raw);
    if raw == "" || trimmed == "" then []
    else if Bracketed(trimmed) && parse(trimmed).Some? then
      TrimmedValues(parse(trimmed).value, TrimmedEntry)
    else TrimmedValues(SplitWhere(trimmed, IsValueDelimiter), TrimmedPart)
  }

  /** The defined results, which are trimmed and non-blank. */
  function TrimmedValues<X(!new)>(xs: seq<X>, f: X -> Option<string>): (r: seq<string>)
    requires forall x :: f(x).Some? ==> f(x).value != "" && Trim(f(x).value) == f(x).value
    ensures forall i :: 0 <= i < |r| ==> r[i] != "" && Trim(r[i]) == r[i]
  {
    FilterMapValues(xs, f);
    FilterMap(xs, f)
  }

  lemma FilterMapValues<X(!new)>(xs: seq<X>, f: X -> Option<string>)
    requires forall x :: f(x).Some? ==> f(x).value != "" && Trim(f(x).value) == f(x).value
    ensures forall i :: 0 <= i < |FilterMap(xs, f)| ==> FilterMap(xs, f)[i] != "" && Trim(FilterMap(xs, f)[i]) == FilterMap(xs, f)[i]
  {
    forall i | 0 <= i < |FilterMap(xs, f)|
      ensures FilterMap(xs, f)[i] != "" && Trim(FilterMap(xs, f)[i]) == FilterMap(xs, f)[i]
    {
      var y := FilterMap(xs, f)[i];
      FilterMapMembership(xs, f, y);
    }
  }

  /** Where no JSON array is read, the values are the parts between the delimiters, and
      none of them holds a delimiter. */
  lemma ExtractDelimited(raw: string, parse: JsonArrayParser)
    requires Trim(raw) != "" && !(Bracketed(Trim(raw)) && parse(Trim(raw)).Some?)
    ensures ExtractValues(raw, parse) == FilterMap(SplitWhere(Trim(raw), IsValueDelimiter), TrimmedPart)
    ensures forall k :: 0 <= k < |ExtractValues(raw, parse)| ==> NoDelimiter(ExtractValues(raw, parse)[k])
  {
    PartsUndelimited(SplitWhere(Trim(raw), IsValueDelimiter));
  }

  lemma PartsUndelimited(parts: seq<string>)
    requires forall k :: 0 <= k < |parts| ==> NoDelimiter(parts[k])
    ensures forall k :: 0 <= k < |FilterMap(parts, TrimmedPart)| ==> NoDelimiter(FilterMap(parts, TrimmedPart)[k])
  {
    forall k | 0 <= k < |FilterMap(parts, TrimmedPart)|
      ensures NoDelimiter(FilterMap(parts, TrimmedPart)[k])
    {
      PartsWithoutDelimiter(parts, FilterMap(parts, TrimmedPart)[k]);
    }
  }

  /** A value without delimiters is its own single value. */
  lemma ExtractUndelimited(raw: string, parse: JsonArrayParser)
    requires Trim(raw) != "" && !(Bracketed(Trim(raw)) && parse(Trim(raw)).Some?)
    requires NoDelimiter(Trim(raw))
    ensures ExtractValues(raw, parse) == [Trim(raw)]
  {
    TrimIdempotent(raw);
    assert SplitWhere(Trim(raw), IsValueDelimiter) == [Trim(raw)];
    assert FilterMap([Trim(raw)], TrimmedPart) == [Trim(raw)] + FilterMap([Trim(raw)][1..], TrimmedPart);
  }

  lemma PartsWithoutDelimiter(parts: seq<string>, v: string)
    requires forall k :: 0 <= k < |parts| ==> NoDelimiter(parts[k])
    requires v in FilterMap(parts, TrimmedPart)
    ensures NoDelimiter(v)
  {
    FilterMapMembership(parts, TrimmedPart, v);
    var j :| 0 <= j < |parts| && TrimmedPart(parts[j]) == Some(v);
    TrimmedPartUndelimited(parts[j]);
  }

  /** Trimming one part adds no delimiter. */
  lemma TrimmedPartUndelimited(part: string)
    requires NoDelimiter(part) && TrimmedPart(part).Some?
    ensures NoDelimiter(TrimmedPart(part).value)
  {
    TrimmedPartValue(part);
    TrimUndelimited(part);
  }

  lemma TrimmedPartValue(part: string)
    requires TrimmedPart(part).Some?
    ensures TrimmedPart(part).value == Trim(part)
  {
  }

  lemma TrimUndelimited(s: string)
    requires NoDelimiter(s)
    ensures NoDelimiter(Trim(s))
  {
    TrimByChars(s, IsWhite, NotDelimiter);
  }

  predicate NoDelimiter(s: string) {
    Free(s, IsValueDelimiter)
  }

  predicate NotDelimiter(c: char) {
    !IsValueDelimiter(c)
  }
  /** `normalizeTaxonomyValue`: a taxonomy value gid is kept, an all-digit id becomes
      the gid of that id, anything else (a blank value included) is not a taxonomy value. */
  function NormalizeTaxonomyValue(value: string): (r: Option<string>)
    ensures r.Some? <==> Trim(value) != "" && (StartsWith(Trim(value), TAXONOMY_PREFIX) || AllDigits(Trim(value)))
    ensures r.Some? ==> StartsWith(r.value, TAXONOMY_PREFIX)
  {
    var trimmed := Trim(value);
    if trimmed == "" then None
    else if StartsWith(trimmed, TAXONOMY_PREFIX) then Some(trimmed)
    else if AllDigits(trimmed) then
      PrefixedStarts(TAXONOMY_PREFIX, trimmed);
      Some(TAXONOMY_PREFIX + trimmed)
    else None
  }

  lemma PrefixedStarts(prefix: string, s: string)
    ensures StartsWith(prefix + s, prefix)
  {
    assert (prefix + s)[..|prefix|] == prefix;
  }

  /** A taxonomy value normalises to itself. */
  lemma NormalizeTaxonomyIdempotent(value: string)
    requires NormalizeTaxonomyValue(value).Some?
    ensures NormalizeTaxonomyValue(NormalizeTaxonomyValue(value).value) == NormalizeTaxonomyValue(value)
  {
    var t := Trim(value);
    var v := NormalizeTaxonomyValue(value).value;
    if StartsWith(t, TAXONOMY_PREFIX) {
      TrimIdempotent(value);
    } else {
      PrefixedTrimmed(TAXONOMY_PREFIX, t);
    }
  }

  /** The gid of a trimmed id is trimmed. */
  lemma PrefixedTrimmed(prefix: string, t: string)
    requires prefix != [] && !IsWhite(prefix[0]) && t != [] && !IsWhite(t[|t| - 1])
    ensures Trim(prefix + t) == prefix + t
  {
    TrimByNoop(prefix + t, IsWhite);
  }

  /** An all-digit id and its gid name the same taxonomy value. */
  lemma DigitsAndGidAlike(digits: string)
    requires digits != "" && AllDigits(digits)
    ensures NormalizeTaxonomyValue(digits) == NormalizeTaxonomyValue(TAXONOMY_PREFIX + digits) == Some(TAXONOMY_PREFIX + digits)
  {
    DigitsTaxonomy(digits);
    GidTaxonomy(digits);
  }

  lemma DigitsTaxonomy(digits: string)
    requires digits != "" && AllDigits(digits)
    ensures NormalizeTaxonomyValue(digits) == Some(TAXONOMY_PREFIX + digits)
  {
    DigitsTrimmed(digits);
    DigitsNotGid(digits);
  }

  lemma DigitsTrimmed(digits: string)
    requires digits != "" && AllDigits(digits)
    ensures Trim(digits) == digits
  {
    assert !IsWhite(digits[0]) && !IsWhite(digits[|digits| - 1]);
    TrimByNoop(digits, IsWhite);
  }

  lemma DigitsNotGid(digits: string)
    requires digits != "" && AllDigits(digits)
    ensures !StartsWith(digits, TAXONOMY_PREFIX)
  {
    if |TAXONOMY_PREFIX| <= |digits| {
      assert digits[..|TAXONOMY_PREFIX|][0] != TAXONOMY_PREFIX[0];
    }
  }

  lemma GidTaxonomy(digits: string)
    requires digits != "" && AllDigits(digits)
    ensures NormalizeTaxonomyValue(TAXONOMY_PREFIX + digits) == Some(TAXONOMY_PREFIX + digits)
  {
    assert !IsWhite(digits[|digits| - 1]);
    PrefixedTrimmed(TAXONOMY_PREFIX, digits);
    PrefixedStarts(TAXONOMY_PREFIX, digits);
  }

  /** `CATEGORY_VALUE_ALIASES`, with every alias and replacement in its normalised form
      (`long-sleeve` and `long sleeve` are one alias there, and so are `short-sleeve` and
      `short sleeve`). */
  function Replacements(key: string, token: string): seq<string> {
    match key
    case "age_group" =>
      (match token
       case "adult" => ["adults"] case "adults" => ["adults"] case "adulthood" => ["adults"]
       case "kid" => ["kids"] case "kids" => ["kids"] case "child" => ["kids"] case "children" => ["kids"]
       case "teen" => ["teens"] case "teens" => ["teens"]
       case "toddler" => ["toddlers"] case "toddlers" => ["toddlers"]
       case "baby" => ["babies"] case "babies" => ["babies"]
       case "universal" => ["universal"] case "all ages" => ["all ages"]
       case _ => [])
    case "target_gender" =>
      (match token
       case "male" => ["male"] case "man" => ["male"] case "men" => ["male"] case "mens" => ["male"]
       case "female" => ["female"] case "woman" => ["female"] case "women" => ["female"] case "womens" => ["female"]
       case "unisex" => ["unisex"] case "neutral" => ["unisex"]
       case _ => [])
    case "color" =>
      (match token
       case "grey" => ["gray"] case "gray" => ["gray"]
       case "multicolour" => ["multicolor"] case "multicolor" => ["multicolor"]
       case "multi color" => ["multicolor"] case "multi" => ["multicolor"]
       case _ => [])
    case "sleeve_length" =>
      (match token
       case "long" => ["lang"] case "long sleeve" => ["lang"]
       case "short" => ["kort"] case "short sleeve" => ["kort"]
       case _ => [])
    case "clothing_feature" =>
      (match token
       case "adjustable" => ["adjustable fit"] case "adjustable fit" => ["adjustable fit"]
       case "uv" => ["uv protection"] case "uv protection" => ["uv protection"]
       case "collapsible" => ["collapsible"] case "versatile" => ["versatile"]
       case _ => [])
    case _ => []
  }

  /** `getAliasCandidates`: the token itself first, then its replacements, without
      repeats; just the token when it has no alias. */
  function AliasCandidates(key: string, token: string): (r: seq<string>)
    ensures |r| >= 1 && r[0] == token
    ensures Distinct(r)
    ensures Replacements(key, token) == [] ==> r == [token]
    ensures forall c :: c in r <==> c == token || c in Replacements(key, token)
  {
    var replacements := Replacements(key, token);
    if replacements == [] then [token]
    else
      CandidatesShape(token, replacements);
      Dedup([token] + replacements)
  }

  lemma CandidatesShape(token: string, replacements: seq<string>)
    ensures var r := Dedup([token] + replacements);
      |r| >= 1 && r[0] == token && Distinct(r) && forall c :: c in r <==> c == token || c in replacements
  {
    DedupPrefix([token], replacements);
    assert Dedup([token]) == [token] by { assert [token][..0] == []; }
    DedupDistinct([token] + replacements);
    forall c
      ensures c in Dedup([token] + replacements) <==> c == token || c in replacements
    {
      DedupMembers([token] + replacements, c);
    }
  }

  // ---------------------------------------------------------------------------
  // The catalog of a metaobject type

  datatype Field = Field(key: string, value: Option<string>)
  datatype CategoryNode = CategoryNode(id: string, handle: Option<string>, fields: seq<Field>)

  /** What the scan of a node finds: a synonym token, a taxonomy value gid, or a reference
      to another metaobject. */
  datatype Ref = Token(token: string) | TaxonomyRef(taxonomyId: string) | MetaobjectRef(gid: string)

  /** `/^#?[0-9a-f]{3,}$/i`: a colour code or some other hex-looking value. */
  predicate HexLooking(t: string) {
    var digits := if t != "" && t[0] == '#' then t[1..] else t;
    |digits| >= 3 && forall i :: 0 <= i < |digits| ==> IsHexDigit(digits[i])
  }

  /** One string entry of a field's JSON array. */
  function EntryRef(entry: Option<string>): Option<Ref> {
    if entry.None? then None
    else
      var trimmed := Trim(entry.value);
      if StartsWith(trimmed, TAXONOMY_PREFIX) then Some(TaxonomyRef(trimmed))
      else if StartsWith(trimmed, METAOBJECT_PREFIX) then Some(MetaobjectRef(trimmed))
      else Some(Token(NormalizeToken(trimmed)))
  }

  /** One field value: skipped when blank; the string entries of a `[...]` JSON array;
      otherwise what the value itself is. */
  function FieldRefs(value: Option<string>, parse: JsonArrayParser): seq<Ref> {
    if value.None? || value.value == "" || Trim(value.value) == "" then []
    else
      var trimmed := Trim(value.value);
      if StartsWith(trimmed, "[") && EndsWith(trimmed, "]") && parse(trimmed).Some? then
        FilterMap(parse(trimmed).value, EntryRef)
      else ScalarRefs(trimmed)
  }

  /** A trimmed value that is not a JSON array: a taxonomy gid, a metaobject gid, nothing
      for a hex-looking value, or the value's token. */
  function ScalarRefs(trimmed: string): seq<Ref> {
    if StartsWith(trimmed, TAXONOMY_PREFIX) then [TaxonomyRef(trimmed)]
    else if StartsWith(trimmed, METAOBJECT_PREFIX) then [MetaobjectRef(trimmed)]
    else if HexLooking(trimmed) then []
    else [Token(NormalizeToken(trimmed))]
  }

  /** The fields in order. */
  function FieldsRefs(fields: seq<Field>, parse: JsonArrayParser): seq<Ref>
    decreases |fields|
  {
    if fields == [] then []
    else FieldsRefs(fields[..|fields| - 1], parse) + FieldRefs(fields[|fields| - 1].value, parse)
  }

  /** A node's handle token, when it has a handle, then what its fields yield. */
  function NodeRefs(node: CategoryNode, parse: JsonArrayParser): seq<Ref> {
    (if node.handle.Some? && node.handle.value != "" then [Token(NormalizeToken(node.handle.value))] else [])
    + FieldsRefs(node.fields, parse)
  }

  /** The token pass skips the empty token. */
  function TokenOf(r: Ref): Option<string> {
    if r.Token? && r.token != "" then Some(r.token) else None
  }

  function TaxonomyOf(r: Ref): Option<string> {
    if r.TaxonomyRef? then Some(r.taxonomyId) else None
  }

  function GidOf(r: Ref): Option<string> {
    if r.MetaobjectRef? then Some(r.gid) else None
  }

  /** A reference starts with its prefix and a token is words. */
  predicate WellFormed(r: Ref) {
    match r
    case Token(t) => Words(t, ' ')
    case TaxonomyRef(t) => StartsWith(t, TAXONOMY_PREFIX)
    case MetaobjectRef(g) => StartsWith(g, METAOBJECT_PREFIX)
  }

  datatype Catalog = Catalog(synonyms: map<string, string>, taxonomy: map<string, string>)

  /** What the scan of one node yields, in scan order. */
  datatype NodeKeys = NodeKeys(id: string, gids: seq<string>, tokens: seq<string>, taxonomyIds: seq<string>)

  function KeysOf(node: CategoryNode, parse: JsonArrayParser): NodeKeys {
    var refs := NodeRefs(node, parse);
    NodeKeys(node.id, FilterMap(refs, GidOf), FilterMap(refs, TokenOf), FilterMap(refs, TaxonomyOf))
  }

  /** The node's metaobject references mapped to it during the scan, over any earlier
      node's; then its tokens and its taxonomy ids mapped to it unless already mapped. */
  function NodeStep(c: Catalog, keys: NodeKeys): Catalog {
    Catalog(SetAbsent(SetTo(c.synonyms, keys.gids, keys.id), keys.tokens, keys.id), SetAbsent(c.taxonomy, keys.taxonomyIds, keys.id))
  }

  /** The steps of the nodes of every page, in order. */
  function Fold(c: Catalog, nodes: seq<NodeKeys>): Catalog
    decreases |nodes|
  {
    if nodes == [] then c else NodeStep(Fold(c, nodes[..|nodes| - 1]), nodes[|nodes| - 1])
  }

  /** The scans of a sequence of nodes. */
  function KeysOfAll(nodes: seq<CategoryNode>, parse: JsonArrayParser): (r: seq<NodeKeys>)
    ensures |r| == |nodes| && forall i :: 0 <= i < |nodes| ==> r[i] == KeysOf(nodes[i], parse)
  {
    seq(|nodes|, i requires 0 <= i < |nodes| => KeysOf(nodes[i], parse))
  }

  const EMPTY_CATALOG := Catalog(map[], map[])

  /** What loading a type yields: the catalog of every page up to the last, or the error of
      the request that threw. */
  function LoadedCatalog(listing: seq<Result<Page<CategoryNode>, string>>, parse: JsonArrayParser): Result<Catalog, string>
    requires Ends(listing)
  {
    var n := Stop(listing);
    if listing[n].Err? then Err(listing[n].error) else Ok(Fold(EMPTY_CATALOG, PageKeys(listing, n + 1, parse)))
  }

  /** The scans of the nodes of the first `k` pages, page after page. */
  function PageKeys(listing: seq<Result<Page<CategoryNode>, string>>, k: nat, parse: JsonArrayParser): seq<NodeKeys>
    requires k <= |listing| && forall j :: 0 <= j < k ==> listing[j].Ok?
  {
    if k == 0 then [] else PageKeys(listing, k - 1, parse) + KeysOfAll(listing[k - 1].value.nodes, parse)
  }

  lemma {:induction false} FoldAppend(c: Catalog, a: seq<NodeKeys>, b: seq<NodeKeys>)
    ensures Fold(c, a + b) == Fold(Fold(c, a), b)
    decreases |b|
  {
    if b == [] {
      assert a + b == a;
    } else {
      var init := b[..|b| - 1];
      FoldAppend(c, a, init);
      assert (a + b)[..|a + b| - 1] == a + init;
    }
  }

  // ---------------------------------------------------------------------------
  // Properties of the catalog

  predicate AllWellFormed(refs: seq<Ref>) {
    forall i :: 0 <= i < |refs| ==> WellFormed(refs[i])
  }

  lemma EntryRefWellFormed(entry: Option<string>)
    ensures EntryRef(entry).Some? ==> WellFormed(EntryRef(entry).value)
  {
    if entry.Some? {
      var trimmed := Trim(entry.value);
      if !StartsWith(trimmed, TAXONOMY_PREFIX) && !StartsWith(trimmed, METAOBJECT_PREFIX) {
        TokenWellFormed(trimmed);
      }
    }
  }

  lemma EntryRefsWellFormed(entries: seq<Option<string>>)
    ensures AllWellFormed(FilterMap(entries, EntryRef))
  {
    forall i | 0 <= i < |FilterMap(entries, EntryRef)|
      ensures WellFormed(FilterMap(entries, EntryRef)[i])
    {
      var r := FilterMap(entries, EntryRef)[i];
      FilterMapMembership(entries, EntryRef, r);
      var j :| 0 <= j < |entries| && EntryRef(entries[j]) == Some(r);
      EntryRefWellFormed(entries[j]);
    }
  }

  lemma TokenWellFormed(value: string)
    ensures WellFormed(Token(NormalizeToken(value)))
  {
    TokenShape(value);
  }

  lemma FieldRefsWellFormed(value: Option<string>, parse: JsonArrayParser)
    ensures AllWellFormed(FieldRefs(value, parse))
  {
    if value.Some? && value.value != "" && Trim(value.value) != "" {
      var trimmed := Trim(value.value);
      if StartsWith(trimmed, "[") && EndsWith(trimmed, "]") && parse(trimmed).Some? {
        EntryRefsWellFormed(parse(trimmed).value);
      } else {
        ScalarRefsWellFormed(trimmed);
      }
    }
  }

  lemma ScalarRefsWellFormed(trimmed: string)
    ensures AllWellFormed(ScalarRefs(trimmed))
  {
    var refs := ScalarRefs(trimmed);
    if !StartsWith(trimmed, TAXONOMY_PREFIX) && !StartsWith(trimmed, METAOBJECT_PREFIX) && !HexLooking(trimmed) {
      TokenWellFormed(trimmed);
      assert refs == [Token(NormalizeToken(trimmed))];
    }
  }

  lemma {:induction false} FieldsRefsWellFormed(fields: seq<Field>, parse: JsonArrayParser)
    ensures AllWellFormed(FieldsRefs(fields, parse))
    decreases |fields|
  {
    if fields != [] {
      FieldsRefsWellFormed(fields[..|fields| - 1], parse);
      FieldRefsWellFormed(fields[|fields| - 1].value, parse);
    }
  }

  lemma NodeRefsWellFormed(node: CategoryNode, parse: JsonArrayParser)
    ensures AllWellFormed(NodeRefs(node, parse))
  {
    FieldsRefsWellFormed(node.fields, parse);
    if node.handle.Some? && node.handle.value != "" {
      TokenShape(node.handle.value);
    }
  }

  /** Metaobject references and tokens never share a key. */
  predicate Separated(keys: NodeKeys) {
    (forall i :: 0 <= i < |keys.gids| ==> StartsWith(keys.gids[i], METAOBJECT_PREFIX)) &&
    (forall i :: 0 <= i < |keys.tokens| ==> !StartsWith(keys.tokens[i], METAOBJECT_PREFIX))
  }

  lemma KeysSeparated(node: CategoryNode, parse: JsonArrayParser)
    ensures Separated(KeysOf(node, parse))
  {
    var refs := NodeRefs(node, parse);
    NodeRefsWellFormed(node, parse);
    forall k | k in FilterMap(refs, GidOf)
      ensures StartsWith(k, METAOBJECT_PREFIX)
    {
      FilterMapMembership(refs, GidOf, k);
    }
    forall k | k in FilterMap(refs, TokenOf)
      ensures !StartsWith(k, METAOBJECT_PREFIX)
    {
      FilterMapMembership(refs, TokenOf, k);
      WordsNotReference(k);
    }
  }

  /** One node's effect on a metaobject reference key. */
  lemma NodeStepReference(c: Catalog, keys: NodeKeys, k: string)
    requires Separated(keys) && StartsWith(k, METAOBJECT_PREFIX)
    ensures k in NodeStep(c, keys).synonyms <==> k in c.synonyms || k in keys.gids
    ensures k in keys.gids ==> NodeStep(c, keys).synonyms[k] == keys.id
    ensures k !in keys.gids && k in c.synonyms ==> NodeStep(c, keys).synonyms[k] == c.synonyms[k]
  {
    SetToAt(c.synonyms, keys.gids, keys.id, k);
    SetAbsentAt(SetTo(c.synonyms, keys.gids, keys.id), keys.tokens, keys.id, k);
  }

  /** One node's effect on any other synonym key. */
  lemma NodeStepToken(c: Catalog, keys: NodeKeys, k: string)
    requires Separated(keys) && !StartsWith(k, METAOBJECT_PREFIX)
    ensures k in NodeStep(c, keys).synonyms <==> k in c.synonyms || k in keys.tokens
    ensures k in c.synonyms ==> NodeStep(c, keys).synonyms[k] == c.synonyms[k]
    ensures k !in c.synonyms && k in keys.tokens ==> NodeStep(c, keys).synonyms[k] == keys.id
  {
    SetToAt(c.synonyms, keys.gids, keys.id, k);
    SetAbsentAt(SetTo(c.synonyms, keys.gids, keys.id), keys.tokens, keys.id, k);
  }

  lemma NodeStepTaxonomy(c: Catalog, keys: NodeKeys, k: string)
    ensures k in NodeStep(c, keys).taxonomy <==> k in c.taxonomy || k in keys.taxonomyIds
    ensures k in c.taxonomy ==> NodeStep(c, keys).taxonomy[k] == c.taxonomy[k]
    ensures k !in c.taxonomy && k in keys.taxonomyIds ==> NodeStep(c, keys).taxonomy[k] == keys.id
  {
    SetAbsentAt(c.taxonomy, keys.taxonomyIds, keys.id, k);
  }

  predicate AllSeparated(nodes: seq<NodeKeys>) {
    forall i :: 0 <= i < |nodes| ==> Separated(nodes[i])
  }

  /** Node `i` is the first to yield the token `k`. */
  predicate FirstTokenNode(nodes: seq<NodeKeys>, k: string, i: int) {
    0 <= i < |nodes| && k in nodes[i].tokens && forall j :: 0 <= j < i ==> k !in nodes[j].tokens
  }

  /** Node `i` is the first to yield the taxonomy id `k`. */
  predicate FirstTaxonomyNode(nodes: seq<NodeKeys>, k: string, i: int) {
    0 <= i < |nodes| && k in nodes[i].taxonomyIds && forall j :: 0 <= j < i ==> k !in nodes[j].taxonomyIds
  }

  /** Node `i` is the last to reference the metaobject gid `k`. */
  predicate LastGidNode(nodes: seq<NodeKeys>, k: string, i: int) {
    0 <= i < |nodes| && k in nodes[i].gids && forall j :: i < j < |nodes| ==> k !in nodes[j].gids
  }

  /** A synonym token maps to the first node that yields it. */
  lemma {:induction false} CatalogToken(nodes: seq<NodeKeys>, k: string)
    requires AllSeparated(nodes) && !StartsWith(k, METAOBJECT_PREFIX)
    ensures k in Fold(EMPTY_CATALOG, nodes).synonyms <==> exists i :: 0 <= i < |nodes| && k in nodes[i].tokens
    ensures k in Fold(EMPTY_CATALOG, nodes).synonyms ==>
      exists i :: FirstTokenNode(nodes, k, i) && Fold(EMPTY_CATALOG, nodes).synonyms[k] == nodes[i].id
    decreases |nodes|
  {
    if nodes != [] {
      var n := |nodes| - 1;
      var init := nodes[..n];
      assert forall i :: 0 <= i < n ==> init[i] == nodes[i];
      CatalogToken(init, k);
      NodeStepToken(Fold(EMPTY_CATALOG, init), nodes[n], k);
      if k in Fold(EMPTY_CATALOG, init).synonyms {
        var i :| FirstTokenNode(init, k, i) && Fold(EMPTY_CATALOG, init).synonyms[k] == init[i].id;
        assert FirstTokenNode(nodes, k, i);
      } else if k in nodes[n].tokens {
        assert FirstTokenNode(nodes, k, n);
      }
    }
  }

  /** A taxonomy id maps to the first node that yields it. */
  lemma {:induction false} CatalogTaxonomy(nodes: seq<NodeKeys>, k: string)
    ensures k in Fold(EMPTY_CATALOG, nodes).taxonomy <==> exists i :: 0 <= i < |nodes| && k in nodes[i].taxonomyIds
    ensures k in Fold(EMPTY_CATALOG, nodes).taxonomy ==>
      exists i :: FirstTaxonomyNode(nodes, k, i) && Fold(EMPTY_CATALOG, nodes).taxonomy[k] == nodes[i].id
    decreases |nodes|
  {
    if nodes != [] {
      var n := |nodes| - 1;
      var init := nodes[..n];
      assert forall i :: 0 <= i < n ==> init[i] == nodes[i];
      CatalogTaxonomy(init, k);
      NodeStepTaxonomy(Fold(EMPTY_CATALOG, init), nodes[n], k);
      if k in Fold(EMPTY_CATALOG, init).taxonomy {
        var i :| FirstTaxonomyNode(init, k, i) && Fold(EMPTY_CATALOG, init).taxonomy[k] == init[i].id;
        assert FirstTaxonomyNode(nodes, k, i);
      } else if k in nodes[n].taxonomyIds {
        assert FirstTaxonomyNode(nodes, k, n);
      }
    }
  }

  /** A metaobject reference maps to the last node that references it. */
  lemma {:induction false} CatalogReference(nodes: seq<NodeKeys>, k: string)
    requires AllSeparated(nodes) && StartsWith(k, METAOBJECT_PREFIX)
    ensures k in Fold(EMPTY_CATALOG, nodes).synonyms <==> exists i :: 0 <= i < |nodes| && k in nodes[i].gids
    ensures k in Fold(EMPTY_CATALOG, nodes).synonyms ==>
      exists i :: LastGidNode(nodes, k, i) && Fold(EMPTY_CATALOG, nodes).synonyms[k] == nodes[i].id
    decreases |nodes|
  {
    if nodes != [] {
      var n := |nodes| - 1;
      var init := nodes[..n];
      assert forall i :: 0 <= i < n ==> init[i] == nodes[i];
      CatalogReference(init, k);
      NodeStepReference(Fold(EMPTY_CATALOG, init), nodes[n], k);
      if k in nodes[n].gids {
        assert LastGidNode(nodes, k, n);
      } else if k in Fold(EMPTY_CATALOG, init).synonyms {
        var i :| LastGidNode(init, k, i) && Fold(EMPTY_CATALOG, init).synonyms[k] == init[i].id;
        assert LastGidNode(nodes, k, i);
      }
    }
  }

  /** Every scan keeps tokens and references apart. */
  lemma AllKeysSeparated(nodes: seq<CategoryNode>, parse: JsonArrayParser)
    ensures AllSeparated(KeysOfAll(nodes, parse))
  {
    forall i | 0 <= i < |nodes|
      ensures Separated(KeysOfAll(nodes, parse)[i])
    {
      KeysSeparated(nodes[i], parse);
    }
  }

  /** A hex-looking field value that is not a JSON array contributes nothing. */
  lemma HexIgnored(value: string, parse: JsonArrayParser)
    requires Trim(value) != "" && HexLooking(Trim(value))
    requires !(StartsWith(Trim(value), "[") && EndsWith(Trim(value), "]") && parse(Trim(value)).Some?)
    ensures FieldRefs(Some(value), parse) == []
  {
    assert FieldRefs(Some(value), parse) == ScalarRefs(Trim(value));
    HexNotGid(Trim(value), TAXONOMY_PREFIX);
    HexNotGid(Trim(value), METAOBJECT_PREFIX);
  }

  lemma HexNotGid(t: string, prefix: string)
    requires HexLooking(t) && |prefix| > 0 && prefix[0] == 'g'
    ensures !StartsWith(t, prefix)
  {
    if |prefix| <= |t| {
      assert t[..|prefix|][0] == t[0];
      assert t[0] == '#' || IsHexDigit(t[0]);
    }
  }

  // ---------------------------------------------------------------------------
  // Resolving one category value against a catalog

  /** What one value of a resolution comes to: a metaobject id, the trimmed value left
      unresolved, or nothing for a blank value. */
  datatype Outcome = Resolved(id: string) | Unresolved(value: string) | Blank

  /** The synonym map gives `candidate` a non-empty id. */
  predicate Matches(candidate: string, synonyms: map<string, string>) {
    candidate in synonyms && synonyms[candidate] != ""
  }

  /** Candidate `i` is the first that matches. */
  predicate FirstMatching(candidates: seq<string>, synonyms: map<string, string>, i: int) {
    0 <= i < |candidates| && Matches(candidates[i], synonyms) &&
    forall j :: 0 <= j < i ==> !Matches(candidates[j], synonyms)
  }

  /** The `map(...).find(Boolean)` over the candidates: the id of the first candidate
      the synonym map gives a non-empty id. */
  function FirstMatch(candidates: seq<string>, synonyms: map<string, string>): (r: Option<string>)
    ensures r.None? <==> forall i :: 0 <= i < |candidates| ==> !Matches(candidates[i], synonyms)
    ensures r.Some? ==> exists i :: FirstMatching(candidates, synonyms, i) && r.value == synonyms[candidates[i]]
  {
    if candidates == [] then None
    else if Matches(candidates[0], synonyms) then
      assert FirstMatching(candidates, synonyms, 0);
      Some(synonyms[candidates[0]])
    else
      var r := FirstMatch(candidates[1..], synonyms);
      FirstMatchShift(candidates, synonyms, r);
      r
  }

  lemma FirstMatchShift(candidates: seq<string>, synonyms: map<string, string>, r: Option<string>)
    requires candidates != [] && !Matches(candidates[0], synonyms)
    requires r.None? <==> forall i :: 0 <= i < |candidates| - 1 ==> !Matches(candidates[1..][i], synonyms)
    requires r.Some? ==> exists i :: FirstMatching(candidates[1..], synonyms, i) && r.value == synonyms[candidates[1..][i]]
    ensures r.None? <==> forall i :: 0 <= i < |candidates| ==> !Matches(candidates[i], synonyms)
    ensures r.Some? ==> exists i :: FirstMatching(candidates, synonyms, i) && r.value == synonyms[candidates[i]]
  {
    if r.Some? {
      var i :| FirstMatching(candidates[1..], synonyms, i) && r.value == synonyms[candidates[1..][i]];
      assert FirstMatching(candidates, synonyms, i + 1);
    } else {
      forall i | 0 <= i < |candidates|
        ensures !Matches(candidates[i], synonyms)
      {
        if i > 0 {
          assert candidates[i] == candidates[1..][i - 1];
        }
      }
    }
  }

  /** The catalog holds `id` for some taxonomy id, or, non-empty, for some synonym. */
  predicate Catalogued(id: string, c: Catalog) {
    id in c.taxonomy.Values || (id in c.synonyms.Values && id != "")
  }

  /** The callback of the per-value loop: a blank value is skipped and a metaobject
      reference is kept as it is; any other value is looked up in the catalog. */
  function Classify(key: string, raw: string, c: Catalog): (o: Outcome)
    ensures o.Blank? <==> Trim(raw) == ""
    ensures o.Unresolved? ==> o.value == Trim(raw)
    ensures StartsWith(Trim(raw), METAOBJECT_PREFIX) ==> o == Resolved(Trim(raw))
    ensures o.Resolved? && !StartsWith(Trim(raw), METAOBJECT_PREFIX) ==> Catalogued(o.id, c)
  {
    var value := Trim(raw);
    if value == "" then Blank
    else if StartsWith(value, METAOBJECT_PREFIX) then Resolved(value)
    else LookupValue(key, value, c)
  }

  /** A taxonomy value the taxonomy map holds resolves to its node; any other value is
      looked up by its token. */
  function LookupValue(key: string, value: string, c: Catalog): (o: Outcome)
    ensures !o.Blank?
    ensures o.Unresolved? ==> o.value == value
    ensures o.Resolved? ==> Catalogued(o.id, c)
  {
    var taxonomyId := NormalizeTaxonomyValue(value);
    if taxonomyId.Some? && taxonomyId.value in c.taxonomy then Resolved(c.taxonomy[taxonomyId.value])
    else LookupToken(key, value, NormalizeToken(value), c)
  }

  /** A value without a token stays unresolved; otherwise the first alias candidate with
      a non-empty id resolves it. */
  function LookupToken(key: string, value: string, token: string, c: Catalog): (o: Outcome)
    ensures !o.Blank?
    ensures o.Unresolved? ==> o.value == value
    ensures o.Resolved? ==> o.id in c.synonyms.Values && o.id != ""
  {
    if token == "" then Unresolved(value)
    else
      match FirstMatch(AliasCandidates(key, token), c.synonyms)
      case Some(id) => Resolved(id)
      case None => Unresolved(value)
  }

  /** What each value comes to, in value order. */
  function Outcomes(key: string, values: seq<string>, c: Catalog): (r: seq<Outcome>)
    ensures |r| == |values|
    decreases |values|
  {
    if values == [] then [] else [Classify(key, values[0], c)] + Outcomes(key, values[1..], c)
  }

  /** Outcome `i` is what value `i` comes to. */
  lemma {:induction false} OutcomeAt(key: string, values: seq<string>, c: Catalog, i: nat)
    requires i < |values|
    ensures Outcomes(key, values, c)[i] == Classify(key, values[i], c)
    decreases i
  {
    if i > 0 {
      OutcomeAt(key, values[1..], c, i - 1);
    }
  }

  lemma OutcomesEach(key: string, values: seq<string>, c: Catalog)
    ensures forall i :: 0 <= i < |values| ==> Outcomes(key, values, c)[i] == Classify(key, values[i], c)
  {
    forall i | 0 <= i < |values|
      ensures Outcomes(key, values, c)[i] == Classify(key, values[i], c)
    {
      OutcomeAt(key, values, c, i);
    }
  }

  function IdOf(o: Outcome): Option<string> {
    if o.Resolved? then Some(o.id) else None
  }

  function LeftoverOf(o: Outcome): Option<string> {
    if o.Unresolved? then Some(o.value) else None
  }

  /** What `resolveCategoryMetaobjectIds` returns once the catalog is loaded and not
      empty: the resolved ids without repeats, first occurrence first, and the trimmed
      values left unresolved, in value order. */
  function Resolve(key: string, values: seq<string>, c: Catalog): (r: (seq<string>, seq<string>))
    ensures Distinct(r.0)
    ensures forall x :: x in r.0 <==> exists i :: 0 <= i < |values| && Classify(key, values[i], c) == Resolved(x)
    ensures forall u :: u in r.1 <==> exists i :: 0 <= i < |values| && Classify(key, values[i], c) == Unresolved(u)
    ensures forall u :: u in r.1 ==> u != ""
  {
    var outcomes := Outcomes(key, values, c);
    var ids := FilterMap(outcomes, IdOf);
    DedupDistinct(ids);
    forall x
      ensures x in Dedup(ids) <==> exists i :: 0 <= i < |values| && Classify(key, values[i], c) == Resolved(x)
    {
      ResolvedMember(key, values, c, x);
    }
    forall u
      ensures u in FilterMap(outcomes, LeftoverOf) <==> exists i :: 0 <= i < |values| && Classify(key, values[i], c) == Unresolved(u)
    {
      UnresolvedMember(key, values, c, u);
    }
    (Dedup(ids), FilterMap(outcomes, LeftoverOf))
  }

  lemma ResolvedMember(key: string, values: seq<string>, c: Catalog, x: string)
    ensures x in Dedup(FilterMap(Outcomes(key, values, c), IdOf)) <==>
      exists i :: 0 <= i < |values| && Classify(key, values[i], c) == Resolved(x)
  {
    var outcomes := Outcomes(key, values, c);
    OutcomesEach(key, values, c);
    DedupMembers(FilterMap(outcomes, IdOf), x);
    IdsMembers(outcomes, x);
  }

  lemma UnresolvedMember(key: string, values: seq<string>, c: Catalog, u: string)
    ensures u in FilterMap(Outcomes(key, values, c), LeftoverOf) <==>
      exists i :: 0 <= i < |values| && Classify(key, values[i], c) == Unresolved(u)
  {
    OutcomesEach(key, values, c);
    LeftoversMembers(Outcomes(key, values, c), u);
  }

  lemma IdsMembers(outcomes: seq<Outcome>, x: string)
    ensures x in FilterMap(outcomes, IdOf) <==> exists i :: 0 <= i < |outcomes| && outcomes[i] == Resolved(x)
  {
    FilterMapMembership(outcomes, IdOf, x);
    assert forall i :: 0 <= i < |outcomes| ==> (IdOf(outcomes[i]) == Some(x) <==> outcomes[i] == Resolved(x));
  }

  lemma LeftoversMembers(outcomes: seq<Outcome>, u: string)
    ensures u in FilterMap(outcomes, LeftoverOf) <==> exists i :: 0 <= i < |outcomes| && outcomes[i] == Unresolved(u)
  {
    FilterMapMembership(outcomes, LeftoverOf, u);
    assert forall i :: 0 <= i < |outcomes| ==> (LeftoverOf(outcomes[i]) == Some(u) <==> outcomes[i] == Unresolved(u));
  }

  /** The per-value loop of `resolveCategoryMetaobjectIds`. */
  method ClassifyEach(key: string, values: seq<string>, c: Catalog) returns (resolved: seq<string>, unresolved: seq<string>)
    ensures resolved == FilterMap(Outcomes(key, values, c), IdOf)
    ensures unresolved == FilterMap(Outcomes(key, values, c), LeftoverOf)
  {
    ghost var outcomes := Outcomes(key, values, c);
    resolved, unresolved := [], [];
    for i := 0 to |values|
      invariant resolved == FilterMap(outcomes[..i], IdOf)
      invariant unresolved == FilterMap(outcomes[..i], LeftoverOf)
    {
      OutcomeStep(key, values, c, i);
      resolved, unresolved := ClassifyInto(key, values[i], c, resolved, unresolved);
    }
    assert outcomes[..|values|] == outcomes;
  }

  /** The callback of the `forEach` of `resolveCategoryMetaobjectIds`: classifies one
      value and pushes it onto the list its outcome belongs to. */
  method ClassifyInto(key: string, raw: string, c: Catalog, resolved: seq<string>, unresolved: seq<string>)
      returns (resolved': seq<string>, unresolved': seq<string>)
    ensures var o := Classify(key, raw, c);
      resolved' == resolved + (if o.Resolved? then [o.id] else []) &&
      unresolved' == unresolved + (if o.Unresolved? then [o.value] else [])
  {
    resolved', unresolved' := resolved, unresolved;
    match Classify(key, raw, c) {
      case Resolved(id) => resolved' := resolved + [id];
      case Unresolved(value) => unresolved' := unresolved + [value];
      case Blank =>
    }
  }

  lemma OutcomeStep(key: string, values: seq<string>, c: Catalog, i: nat)
    requires i < |values|
    ensures var outcomes, o := Outcomes(key, values, c), Classify(key, values[i], c);
      FilterMap(outcomes[..i + 1], IdOf) == FilterMap(outcomes[..i], IdOf) + (if o.Resolved? then [o.id] else []) &&
      FilterMap(outcomes[..i + 1], LeftoverOf) == FilterMap(outcomes[..i], LeftoverOf) + (if o.Unresolved? then [o.value] else [])
  {
    OutcomeAt(key, values, c, i);
    OutcomeAppend(Outcomes(key, values, c), i);
  }

  lemma OutcomeAppend(outcomes: seq<Outcome>, i: nat)
    requires i < |outcomes|
    ensures FilterMap(outcomes[..i + 1], IdOf) ==
      FilterMap(outcomes[..i], IdOf) + (if outcomes[i].Resolved? then [outcomes[i].id] else [])
    ensures FilterMap(outcomes[..i + 1], LeftoverOf) ==
      FilterMap(outcomes[..i], LeftoverOf) + (if outcomes[i].Unresolved? then [outcomes[i].value] else [])
  {
    assert outcomes[..i + 1] == outcomes[..i] + [outcomes[i]];
    assert [outcomes[i]][1..] == [];
    FilterMapAppend(outcomes[..i], [outcomes[i]], IdOf);
    FilterMapAppend(outcomes[..i], [outcomes[i]], LeftoverOf);
  }

  /** A metaobject reference is kept as it is, whatever the catalog holds. */
  lemma ReferenceKept(key: string, raw: string, c: Catalog)
    requires StartsWith(Trim(raw), METAOBJECT_PREFIX)
    ensures Classify(key, raw, c) == Resolved(Trim(raw))
  {
  }

  /** A taxonomy value one of the loaded nodes yields resolves to the first such node,
      before any synonym is tried. */
  lemma TaxonomyResolvesToFirstNode(key: string, raw: string, nodes: seq<NodeKeys>, i: int)
    requires Trim(raw) != "" && !StartsWith(Trim(raw), METAOBJECT_PREFIX)
    requires NormalizeTaxonomyValue(Trim(raw)).Some?
    requires FirstTaxonomyNode(nodes, NormalizeTaxonomyValue(Trim(raw)).value, i)
    ensures Classify(key, raw, Fold(EMPTY_CATALOG, nodes)) == Resolved(nodes[i].id)
  {
    ClassifyByValue(key, raw, Fold(EMPTY_CATALOG, nodes));
    LookupTaxonomy(key, Trim(raw), NormalizeTaxonomyValue(Trim(raw)).value, nodes, i);
  }

  /** A non-blank value that is no metaobject reference is looked up. */
  lemma ClassifyByValue(key: string, raw: string, c: Catalog)
    requires Trim(raw) != "" && !StartsWith(Trim(raw), METAOBJECT_PREFIX)
    ensures Classify(key, raw, c) == LookupValue(key, Trim(raw), c)
  {
  }

  lemma LookupTaxonomy(key: string, value: string, t: string, nodes: seq<NodeKeys>, i: int)
    requires NormalizeTaxonomyValue(value) == Some(t) && FirstTaxonomyNode(nodes, t, i)
    ensures LookupValue(key, value, Fold(EMPTY_CATALOG, nodes)) == Resolved(nodes[i].id)
  {
    CatalogTaxonomy(nodes, t);
    var j :| FirstTaxonomyNode(nodes, t, j) && Fold(EMPTY_CATALOG, nodes).taxonomy[t] == nodes[j].id;
    FirstTaxonomyUnique(nodes, t, i, j);
  }

  lemma FirstTaxonomyUnique(nodes: seq<NodeKeys>, k: string, i: int, j: int)
    requires FirstTaxonomyNode(nodes, k, i) && FirstTaxonomyNode(nodes, k, j)
    ensures i == j
  {
  }

  lemma FirstTokenUnique(nodes: seq<NodeKeys>, k: string, i: int, j: int)
    requires FirstTokenNode(nodes, k, i) && FirstTokenNode(nodes, k, j)
    ensures i == j
  {
  }

  /** A value that is no reference and no taxonomy hit is looked up by its token. */
  lemma ClassifyByToken(key: string, raw: string, c: Catalog)
    requires Trim(raw) != "" && !StartsWith(Trim(raw), METAOBJECT_PREFIX)
    requires NormalizeTaxonomyValue(Trim(raw)).None? || NormalizeTaxonomyValue(Trim(raw)).value !in c.taxonomy
    ensures Classify(key, raw, c) == LookupToken(key, Trim(raw), NormalizeToken(Trim(raw)), c)
  {
    ClassifyByValue(key, raw, c);
  }

  /** A value whose token has no alias and is no taxonomy hit resolves exactly when some
      loaded node yields its token with a non-empty id, and then to the first such node. */
  lemma TokenResolvesToFirstNode(key: string, raw: string, nodes: seq<NodeKeys>)
    requires AllSeparated(nodes)
    requires Trim(raw) != "" && !StartsWith(Trim(raw), METAOBJECT_PREFIX)
    requires NormalizeTaxonomyValue(Trim(raw)).None?
    requires NormalizeToken(Trim(raw)) != "" && Replacements(key, NormalizeToken(Trim(raw))) == []
    ensures var o := Classify(key, raw, Fold(EMPTY_CATALOG, nodes));
      o.Resolved? <==> exists i :: FirstTokenNode(nodes, NormalizeToken(Trim(raw)), i) && nodes[i].id != ""
    ensures var o := Classify(key, raw, Fold(EMPTY_CATALOG, nodes));
      o.Resolved? ==> exists i :: FirstTokenNode(nodes, NormalizeToken(Trim(raw)), i) && o.id == nodes[i].id
  {
    ClassifyByToken(key, raw, Fold(EMPTY_CATALOG, nodes));
    TokenNotReference(Trim(raw));
    LookupTokenFirstNode(key, Trim(raw), NormalizeToken(Trim(raw)), nodes);
  }

  lemma LookupTokenFirstNode(key: string, value: string, token: string, nodes: seq<NodeKeys>)
    requires AllSeparated(nodes) && !StartsWith(token, METAOBJECT_PREFIX)
    requires token != "" && Replacements(key, token) == []
    ensures var o := LookupToken(key, value, token, Fold(EMPTY_CATALOG, nodes));
      (o.Resolved? <==> exists i :: FirstTokenNode(nodes, token, i) && nodes[i].id != "") &&
      (o.Resolved? ==> exists i :: FirstTokenNode(nodes, token, i) && o.id == nodes[i].id)
  {
    var c := Fold(EMPTY_CATALOG, nodes);
    CatalogToken(nodes, token);
    assert AliasCandidates(key, token) == [token];
    assert LookupToken(key, value, token, c) == (if Matches(token, c.synonyms) then Resolved(c.synonyms[token]) else Unresolved(value));
    if token in c.synonyms {
      var j :| FirstTokenNode(nodes, token, j) && c.synonyms[token] == nodes[j].id;
      forall i | FirstTokenNode(nodes, token, i)
        ensures i == j
      {
        FirstTokenUnique(nodes, token, i, j);
      }
    }
  }

  /** A value whose own token has no id but whose one alias replacement has resolves to
      the replacement's id (`long sleeve` to the `lang` metaobject, say). */
  lemma AliasResolves(key: string, raw: string, c: Catalog, replacement: string)
    requires Trim(raw) != "" && !StartsWith(Trim(raw), METAOBJECT_PREFIX)
    requires NormalizeTaxonomyValue(Trim(raw)).None?
    requires NormalizeToken(Trim(raw)) != "" && !Matches(NormalizeToken(Trim(raw)), c.synonyms)
    requires Replacements(key, NormalizeToken(Trim(raw))) == [replacement] && Matches(replacement, c.synonyms)
    ensures Classify(key, raw, c) == Resolved(c.synonyms[replacement])
  {
    ClassifyByToken(key, raw, c);
    LookupAlias(key, Trim(raw), NormalizeToken(Trim(raw)), c, replacement);
  }

  lemma LookupAlias(key: string, value: string, token: string, c: Catalog, replacement: string)
    requires token != "" && !Matches(token, c.synonyms)
    requires Replacements(key, token) == [replacement] && Matches(replacement, c.synonyms)
    ensures LookupToken(key, value, token, c) == Resolved(c.synonyms[replacement])
  {
    var candidates := AliasCandidates(key, token);
    assert replacement in candidates;
    var m := FirstMatch(candidates, c.synonyms);
    var i :| FirstMatching(candidates, c.synonyms, i) && m.value == c.synonyms[candidates[i]];
    assert candidates[i] in candidates;
  }

  // ---------------------------------------------------------------------------
  // Loading a catalog

  /** One node's scan applied to the catalog so far. */
  method AddNode(c: Catalog, node: CategoryNode, parse: JsonArrayParser) returns (r: Catalog)
    ensures r == NodeStep(c, KeysOf(node, parse))
  {
    var keys := KeysOf(node, parse);
    var synonyms := SetEachTo(c.synonyms, keys.gids, keys.id);
    synonyms := SetEachAbsent(synonyms, keys.tokens, keys.id);
    var taxonomy := SetEachAbsent(c.taxonomy, keys.taxonomyIds, keys.id);
    r := Catalog(synonyms, taxonomy);
  }

  /** The `edges.forEach` of one page. */
  method AddNodes(c: Catalog, nodes: seq<CategoryNode>, parse: JsonArrayParser) returns (r: Catalog)
    ensures r == Fold(c, KeysOfAll(nodes, parse))
  {
    r := c;
    for i := 0 to |nodes|
      invariant r == Fold(c, KeysOfAll(nodes[..i], parse))
    {
      AddNodesStep(c, nodes, i, parse);
      r := AddNode(r, nodes[i], parse);
    }
    assert nodes[..|nodes|] == nodes;
  }

  lemma AddNodesStep(c: Catalog, nodes: seq<CategoryNode>, i: nat, parse: JsonArrayParser)
    requires i < |nodes|
    ensures Fold(c, KeysOfAll(nodes[..i + 1], parse)) == NodeStep(Fold(c, KeysOfAll(nodes[..i], parse)), KeysOf(nodes[i], parse))
  {
    assert nodes[..i + 1][..i] == nodes[..i];
    var keys := KeysOfAll(nodes[..i + 1], parse);
    assert keys[..|keys| - 1] == KeysOfAll(nodes[..i], parse);
  }

  /** A load whose request `k` throws rejects with that error. */
  lemma LoadedCatalogErr(listing: seq<Result<Page<CategoryNode>, string>>, parse: JsonArrayParser, k: nat)
    requires Ends(listing) && k <= Stop(listing) && listing[k].Err?
    ensures LoadedCatalog(listing, parse) == Err(listing[k].error)
  {
    StopAt(listing, k);
  }

  /** One more page of the listing adds its nodes to the catalog. */
  lemma PageKeysStep(listing: seq<Result<Page<CategoryNode>, string>>, k: nat, parse: JsonArrayParser)
    requires k < |listing| && forall j :: 0 <= j <= k ==> listing[j].Ok?
    ensures Fold(EMPTY_CATALOG, PageKeys(listing, k + 1, parse)) ==
      Fold(Fold(EMPTY_CATALOG, PageKeys(listing, k, parse)), KeysOfAll(listing[k].value.nodes, parse))
  {
    FoldAppend(EMPTY_CATALOG, PageKeys(listing, k, parse), KeysOfAll(listing[k].value.nodes, parse));
  }

  /** The `while (hasNextPage)` loop of one load, with the requests it sends. */
  method LoadPages(metaobjectType: string, listing: seq<Result<Page<CategoryNode>, string>>, parse: JsonArrayParser)
      returns (r: Result<Catalog, string>, sent: seq<Request>)
    requires Ends(listing)
    ensures r == LoadedCatalog(listing, parse)
    ensures sent == Requests(metaobjectType, listing, Stop(listing) + 1)
  {
    var c := EMPTY_CATALOG;
    var hasNext := true;
    var cursor: Option<string> := None;
    var k := 0;
    sent := [];
    while hasNext
      invariant 0 <= k <= Stop(listing) + 1
      invariant forall j :: 0 <= j < k ==> listing[j].Ok?
      invariant hasNext <==> k <= Stop(listing)
      invariant c == Fold(EMPTY_CATALOG, PageKeys(listing, k, parse))
      invariant cursor == CursorOf(listing, k)
      invariant sent == Requests(metaobjectType, listing, k)
      decreases Stop(listing) + 1 - k
    {
      var request := Request(metaobjectType, cursor);
      var answer := listing[k];
      if answer.Err? {
        PageThrew(metaobjectType, listing, k, sent, cursor);
        LoadedCatalogErr(listing, parse, k);
        return Err(answer.error), sent + [request];
      }
      var page := answer.value;
      PageReturned(metaobjectType, listing, k, sent, cursor);
      PageKeysStep(listing, k, parse);
      sent := sent + [request];
      c := AddNodes(c, page.nodes, parse);
      hasNext := page.hasNextPage;
      cursor := page.endCursor;
      k := k + 1;
    }
    LoadedCatalogOk(listing, parse, k);
    r := Ok(c);
  }

  lemma LoadedCatalogOk(listing: seq<Result<Page<CategoryNode>, string>>, parse: JsonArrayParser, k: nat)
    requires Ends(listing) && k == Stop(listing) + 1 && forall j :: 0 <= j < k ==> listing[j].Ok?
    ensures LoadedCatalog(listing, parse) == Ok(Fold(EMPTY_CATALOG, PageKeys(listing, k, parse)))
  {
    assert listing[k - 1].Ok?;
  }

  /** A `CATEGORY_STANDARD_DEFINITIONS` entry: where the category attribute lives as a
      standard metafield and which metaobject type its values are. */
  datatype Definition = Definition(namespace: string, key: string, metaobjectType: string)

  const REFERENCE_LIST_TYPE := "list.metaobject_reference"

  /** The module-level `catalogCache` and the category conversion around it. A load that
      throws caches nothing, so the next load of that type asks again; the server answers
      the successive requests of every load of a type with `listings(type)`. The
      definitions and the category keys are the configuration tables. */
  class CategoryCatalogs {
    const listings: string -> seq<Result<Page<CategoryNode>, string>>
    const parse: JsonArrayParser
    const definitions: string -> Option<Definition>
    const categoryKeys: seq<string>
    var catalogs: map<string, Catalog>
    var requests: seq<Request>

    ghost predicate Valid()
      reads this`catalogs
    {
      (forall t :: Ends(listings(t))) &&
      forall t :: t in catalogs ==> LoadedCatalog(listings(t), parse) == Ok(catalogs[t])
    }

    constructor(listings: string -> seq<Result<Page<CategoryNode>, string>>, parse: JsonArrayParser,
                definitions: string -> Option<Definition>, categoryKeys: seq<string>)
      requires forall t :: Ends(listings(t))
      ensures Valid()
      ensures this.listings == listings && this.parse == parse
      ensures this.definitions == definitions && this.categoryKeys == categoryKeys
      ensures catalogs == map[] && requests == []
    {
      this.listings := listings;
      this.parse := parse;
      this.definitions := definitions;
      this.categoryKeys := categoryKeys;
      catalogs, requests := map[], [];
    }

    /** `loadCatalog`: the cached catalog without a request, or every page up to the
        last, cached when no request threw. */
    method LoadCatalog(metaobjectType: string) returns (r: Result<Catalog, string>)
      requires Valid()
      modifies this
      ensures Valid()
      ensures r == LoadedCatalog(listings(metaobjectType), parse)
      ensures metaobjectType in old(catalogs) ==> requests == old(requests) && catalogs == old(catalogs)
      ensures metaobjectType !in old(catalogs) ==>
        requests == old(requests) + Requests(metaobjectType, listings(metaobjectType), Stop(listings(metaobjectType)) + 1) &&
        catalogs == (if r.Ok? then old(catalogs)[metaobjectType := r.value] else old(catalogs))
    {
      if metaobjectType in catalogs {
        return Ok(catalogs[metaobjectType]);
      }
      var loaded, sent := LoadPages(metaobjectType, listings(metaobjectType), parse);
      Remember(metaobjectType, loaded, sent);
      r := loaded;
    }

    /** Records the requests of one load, and caches its catalog when no request threw. */
    method Remember(metaobjectType: string, loaded: Result<Catalog, string>, sent: seq<Request>)
      requires Valid() && loaded == LoadedCatalog(listings(metaobjectType), parse)
      modifies this
      ensures Valid()
      ensures requests == old(requests) + sent
      ensures catalogs == if loaded.Ok? then old(catalogs)[metaobjectType := loaded.value] else old(catalogs)
    {
      Send(sent);
      if loaded.Ok? {
        Cache(metaobjectType, loaded.value);
      }
    }

    method Send(sent: seq<Request>)
      modifies this`requests
      ensures requests == old(requests) + sent
    {
      requests := requests + sent;
    }

    method Cache(metaobjectType: string, catalog: Catalog)
      requires Valid() && LoadedCatalog(listings(metaobjectType), parse) == Ok(catalog)
      modifies this`catalogs
      ensures Valid()
      ensures catalogs == old(catalogs)[metaobjectType := catalog]
    {
      catalogs := catalogs[metaobjectType := catalog];
    }

    /** What `resolveCategoryMetaobjectIds` returns: nothing for no values; every value
        unresolved when the key has no standard definition or its catalog is empty; the
        load's error; otherwise the resolution against the catalog. */
    function Resolution(key: string, values: seq<string>): (r: Result<(seq<string>, seq<string>), string>)
      requires forall t :: Ends(listings(t))
      ensures r.Ok? && r.value.0 != [] ==> definitions(key).Some?
      ensures r.Ok? ==> Distinct(r.value.0)
      ensures r.Err? ==> definitions(key).Some? && LoadedCatalog(listings(definitions(key).value.metaobjectType), parse).Err?
      ensures values == [] ==> r == Ok(([], []))
      ensures values != [] && definitions(key).None? ==> r == Ok(([], values))
    {
      if values == [] then Ok(([], []))
      else if definitions(key).None? then Ok(([], values))
      else
        match LoadedCatalog(listings(definitions(key).value.metaobjectType), parse)
        case Err(e) => Err(e)
        case Ok(c) =>
          if |c.synonyms| == 0 && |c.taxonomy| == 0 then Ok(([], values)) else Ok(Resolve(key, values, c))
    }

    /** `resolveCategoryMetaobjectIds`. */
    method ResolveCategoryMetaobjectIds(key: string, values: seq<string>) returns (r: Result<(seq<string>, seq<string>), string>)
      requires Valid()
      modifies this
      ensures Valid()
      ensures r == Resolution(key, values)
      ensures values == [] || definitions(key).None? ==> requests == old(requests) && catalogs == old(catalogs)
    {
      if values == [] {
        return Ok(([], []));
      }
      var definition := definitions(key);
      if definition.None? {
        return Ok(([], values));
      }
      var loaded := LoadCatalog(definition.value.metaobjectType);
      if loaded.Err? {
        return Err(loaded.error);
      }
      var c := loaded.value;
      if |c.synonyms| == 0 && |c.taxonomy| == 0 {
        return Ok(([], values));
      }
      var resolved, unresolved := ClassifyEach(key, values, c);
      r := Ok((Dedup(resolved), unresolved));
    }

    /** A metafield `convertCategoryMetafields` rewrites: one in the `category`
        namespace under a category key. */
    predicate IsCategory(entry: MetafieldInput) {
      entry.namespace == "category" && entry.key in categoryKeys
    }

    /** The values a category metafield is resolved from: its extracted values, or the
        raw value when none is extracted. */
    function ValuesOf(entry: MetafieldInput): (r: seq<string>)
      ensures r != []
      ensures ExtractValues(entry.value, parse) != [] ==> r == ExtractValues(entry.value, parse)
    {
      var values := ExtractValues(entry.value, parse);
      if |values| > 0 then values else [entry.value]
    }

    /** One entry of `convertCategoryMetafields`: other metafields pass through; a
        category metafield with a resolved id becomes the standard metafield's list of
        metaobject references; one without stays as it is. */
    function Converted(entry: MetafieldInput): (r: Result<MetafieldInput, string>)
      requires forall t :: Ends(listings(t))
      ensures !IsCategory(entry) ==> r == Ok(entry)
      ensures r.Ok? && r.value != entry ==>
        IsCategory(entry) && definitions(entry.key).Some? &&
        r.value.namespace == definitions(entry.key).value.namespace &&
        r.value.key == definitions(entry.key).value.key &&
        r.value.valueType == REFERENCE_LIST_TYPE && r.value.value != "[]"
      ensures r.Err? ==> IsCategory(entry) && Resolution(entry.key, ValuesOf(entry)).Err?
    {
      if !IsCategory(entry) then Ok(entry)
      else
        match Resolution(entry.key, ValuesOf(entry))
        case Err(e) => Err(e)
        case Ok(outcome) =>
          if |outcome.0| > 0 then
            var definition := definitions(entry.key).value;
            Ok(MetafieldInput(definition.namespace, definition.key, REFERENCE_LIST_TYPE, Json.StringArray(outcome.0)))
          else Ok(entry)
    }

    /** The conversion of each entry, in order. */
    function ConvertedEach(entries: seq<MetafieldInput>): (r: seq<Result<MetafieldInput, string>>)
      requires forall t :: Ends(listings(t))
      ensures |r| == |entries| && forall i :: 0 <= i < |entries| ==> r[i] == Converted(entries[i])
    {
      if entries == [] then [] else [Converted(entries[0])] + ConvertedEach(entries[1..])
    }

    /** `convertCategoryMetafields`. */
    method ConvertCategoryMetafields(metafields: seq<MetafieldInput>) returns (r: Result<seq<MetafieldInput>, string>)
      requires Valid()
      modifies this
      ensures Valid()
      ensures r == Collect(ConvertedEach(metafields))
    {
      var transformed, failure := ConvertEntries(metafields);
      if failure.Some? {
        CollectAfterValues(ConvertedEach(metafields), transformed, |transformed|);
        r := Err(failure.value);
      } else {
        CollectValues(ConvertedEach(metafields), transformed);
        r := Ok(transformed);
      }
    }

    /** The `for` loop of `convertCategoryMetafields`: the conversions of the entries
        before the first that throws, and that entry's error; or every conversion. */
    method ConvertEntries(metafields: seq<MetafieldInput>) returns (transformed: seq<MetafieldInput>, failure: Option<string>)
      requires Valid()
      modifies this
      ensures Valid()
      ensures |transformed| <= |metafields|
      ensures forall j :: 0 <= j < |transformed| ==> Converted(metafields[j]) == Ok(transformed[j])
      ensures failure.None? ==> |transformed| == |metafields|
      ensures failure.Some? ==> |transformed| < |metafields| && Converted(metafields[|transformed|]) == Err(failure.value)
    {
      transformed := [];
      for i := 0 to |metafields|
        invariant Valid()
        invariant |transformed| == i && forall j :: 0 <= j < i ==> Converted(metafields[j]) == Ok(transformed[j])
      {
        var converted := ConvertEntry(metafields[i]);
        if converted.Err? {
          return transformed, Some(converted.error);
        }
        ConvertedSnoc(metafields, transformed, converted.value);
        transformed := transformed + [converted.value];
      }
      failure := None;
    }

    /** One more entry converted. */
    lemma ConvertedSnoc(metafields: seq<MetafieldInput>, transformed: seq<MetafieldInput>, v: MetafieldInput)
      requires forall t :: Ends(listings(t))
      requires |transformed| < |metafields| && Converted(metafields[|transformed|]) == Ok(v)
      requires forall j :: 0 <= j < |transformed| ==> Converted(metafields[j]) == Ok(transformed[j])
      ensures forall j :: 0 <= j < |transformed| + 1 ==> Converted(metafields[j]) == Ok((transformed + [v])[j])
    {
    }

    /** The body of the `for` loop of `convertCategoryMetafields` for one entry. */
    method ConvertEntry(entry: MetafieldInput) returns (r: Result<MetafieldInput, string>)
      requires Valid()
      modifies this
      ensures Valid()
      ensures r == Converted(entry)
    {
      if !IsCategory(entry) {
        return Ok(entry);
      }
      var outcome := ResolveCategoryMetaobjectIds(entry.key, ValuesOf(entry));
      if outcome.Err? {
        return Err(outcome.error);
      }
      var resolved := outcome.value.0;
      if |resolved| > 0 {
        var definition := definitions(entry.key).value;
        r := Ok(MetafieldInput(definition.namespace, definition.key, REFERENCE_LIST_TYPE, Json.StringArray(resolved)));
      } else {
        r := Ok(entry);
      }
    }

    /** Every entry converts to one entry in order, other metafields unchanged, or the
        conversion rejects with the error of the first entry whose load threw. */
    lemma ConvertShape(entries: seq<MetafieldInput>)
      requires forall t :: Ends(listings(t))
      ensures var r := Collect(ConvertedEach(entries));
        r.Ok? ==> |r.value| == |entries| && forall i :: 0 <= i < |entries| ==>
          Converted(entries[i]) == Ok(r.value[i]) && (!IsCategory(entries[i]) ==> r.value[i] == entries[i])
      ensures var r := Collect(ConvertedEach(entries));
        r.Err? ==> exists i :: 0 <= i < |entries| && IsCategory(entries[i]) && Converted(entries[i]) == Err(r.error) &&
                              (forall j :: 0 <= j < i ==> Converted(entries[j]).Ok?)
    {
      var results := ConvertedEach(entries);
      var r := Collect(results);
      if r.Err? {
        var i :| FirstError(results, i) && results[i] == Err(r.error);
        assert forall j :: 0 <= j < i ==> Converted(entries[j]).Ok? by {
          assert forall j :: 0 <= j < i ==> results[j] == Converted(entries[j]);
        }
      }
    }
  }
}
