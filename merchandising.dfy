/** Price and GS1 product classification lookup from a free-text style: both walk their
    table in declaration order and take the first key that is contained in the lowercased
    style or contains it. */
module Merchandising {
  import opened Wrappers
  import opened Text
  import opened Records

  /** The price table, in declaration order. */
  const PRICE_MAP: seq<(string, string)> := [
    ("cap", "399"),
    ("short sleeve shirt", "649"),
    ("t-shirt", "349"),
    ("long sleeve shirt", "699"),
    ("longsleeve shirt", "699"),
    ("bali shirt", "499"),
    ("kids shirt", "299"),
    ("sweatshirt", "649"),
    ("hoodie", "649"),
    ("jacket", "1199")
  ]

  const DEFAULT_PRICE := "499"

  /** A GPC segment > family > class > brick path with its names and the matching
      Shopify taxonomy category. */
  datatype GpcMapping = GpcMapping(
    segment: string, family: string, classCode: string, brick: string,
    segmentName: string, familyName: string, className: string, brickName: string,
    taxonomyCategoryId: string)

  const CAP_GPC := GpcMapping("67000000", "67010000", "67010100", "10001329",
    "Clothing", "Clothing", "Clothing Accessories", "Headwear",
    "gid://shopify/TaxonomyCategory/aa-2-17-1")

  const T_SHIRT_GPC := GpcMapping("67000000", "67010000", "67010800", "10001352",
    "Clothing", "Clothing", "Upper Body Wear/Tops", "Shirts/Blouses/Polo Shirts/T-shirts",
    "gid://shopify/TaxonomyCategory/aa-1-13-8")

  /** The classification table, in declaration order. */
  const GPC_MAP: seq<(string, GpcMapping)> := [
    ("cap", CAP_GPC),
    ("t-shirt", T_SHIRT_GPC),
    ("short sleeve shirt", GpcMapping("67000000", "67010000", "67010800", "10001352",
      "Clothing", "Clothing", "Upper Body Wear/Tops", "Shirts/Blouses/Polo Shirts/T-shirts",
      "gid://shopify/TaxonomyCategory/aa-1-13-7")),
    ("long sleeve shirt", GpcMapping("67000000", "67010000", "67010800", "10001352",
      "Clothing", "Clothing", "Upper Body Wear/Tops", "Shirts/Blouses/Polo Shirts/T-shirts",
      "gid://shopify/TaxonomyCategory/aa-1-13-7")),
    ("bali shirt", GpcMapping("67000000", "67010000", "67010800", "10001352",
      "Clothing", "Clothing", "Upper Body Wear/Tops", "Shirts/Blouses/Polo Shirts/T-shirts",
      "gid://shopify/TaxonomyCategory/aa-1-13-7")),
    ("hoodie", GpcMapping("67000000", "67010000", "67010800", "10001351",
      "Clothing", "Clothing", "Upper Body Wear/Tops", "Sweaters/Pullovers",
      "gid://shopify/TaxonomyCategory/aa-1-13-13")),
    ("sweatshirt", GpcMapping("67000000", "67010000", "67010800", "10001351",
      "Clothing", "Clothing", "Upper Body Wear/Tops", "Sweaters/Pullovers",
      "gid://shopify/TaxonomyCategory/aa-1-13-14")),
    ("jacket", GpcMapping("67000000", "67010000", "67010800", "10001350",
      "Clothing", "Clothing", "Upper Body Wear/Tops", "Jackets/Blazers/Cardigans/Waistcoats",
      "gid://shopify/TaxonomyCategory/aa-1-10-2")),
    ("kids shirt", GpcMapping("67000000", "67010000", "67010800", "10001352",
      "Clothing", "Clothing", "Upper Body Wear/Tops", "Shirts/Blouses/Polo Shirts/T-shirts",
      "gid://shopify/TaxonomyCategory/aa-1-2-9-6"))
  ]

  /** A mapping together with its dash-joined code and its `>`-joined description. */
  datatype GpcResult = GpcResult(mapping: GpcMapping, code: string, description: string)

  /** The substring test of both lookups, in either direction. */
  predicate Matches(normalized: string, key: string) {
    Contains(normalized, key) || Contains(key, normalized)
  }

  /** Index of the first entry whose key matches, or -1. */
  function FirstMatch<V>(entries: seq<(string, V)>, normalized: string): (r: int)
    ensures -1 <= r < |entries|
    ensures r >= 0 ==> Matches(normalized, entries[r].0)
    ensures forall j :: 0 <= j < |entries| && (r < 0 || j < r) ==> !Matches(normalized, entries[j].0)
  {
    if entries == [] then -1
    else if Matches(normalized, entries[0].0) then 0
    else
      var k := FirstMatch(entries[1..], normalized);
      if k < 0 then -1 else k + 1
  }

  /** The price `determinePrice` gives: 499 for an absent or empty style, else the price
      of the first matching entry, else 499. */
  function PriceFor(style: Option<string>): (price: string)
    ensures style.None? || style.value == [] ==> price == DEFAULT_PRICE
    ensures style.Some? && style.value != [] ==>
      var i := FirstMatch(PRICE_MAP, ToLower(style.value));
      price == if i < 0 then DEFAULT_PRICE else PRICE_MAP[i].1
  {
    if style.None? || style.value == [] then DEFAULT_PRICE
    else
      var i := FirstMatch(PRICE_MAP, ToLower(style.value));
      if i < 0 then DEFAULT_PRICE else PRICE_MAP[i].1
  }

  /** The walk both lookups make over their table, in order, returning the value of the
      first entry whose key matches. */
  method WalkTable<V>(entries: seq<(string, V)>, normalized: string) returns (hit: Option<V>)
    ensures var i := FirstMatch(entries, normalized);
      hit == if i >= 0 then Some(entries[i].1) else None
  {
    for i := 0 to |entries|
      invariant forall j :: 0 <= j < i ==> !Matches(normalized, entries[j].0)
    {
      var (key, value) := entries[i];
      if Contains(normalized, key) || Contains(key, normalized) {
        return Some(value);
      }
    }
    return None;
  }

  /** `determinePrice`: the `for ... of` walk over the table with early return. */
  method DeterminePrice(style: Option<string>) returns (price: string)
    ensures price == PriceFor(style)
    ensures price == DEFAULT_PRICE || exists i :: 0 <= i < |PRICE_MAP| && price == PRICE_MAP[i].1
  {
    if style.None? || style.value == [] {
      return DEFAULT_PRICE;
    }
    var normalized := ToLower(style.value);
    var hit := WalkTable(PRICE_MAP, normalized);
    if hit.Some? {
      return hit.value;
    }
    return DEFAULT_PRICE;
  }

  /** The price is the first match in table order: if entry `i` matches and no earlier
      entry does, its price is the answer, whatever later (possibly longer) keys match. */
  lemma PriceIsFirstMatch(style: string, i: nat)
    requires style != [] && i < |PRICE_MAP|
    requires Matches(ToLower(style), PRICE_MAP[i].0)
    requires forall j :: 0 <= j < i ==> !Matches(ToLower(style), PRICE_MAP[j].0)
    ensures PriceFor(Some(style)) == PRICE_MAP[i].1
  {
    FirstMatchIs(PRICE_MAP, ToLower(style), i);
  }

  /** A matching entry with no match before it is the first match. */
  lemma FirstMatchIs<V>(entries: seq<(string, V)>, normalized: string, i: nat)
    requires i < |entries| && Matches(normalized, entries[i].0)
    requires forall j :: 0 <= j < i ==> !Matches(normalized, entries[j].0)
    ensures FirstMatch(entries, normalized) == i
  {
  }

  /** With no matching key at all, the price is 499. */
  lemma PriceWithoutMatch(style: string)
    requires forall j :: 0 <= j < |PRICE_MAP| ==> !Matches(ToLower(style), PRICE_MAP[j].0)
    ensures PriceFor(Some(style)) == DEFAULT_PRICE
  {
  }

  /** `"Classic Cap"` and `"cap"` are both priced as caps. */
  lemma CapPrices()
    ensures PriceFor(Some("Classic Cap")) == "399"
    ensures PriceFor(Some("cap")) == "399"
  {
    var s := ToLower("Classic Cap");
    assert s == "classic cap";
    ContainsAt(s, "cap", 8);
    ContainsSelf("cap");
    PriceIsFirstMatch("Classic Cap", 0);
    PriceIsFirstMatch("cap", 0);
  }

  /** Key containment runs both ways, so the bare style `"shirt"` takes the first key
      containing it, `"short sleeve shirt"`, and not `"t-shirt"`. */
  lemma ShirtPrice()
    ensures PriceFor(Some("shirt")) == "649"
  {
    ShirtLower();
    ShirtMatches();
    ShirtEntries();
    PriceIsFirstMatch("shirt", 1);
  }

  lemma ShirtLower()
    ensures ToLower("shirt") == "shirt"
  {
    assert forall i :: 0 <= i < |"shirt"| ==> IsLowerAlnum("shirt"[i]);
    LowerAlnumUnlowered("shirt");
  }

  lemma ShirtEntries()
    ensures PRICE_MAP[0].0 == "cap" && PRICE_MAP[1] == ("short sleeve shirt", "649")
  {
  }

  lemma ShirtMatches()
    ensures !Matches("shirt", "cap") && Matches("shirt", "short sleeve shirt")
  {
    NotContainsByChar("shirt", "cap", 'c');
    NotContainsByChar("cap", "shirt", 's');
    assert "short sleeve shirt"[13..18] == "shirt";
    ContainsAt("short sleeve shirt", "shirt", 13);
  }

  /** `!mapping` after the exact and the substring lookup sends accessory categories to
      the cap mapping and everything else to the t-shirt mapping. */
  predicate AccessoryCategory(category: Option<string>) {
    var c := ToLower(category.GetOr(""));
    Contains(c, "tilbehør") || Contains(c, "accessories")
  }

  /** The mapping `determineGpc` settles on: an exact key first, then the first entry
      matching in either direction, then the category fallback. */
  function GpcMappingFor(style: Option<string>, category: Option<string>): (m: GpcMapping)
    ensures var s := ToLower(style.GetOr(""));
      var e := KeyIndex(GPC_MAP, s);
      var i := FirstMatch(GPC_MAP, s);
      (e >= 0 ==> m == GPC_MAP[e].1) &&
      (e < 0 && i >= 0 ==> m == GPC_MAP[i].1) &&
      (e < 0 && i < 0 ==> m == if AccessoryCategory(category) then CAP_GPC else T_SHIRT_GPC)
  {
    var s := ToLower(style.GetOr(""));
    var e := KeyIndex(GPC_MAP, s);
    if e >= 0 then GPC_MAP[e].1
    else
      var i := FirstMatch(GPC_MAP, s);
      if i >= 0 then GPC_MAP[i].1
      else if AccessoryCategory(category) then CAP_GPC
      else T_SHIRT_GPC
  }

  /** `determineGpc`: the exact read, then the substring walk with `break`, then the
      category fallback; the code and description are the four ids and the four names
      joined. */
  method DetermineGpc(style: Option<string>, category: Option<string>) returns (r: GpcResult)
    ensures r.mapping == GpcMappingFor(style, category)
    ensures r.code == Join([r.mapping.segment, r.mapping.family, r.mapping.classCode, r.mapping.brick], "-")
    ensures r.description == Join([r.mapping.segmentName, r.mapping.familyName, r.mapping.className,
                                   r.mapping.brickName], " > ")
  {
    var normalizedStyle := ToLower(style.GetOr(""));
    var e := KeyIndex(GPC_MAP, normalizedStyle);
    var mapping: Option<GpcMapping> := if e >= 0 then Some(GPC_MAP[e].1) else None;
    if mapping.None? {
      mapping := WalkTable(GPC_MAP, normalizedStyle);
    }
    if mapping.None? {
      var normalizedCategory := ToLower(category.GetOr(""));
      if Contains(normalizedCategory, "tilbehør") || Contains(normalizedCategory, "accessories") {
        mapping := Some(CAP_GPC);
      } else {
        mapping := Some(T_SHIRT_GPC);
      }
    }
    var m := mapping.value;
    var code := m.segment + "-" + m.family + "-" + m.classCode + "-" + m.brick;
    var description := m.segmentName + " > " + m.familyName + " > " + m.className + " > " + m.brickName;
    JoinFour(m.segment, m.family, m.classCode, m.brick, "-");
    JoinFour(m.segmentName, m.familyName, m.className, m.brickName, " > ");
    r := GpcResult(m, code, description);
  }

  /** Every key contains the empty string, so an absent or empty style always takes the
      first entry, the cap mapping, whatever the category. */
  lemma EmptyStyleGivesCap(style: Option<string>, category: Option<string>)
    requires style.None? || style.value == []
    ensures GpcMappingFor(style, category) == CAP_GPC
  {
    ContainsEmpty("cap");
    assert KeyIndex(GPC_MAP, "") < 0;
  }

  /** A style equal to a key (after lowercasing) takes that key's mapping. */
  lemma ExactKeyWins(style: string, category: Option<string>, e: nat)
    requires e < |GPC_MAP| && ToLower(style) == GPC_MAP[e].0
    ensures GpcMappingFor(Some(style), category) == GPC_MAP[e].1
  {
    GpcKeysDistinct();
  }

  lemma GpcKeysDistinct()
    ensures forall a, b :: 0 <= a < b < |GPC_MAP| ==> GPC_MAP[a].0 != GPC_MAP[b].0
  {
  }

  /** A style matching no key falls back on the category. */
  lemma UnmatchedStyleUsesCategory(style: string, category: Option<string>)
    requires forall j :: 0 <= j < |GPC_MAP| ==> !Matches(ToLower(style), GPC_MAP[j].0)
    ensures GpcMappingFor(Some(style), category) == if AccessoryCategory(category) then CAP_GPC else T_SHIRT_GPC
  {
    var k := KeyIndex(GPC_MAP, ToLower(style));
    if k >= 0 {
      ContainsSelf(GPC_MAP[k].0);
    }
  }

  /** The mapping is always one of the table's. */
  lemma GpcMappingInTable(style: Option<string>, category: Option<string>)
    ensures exists i :: 0 <= i < |GPC_MAP| && GpcMappingFor(style, category) == GPC_MAP[i].1
  {
    var m := GpcMappingFor(style, category);
    if m == CAP_GPC {
      assert GPC_MAP[0].1 == m;
    } else if m == T_SHIRT_GPC {
      assert GPC_MAP[1].1 == m;
    }
  }

  /** The code of a table mapping splits back into its four ids. */
  lemma CodeSplits(i: nat)
    requires i < |GPC_MAP|
    ensures var m := GPC_MAP[i].1;
      Split(Join([m.segment, m.family, m.classCode, m.brick], "-"), '-') == [m.segment, m.family, m.classCode, m.brick]
  {
    var m := GPC_MAP[i].1;
    TableIds(i);
    IdsUndashed();
    SplitJoin([m.segment, m.family, m.classCode, m.brick], '-');
  }

  /** Every mapping of the table is in segment 67000000 and family 67010000, in one of
      two classes and with one of four bricks. */
  lemma TableIds(i: nat)
    requires i < |GPC_MAP|
    ensures var m := GPC_MAP[i].1;
      m.segment == "67000000" && m.family == "67010000" &&
      (m.classCode == "67010800" || m.classCode == CAP_GPC.classCode) &&
      (m.brick == "10001352" || m.brick == "10001351" || m.brick == "10001350" || m.brick == CAP_GPC.brick)
  {
  }

  lemma IdsUndashed()
    ensures '-' !in "67000000" && '-' !in "67010000" && '-' !in "67010800" && '-' !in CAP_GPC.classCode
    ensures '-' !in "10001352" && '-' !in "10001351" && '-' !in "10001350" && '-' !in CAP_GPC.brick
  {
  }
}
