/** The GS1 product classification profile of a listing: the style picks one of four base
    profiles, and the gender, age, sleeve and hood descriptions pick attribute value codes
    by first match over ordered token tables. */
module Gpc {
  import opened Wrappers
  import opened Text
  import opened Constants

  // ---------------------------------------------------------------------------
  // First match over token tables

  /** Some token of `tokens` occurs in `s` (`tokens.some(t => s.includes(t))`). */
  predicate ContainsAny(s: string, tokens: seq<string>) {
    exists t :: t in tokens && Contains(s, t)
  }

  /** Index of the first entry having a token contained in `s`, or -1
      (`table.find(entry => entry.includes.some(t => s.includes(t)))`). */
  function FirstEntry<V>(table: seq<(seq<string>, V)>, s: string): (r: int)
    ensures -1 <= r < |table|
    ensures r >= 0 ==> ContainsAny(s, table[r].0)
    ensures forall j :: 0 <= j < |table| && (r < 0 || j < r) ==> !ContainsAny(s, table[j].0)
  {
    if table == [] then -1
    else if ContainsAny(s, table[0].0) then 0
    else
      var k := FirstEntry(table[1..], s);
      if k < 0 then -1 else k + 1
  }

  /** The value of the first entry having a token contained in `s`, or `default`
      (`find(...)?.value ?? default`, or an if-chain over token groups). */
  function Classify<V>(table: seq<(seq<string>, V)>, s: string, default: V): V {
    var i := FirstEntry(table, s);
    if i < 0 then default else table[i].1
  }

  /** Lowercased trimmed text of an optional field. */
  function Normalize(input: Option<string>): (r: string)
    ensures |r| == |Trim(input.GetOr(""))|
  {
    ToLower(Trim(input.GetOr("")))
  }

  // ---------------------------------------------------------------------------
  // Attribute value codes

  const DEFAULT_GENDER := "30004340"
  const DEFAULT_AGE := "30000147"

  const GENDER_MAP: seq<(seq<string>, string)> := [
    (["unisex"], "30004340"),
    (["male", "mand", "herre"], "30004039"),
    (["female", "kvinde", "dame"], "30003891")
  ]

  const AGE_MAP: seq<(seq<string>, string)> := [
    (["adult", "voksen", "voksne"], "30000147"),
    (["all ages", "alle"], "30000164"),
    (["baby", "infant"], "30006665"),
    (["child", "børn", "barn"], "30000628")
  ]

  const SLEEVE_MAP: seq<(seq<string>, string)> := [
    (["lang", "long", "lange", "long sleeve", "fuld", "full"], "30010303"),
    (["kort", "short"], "30010304"),
    (["ingen", "none", "ærmeløs", "aarm", "no sleeve", "sleeveless"], "30010302"),
    (["tre kvart", "3/4", "three quarter"], "30010305")
  ]
  const OTHER_SLEEVE := "30002515"

  const HOOD_MAP: seq<(seq<string>, string)> := [(["hætte", "hood", "hooded"], "30002654")]
  const NOT_HOODED := "30002960"

  const SHIRT_TYPE_MAP: seq<(seq<string>, string)> := [(["t-shirt"], "30010301"), (["polo"], "30010300")]
  const OTHER_SHIRT := "30010298"

  const JACKET_TYPE_MAP: seq<(seq<string>, string)> := [
    (["bomber"], "30017159"),
    (["parka"], "30017160"),
    (["cardigan"], "30010290"),
    (["vest", "waistcoat"], "30010291"),
    (["poncho"], "30017161")
  ]
  const OTHER_JACKET := "30010288"

  const SWEATER_TYPE := "30010306"
  const MATERIAL_CODE := "30000720"
  const CAP_TYPE := "30010323"

  // The searches over an already normalized text.

  function GenderCodeOf(n: string): (code: string)
    ensures code in {DEFAULT_GENDER, "30004039", "30003891"}
  {
    Classify(GENDER_MAP, n, DEFAULT_GENDER)
  }

  function AgeCodeOf(n: string): (code: string)
    ensures code in {DEFAULT_AGE, "30000164", "30006665", "30000628"}
  {
    Classify(AGE_MAP, n, DEFAULT_AGE)
  }

  function SleeveCodeOf(n: string): (code: string)
    ensures code in {"30010303", "30010304", "30010302", "30010305", OTHER_SLEEVE}
  {
    Classify(SLEEVE_MAP, n, OTHER_SLEEVE)
  }

  function HoodCodeOf(n: string): (code: string)
    ensures code in {"30002654", NOT_HOODED}
  {
    Classify(HOOD_MAP, n, NOT_HOODED)
  }

  function ShirtTypeOf(n: string): (code: string)
    ensures code in {"30010301", "30010300", OTHER_SHIRT}
  {
    Classify(SHIRT_TYPE_MAP, n, OTHER_SHIRT)
  }

  function JacketTypeOf(n: string): (code: string)
    ensures code in {"30017159", "30017160", "30010290", "30010291", "30017161", OTHER_JACKET}
  {
    Classify(JACKET_TYPE_MAP, n, OTHER_JACKET)
  }

  // The resolvers of the source, normalizing their input first.

  /** `resolveGenderCode`. */
  function ResolveGenderCode(targetGender: Option<string>): (code: string)
    ensures code in {DEFAULT_GENDER, "30004039", "30003891"}
  {
    GenderCodeOf(Normalize(targetGender))
  }

  /** `resolveAgeCode`. */
  function ResolveAgeCode(ageGroup: Option<string>): (code: string)
    ensures code in {DEFAULT_AGE, "30000164", "30006665", "30000628"}
  {
    AgeCodeOf(Normalize(ageGroup))
  }

  /** `resolveSleeveLengthCode`: absent for a blank description. */
  function ResolveSleeveLengthCode(sleeveLength: Option<string>): (code: Option<string>)
    ensures code.None? <==> Trim(sleeveLength.GetOr("")) == []
    ensures code.Some? ==> code.value in {"30010303", "30010304", "30010302", "30010305", OTHER_SLEEVE}
  {
    var n := Normalize(sleeveLength);
    if n == [] then None else Some(SleeveCodeOf(n))
  }

  /** `resolveHoodedCode`: absent for a blank feature. */
  function ResolveHoodedCode(clothingFeature: Option<string>): (code: Option<string>)
    ensures code.None? <==> Trim(clothingFeature.GetOr("")) == []
    ensures code.Some? ==> code.value in {"30002654", NOT_HOODED}
  {
    var n := Normalize(clothingFeature);
    if n == [] then None else Some(HoodCodeOf(n))
  }

  /** `resolveShirtType`. */
  function ResolveShirtType(style: string): (code: string)
    ensures code in {"30010301", "30010300", OTHER_SHIRT}
  {
    ShirtTypeOf(Normalize(Some(style)))
  }

  /** `resolveJacketType`. */
  function ResolveJacketType(style: string): (code: string)
    ensures code in {"30017159", "30017160", "30010290", "30010291", "30017161", OTHER_JACKET}
  {
    JacketTypeOf(Normalize(Some(style)))
  }

  // ---------------------------------------------------------------------------
  // Profiles

  /** The four profile keys, `cap`, `shirt`, `sweater` and `jacket`. */
  datatype ProfileKey = CapKey | ShirtKey | SweaterKey | JacketKey

  /** The classification a profile starts from. */
  datatype BaseProfile = BaseProfile(
    code: string,
    segmentId: string, segmentName: string, familyId: string, familyName: string,
    classId: string, className: string, brickId: string, brickName: string,
    googleCategory: Option<string>, structuredData: Option<string>)

  /** `BASE_PROFILES`: the base profile of each key. */
  function BaseProfileOf(key: ProfileKey): BaseProfile {
    match key
    case CapKey => BaseProfile("67000000-67010000-67010100-10001329",
      "67000000", "Clothing", "67010000", "Clothing", "67010100", "Clothing Accessories",
      "10001329", "Headwear", Some("Apparel & Accessories > Clothing Accessories > Hats"), None)
    case ShirtKey => BaseProfile("67000000-67010000-67010800-10001352",
      "67000000", "Clothing", "67010000", "Clothing", "67010800", "Upper Body Wear/Tops",
      "10001352", "Shirts/Blouses/Polo Shirts/T-shirts", Some("Apparel & Accessories > Clothing > Shirts & Tops"), None)
    case SweaterKey => BaseProfile("67000000-67010000-67010800-10001351",
      "67000000", "Clothing", "67010000", "Clothing", "67010800", "Upper Body Wear/Tops",
      "10001351", "Sweaters/Pullovers", Some("Apparel & Accessories > Clothing > Shirts & Tops"), None)
    case JacketKey => BaseProfile("67000000-67010000-67010800-10001350",
      "67000000", "Clothing", "67010000", "Clothing", "67010800", "Upper Body Wear/Tops",
      "10001350", "Jackets/Blazers/Cardigans/Waistcoats", Some("Apparel & Accessories > Clothing > Outerwear"), None)
  }

  datatype DeriveOptions = DeriveOptions(style: string, targetGender: Option<string>, ageGroup: Option<string>,
                                         sleeveLength: Option<string>, clothingFeature: Option<string>)

  datatype GpcProfile = GpcProfile(base: BaseProfile, description: string, attributes: map<Attribute, string>)

  /** The style classes in precedence order. */
  const STYLE_MAP: seq<(seq<string>, ProfileKey)> := [
    (["cap"], CapKey),
    (["hoodie"], SweaterKey),
    (["sweater", "pullover"], SweaterKey),
    (["jacket", "coat", "blazer"], JacketKey)
  ]

  /** The style class of a normalized style. */
  function StyleClassOf(n: string): (key: ProfileKey) {
    Classify(STYLE_MAP, n, ShirtKey)
  }

  /** `normalizeStyle`: absent (the source's `""`) for a blank style, else the first class
      whose token occurs, else `shirt`. */
  function NormalizeStyle(style: string): (key: Option<ProfileKey>)
    ensures key.None? <==> Trim(style) == []
    ensures key.Some? ==> key.value == StyleClassOf(Normalize(Some(style)))
  {
    var n := Normalize(Some(style));
    if n == [] then None else Some(StyleClassOf(n))
  }

  /** `descriptionFor`. */
  function DescriptionFor(base: BaseProfile): string {
    Join([base.segmentName, base.familyName, base.className, base.brickName], " > ")
  }

  /** The attribute ids `buildAttributes` can set. */
  datatype Attribute =
    | AGE_ATTR | MATERIAL_ATTR | GENDER_ATTR | JACKET_TYPE_ATTR | SHIRT_TYPE_ATTR
    | SLEEVE_ATTR | SWEATER_TYPE_ATTR | CAP_TYPE_ATTR | HOOD_ATTR

  /** The GS1 attribute id an `Attribute` stands for. */
  function AttributeId(a: Attribute): (id: string)
    ensures |id| == 8 && forall i :: 0 <= i < |id| ==> IsDigit(id[i])
  {
    match a
    case AGE_ATTR => "20000045"
    case MATERIAL_ATTR => "20000794"
    case GENDER_ATTR => "20001131"
    case JACKET_TYPE_ATTR => "20001938"
    case SHIRT_TYPE_ATTR => "20001940"
    case SLEEVE_ATTR => "20001941"
    case SWEATER_TYPE_ATTR => "20001942"
    case CAP_TYPE_ATTR => "20001947"
    case HOOD_ATTR => "20003164"
  }

  /** All attributes in ascending numeric order of their ids: the order in which a
      JavaScript object lists integer-like keys. */
  const ATTRIBUTE_IDS: seq<Attribute> := [AGE_ATTR, MATERIAL_ATTR, GENDER_ATTR, JACKET_TYPE_ATTR,
    SHIRT_TYPE_ATTR, SLEEVE_ATTR, SWEATER_TYPE_ATTR, CAP_TYPE_ATTR, HOOD_ATTR]

  /** The hood attribute, set when there is a hood code. */
  function WithHood(attributes: map<Attribute, string>, hooded: Option<string>): (a: map<Attribute, string>)
    requires HOOD_ATTR !in attributes
    ensures forall k :: k in attributes ==> k in a && a[k] == attributes[k]
    ensures forall k :: k in a && k != HOOD_ATTR ==> k in attributes
    ensures HOOD_ATTR in a <==> hooded.Some?
    ensures hooded.Some? ==> a[HOOD_ATTR] == hooded.value
  {
    if hooded.Some? then attributes[HOOD_ATTR := hooded.value] else attributes
  }

  /** Age, gender, the sleeve code when there is one, and the material: what every
      profile but the cap starts from. */
  function GarmentBase(age: string, gender: string, sleeve: Option<string>): (a: map<Attribute, string>)
    ensures a.Keys == {AGE_ATTR, GENDER_ATTR, MATERIAL_ATTR} + (if sleeve.Some? then {SLEEVE_ATTR} else {})
    ensures a[AGE_ATTR] == age && a[GENDER_ATTR] == gender && a[MATERIAL_ATTR] == MATERIAL_CODE
    ensures sleeve.Some? ==> a[SLEEVE_ATTR] == sleeve.value
    ensures AGE_ATTR in a && GENDER_ATTR in a && MATERIAL_ATTR in a && (SLEEVE_ATTR in a <==> sleeve.Some?)
    ensures HOOD_ATTR !in a && CAP_TYPE_ATTR !in a && SHIRT_TYPE_ATTR !in a
    ensures SWEATER_TYPE_ATTR !in a && JACKET_TYPE_ATTR !in a
  {
    var base := map[AGE_ATTR := age, GENDER_ATTR := gender];
    var withSleeve := if sleeve.Some? then base[SLEEVE_ATTR := sleeve.value] else base;
    withSleeve[MATERIAL_ATTR := MATERIAL_CODE]
  }

  /** The steps of `buildAttributes` over the codes its resolvers return: age and gender
      always; a cap adds its type and stops; every other profile gets the sleeve code when
      there is one and the material, then its own type attribute, and sweaters and jackets
      the hood code when there is one. */
  function AssembleAttributes(key: ProfileKey, age: string, gender: string, sleeve: Option<string>,
                              shirtType: string, jacketType: string, hooded: Option<string>): (a: map<Attribute, string>)
    ensures AGE_ATTR in a && a[AGE_ATTR] == age && GENDER_ATTR in a && a[GENDER_ATTR] == gender
    ensures key == CapKey ==> a.Keys == {AGE_ATTR, GENDER_ATTR, CAP_TYPE_ATTR} && a[CAP_TYPE_ATTR] == CAP_TYPE
    ensures key != CapKey ==> CAP_TYPE_ATTR !in a && MATERIAL_ATTR in a && a[MATERIAL_ATTR] == MATERIAL_CODE
    ensures SLEEVE_ATTR in a <==> key != CapKey && sleeve.Some?
    ensures SLEEVE_ATTR in a ==> a[SLEEVE_ATTR] == sleeve.value
    ensures HOOD_ATTR in a <==> (key == SweaterKey || key == JacketKey) && hooded.Some?
    ensures HOOD_ATTR in a ==> a[HOOD_ATTR] == hooded.value
    ensures SHIRT_TYPE_ATTR in a <==> key == ShirtKey
    ensures SHIRT_TYPE_ATTR in a ==> a[SHIRT_TYPE_ATTR] == shirtType
    ensures SWEATER_TYPE_ATTR in a <==> key == SweaterKey
    ensures SWEATER_TYPE_ATTR in a ==> a[SWEATER_TYPE_ATTR] == SWEATER_TYPE
    ensures JACKET_TYPE_ATTR in a <==> key == JacketKey
    ensures JACKET_TYPE_ATTR in a ==> a[JACKET_TYPE_ATTR] == jacketType
  {
    match key
    case CapKey => map[AGE_ATTR := age, GENDER_ATTR := gender, CAP_TYPE_ATTR := CAP_TYPE]
    case ShirtKey => ShirtGarment(age, gender, sleeve, shirtType)
    case SweaterKey => SweaterGarment(age, gender, sleeve, hooded)
    case JacketKey => JacketGarment(age, gender, sleeve, jacketType, hooded)
  }

  /** The shirt's attributes: the garment base and the shirt type. */
  function ShirtGarment(age: string, gender: string, sleeve: Option<string>, shirtType: string): (a: map<Attribute, string>)
    ensures a.Keys == {AGE_ATTR, GENDER_ATTR, MATERIAL_ATTR, SHIRT_TYPE_ATTR} + (if sleeve.Some? then {SLEEVE_ATTR} else {})
    ensures a[AGE_ATTR] == age && a[GENDER_ATTR] == gender && a[MATERIAL_ATTR] == MATERIAL_CODE
    ensures a[SHIRT_TYPE_ATTR] == shirtType
    ensures sleeve.Some? ==> a[SLEEVE_ATTR] == sleeve.value
  {
    GarmentBase(age, gender, sleeve)[SHIRT_TYPE_ATTR := shirtType]
  }

  /** A sweater's attributes: the garment base, the sweater type, and the hood code when
      there is one. */
  function SweaterGarment(age: string, gender: string, sleeve: Option<string>, hooded: Option<string>): (a: map<Attribute, string>)
    ensures AGE_ATTR in a && a[AGE_ATTR] == age && GENDER_ATTR in a && a[GENDER_ATTR] == gender
    ensures MATERIAL_ATTR in a && a[MATERIAL_ATTR] == MATERIAL_CODE
    ensures SWEATER_TYPE_ATTR in a && a[SWEATER_TYPE_ATTR] == SWEATER_TYPE
    ensures CAP_TYPE_ATTR !in a && SHIRT_TYPE_ATTR !in a && JACKET_TYPE_ATTR !in a
    ensures SLEEVE_ATTR in a <==> sleeve.Some?
    ensures SLEEVE_ATTR in a ==> a[SLEEVE_ATTR] == sleeve.value
    ensures HOOD_ATTR in a <==> hooded.Some?
    ensures HOOD_ATTR in a ==> a[HOOD_ATTR] == hooded.value
  {
    WithHood(GarmentBase(age, gender, sleeve)[SWEATER_TYPE_ATTR := SWEATER_TYPE], hooded)
  }

  /** A jacket's attributes: the garment base, the jacket type, and the hood code when
      there is one. */
  function JacketGarment(age: string, gender: string, sleeve: Option<string>, jacketType: string,
                         hooded: Option<string>): (a: map<Attribute, string>)
    ensures AGE_ATTR in a && a[AGE_ATTR] == age && GENDER_ATTR in a && a[GENDER_ATTR] == gender
    ensures MATERIAL_ATTR in a && a[MATERIAL_ATTR] == MATERIAL_CODE
    ensures JACKET_TYPE_ATTR in a && a[JACKET_TYPE_ATTR] == jacketType
    ensures CAP_TYPE_ATTR !in a && SHIRT_TYPE_ATTR !in a && SWEATER_TYPE_ATTR !in a
    ensures SLEEVE_ATTR in a <==> sleeve.Some?
    ensures SLEEVE_ATTR in a ==> a[SLEEVE_ATTR] == sleeve.value
    ensures HOOD_ATTR in a <==> hooded.Some?
    ensures HOOD_ATTR in a ==> a[HOOD_ATTR] == hooded.value
  {
    WithHood(GarmentBase(age, gender, sleeve)[JACKET_TYPE_ATTR := jacketType], hooded)
  }

  /** `buildAttributes`, with the codes of the resolvers. */
  function BuildAttributes(key: ProfileKey, options: DeriveOptions): (a: map<Attribute, string>)
    ensures AGE_ATTR in a && a[AGE_ATTR] == ResolveAgeCode(options.ageGroup)
    ensures GENDER_ATTR in a && a[GENDER_ATTR] == ResolveGenderCode(options.targetGender)
    ensures key == CapKey ==> a.Keys == {AGE_ATTR, GENDER_ATTR, CAP_TYPE_ATTR} && a[CAP_TYPE_ATTR] == CAP_TYPE
    ensures key != CapKey ==> CAP_TYPE_ATTR !in a && MATERIAL_ATTR in a && a[MATERIAL_ATTR] == MATERIAL_CODE
    ensures SLEEVE_ATTR in a <==> key != CapKey && Trim(options.sleeveLength.GetOr("")) != []
    ensures SLEEVE_ATTR in a ==> Some(a[SLEEVE_ATTR]) == ResolveSleeveLengthCode(options.sleeveLength)
    ensures HOOD_ATTR in a <==> (key == SweaterKey || key == JacketKey) && Trim(options.clothingFeature.GetOr("")) != []
    ensures HOOD_ATTR in a ==> Some(a[HOOD_ATTR]) == ResolveHoodedCode(options.clothingFeature)
    ensures SHIRT_TYPE_ATTR in a <==> key == ShirtKey
    ensures SHIRT_TYPE_ATTR in a ==> a[SHIRT_TYPE_ATTR] == ResolveShirtType(options.style)
    ensures SWEATER_TYPE_ATTR in a <==> key == SweaterKey
    ensures JACKET_TYPE_ATTR in a <==> key == JacketKey
    ensures JACKET_TYPE_ATTR in a ==> a[JACKET_TYPE_ATTR] == ResolveJacketType(options.style)
  {
    AssembleAttributes(key, ResolveAgeCode(options.ageGroup), ResolveGenderCode(options.targetGender),
      ResolveSleeveLengthCode(options.sleeveLength), ResolveShirtType(options.style),
      ResolveJacketType(options.style), ResolveHoodedCode(options.clothingFeature))
  }

  /** `deriveGpcProfile`: absent exactly for a blank style; otherwise the base profile of
      the style class with its description and attributes. */
  function DeriveGpcProfile(options: DeriveOptions): (p: Option<GpcProfile>)
    ensures p.None? <==> Trim(options.style) == []
    ensures p.Some? ==> p.value.base == BaseProfileOf(NormalizeStyle(options.style).value)
    ensures p.Some? ==> p.value.description == DescriptionFor(p.value.base)
    ensures p.Some? ==> p.value.attributes == BuildAttributes(NormalizeStyle(options.style).value, options)
  {
    var key := NormalizeStyle(options.style);
    if key.None? then None
    else
      var base := BaseProfileOf(key.value);
      Some(GpcProfile(base, DescriptionFor(base), BuildAttributes(key.value, options)))
  }

  // ---------------------------------------------------------------------------
  // Projections

  /** The `id=value` pairs of the non-empty attributes, in the order of `ids`. */
  function AttributePairs(attributes: map<Attribute, string>, ids: seq<Attribute>): (r: seq<string>)
    ensures |r| <= |ids|
    ensures r == [] <==> forall id :: id in ids && id in attributes ==> attributes[id] == []
    ensures forall p :: p in r <==>
      (exists id :: id in ids && id in attributes && attributes[id] != [] && p == AttributeId(id) + "=" + attributes[id])
  {
    if ids == [] then []
    else
      var id := ids[0];
      var rest := AttributePairs(attributes, ids[1..]);
      assert forall x :: x in ids <==> x == id || x in ids[1..];
      if id in attributes && attributes[id] != [] then [AttributeId(id) + "=" + attributes[id]] + rest else rest
  }

  /** `formatAttributes`: the pairs joined by `;`, or absent when there are none. */
  function FormatAttributes(attributes: map<Attribute, string>): (r: Option<string>)
    ensures r.None? <==> forall id :: id in ATTRIBUTE_IDS && id in attributes ==> attributes[id] == []
  {
    var pairs := AttributePairs(attributes, ATTRIBUTE_IDS);
    if pairs == [] then None else Some(Join(pairs, ";"))
  }

  /** When no value holds a `;`, the formatted string splits back into the pairs. */
  lemma FormatAttributesSplits(attributes: map<Attribute, string>)
    requires forall id :: id in attributes ==> ';' !in attributes[id]
    requires FormatAttributes(attributes).Some?
    ensures Split(FormatAttributes(attributes).value, ';') == AttributePairs(attributes, ATTRIBUTE_IDS)
  {
    var pairs := AttributePairs(attributes, ATTRIBUTE_IDS);
    forall k | 0 <= k < |pairs|
      ensures ';' !in pairs[k]
    {
      assert pairs[k] in pairs;
    }
    SplitJoin(pairs, ';');
  }

  /** The sheet columns of `gpcProfileToColumnUpdates`, in declaration order. */
  const GPC_COLUMNS: seq<string> := [GPC_CODE, GPC_ATTRIBUTES, GOOGLE_PRODUCT_CATEGORY, STRUCTURED_DATA,
    GPC_DESCRIPTION, GPC_SEGMENT, GPC_SEGMENT_NAME, GPC_FAMILY, GPC_FAMILY_NAME, GPC_CLASS,
    GPC_CLASS_NAME, GPC_BRICK, GPC_BRICK_NAME]

  /** The metafield keys of `gpcProfileToMetafields`, in declaration order. */
  const GPC_METAFIELDS: seq<string> := ["gpc_code", "gpc_attributes", "google_product_category",
    "structured_data", "gpc_description", "gpc_segment", "gpc_segment_name", "gpc_family",
    "gpc_family_name", "gpc_class", "gpc_class_name", "gpc_brick", "gpc_brick_name"]

  /** The thirteen values both projections carry, in declaration order. */
  function ProfileValues(p: GpcProfile): (v: seq<Option<string>>)
    ensures |v| == 13
  {
    [Some(p.base.code), FormatAttributes(p.attributes), p.base.googleCategory, p.base.structuredData,
     Some(p.description), Some(p.base.segmentId), Some(p.base.segmentName), Some(p.base.familyId),
     Some(p.base.familyName), Some(p.base.classId), Some(p.base.className), Some(p.base.brickId),
     Some(p.base.brickName)]
  }

  /** The record with `keys[i]` holding `values[i]`. */
  function Record(keys: seq<string>, values: seq<Option<string>>): (m: map<string, Option<string>>)
    requires |keys| == |values|
    requires forall i, j :: 0 <= i < j < |keys| ==> keys[i] != keys[j]
    ensures m.Keys == set k | k in keys
    ensures forall i :: 0 <= i < |keys| ==> m[keys[i]] == values[i]
  {
    if keys == [] then map[]
    else
      var m := Record(keys[1..], values[1..]);
      assert forall i :: 1 <= i < |keys| ==> keys[i] == keys[1..][i - 1] && keys[i] != keys[0];
      m[keys[0] := values[0]]
  }

  lemma GpcColumnsDistinct()
    ensures forall i, j :: 0 <= i < j < |GPC_COLUMNS| ==> GPC_COLUMNS[i] != GPC_COLUMNS[j]
    ensures forall i, j :: 0 <= i < j < |GPC_METAFIELDS| ==> GPC_METAFIELDS[i] != GPC_METAFIELDS[j]
  {
  }

  /** `gpcProfileToColumnUpdates`. */
  function ColumnUpdates(p: GpcProfile): (m: map<string, Option<string>>)
    ensures m.Keys == set k | k in GPC_COLUMNS
    ensures forall i :: 0 <= i < 13 ==> m[GPC_COLUMNS[i]] == ProfileValues(p)[i]
  {
    GpcColumnsDistinct();
    Record(GPC_COLUMNS, ProfileValues(p))
  }

  /** `gpcProfileToMetafields`. */
  function Metafields(p: GpcProfile): (m: map<string, Option<string>>)
    ensures m.Keys == set k | k in GPC_METAFIELDS
    ensures forall i :: 0 <= i < 13 ==> m[GPC_METAFIELDS[i]] == ProfileValues(p)[i]
  {
    GpcColumnsDistinct();
    Record(GPC_METAFIELDS, ProfileValues(p))
  }

  // ---------------------------------------------------------------------------
  // Properties

  /** Among the projected values are the code, the formatted attributes and the
      description. */
  lemma ProjectedValues(p: GpcProfile)
    ensures GPC_CODE in ColumnUpdates(p) && ColumnUpdates(p)[GPC_CODE] == Some(p.base.code)
    ensures GPC_ATTRIBUTES in ColumnUpdates(p) && ColumnUpdates(p)[GPC_ATTRIBUTES] == FormatAttributes(p.attributes)
    ensures "gpc_description" in Metafields(p) && Metafields(p)["gpc_description"] == Some(p.description)
  {
    assert GPC_COLUMNS[0] == GPC_CODE && GPC_COLUMNS[1] == GPC_ATTRIBUTES;
    assert GPC_METAFIELDS[4] == "gpc_description";
  }

  /** A profile's description is its four names joined by ` > `. */
  lemma DescriptionShape(options: DeriveOptions)
    requires DeriveGpcProfile(options).Some?
    ensures var b := DeriveGpcProfile(options).value.base;
      DeriveGpcProfile(options).value.description ==
        b.segmentName + " > " + b.familyName + " > " + b.className + " > " + b.brickName
  {
    var b := DeriveGpcProfile(options).value.base;
    JoinFour(b.segmentName, b.familyName, b.className, b.brickName, " > ");
  }

  /** Style precedence: `cap` anywhere wins; then hoodie, sweater or pullover; then
      jacket, coat or blazer; anything else is a shirt. */
  lemma StylePrecedence(n: string)
    ensures Contains(n, "cap") ==> StyleClassOf(n) == CapKey
    ensures !Contains(n, "cap") && (Contains(n, "hoodie") || Contains(n, "sweater") || Contains(n, "pullover"))
      ==> StyleClassOf(n) == SweaterKey
    ensures (!Contains(n, "cap") && !Contains(n, "hoodie") && !Contains(n, "sweater") && !Contains(n, "pullover")
      && (Contains(n, "jacket") || Contains(n, "coat") || Contains(n, "blazer"))) ==> StyleClassOf(n) == JacketKey
    ensures (!Contains(n, "cap") && !Contains(n, "hoodie") && !Contains(n, "sweater") && !Contains(n, "pullover")
      && !Contains(n, "jacket") && !Contains(n, "coat") && !Contains(n, "blazer")) ==> StyleClassOf(n) == ShirtKey
  {
    var t0, t1, t2, t3 := ["cap"], ["hoodie"], ["sweater", "pullover"], ["jacket", "coat", "blazer"];
    assert STYLE_MAP == [(t0, CapKey), (t1, SweaterKey), (t2, SweaterKey), (t3, JacketKey)];
    assert "cap" in t0 && "hoodie" in t1 && "sweater" in t2 && "pullover" in t2;
    assert "jacket" in t3 && "coat" in t3 && "blazer" in t3;
    if Contains(n, "cap") {
      ClassifyFirst(STYLE_MAP, n, ShirtKey, 0);
    } else if Contains(n, "hoodie") {
      ClassifyFirst(STYLE_MAP, n, ShirtKey, 1);
    } else if Contains(n, "sweater") || Contains(n, "pullover") {
      ClassifyFirst(STYLE_MAP, n, ShirtKey, 2);
    } else if Contains(n, "jacket") || Contains(n, "coat") || Contains(n, "blazer") {
      ClassifyFirst(STYLE_MAP, n, ShirtKey, 3);
    }
  }

  lemma ClassifyFirst<V>(table: seq<(seq<string>, V)>, s: string, default: V, i: nat)
    requires i < |table| && ContainsAny(s, table[i].0)
    requires forall j :: 0 <= j < i ==> !ContainsAny(s, table[j].0)
    ensures Classify(table, s, default) == table[i].1
  {
  }

  /** Lowercase text without surrounding whitespace normalizes to itself. */
  lemma NormalizeNoop(s: string)
    requires Trim(s) == s
    requires forall i :: 0 <= i < |s| ==> !('A' <= s[i] <= 'Z')
    ensures Normalize(Some(s)) == s
  {
  }

  /** The gender table is searched in order and `male` is a substring of `female`, so
      `female` gets the male code. */
  lemma FemaleMapsToMale()
    ensures ResolveGenderCode(Some("female")) == "30004039"
  {
    FemaleNormal();
    FemaleCode();
  }

  lemma FemaleNormal()
    ensures Normalize(Some("female")) == "female"
  {
    FemaleLowerAlnum();
    LowerAlnumFixed("female");
  }

  lemma FemaleLowerAlnum()
    ensures forall i :: 0 <= i < |"female"| ==> IsLowerAlnum("female"[i])
  {
  }

  lemma FemaleCode()
    ensures GenderCodeOf("female") == "30004039"
  {
    var n := "female";
    NotContainsByChar(n, "unisex", 'u');
    assert !ContainsAny(n, GENDER_MAP[0].0);
    assert n[2..6] == "male";
    ContainsAt(n, "male", 2);
    assert "male" in GENDER_MAP[1].0;
  }

  /** Anything mentioning `unisex` gets the unisex code, as does a description matching
      no token. */
  lemma UnisexGender(n: string)
    requires Contains(n, "unisex") || forall i :: 0 <= i < |GENDER_MAP| ==> !ContainsAny(n, GENDER_MAP[i].0)
    ensures GenderCodeOf(n) == DEFAULT_GENDER
  {
    if Contains(n, "unisex") {
      assert "unisex" in GENDER_MAP[0].0;
    }
  }

  /** The cap profile carries exactly age, gender and the cap type. */
  lemma CapAttributes(options: DeriveOptions)
    requires NormalizeStyle(options.style) == Some(CapKey)
    ensures var p := DeriveGpcProfile(options);
      p.Some? && p.value.attributes.Keys == {AGE_ATTR, GENDER_ATTR, CAP_TYPE_ATTR} &&
      p.value.attributes[CAP_TYPE_ATTR] == CAP_TYPE
  {
  }

  /** Every other profile carries the material, the sleeve exactly for a non-blank sleeve
      description, and the hood exactly for a sweater or jacket with a non-blank feature. */
  lemma ClothingAttributes(options: DeriveOptions)
    requires Trim(options.style) != [] && NormalizeStyle(options.style) != Some(CapKey)
    ensures var a := DeriveGpcProfile(options).value.attributes;
      var key := NormalizeStyle(options.style).value;
      a[MATERIAL_ATTR] == MATERIAL_CODE &&
      (SLEEVE_ATTR in a <==> Trim(options.sleeveLength.GetOr("")) != []) &&
      (HOOD_ATTR in a <==> (key == SweaterKey || key == JacketKey) && Trim(options.clothingFeature.GetOr("")) != [])
  {
  }

  /** Attributes always hold the age and gender codes, which fall back on adult and
      unisex for blank descriptions. */
  lemma AgeAndGenderAlways(options: DeriveOptions)
    requires Trim(options.style) != []
    ensures var a := DeriveGpcProfile(options).value.attributes;
      AGE_ATTR in a && GENDER_ATTR in a &&
      (Trim(options.ageGroup.GetOr("")) == [] ==> a[AGE_ATTR] == DEFAULT_AGE) &&
      (Trim(options.targetGender.GetOr("")) == [] ==> a[GENDER_ATTR] == DEFAULT_GENDER)
  {
    BlankCodes();
  }

  /** A blank text contains none of the tokens, so it gets the defaults. */
  lemma BlankCodes()
    ensures AgeCodeOf("") == DEFAULT_AGE && GenderCodeOf("") == DEFAULT_GENDER
  {
    BlankMatchesNothing(AGE_MAP);
    BlankMatchesNothing(GENDER_MAP);
  }

  lemma BlankMatchesNothing(table: seq<(seq<string>, string)>)
    requires forall i, t :: 0 <= i < |table| && t in table[i].0 ==> t != []
    ensures forall i :: 0 <= i < |table| ==> !ContainsAny("", table[i].0)
  {
    forall i, t | 0 <= i < |table| && t in table[i].0
      ensures !Contains("", t)
    {
      if Contains("", t) {
        ContainsLength("", t);
      }
    }
  }
}
