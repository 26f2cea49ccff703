/** The pattern metaobject handle of a free-text pattern name: the name is normalised to
    lower-case words separated by single spaces and looked up in a fixed table, first as
    it is and then with its spaces turned into hyphens. */
module Patterns {
  import opened Wrappers
  import opened Text

  /** The handle table `PATTERN_HANDLE_MAP`, one case per key in declaration order. */
  function HandleFor(key: string): (h: Option<string>)
    ensures h.Some? ==> h.value in PATTERN_HANDLES
  {
    match key
    case "solid" => Some("solid")
    case "solid color" => Some("solid")
    case "solid colour" => Some("solid")
    case "plain" => Some("solid")
    case "striped" => Some("striped")
    case "stribet" => Some("striped")
    case "tie dye" => Some("tie-dye")
    case "tie-dye" => Some("tie-dye")
    case "tie dye pattern" => Some("tie-dye")
    case "geometric" => Some("geometric")
    case "geo" => Some("geometric")
    case "floral" => Some("floral")
    case "flower" => Some("floral")
    case "camouflage" => Some("camouflage")
    case "camo" => Some("camouflage")
    case "animal print" => Some("animalprint")
    case "animal-print" => Some("animalprint")
    case "animalprint" => Some("animalprint")
    case "photo print" => Some("fotoprint")
    case "photo-print" => Some("fotoprint")
    case "photographic" => Some("fotoprint")
    case "fotoprint" => Some("fotoprint")
    case "marl" => Some("marl")
    case "marled" => Some("marl")
    case "dotted" => Some("dotted")
    case "polka dot" => Some("dotted")
    case "polka-dot" => Some("dotted")
    case "polka dot pattern" => Some("dotted")
    case "checked" => Some("checked")
    case "checkered" => Some("checked")
    case "tartan" => Some("checked")
    case "cartoon" => Some("cartoon")
    case "graphic" => Some("cartoon")
    case "xmas" => Some("xmas")
    case "christmas" => Some("xmas")
    case "festive" => Some("xmas")
    case "abstract" => Some("abstrakt")
    case "abstrakt" => Some("abstrakt")
    case "sport" => Some("sport")
    case "sporty" => Some("sport")
    case "musik" => Some("musik")
    case "music" => Some("musik")
    case "musical" => Some("musik")
    case "surfing" => Some("surfing")
    case "surf" => Some("surfing")
    case "natur" => Some("natur")
    case "nature" => Some("natur")
    case "natural" => Some("natur")
    case _ => None
  }

  /** The handles the table maps to. */
  const PATTERN_HANDLES: set<string> := {
    "solid", "striped", "tie-dye", "geometric", "floral", "camouflage", "animalprint",
    "fotoprint", "marl", "dotted", "checked", "cartoon", "xmas", "abstrakt", "sport",
    "musik", "surfing", "natur"}

  predicate NotWhite(c: char) {
    !IsWhite(c)
  }

  /** Lower-case letters and digits in words separated by single spaces. */
  predicate Normal(s: string) {
    Words(s, ' ')
  }

  /** `normalize`: trim, lower-case, turn every run of characters outside `[a-z0-9]` into
      a space, collapse whitespace runs into a space, trim. */
  function NormalizePattern(value: string): string {
    Trim(ReplaceRuns(ReplaceRuns(ToLower(Trim(value)), IsLowerAlnum, ' '), NotWhite, ' '))
  }

  /** `normalized.replace(/\s+/g, '-')`, the fallback key. */
  function Hyphenate(n: string): string {
    ReplaceRuns(n, NotWhite, '-')
  }

  /** The normalised value is a key of the table. */
  predicate DirectHit(value: string) {
    value != [] && NormalizePattern(value) != [] && HandleFor(NormalizePattern(value)).Some?
  }

  /** `mapPatternToHandle`: absent for an absent or empty value and for a value that
      normalises to nothing; otherwise the handle of the normalised key, or failing that
      of the hyphenated key. */
  function MapPatternToHandle(value: Option<string>): (r: Option<string>)
    ensures value.None? || value.value == [] ==> r.None?
    ensures value.Some? && NormalizePattern(value.value) == [] ==> r.None?
    ensures r.Some? ==> r.value in PATTERN_HANDLES
    ensures value.Some? && value.value != [] ==> r == HandleFor(NormalizePattern(value.value))
  {
    if value.None? || value.value == [] then None
    else
      var n := NormalizePattern(value.value);
      if n == [] then EmptyKeyMisses(); None
      else if HandleFor(n).Some? then HandleFor(n)
      else
        FallbackOfNormalized(value.value);
        HandleFor(Hyphenate(n))
  }

  // ---------------------------------------------------------------------------
  // The hyphenated fallback

  lemma EmptyKeyMisses()
    ensures HandleFor([]).None?
  {
  }

  /** `n` with every space turned into a hyphen. */
  function Hyphened(n: string): (r: string)
    ensures |r| == |n|
    ensures forall i :: 0 <= i < |n| ==> r[i] == if n[i] == ' ' then '-' else n[i]
  {
    if n == [] then [] else [if n[0] == ' ' then '-' else n[0]] + Hyphened(n[1..])
  }

  /** On lower-case words the fallback key is the text with its spaces turned into
      hyphens. */
  lemma {:induction false} HyphenateWords(s: string)
    requires Squashed(s, IsLowerAlnum, ' ')
    ensures Hyphenate(s) == Hyphened(s)
    decreases |s|
  {
    if s != [] {
      SquashedTail(s, IsLowerAlnum, ' ');
      HyphenateWords(s[1..]);
      if s[0] == ' ' {
        assert s[1..] == [] || NotWhite(s[1..][0]);
        assert DropUnkept(s[1..], NotWhite) == s[1..];
      } else {
        assert NotWhite(s[0]);
      }
    }
  }

  /** The keys of the table, in five groups: the hyphenated ones first. */
  lemma KeyGroups(k: string)
    requires HandleFor(k).Some?
    ensures k in {"tie-dye", "animal-print", "photo-print", "polka-dot"} ||
      k in {"solid", "solid color", "solid colour", "plain", "striped", "stribet", "tie dye",
            "tie dye pattern", "geometric", "geo", "floral", "flower"} ||
      k in {"camouflage", "camo", "animal print", "animalprint", "photo print", "photographic",
            "fotoprint", "marl", "marled", "dotted", "polka dot", "polka dot pattern"} ||
      k in {"checked", "checkered", "tartan", "cartoon", "graphic", "xmas", "christmas",
            "festive", "abstract", "abstrakt", "sport", "sporty"} ||
      k in {"musik", "music", "musical", "surfing", "surf", "natur", "nature", "natural"}
  {
  }

  lemma PlainKeysA(k: string)
    requires k in {"solid", "solid color", "solid colour", "plain", "striped", "stribet", "tie dye",
                   "tie dye pattern", "geometric", "geo", "floral", "flower"}
    ensures '-' !in k
  {
  }

  lemma PlainKeysB(k: string)
    requires k in {"camouflage", "camo", "animal print", "animalprint", "photo print", "photographic",
                   "fotoprint", "marl", "marled", "dotted", "polka dot", "polka dot pattern"}
    ensures '-' !in k
  {
  }

  lemma PlainKeysC(k: string)
    requires k in {"checked", "checkered", "tartan", "cartoon", "graphic", "xmas", "christmas",
                   "festive", "abstract", "abstrakt", "sport", "sporty"}
    ensures '-' !in k
  {
  }

  lemma PlainKeysD(k: string)
    requires k in {"musik", "music", "musical", "surfing", "surf", "natur", "nature", "natural"}
    ensures '-' !in k
  {
  }

  /** Only the four hyphenated keys of the table contain a hyphen. */
  lemma HyphenatedKeys(k: string)
    requires HandleFor(k).Some?
    ensures '-' in k ==> k == "tie-dye" || k == "animal-print" || k == "photo-print" || k == "polka-dot"
  {
    KeyGroups(k);
    if k in {"solid", "solid color", "solid colour", "plain", "striped", "stribet", "tie dye",
             "tie dye pattern", "geometric", "geo", "floral", "flower"} {
      PlainKeysA(k);
    } else if k in {"camouflage", "camo", "animal print", "animalprint", "photo print", "photographic",
                    "fotoprint", "marl", "marled", "dotted", "polka dot", "polka dot pattern"} {
      PlainKeysB(k);
    } else if k in {"checked", "checkered", "tartan", "cartoon", "graphic", "xmas", "christmas",
                    "festive", "abstract", "abstrakt", "sport", "sporty"} {
      PlainKeysC(k);
    } else if k in {"musik", "music", "musical", "surfing", "surf", "natur", "nature", "natural"} {
      PlainKeysD(k);
    }
  }

  /** A normal text whose hyphenated form is `a-b`, with no hyphen in `a` or `b`, is
      `a b`. */
  lemma SpacedKey(n: string, a: string, b: string)
    requires Normal(n) && Hyphened(n) == a + ['-'] + b
    requires '-' !in a && '-' !in b
    ensures n == a + [' '] + b
  {
    var t := a + [' '] + b;
    assert forall i :: 0 <= i < |n| ==> n[i] != '-';
    forall i | 0 <= i < |n|
      ensures n[i] == t[i]
    {
      SpacedAt(a, b, i);
    }
  }

  function Unhyphen(c: char): char {
    if c == '-' then ' ' else c
  }

  lemma SpacedAt(a: string, b: string, i: int)
    requires '-' !in a && '-' !in b && 0 <= i < |a| + 1 + |b|
    ensures (a + [' '] + b)[i] == Unhyphen((a + ['-'] + b)[i])
  {
    if i < |a| {
      assert a[i] in a;
    } else if i > |a| {
      assert b[i - |a| - 1] in b;
    }
  }

  /** Text without a space is its own hyphenated form. */
  lemma UnspacedHyphened(n: string)
    requires '-' !in Hyphened(n)
    ensures Hyphened(n) == n
  {
    var k := Hyphened(n);
    forall i | 0 <= i < |n|
      ensures k[i] == n[i]
    {
      assert k[i] in k;
    }
  }

  /** When the hyphenated fallback finds a handle, the direct lookup finds the same one:
      every hyphenated key of the table has a spaced twin with the same handle. */
  lemma FallbackAgrees(n: string)
    requires Normal(n)
    ensures HandleFor(Hyphenate(n)).Some? ==> HandleFor(Hyphenate(n)) == HandleFor(n)
  {
    HyphenateWords(n);
    var k := Hyphened(n);
    if HandleFor(k).Some? {
      HyphenatedKeys(k);
      if '-' !in k {
        UnspacedHyphened(n);
      } else {
        HyphenatedTwin(n, k);
      }
    }
  }

  lemma HyphenatedTwin(n: string, k: string)
    requires Normal(n) && Hyphened(n) == k
    requires k == "tie-dye" || k == "animal-print" || k == "photo-print" || k == "polka-dot"
    ensures HandleFor(n) == HandleFor(k)
  {
    if k == "tie-dye" {
      TieDyeTwin(n, k);
    } else if k == "animal-print" {
      AnimalPrintTwin(n, k);
    } else if k == "photo-print" {
      PhotoPrintTwin(n, k);
    } else {
      PolkaDotTwin(n, k);
    }
  }

  lemma TieDyeTwin(n: string, k: string)
    requires Normal(n) && Hyphened(n) == k && k == "tie-dye"
    ensures HandleFor(n) == HandleFor(k)
  {
    TieDyeSpelled();
    SpacedKey(n, "tie", "dye");
    TieDyeHandles();
  }

  lemma TieDyeHandles()
    ensures HandleFor("tie dye") == HandleFor("tie-dye")
  {
  }

  lemma AnimalPrintTwin(n: string, k: string)
    requires Normal(n) && Hyphened(n) == k && k == "animal-print"
    ensures HandleFor(n) == HandleFor(k)
  {
    AnimalPrintSpelled();
    SpacedKey(n, "animal", "print");
    AnimalPrintHandles();
  }

  lemma AnimalPrintSpelled()
    ensures "animal-print" == "animal" + ['-'] + "print" && "animal print" == "animal" + [' '] + "print"
    ensures '-' !in "animal" && '-' !in "print"
  {
  }

  lemma AnimalPrintHandles()
    ensures HandleFor("animal print") == HandleFor("animal-print")
  {
  }

  lemma PhotoPrintTwin(n: string, k: string)
    requires Normal(n) && Hyphened(n) == k && k == "photo-print"
    ensures HandleFor(n) == HandleFor(k)
  {
    PhotoPrintSpelled();
    SpacedKey(n, "photo", "print");
    PhotoPrintHandles();
  }

  lemma PhotoPrintSpelled()
    ensures "photo-print" == "photo" + ['-'] + "print" && "photo print" == "photo" + [' '] + "print"
    ensures '-' !in "photo" && '-' !in "print"
  {
  }

  lemma PhotoPrintHandles()
    ensures HandleFor("photo print") == HandleFor("photo-print")
  {
  }

  lemma PolkaDotTwin(n: string, k: string)
    requires Normal(n) && Hyphened(n) == k && k == "polka-dot"
    ensures HandleFor(n) == HandleFor(k)
  {
    PolkaDotSpelled();
    SpacedKey(n, "polka", "dot");
    PolkaDotHandles();
  }

  lemma PolkaDotSpelled()
    ensures "polka-dot" == "polka" + ['-'] + "dot" && "polka dot" == "polka" + [' '] + "dot"
    ensures '-' !in "polka" && '-' !in "dot"
  {
  }

  lemma PolkaDotHandles()
    ensures HandleFor("polka dot") == HandleFor("polka-dot")
  {
  }

  lemma FallbackOfNormalized(value: string)
    requires HandleFor(NormalizePattern(value)).None?
    ensures HandleFor(Hyphenate(NormalizePattern(value))).None?
  {
    NormalizeShape(value);
    HyphenFallbackMisses(NormalizePattern(value));
  }

  /** A normal text the table does not hold gets nothing from the fallback either. */
  lemma HyphenFallbackMisses(n: string)
    requires Normal(n) && HandleFor(n).None?
    ensures HandleFor(Hyphenate(n)).None?
  {
    FallbackAgrees(n);
  }

  // ---------------------------------------------------------------------------
  // Properties of the normalisation

  /** The normalised value is lower-case words separated by single spaces, with no space
      at either end. */
  lemma NormalizeShape(value: string)
    ensures Normal(NormalizePattern(value))
  {
    var words := ReplaceRuns(ToLower(Trim(value)), IsLowerAlnum, ' ');
    ReplaceRunsSquashed(ToLower(Trim(value)), IsLowerAlnum, ' ');
    SquashedWordsShape(words);
  }

  /** Squashed words come out of the whitespace collapse and the trim as normal text. */
  lemma SquashedWordsShape(words: string)
    requires Squashed(words, IsLowerAlnum, ' ')
    ensures Normal(Trim(ReplaceRuns(words, NotWhite, ' ')))
  {
    SquashedSpaced(words);
    ReplaceRunsNoop(words, NotWhite, ' ');
    TrimmedWords(words, ' ', IsWhite);
  }

  lemma SquashedSpaced(words: string)
    requires Squashed(words, IsLowerAlnum, ' ')
    ensures Squashed(words, NotWhite, ' ')
  {
  }

  /** A value that is already normal is its own normalisation. */
  lemma NormalFixed(n: string)
    requires Normal(n)
    ensures NormalizePattern(n) == n
  {
    NormalSteps(n);
  }

  /** Each step of the normalisation leaves a normal value alone. */
  lemma NormalSteps(n: string)
    requires Normal(n)
    ensures Trim(n) == n && ToLower(n) == n
    ensures ReplaceRuns(n, IsLowerAlnum, ' ') == n && ReplaceRuns(n, NotWhite, ' ') == n
  {
    WordsSteps(n, ' ');
    SpacedOfNormal(n);
  }

  lemma SpacedOfNormal(n: string)
    requires Normal(n)
    ensures ReplaceRuns(n, NotWhite, ' ') == n
  {
    assert Squashed(n, NotWhite, ' ');
    ReplaceRunsNoop(n, NotWhite, ' ');
  }

  lemma NormalizeIdempotent(value: string)
    ensures NormalizePattern(NormalizePattern(value)) == NormalizePattern(value)
  {
    NormalizeShape(value);
    NormalFixed(NormalizePattern(value));
  }

  /** Values that differ only in letter case normalise alike, so they get the same handle. */
  lemma IgnoresCase(a: string, b: string)
    requires ToLower(a) == ToLower(b)
    ensures NormalizePattern(a) == NormalizePattern(b)
    ensures a != [] && b != [] ==> MapPatternToHandle(Some(a)) == MapPatternToHandle(Some(b))
  {
    SameLowerTrim(a, b);
    if a != [] && b != [] {
      HandleOfSameNormal(a, b);
    }
  }

  lemma SameLowerTrim(a: string, b: string)
    requires ToLower(a) == ToLower(b)
    ensures ToLower(Trim(a)) == ToLower(Trim(b))
  {
    TrimOfLower(a);
    TrimOfLower(b);
  }

  /** The handle depends on the value only through its normal form. */
  lemma HandleOfSameNormal(a: string, b: string)
    requires a != [] && b != [] && NormalizePattern(a) == NormalizePattern(b)
    ensures MapPatternToHandle(Some(a)) == MapPatternToHandle(Some(b))
  {
  }

  /** Neither a letter nor a digit, in either case. */
  predicate NoLetter(c: char) {
    !IsLowerAlnum(LowerChar(c))
  }

  /** A value without letters or digits (punctuation and whitespace only) normalises to
      the empty string and gets no handle. */
  lemma NoLettersNoHandle(value: string)
    requires forall i :: 0 <= i < |value| ==> NoLetter(value[i])
    ensures NormalizePattern(value) == []
    ensures MapPatternToHandle(Some(value)).None?
  {
    var t := Trim(value);
    TrimByChars(value, IsWhite, NoLetter);
    var l := ToLower(t);
    ReplaceRunsNoKept(l, IsLowerAlnum, ' ');
    ReplaceRunsNoKept(ReplaceRuns(l, IsLowerAlnum, ' '), NotWhite, ' ');
  }

  // ---------------------------------------------------------------------------
  // Examples

  lemma TieDyeKey()
    ensures HandleFor("tie dye") == Some("tie-dye")
  {
  }

  /** "Tie-Dye" and "tie dye" differ in case and punctuation only and share a handle. */
  lemma TieDye()
    ensures NormalizePattern("Tie-Dye") == "tie dye"
    ensures MapPatternToHandle(Some("Tie-Dye")) == Some("tie-dye")
    ensures MapPatternToHandle(Some("tie dye")) == Some("tie-dye")
  {
    TieDyeNormalizes();
    TieDyeWords();
    NormalFixed("tie dye");
    TieDyeKey();
    HandleOfHit("Tie-Dye");
    HandleOfHit("tie dye");
  }

  lemma HandleOfHit(value: string)
    requires DirectHit(value)
    ensures MapPatternToHandle(Some(value)) == HandleFor(NormalizePattern(value))
  {
  }

  lemma TieDyeNormalizes()
    ensures NormalizePattern("Tie-Dye") == "tie dye"
  {
    TieDyeWords();
    NormalSteps("tie dye");
  }

  /** The first two steps turn "Tie-Dye" into the two words "tie dye". */
  lemma TieDyeWords()
    ensures ReplaceRuns(ToLower(Trim("Tie-Dye")), IsLowerAlnum, ' ') == "tie dye"
    ensures Normal("tie dye")
  {
    TieDyeReplaced();
    ReplaceRunsSquashed(ToLower(Trim("Tie-Dye")), IsLowerAlnum, ' ');
  }

  lemma TieDyeReplaced()
    ensures ReplaceRuns(ToLower(Trim("Tie-Dye")), IsLowerAlnum, ' ') == "tie dye"
  {
    TieDyeLower();
    ReplaceRunsGap("tie", '-', "dye", IsLowerAlnum, ' ');
    DyeKept();
    TieDyeSpelled();
  }

  lemma TieDyeLower()
    ensures ToLower(Trim("Tie-Dye")) == "tie" + ['-'] + "dye"
  {
    TrimByNoop("Tie-Dye", IsWhite);
    LowerTieDye();
    TieDyeSpelled();
  }

  lemma TieDyeSpelled()
    ensures "tie-dye" == "tie" + ['-'] + "dye" && "tie dye" == "tie" + [' '] + "dye"
    ensures '-' !in "tie" && '-' !in "dye"
  {
  }

  lemma LowerTieDye()
    ensures ToLower("Tie-Dye") == "tie-dye"
  {
  }

  lemma DyeKept()
    ensures ReplaceRuns("dye", IsLowerAlnum, ' ') == "dye"
  {
    ReplaceRunsKeptPrefix("dye", [], IsLowerAlnum, ' ');
    assert "dye" + [] == "dye";
  }
}
