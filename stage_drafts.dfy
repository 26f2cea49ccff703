/** Draft staging (`stageDrafts`): for every product's group of Drive images the ledger
    row is found or created, the image, bookkeeping and size columns are filled, and
    listing copy is generated for rows that are not locked and still lack some copy. */
module StageDrafts {
  import opened Wrappers
  import opened Text
  import opened Lists
  import opened Records
  import opened Schemas
  import opened Sheets
  import MapFilenames
  import ShopifyHelpers
  import Gpc
  import Sorting
  import Constants
  import Json

  // ---------------------------------------------------------------------------
  // Reading row values

  /** `stringValue`: a present value, trimmed, unless it trims to nothing. */
  function StringValue(v: Option<string>): (r: Option<string>)
    ensures r.Some? <==> v.Some? && Trim(v.value) != []
    ensures r.Some? ==> r.value == Trim(v.value) && Clean(r.value)
  {
    if v.None? then None else NonBlank(v.value)
  }

  /** `isRowLocked`: the status, trimmed and upper-cased, is APPROVED or COMPLETE. */
  predicate IsRowLocked(row: SheetRow) {
    var status := StringValue(Cell(row, Constants.STATUS));
    status.Some? && (ToUpper(status.value) == Constants.STATUS_APPROVED || ToUpper(status.value) == Constants.STATUS_COMPLETE)
  }

  /** `stringValue` finds nothing in the column. */
  predicate Blank(row: SheetRow, column: string) {
    StringValue(Cell(row, column)).None?
  }

  /** `shouldGenerateCopy`: not locked, and one of title, description, meta description
      and tags is blank. */
  predicate ShouldGenerateCopy(row: SheetRow) {
    !IsRowLocked(row) &&
    (Blank(row, Constants.TITLE) || Blank(row, Constants.DESCRIPTION) ||
     Blank(row, Constants.META_DESCRIPTION) || Blank(row, Constants.TAGS))
  }

  /** A status written in any case with any surrounding spaces locks the row when it
      names APPROVED or COMPLETE. */
  lemma LockedStatus(row: SheetRow, status: string)
    requires Cell(row, Constants.STATUS) == Some(status)
    requires ToUpper(Trim(status)) == Constants.STATUS_APPROVED || ToUpper(Trim(status)) == Constants.STATUS_COMPLETE
    ensures IsRowLocked(row) && !ShouldGenerateCopy(row)
  {
  }

  /** The Danish approval word counts as approved for product creation but does not
      lock a row against new copy. */
  lemma GodkendtIsNotLocked(row: SheetRow)
    requires Cell(row, Constants.STATUS) == Some("GODKENDT")
    ensures !IsRowLocked(row)
    ensures ToUpper("GODKENDT") in Constants.APPROVED_VALUES
  {
    GodkendtValue();
    GodkendtUpper();
  }

  lemma GodkendtValue()
    ensures StringValue(Some("GODKENDT")) == Some("GODKENDT")
  {
    var t := "GODKENDT";
    assert t[0] == 'G' && t[|t| - 1] == 'T';
    NonBlankOfClean(t);
  }

  lemma GodkendtUpper()
    ensures ToUpper("GODKENDT") == "GODKENDT"
    ensures "GODKENDT" != Constants.STATUS_APPROVED && "GODKENDT" != Constants.STATUS_COMPLETE
    ensures "GODKENDT" in Constants.APPROVED_VALUES
  {
    UpperOfUpper("GODKENDT");
    assert "GODKENDT" == Constants.APPROVED_VALUES[1];
    assert "GODKENDT"[0] != Constants.STATUS_APPROVED[0] && "GODKENDT"[0] != Constants.STATUS_COMPLETE[0];
  }

  // ---------------------------------------------------------------------------
  // Inventory sizes

  predicate IsNonZeroDigit(c: char) {
    '1' <= c <= '9'
  }

  predicate HasNonZeroDigit(m: string) {
    exists i :: 0 <= i < |m| && IsNonZeroDigit(m[i])
  }

  /** 2^1024 - 2^970, halfway between the largest finite double and 2^1024: `Number()`
      reads a literal whose exact value reaches it as `Infinity` (the tie rounds to the
      even neighbour 2^1024). */
  const OVERFLOW_AT: nat := 179769313486231580793728971405303415079934132710037826936173778980444968292764750946649017977587207096330286416692887910946555547851940402630657488671505820681908902000708383676273854845817711531764475730270069855571366959622842914819860834936475292719074168444365510704342711559699508093042880177904174497792

  /** 2^1075: a positive value `v` reads as a double above zero exactly when
      `v * UNDERFLOW_SCALE > 1`; at or below 2^-1075, halfway to the smallest subnormal,
      it rounds to zero. */
  const UNDERFLOW_SCALE: nat := 404804506614621236704990693437834614099113299528284236713802716054860679135990693783920767402874248990374155728633623822779617474771586953734026799881477019843034848553132722728933815484186432682479535356945490137124014966849385397236206711298319112681620113024717539104666829230461005064372655017292012526615415482186989568

  function Pow10(k: nat): (p: nat)
    ensures p >= 1
  {
    if k == 0 then 1 else 10 * Pow10(k - 1)
  }

  /** The rational `n / d` is finite as a double and above zero. */
  predicate FinitePositive(n: nat, d: nat) {
    0 < n && n < OVERFLOW_AT * d && d < n * UNDERFLOW_SCALE
  }

  /** `v * 10^k` is finite as a double and above zero. */
  predicate ScaledPositive(v: nat, k: int) {
    if k >= 0 then FinitePositive(v * Pow10(k), 1) else FinitePositive(v, Pow10(-k))
  }

  /** The first `e` or `E` of `u`, or -1. */
  function ExponentAt(u: string): (i: int)
    ensures -1 <= i < |u|
    ensures i >= 0 ==> u[i] == 'e' || u[i] == 'E'
    ensures forall j :: 0 <= j < |u| && (i < 0 || j < i) ==> u[j] != 'e' && u[j] != 'E'
  {
    if u == [] then -1
    else if u[0] == 'e' || u[0] == 'E' then 0
    else
      var i := ExponentAt(u[1..]);
      if i < 0 then -1 else i + 1
  }

  /** Digits with at most one decimal point, and at least one digit. */
  predicate Significand(m: string) {
    (exists i :: 0 <= i < |m| && IsDigit(m[i])) &&
    (forall i :: 0 <= i < |m| ==> IsDigit(m[i]) || m[i] == '.') &&
    (forall i, j :: 0 <= i < j < |m| && m[i] == '.' ==> m[j] != '.')
  }

  /** The digits of a significand read as one integer, its decimal point left out. */
  function SignificandValue(m: string): nat
    requires forall i :: 0 <= i < |m| ==> IsDigit(m[i]) || m[i] == '.'
  {
    if m == [] then 0
    else if m[|m| - 1] == '.' then SignificandValue(m[..|m| - 1])
    else SignificandValue(m[..|m| - 1]) * 10 + DigitValue(m[|m| - 1])
  }

  /** The number of characters after the decimal point. */
  function FractionDigits(m: string): nat {
    var p := IndexOf(m, '.');
    if p < 0 then 0 else |m| - p - 1
  }

  /** An optionally signed run of digits. */
  predicate ExponentDigits(x: string) {
    var d := if x != [] && (x[0] == '+' || x[0] == '-') then x[1..] else x;
    d != [] && AllDigits(d)
  }

  function ExponentValue(x: string): int
    requires ExponentDigits(x)
  {
    if x[0] == '-' then -(DigitsValue(x[1..]) as int)
    else if x[0] == '+' then DigitsValue(x[1..])
    else DigitsValue(x)
  }

  /** An unsigned decimal literal whose value is finite and above zero: a significand, a
      well-formed exponent if there is one, and a value `v * 10^(x - f)` in the range of
      positive doubles, where `v` is the significand's digits, `f` the number of them
      after the point and `x` the exponent. */
  predicate DecimalPositive(u: string) {
    var e := ExponentAt(u);
    var m := if e < 0 then u else u[..e];
    Significand(m) && (e >= 0 ==> ExponentDigits(u[e + 1..])) &&
    ScaledPositive(SignificandValue(m), (if e < 0 then 0 else ExponentValue(u[e + 1..])) - FractionDigits(m))
  }

  function HexDigitValue(c: char): (d: nat)
    requires IsHexDigit(c)
    ensures d < 16
  {
    if IsDigit(c) then DigitValue(c)
    else if 'a' <= c <= 'f' then c as int - 'a' as int + 10
    else c as int - 'A' as int + 10
  }

  /** The value of a run of digits in `base`. */
  function RadixValue(s: string, base: nat): nat
    requires forall i :: 0 <= i < |s| ==> IsHexDigit(s[i])
  {
    if s == [] then 0 else RadixValue(s[..|s| - 1], base) * base + HexDigitValue(s[|s| - 1])
  }

  /** The base that the letter after a leading `0` names, or 0 for none. */
  function RadixBase(c: char): (b: nat)
    ensures b == 0 || b == 2 || b == 8 || b == 16
  {
    if c == 'x' || c == 'X' then 16
    else if c == 'o' || c == 'O' then 8
    else if c == 'b' || c == 'B' then 2
    else 0
  }

  predicate InRadix(c: char, base: nat) {
    IsHexDigit(c) && HexDigitValue(c) < base
  }

  /** A `0x`, `0o` or `0b` literal with at least one digit, every one a digit of its
      base, whose value is finite and above zero. */
  predicate RadixPositive(t: string) {
    |t| > 2 && t[0] == '0' && RadixBase(t[1]) > 0 &&
    var digits := t[2..];
    (forall i :: 0 <= i < |digits| ==> InRadix(digits[i], RadixBase(t[1]))) &&
    FinitePositive(RadixValue(digits, RadixBase(t[1])), 1)
  }

  /** `Number.isFinite(Number(s)) && Number(s) > 0` for a string: the trimmed text is a
      positive decimal literal, optionally with a `+`, or a positive radix literal. */
  predicate NumberPositive(s: string) {
    LiteralPositive(Trim(s))
  }

  /** A trimmed numeric literal whose value is finite and above zero. */
  predicate LiteralPositive(t: string) {
    RadixPositive(t) || DecimalPositive(t) || (t != [] && t[0] == '+' && DecimalPositive(t[1..]))
  }

  /** A string without surrounding whitespace is its own trim. */
  lemma TrimNoop(s: string)
    requires s == [] || (!IsWhite(s[0]) && !IsWhite(s[|s| - 1]))
    ensures Trim(s) == s
  {
    TrimByNoop(s, IsWhite);
  }

  /** A stock cell counts as in stock when its value is a positive number. */
  predicate StockPositive(v: Option<string>) {
    v.Some? && NumberPositive(v.value)
  }

  /** A run of decimal digits reads as a decimal literal, in stock exactly when one of
      its digits is not zero and its value stays below the overflow bound. */
  lemma DigitsReading(d: string)
    requires d != [] && AllDigits(d)
    ensures NumberPositive(d) <==> HasNonZeroDigit(d) && DigitsValue(d) < OVERFLOW_AT
  {
    assert IsDigit(d[0]) && IsDigit(d[|d| - 1]);
    TrimNoop(d);
    DigitsLiteral(d);
    DigitsPositive(d);
  }

  lemma DigitsLiteral(d: string)
    requires d != [] && AllDigits(d)
    ensures LiteralPositive(d) <==> 0 < DigitsValue(d) < OVERFLOW_AT
  {
    assert !RadixPositive(d) by {
      if |d| > 2 {
        assert IsDigit(d[1]);
      }
    }
    assert ExponentAt(d) < 0;
    assert IndexOf(d, '.') < 0;
    assert Significand(d);
    SignificandOfDigits(d);
    assert d[0] != '+';
  }

  /** Without a decimal point a significand's value is the value of its digits. */
  lemma {:induction false} SignificandOfDigits(d: string)
    requires AllDigits(d)
    ensures SignificandValue(d) == DigitsValue(d)
  {
    if d != [] {
      SignificandOfDigits(d[..|d| - 1]);
    }
  }

  /** A run of digits has a value above zero exactly when one of them is not zero. */
  lemma {:induction false} DigitsPositive(d: string)
    requires AllDigits(d)
    ensures DigitsValue(d) > 0 <==> HasNonZeroDigit(d)
  {
    if d != [] {
      var init := d[..|d| - 1];
      DigitsPositive(init);
      if HasNonZeroDigit(init) {
        var i :| 0 <= i < |init| && IsNonZeroDigit(init[i]);
        assert d[i] == init[i];
      }
      if HasNonZeroDigit(d) && !IsNonZeroDigit(d[|d| - 1]) {
        var i :| 0 <= i < |d| && IsNonZeroDigit(d[i]);
        assert init[i] == d[i];
      }
    }
  }

  /** A stock count written as its decimal digits is in stock exactly when it is above
      zero and below the overflow bound. */
  lemma CountInStock(n: nat)
    ensures NumberPositive(NatToString(n)) <==> 0 < n < OVERFLOW_AT
  {
    DigitsReading(NatToString(n));
    DigitsValueOfNatToString(n);
    NatDigits(n);
  }

  lemma NatDigits(n: nat)
    ensures HasNonZeroDigit(NatToString(n)) <==> n > 0
  {
    var d := NatToString(n);
    if n == 0 {
      assert d == "0";
    } else {
      assert IsDigit(d[0]) && d[0] != '0';
    }
  }

  /** `1e<x>` is in stock exactly when 10^x stays below the overflow bound. */
  lemma ExponentOverflow(x: nat)
    ensures NumberPositive("1e" + NatToString(x)) <==> Pow10(x) < OVERFLOW_AT
  {
    var d := NatToString(x);
    DigitsValueOfNatToString(x);
    assert ExponentDigits(d) && ExponentValue(d) == x by {
      assert AllDigits(d) && d[0] != '+' && d[0] != '-';
    }
    OneExponentReading("1e" + d, d);
    ScaledOne(x);
  }

  /** `1e-<x>` is in stock exactly when 10^x stays below 2^1075, so that 10^-x does not
      round to zero. */
  lemma ExponentUnderflow(x: nat)
    ensures NumberPositive("1e-" + NatToString(x)) <==> Pow10(x) < UNDERFLOW_SCALE
  {
    var rest := "-" + NatToString(x);
    NegativeExponent(x, rest);
    OneExponentReading("1e-" + NatToString(x), rest);
    ScaledOneNegative(x);
  }

  lemma NegativeExponent(x: nat, rest: string)
    requires rest == "-" + NatToString(x)
    ensures ExponentDigits(rest) && ExponentValue(rest) == -(x as int)
    ensures "1e-" + NatToString(x) == "1e" + rest
  {
    var d := NatToString(x);
    DigitsValueOfNatToString(x);
    assert rest[1..] == d && AllDigits(d);
  }

  lemma ScaledOneNegative(x: nat)
    ensures ScaledPositive(1, -(x as int)) <==> Pow10(x) < UNDERFLOW_SCALE
  {
    ScaledOne(-(x as int));
    if x == 0 {
      assert Pow10(x) == 1;
    }
  }

  /** How `1e<rest>` reads, for an exponent `rest`. */
  lemma OneExponentReading(u: string, rest: string)
    requires u == "1e" + rest && ExponentDigits(rest)
    ensures NumberPositive(u) <==> ScaledPositive(1, ExponentValue(rest))
  {
    assert IsDigit(rest[|rest| - 1]) by {
      var d := if rest[0] == '+' || rest[0] == '-' then rest[1..] else rest;
      assert rest[|rest| - 1] == d[|d| - 1];
    }
    assert u[|u| - 1] == rest[|rest| - 1];
    DecimalReading(u);
    OneExponent(u, rest);
  }

  /** Text without surrounding whitespace that starts with neither `0` nor `+` is in
      stock exactly when it is a positive decimal literal. */
  lemma DecimalReading(u: string)
    requires u != [] && u[0] != '0' && u[0] != '+' && !IsWhite(u[0]) && !IsWhite(u[|u| - 1])
    ensures NumberPositive(u) <==> DecimalPositive(u)
  {
    TrimNoop(u);
    assert !RadixPositive(u);
  }

  /** `10^k` as a double is in range exactly when 10^k stays below the overflow bound
      for `k >= 0`, and 10^-k stays below 2^1075 for `k < 0`. */
  lemma ScaledOne(k: int)
    ensures ScaledPositive(1, k) <==>
      (k >= 0 ==> Pow10(k) < OVERFLOW_AT) && (k < 0 ==> Pow10(-k) < UNDERFLOW_SCALE)
  {
    if k >= 0 {
      assert 1 * Pow10(k) == Pow10(k);
      assert Pow10(k) * UNDERFLOW_SCALE >= UNDERFLOW_SCALE;
    } else {
      assert OVERFLOW_AT * Pow10(-k) >= OVERFLOW_AT;
    }
  }

  /** How `1e<rest>` reads as a decimal literal: significand 1 and exponent `rest`. */
  lemma OneExponent(u: string, rest: string)
    requires u == "1e" + rest && ExponentDigits(rest)
    ensures DecimalPositive(u) <==> ScaledPositive(1, ExponentValue(rest))
  {
    assert u[1] == 'e' && u[0] != 'e' && u[0] != 'E';
    assert ExponentAt(u) == 1;
    assert u[..1] == "1" && u[2..] == rest;
    assert IndexOf("1", '.') < 0;
    assert Significand("1") by { assert IsDigit("1"[0]); }
    assert SignificandValue("1") == 1 by { assert "1"[..0] == []; }
  }

  /** A negative count is never in stock. */
  lemma NegativeNotInStock(n: nat)
    ensures !NumberPositive("-" + NatToString(n))
  {
    var s := "-" + NatToString(n);
    assert s[0] == '-' && IsDigit(s[|s| - 1]);
    TrimNoop(s);
    NegativeLiteral(s);
  }

  lemma NegativeLiteral(s: string)
    requires s != [] && s[0] == '-'
    ensures !LiteralPositive(s)
  {
    var e := ExponentAt(s);
    assert e != 0;
    var m := if e < 0 then s else s[..e];
    assert m[0] == '-';
    assert !Significand(m);
    assert !DecimalPositive(s);
  }

  /** The sizes of `table` whose stock column holds a positive number, in table order. */
  function InStock(row: SheetRow, table: seq<(string, string)>): (r: seq<string>)
    ensures |r| <= |table|
    decreases |table|
  {
    if table == [] then []
    else (if StockPositive(Cell(row, table[0].1)) then [table[0].0] else []) + InStock(row, table[1..])
  }

  /** The size names of a stock table. */
  function SizeNames(table: seq<(string, string)>): (r: seq<string>)
    ensures |r| == |table|
  {
    if table == [] then [] else [table[0].0] + SizeNames(table[1..])
  }

  /** `a` is `b` with some elements left out. */
  predicate Subsequence(a: seq<string>, b: seq<string>)
    decreases |b|
  {
    a == [] || (b != [] && if a[0] == b[0] then Subsequence(a[1..], b[1..]) else Subsequence(a, b[1..]))
  }

  /** A size is in stock exactly when one of its table entries has a positive stock. */
  lemma {:induction false} InStockMembers(row: SheetRow, table: seq<(string, string)>, size: string)
    ensures size in InStock(row, table) <==>
      exists i :: 0 <= i < |table| && table[i].0 == size && StockPositive(Cell(row, table[i].1))
    decreases |table|
  {
    if table != [] {
      InStockMembers(row, table[1..], size);
      assert forall i :: 1 <= i < |table| ==> table[i] == table[1..][i - 1];
    }
  }

  /** The sizes in stock keep the order of the table. */
  lemma {:induction false} InStockInOrder(row: SheetRow, table: seq<(string, string)>)
    requires forall i, j :: 0 <= i < j < |table| ==> table[i].0 != table[j].0
    ensures Subsequence(InStock(row, table), SizeNames(table))
    decreases |table|
  {
    if table != [] {
      var rest := table[1..];
      assert SizeNames(rest) == SizeNames(table)[1..];
      InStockInOrder(row, rest);
      var a := InStock(row, table);
      if !StockPositive(Cell(row, table[0].1)) && a != [] {
        assert a == InStock(row, rest);
        InStockMembers(row, rest, a[0]);
        var i :| 0 <= i < |rest| && rest[i].0 == a[0] && StockPositive(Cell(row, rest[i].1));
        assert table[i + 1] == rest[i];
      }
    }
  }

  /** `buildInventorySizes`: the sizes in stock joined by `, `, else `One-size`. */
  function BuildInventorySizes(row: SheetRow): (s: string)
    ensures InStock(row, Constants.SIZE_STOCK_COLUMNS) == [] ==> s == ShopifyHelpers.ONE_SIZE
  {
    var sizes := InStock(row, Constants.SIZE_STOCK_COLUMNS);
    if sizes != [] then Join(sizes, ", ") else ShopifyHelpers.ONE_SIZE
  }

  /** The stock table lists the size options, each once. */
  lemma StockTableNames()
    ensures SizeNames(Constants.SIZE_STOCK_COLUMNS) == Constants.SIZE_OPTIONS
    ensures forall i, j :: 0 <= i < j < |Constants.SIZE_STOCK_COLUMNS| ==>
      Constants.SIZE_STOCK_COLUMNS[i].0 != Constants.SIZE_STOCK_COLUMNS[j].0
  {
  }

  /** The sizes in stock are size options, listed in the order of the options. */
  lemma InStockOrdered(row: SheetRow)
    ensures Subsequence(InStock(row, Constants.SIZE_STOCK_COLUMNS), Constants.SIZE_OPTIONS)
  {
    StockTableNames();
    InStockInOrder(row, Constants.SIZE_STOCK_COLUMNS);
  }

  /** Size options are clean and free of commas. */
  lemma SizeOptionShape(x: string)
    requires x in Constants.SIZE_OPTIONS
    ensures Clean(x) && ',' !in x
  {
  }

  /** Every size of the stock table is one of the size options. */
  lemma InStockAreSizes(row: SheetRow, x: string)
    requires x in InStock(row, Constants.SIZE_STOCK_COLUMNS)
    ensures x in Constants.SIZE_OPTIONS
  {
    InStockNames(row, Constants.SIZE_STOCK_COLUMNS, x);
    StockTableNames();
  }

  lemma {:induction false} InStockNames(row: SheetRow, table: seq<(string, string)>, x: string)
    requires x in InStock(row, table)
    ensures x in SizeNames(table)
    decreases |table|
  {
    if x != table[0].0 {
      InStockNames(row, table[1..], x);
    }
  }

  /** The parts of `p + Join(xs, ", ")` split on commas: `p` before the first element,
      a space before each later one. */
  function Spaced(p: string, xs: seq<string>): (r: seq<string>)
    requires xs != []
    ensures |r| == |xs|
    decreases |xs|
  {
    if |xs| == 1 then [p + xs[0]] else [p + xs[0]] + Spaced(" ", xs[1..])
  }

  lemma {:induction false} SplitSpaced(p: string, xs: seq<string>)
    requires xs != [] && ',' !in p
    requires forall k :: 0 <= k < |xs| ==> ',' !in xs[k]
    ensures Split(p + Join(xs, ", "), ',') == Spaced(p, xs)
    decreases |xs|
  {
    if |xs| == 1 {
      SplitNoSep(p + xs[0], ',');
    } else {
      var rest := xs[1..];
      SplitSpaced(" ", rest);
      assert p + Join(xs, ", ") == (p + xs[0]) + [','] + (" " + Join(rest, ", "));
      SplitCons(p + xs[0], ',', " " + Join(rest, ", "));
    }
  }

  /** A space in front of a clean value is trimmed away. */
  lemma TrimSpace(x: string)
    requires Clean(x)
    ensures Trim(" " + x) == x
  {
    var s := " " + x;
    TrimStartByAt(s, IsWhite, 1);
    assert s[1..] == x;
    TrimEndByNoop(x, IsWhite);
  }

  /** A size option, with or without a space in front, is a part naming that size. */
  lemma PartOfSize(p: string, x: string)
    requires (p == "" || p == " ") && x in Constants.SIZE_OPTIONS
    ensures ShopifyHelpers.SizeOfPart(p + x) == Some(x)
  {
    SizeOptionShape(x);
    if p == "" {
      assert p + x == x;
      CleanIsTrimmed(x);
    } else {
      TrimSpace(x);
    }
  }

  lemma {:induction false} SpacedParts(p: string, xs: seq<string>, f: string -> Option<string>)
    requires xs != [] && f(p + xs[0]) == Some(xs[0])
    requires forall k :: 0 <= k < |xs| ==> f(" " + xs[k]) == Some(xs[k])
    ensures FilterMap(Spaced(p, xs), f) == xs
    decreases |xs|
  {
    if |xs| > 1 {
      var rest := xs[1..];
      assert forall k :: 0 <= k < |rest| ==> rest[k] == xs[k + 1];
      SpacedParts(" ", rest, f);
      assert Spaced(p, xs)[1..] == Spaced(" ", rest);
    }
  }

  /** Size options joined by `, ` split back, part by part, into the same sizes. */
  lemma JoinedSizes(xs: seq<string>)
    requires xs != []
    requires forall k :: 0 <= k < |xs| ==> xs[k] in Constants.SIZE_OPTIONS
    ensures FilterMap(Split(Join(xs, ", "), ','), ShopifyHelpers.SizeOfPart) == xs
  {
    forall k | 0 <= k < |xs|
      ensures ',' !in xs[k]
    {
      SizeOptionShape(xs[k]);
    }
    SplitJoined(xs);
    SpacedSizes(xs);
  }

  lemma SplitJoined(xs: seq<string>)
    requires xs != []
    requires forall k :: 0 <= k < |xs| ==> ',' !in xs[k]
    ensures Split(Join(xs, ", "), ',') == Spaced("", xs)
  {
    assert "" + Join(xs, ", ") == Join(xs, ", ");
    SplitSpaced("", xs);
  }

  lemma SpacedSizes(xs: seq<string>)
    requires xs != []
    requires forall k :: 0 <= k < |xs| ==> xs[k] in Constants.SIZE_OPTIONS
    ensures FilterMap(Spaced("", xs), ShopifyHelpers.SizeOfPart) == xs
  {
    forall k | 0 <= k < |xs|
      ensures ShopifyHelpers.SizeOfPart(" " + xs[k]) == Some(xs[k])
    {
      PartOfSize(" ", xs[k]);
    }
    PartOfSize("", xs[0]);
    SpacedParts("", xs, ShopifyHelpers.SizeOfPart);
  }

  /** The sizes column `buildInventorySizes` writes reads back through `parseSizes` as
      exactly the sizes in stock, or `One-size` when none is. */
  lemma InventorySizesRoundTrip(row: SheetRow)
    ensures var sizes := InStock(row, Constants.SIZE_STOCK_COLUMNS);
      ShopifyHelpers.ParseSizes(Some(BuildInventorySizes(row))) == if sizes == [] then [ShopifyHelpers.ONE_SIZE] else sizes
  {
    var sizes := InStock(row, Constants.SIZE_STOCK_COLUMNS);
    var xs := if sizes == [] then [ShopifyHelpers.ONE_SIZE] else sizes;
    forall k | 0 <= k < |xs|
      ensures xs[k] in Constants.SIZE_OPTIONS
    {
      if sizes != [] {
        InStockAreSizes(row, xs[k]);
      }
    }
    var raw := Join(xs, ", ");
    assert raw != [] by {
      SizeOptionShape(xs[0]);
      if |xs| > 1 {
        assert raw == xs[0] + ", " + Join(xs[1..], ", ");
      }
    }
    JoinedSizes(xs);
    ShopifyHelpers.ParseSizesParts(raw);
  }

  // ---------------------------------------------------------------------------
  // Image columns

  /** The ledger column of an image role (`ROLE_COLUMN_MAP[role]`), when it has one. */
  function RoleColumn(role: string): (c: Option<string>)
    ensures c.Some? ==> c.value in Constants.KNOWN_IMAGE_COLUMNS
  {
    if role in Constants.ROLE_COLUMN_MAP then Some(Constants.ROLE_COLUMN_MAP[role]) else None
  }

  predicate MapsTo(a: ImageAsset, column: string) {
    RoleColumn(a.role) == Some(column)
  }

  /** `!updates[column]`: the column is absent, undefined or the empty string. */
  predicate Unfilled(v: Option<Option<string>>) {
    v.None? || v.value.None? || v.value.value == ""
  }

  /** The record `buildImageUpdates` has built after the given assets. */
  function ImageUpdates(assets: seq<ImageAsset>): (u: seq<(string, Option<string>)>)
    ensures UniqueKeys(u)
    decreases |assets|
  {
    if assets == [] then []
    else
      var u := ImageUpdates(assets[..|assets| - 1]);
      var asset := assets[|assets| - 1];
      var column := RoleColumn(asset.role);
      if column.Some? && Unfilled(Get(u, column.value)) then Put(u, column.value, Some(asset.driveFileId)) else u
  }

  /** `buildImageUpdates`. */
  method BuildImageUpdates(assets: seq<ImageAsset>) returns (updates: seq<(string, Option<string>)>)
    ensures updates == ImageUpdates(assets)
  {
    updates := [];
    var i := 0;
    while i < |assets|
      invariant 0 <= i <= |assets|
      invariant updates == ImageUpdates(assets[..i])
    {
      var asset := assets[i];
      assert assets[..i + 1][..i] == assets[..i];
      var column := RoleColumn(asset.role);
      if column.Some? && Unfilled(Get(updates, column.value)) {
        updates := Put(updates, column.value, Some(asset.driveFileId));
      }
      i := i + 1;
    }
    assert assets[..|assets|] == assets;
  }

  /** The value a column ends up with, read from the first asset on: the file id of the
      first asset of that column with a non-empty id; the empty string when every asset
      of that column has an empty id; absent when no asset has that column. */
  function SlotOf(assets: seq<ImageAsset>, column: string): (r: Option<Option<string>>)
    ensures r.None? <==> forall i :: 0 <= i < |assets| ==> !MapsTo(assets[i], column)
    ensures r.Some? ==> r.value.Some?
    ensures r.Some? && r.value.value != "" ==>
      exists i :: 0 <= i < |assets| && MapsTo(assets[i], column) && assets[i].driveFileId == r.value.value &&
        forall j :: 0 <= j < i && MapsTo(assets[j], column) ==> assets[j].driveFileId == ""
    ensures r == Some(Some("")) ==> forall i :: 0 <= i < |assets| && MapsTo(assets[i], column) ==> assets[i].driveFileId == ""
    decreases |assets|
  {
    if assets == [] then None
    else
      var first := assets[0];
      var rest := SlotOf(assets[1..], column);
      assert forall i :: 1 <= i < |assets| ==> assets[i] == assets[1..][i - 1];
      if MapsTo(first, column) && first.driveFileId != "" then Some(Some(first.driveFileId))
      else if MapsTo(first, column) && rest.None? then Some(Some(""))
      else
        assert rest.Some? && rest.value.value != "" ==> (
          var i :| 0 <= i < |assets[1..]| && MapsTo(assets[1..][i], column) && assets[1..][i].driveFileId == rest.value.value &&
            forall j :: 0 <= j < i && MapsTo(assets[1..][j], column) ==> assets[1..][j].driveFileId == "";
          MapsTo(assets[i + 1], column) && assets[i + 1].driveFileId == rest.value.value &&
            forall j :: 0 <= j < i + 1 && MapsTo(assets[j], column) ==> assets[j].driveFileId == "");
        rest
  }

  /** One more asset changes the value of its column only while that value is unfilled. */
  lemma {:induction false} SlotSnoc(s: seq<ImageAsset>, a: ImageAsset, column: string)
    ensures SlotOf(s + [a], column) ==
      if MapsTo(a, column) && Unfilled(SlotOf(s, column)) then Some(Some(a.driveFileId)) else SlotOf(s, column)
    decreases |s|
  {
    if s != [] {
      assert (s + [a])[0] == s[0];
      assert (s + [a])[1..] == s[1..] + [a];
      SlotSnoc(s[1..], a, column);
    } else {
      assert [a][1..] == [];
    }
  }

  /** The record `buildImageUpdates` builds holds for every column the value `SlotOf`
      describes. */
  lemma {:induction false} ImageUpdatesSlot(assets: seq<ImageAsset>, column: string)
    ensures Get(ImageUpdates(assets), column) == SlotOf(assets, column)
    decreases |assets|
  {
    if assets != [] {
      var init := assets[..|assets| - 1];
      var last := assets[|assets| - 1];
      ImageUpdatesSlot(init, column);
      SlotSnoc(init, last, column);
      assert assets == init + [last];
    }
  }

  /** Only image columns are written, and only for assets with an image role. */
  lemma ImageUpdatesColumns(assets: seq<ImageAsset>, column: string)
    ensures Get(ImageUpdates(assets), column).Some? ==>
      column in Constants.KNOWN_IMAGE_COLUMNS && exists i :: 0 <= i < |assets| && MapsTo(assets[i], column)
  {
    ImageUpdatesSlot(assets, column);
  }

  /** `imageUpdated`: the record is non-empty exactly when some asset has an image role. */
  lemma {:induction false} ImageUpdatesEmpty(assets: seq<ImageAsset>)
    ensures ImageUpdates(assets) == [] <==> forall i :: 0 <= i < |assets| ==> RoleColumn(assets[i].role).None?
    decreases |assets|
  {
    if assets != [] {
      var init := assets[..|assets| - 1];
      var last := assets[|assets| - 1];
      ImageUpdatesEmpty(init);
      assert forall i :: 0 <= i < |init| ==> init[i] == assets[i];
      var u := ImageUpdates(init);
      var column := RoleColumn(last.role);
      if column.Some? && !Unfilled(Get(u, column.value)) {
        assert u != [];
      }
    }
  }

  // ---------------------------------------------------------------------------
  // Metafield columns

  /** `!!next`: present, defined and non-empty. */
  predicate Truthy(v: Option<Option<string>>) {
    v.Some? && v.value.Some? && v.value.value != ""
  }

  /** The record `buildMetafieldUpdates` has built after the given column entries. */
  function MetafieldUpdates(table: seq<(string, string)>, metafields: seq<(string, Option<string>)>): (u: seq<(string, Option<string>)>)
    ensures UniqueKeys(u)
    decreases |table|
  {
    if table == [] then []
    else
      var u := MetafieldUpdates(table[..|table| - 1], metafields);
      var entry := table[|table| - 1];
      var next := Get(metafields, entry.1);
      if Truthy(next) then Put(u, entry.0, next.value) else u
  }

  /** `buildMetafieldUpdates`: nothing without metafields; otherwise each column of
      METAFIELD_COLUMN_MAP, in order, gets its key's value when that is non-empty. */
  method BuildMetafieldUpdates(metafields: Option<seq<(string, Option<string>)>>) returns (updates: seq<(string, Option<string>)>)
    ensures metafields.None? ==> updates == []
    ensures metafields.Some? ==> updates == MetafieldUpdates(Constants.METAFIELD_COLUMN_MAP, metafields.value)
  {
    updates := [];
    if metafields.None? {
      return;
    }
    updates := FillColumns(Constants.METAFIELD_COLUMN_MAP, metafields.value);
  }

  /** The `forEach` over the column entries. */
  method FillColumns(table: seq<(string, string)>, metafields: seq<(string, Option<string>)>) returns (updates: seq<(string, Option<string>)>)
    ensures updates == MetafieldUpdates(table, metafields)
  {
    updates := [];
    var i := 0;
    while i < |table|
      invariant 0 <= i <= |table|
      invariant updates == MetafieldUpdates(table[..i], metafields)
    {
      var entry := table[i];
      assert table[..i + 1][..i] == table[..i];
      var next := Get(metafields, entry.1);
      if Truthy(next) {
        updates := Put(updates, entry.0, next.value);
      }
      i := i + 1;
    }
    assert table[..|table|] == table;
  }

  /** With distinct columns, each column of the table holds its key's value when that is
      non-empty and is absent otherwise. */
  lemma {:induction false} MetafieldColumn(table: seq<(string, string)>, metafields: seq<(string, Option<string>)>, i: nat)
    requires i < |table|
    requires forall a, b :: 0 <= a < b < |table| ==> table[a].0 != table[b].0
    ensures var next := Get(metafields, table[i].1);
      Get(MetafieldUpdates(table, metafields), table[i].0) == if Truthy(next) then next else None
    decreases |table|
  {
    var init := table[..|table| - 1];
    if i < |table| - 1 {
      assert init[i] == table[i];
      MetafieldColumn(init, metafields, i);
    } else {
      MetafieldAbsent(init, metafields, table[i].0);
    }
  }

  /** Only columns of the table are written. */
  lemma {:induction false} MetafieldAbsent(table: seq<(string, string)>, metafields: seq<(string, Option<string>)>, column: string)
    requires forall a :: 0 <= a < |table| ==> table[a].0 != column
    ensures Get(MetafieldUpdates(table, metafields), column).None?
    decreases |table|
  {
    if table != [] {
      MetafieldAbsent(table[..|table| - 1], metafields, column);
    }
  }

  /** The metafield columns are distinct. */
  lemma MetafieldColumnsDistinct()
    ensures forall a, b :: 0 <= a < b < |Constants.METAFIELD_COLUMN_MAP| ==>
      Constants.METAFIELD_COLUMN_MAP[a].0 != Constants.METAFIELD_COLUMN_MAP[b].0
  {
  }

  // ---------------------------------------------------------------------------
  // The staging updates

  /** The bookkeeping columns `stageSingleProduct` may write besides the images. */
  predicate Bookkeeping(k: string) {
    k == Constants.STATUS || k == Constants.ROW_ID || k == Constants.CREATED_AT ||
    k == Constants.UPDATED_AT || k == Constants.SIZES
  }

  /** The first record `stageSingleProduct` writes: the image updates; the pending
      status, the row id and the creation time where the row has none; the update time;
      and the derived sizes when they differ from the row's. */
  function StagingUpdates(productKey: string, baseRow: SheetRow, imageUpdates: seq<(string, Option<string>)>, now: string): (u: seq<(string, Option<string>)>)
    requires UniqueKeys(imageUpdates)
    ensures UniqueKeys(u) && u != []
    ensures Get(u, Constants.STATUS) ==
      if Blank(baseRow, Constants.STATUS) then Some(Some(Constants.STATUS_PENDING)) else Get(imageUpdates, Constants.STATUS)
    ensures Get(u, Constants.ROW_ID) ==
      if Blank(baseRow, Constants.ROW_ID) then Some(Some(productKey)) else Get(imageUpdates, Constants.ROW_ID)
    ensures Get(u, Constants.CREATED_AT) ==
      if Blank(baseRow, Constants.CREATED_AT) then Some(Some(now)) else Get(imageUpdates, Constants.CREATED_AT)
    ensures Get(u, Constants.UPDATED_AT) == Some(Some(now))
    ensures var derived := BuildInventorySizes(baseRow);
      Get(u, Constants.SIZES) ==
        if StringValue(Cell(baseRow, Constants.SIZES)) != Some(derived) then Some(Some(derived)) else Get(imageUpdates, Constants.SIZES)
    ensures forall k :: !Bookkeeping(k) ==> Get(u, k) == Get(imageUpdates, k)
  {
    var u1 := PutIf(imageUpdates, Blank(baseRow, Constants.STATUS), Constants.STATUS, Some(Constants.STATUS_PENDING));
    var u2 := PutIf(u1, Blank(baseRow, Constants.ROW_ID), Constants.ROW_ID, Some(productKey));
    var u3 := PutIf(u2, Blank(baseRow, Constants.CREATED_AT), Constants.CREATED_AT, Some(now));
    var u4 := PutIf(u3, true, Constants.UPDATED_AT, Some(now));
    var derived := BuildInventorySizes(baseRow);
    PutIf(u4, StringValue(Cell(baseRow, Constants.SIZES)) != Some(derived), Constants.SIZES, Some(derived))
  }

  /** `if (cond) record[key] = v`. */
  function PutIf(u: seq<(string, Option<string>)>, cond: bool, key: string, v: Option<string>): (r: seq<(string, Option<string>)>)
    requires UniqueKeys(u)
    ensures UniqueKeys(r) && (cond || u != [] ==> r != [])
    ensures Get(r, key) == if cond then Some(v) else Get(u, key)
    ensures forall k :: k != key ==> Get(r, k) == Get(u, k)
  {
    if cond then Put(u, key, v) else u
  }

  /** The image columns are not bookkeeping columns. */
  lemma ImageColumnsApart(k: string)
    requires k in Constants.KNOWN_IMAGE_COLUMNS
    ensures !Bookkeeping(k)
  {
  }

  /** Built from the image record, the staging updates carry the pending status exactly
      when the row has no status, and an image column exactly when some asset has it. */
  lemma StagingOfImages(productKey: string, baseRow: SheetRow, assets: seq<ImageAsset>, now: string)
    ensures var u := StagingUpdates(productKey, baseRow, ImageUpdates(assets), now);
      (Get(u, Constants.STATUS).Some? <==> Blank(baseRow, Constants.STATUS)) &&
      forall c :: c in Constants.KNOWN_IMAGE_COLUMNS ==> Get(u, c) == SlotOf(assets, c)
  {
    ImageUpdatesColumns(assets, Constants.STATUS);
    assert Constants.STATUS !in Constants.KNOWN_IMAGE_COLUMNS;
    forall c | c in Constants.KNOWN_IMAGE_COLUMNS
      ensures Get(StagingUpdates(productKey, baseRow, ImageUpdates(assets), now), c) == SlotOf(assets, c)
    {
      ImageColumnsApart(c);
      ImageUpdatesSlot(assets, c);
    }
  }

  // ---------------------------------------------------------------------------
  // Generated copy

  /** `aiContent.metafields?.[key]`. */
  function AiMetafield(ai: AIContent, key: string): Option<string> {
    if ai.metafields.None? then None else Get(ai.metafields.value, key)
  }

  /** The columns of `copyUpdates`, in the order of the object literal. */
  const COPY_KEYS: seq<string> := [Constants.TITLE, Constants.DESCRIPTION, Constants.META_DESCRIPTION,
    Constants.TAGS, Constants.STYLE, Constants.CATEGORY, Constants.COLOR, Constants.PATTERN,
    Constants.VENDOR, Constants.SIZES, Constants.UPDATED_AT]

  /** The object literal `copyUpdates`. */
  function CopyBase(ai: AIContent, sizes: string, now: string): (u: seq<(string, Option<string>)>)
    ensures |u| == |COPY_KEYS| && forall i :: 0 <= i < |u| ==> u[i].0 == COPY_KEYS[i]
  {
    [(Constants.TITLE, Some(ai.title)), (Constants.DESCRIPTION, Some(ai.description)),
     (Constants.META_DESCRIPTION, Some(ai.meta_description)), (Constants.TAGS, Some(Join(ai.tags, ", "))),
     (Constants.STYLE, Some(ai.style)), (Constants.CATEGORY, Some(ai.category)),
     (Constants.COLOR, Some(ai.color)), (Constants.PATTERN, Some(ai.pattern)),
     (Constants.VENDOR, Some(ai.vendor.GetOr("Pleasant"))), (Constants.SIZES, Some(sizes)),
     (Constants.UPDATED_AT, Some(now))]
  }

  /** The object literal `metafieldsPayload`: the generated metafields, with `Upcycled`,
      the generated color and pattern, `Unisex` and `Adults` where they are missing. */
  function MetafieldsPayload(ai: AIContent): (m: seq<(string, Option<string>)>)
    ensures |m| == 7 && m[0] == ("fabric", Some(AiMetafield(ai, "fabric").GetOr("Upcycled")))
  {
    [("fabric", Some(AiMetafield(ai, "fabric").GetOr("Upcycled"))),
     ("color", Some(AiMetafield(ai, "color").GetOr(ai.color))),
     ("pattern", Some(AiMetafield(ai, "pattern").GetOr(ai.pattern))),
     ("target_gender", Some(AiMetafield(ai, "target_gender").GetOr("Unisex"))),
     ("age_group", Some(AiMetafield(ai, "age_group").GetOr("Adults"))),
     ("sleeve_length", AiMetafield(ai, "sleeve_length")),
     ("clothing_feature", AiMetafield(ai, "clothing_feature"))]
  }

  /** The GPC profile of a generated style, with the payload's gender, age group, sleeve
      length and clothing feature; none for an empty style. */
  function GpcProfileFor(ai: AIContent): Option<Gpc.GpcProfile> {
    if ai.style == "" then None
    else Gpc.DeriveGpcProfile(Gpc.DeriveOptions(ai.style,
      Some(AiMetafield(ai, "target_gender").GetOr("Unisex")), Some(AiMetafield(ai, "age_group").GetOr("Adults")),
      AiMetafield(ai, "sleeve_length"), AiMetafield(ai, "clothing_feature")))
  }

  /** The entries of a record whose keys are `keys`, in that order. */
  function Entries(keys: seq<string>, m: map<string, Option<string>>): (r: seq<(string, Option<string>)>)
    requires forall i :: 0 <= i < |keys| ==> keys[i] in m
    ensures |r| == |keys| && forall i :: 0 <= i < |keys| ==> r[i] == (keys[i], m[keys[i]])
  {
    if keys == [] then [] else [(keys[0], m[keys[0]])] + Entries(keys[1..], m)
  }

  /** The GPC column updates of a profile, as `Object.assign` walks them. */
  function GpcColumnEntries(p: Gpc.GpcProfile): (r: seq<(string, Option<string>)>)
    ensures UniqueKeys(r) && |r| == |Gpc.GPC_COLUMNS|
    ensures forall i :: 0 <= i < |r| ==> r[i] == (Gpc.GPC_COLUMNS[i], Gpc.ProfileValues(p)[i])
  {
    Gpc.GpcColumnsDistinct();
    Entries(Gpc.GPC_COLUMNS, Gpc.ColumnUpdates(p))
  }

  /** The GPC metafields of a profile, as `Object.assign` walks them. */
  function GpcMetafieldEntries(p: Gpc.GpcProfile): (r: seq<(string, Option<string>)>)
    ensures UniqueKeys(r) && |r| == |Gpc.GPC_METAFIELDS|
    ensures forall i :: 0 <= i < |r| ==> r[i] == (Gpc.GPC_METAFIELDS[i], Gpc.ProfileValues(p)[i])
  {
    Gpc.GpcColumnsDistinct();
    Entries(Gpc.GPC_METAFIELDS, Gpc.Metafields(p))
  }

  /** The GPC column updates of a profile, none without one. */
  function GpcColumnsOf(profile: Option<Gpc.GpcProfile>): (r: seq<(string, Option<string>)>)
    ensures UniqueKeys(r)
  {
    if profile.Some? then GpcColumnEntries(profile.value) else []
  }

  /** The GPC metafields of a profile, none without one. */
  function GpcMetafieldsOf(profile: Option<Gpc.GpcProfile>): (r: seq<(string, Option<string>)>)
    ensures UniqueKeys(r)
  {
    if profile.Some? then GpcMetafieldEntries(profile.value) else []
  }

  /** `copyUpdates` once the GPC columns and the metafield columns are assigned. */
  function CopyUpdates(ai: AIContent, row: SheetRow, now: string): (u: seq<(string, Option<string>)>) {
    Layered(CopyBase(ai, BuildInventorySizes(row), now), GpcColumnsOf(GpcProfileFor(ai)),
            MetafieldUpdates(Constants.METAFIELD_COLUMN_MAP, Payload(ai)))
  }

  /** `metafieldsPayload` once the GPC metafields are assigned. */
  function Payload(ai: AIContent): (m: seq<(string, Option<string>)>) {
    Overlay(MetafieldsPayload(ai), GpcMetafieldsOf(GpcProfileFor(ai)))
  }

  /** Two rounds of `Object.assign` over a record. */
  function Layered(base: seq<(string, Option<string>)>, first: seq<(string, Option<string>)>,
                   second: seq<(string, Option<string>)>): seq<(string, Option<string>)> {
    Overlay(Overlay(base, first), second)
  }

  /** A key takes its value from the last round that assigns it. */
  lemma LayeredGet(base: seq<(string, Option<string>)>, first: seq<(string, Option<string>)>,
                   second: seq<(string, Option<string>)>, k: string)
    requires UniqueKeys(first) && UniqueKeys(second)
    ensures Get(Layered(base, first, second), k) ==
      if Get(second, k).Some? then Get(second, k) else if Get(first, k).Some? then Get(first, k) else Get(base, k)
  {
    OverlayGet(Overlay(base, first), second, k);
    OverlayGet(base, first, k);
  }

  /** A key without a GPC column is not assigned by the GPC round. */
  lemma GpcColumnsAbsent(profile: Option<Gpc.GpcProfile>, k: string)
    requires forall j :: 0 <= j < |Gpc.GPC_COLUMNS| ==> Gpc.GPC_COLUMNS[j] != k
    ensures Get(GpcColumnsOf(profile), k).None?
  {
    if profile.Some? {
      GetAbsent(GpcColumnEntries(profile.value), k);
    }
  }

  lemma GpcMetafieldsAbsent(profile: Option<Gpc.GpcProfile>, k: string)
    requires forall j :: 0 <= j < |Gpc.GPC_METAFIELDS| ==> Gpc.GPC_METAFIELDS[j] != k
    ensures Get(GpcMetafieldsOf(profile), k).None?
  {
    if profile.Some? {
      GetAbsent(GpcMetafieldEntries(profile.value), k);
    }
  }

  /** The copy columns are distinct, and none is a GPC or a metafield column. */
  lemma CopyKeysDistinct()
    ensures forall i, j :: 0 <= i < j < |COPY_KEYS| ==> COPY_KEYS[i] != COPY_KEYS[j]
  {
  }

  lemma CopyKeysApartFromGpc(k: string)
    requires k in COPY_KEYS
    ensures forall j :: 0 <= j < |Gpc.GPC_COLUMNS| ==> Gpc.GPC_COLUMNS[j] != k
  {
  }

  lemma CopyKeysApartFromMetafields(k: string)
    requires k in COPY_KEYS
    ensures forall a :: 0 <= a < |Constants.METAFIELD_COLUMN_MAP| ==> Constants.METAFIELD_COLUMN_MAP[a].0 != k
  {
  }

  /** A key none of whose entries carries is absent from a record. */
  lemma GetAbsent(u: seq<(string, Option<string>)>, k: string)
    requires forall i :: 0 <= i < |u| ==> u[i].0 != k
    ensures Get(u, k).None?
  {
  }

  /** Each copy column keeps the value of the object literal: neither the GPC columns nor
      the metafield columns overwrite it. */
  lemma CopyKeepsBase(ai: AIContent, row: SheetRow, now: string, i: nat)
    requires i < |COPY_KEYS|
    ensures Get(CopyUpdates(ai, row, now), COPY_KEYS[i]) == Some(CopyBase(ai, BuildInventorySizes(row), now)[i].1)
  {
    var k := COPY_KEYS[i];
    var base := CopyBase(ai, BuildInventorySizes(row), now);
    var profile := GpcProfileFor(ai);
    var mf := MetafieldUpdates(Constants.METAFIELD_COLUMN_MAP, Payload(ai));
    LayeredGet(base, GpcColumnsOf(profile), mf, k);
    CopyKeysApartFromMetafields(k);
    MetafieldAbsent(Constants.METAFIELD_COLUMN_MAP, Payload(ai), k);
    CopyKeysApartFromGpc(k);
    GpcColumnsAbsent(profile, k);
    CopyKeysDistinct();
    GetUnique(base, i);
  }

  /** The generated title, description, meta description, tags joined by `, `, style,
      category, color and pattern are written; the vendor defaults to `Pleasant`; the
      sizes are derived from the row's stock; the update time is the clock reading. */
  lemma GeneratedCopy(ai: AIContent, row: SheetRow, now: string)
    ensures var u := CopyUpdates(ai, row, now);
      Get(u, Constants.TITLE) == Some(Some(ai.title)) &&
      Get(u, Constants.DESCRIPTION) == Some(Some(ai.description)) &&
      Get(u, Constants.META_DESCRIPTION) == Some(Some(ai.meta_description)) &&
      Get(u, Constants.TAGS) == Some(Some(Join(ai.tags, ", "))) &&
      Get(u, Constants.STYLE) == Some(Some(ai.style)) &&
      Get(u, Constants.CATEGORY) == Some(Some(ai.category)) &&
      Get(u, Constants.COLOR) == Some(Some(ai.color)) &&
      Get(u, Constants.PATTERN) == Some(Some(ai.pattern)) &&
      Get(u, Constants.VENDOR) == Some(Some(ai.vendor.GetOr("Pleasant"))) &&
      Get(u, Constants.SIZES) == Some(Some(BuildInventorySizes(row))) &&
      Get(u, Constants.UPDATED_AT) == Some(Some(now))
  {
    CopyKeepsBase(ai, row, now, 0);
    CopyKeepsBase(ai, row, now, 1);
    CopyKeepsBase(ai, row, now, 2);
    CopyKeepsBase(ai, row, now, 3);
    CopyKeepsBase(ai, row, now, 4);
    CopyKeepsBase(ai, row, now, 5);
    CopyKeepsBase(ai, row, now, 6);
    CopyKeepsBase(ai, row, now, 7);
    CopyKeepsBase(ai, row, now, 8);
    CopyKeepsBase(ai, row, now, 9);
    CopyKeepsBase(ai, row, now, 10);
  }

  /** The payload's fabric is the generated one, else `Upcycled`. */
  lemma PayloadFabric(ai: AIContent)
    ensures Get(Payload(ai), "fabric") == Some(Some(AiMetafield(ai, "fabric").GetOr("Upcycled")))
  {
    var m := MetafieldsPayload(ai);
    assert Get(m, "fabric") == Some(m[0].1);
    assert forall j :: 0 <= j < |Gpc.GPC_METAFIELDS| ==> Gpc.GPC_METAFIELDS[j] != "fabric";
    GpcMetafieldsAbsent(GpcProfileFor(ai), "fabric");
    OverlayGet(m, GpcMetafieldsOf(GpcProfileFor(ai)), "fabric");
  }

  /** The fabric column gets the generated fabric, and `Upcycled` when none was
      generated. */
  lemma FabricWritten(ai: AIContent, row: SheetRow, now: string)
    ensures var fabric := AiMetafield(ai, "fabric").GetOr("Upcycled");
      Get(CopyUpdates(ai, row, now), Constants.METAFIELD_FABRIC) == if fabric != "" then Some(Some(fabric)) else None
    ensures AiMetafield(ai, "fabric").None? ==> Get(CopyUpdates(ai, row, now), Constants.METAFIELD_FABRIC) == Some(Some("Upcycled"))
  {
    PayloadFabric(ai);
    MappedColumn(Payload(ai), 0);
    FabricColumn(ai, row, now);
  }

  /** The fabric column is assigned by the metafield round alone. */
  lemma FabricColumn(ai: AIContent, row: SheetRow, now: string)
    ensures Get(CopyUpdates(ai, row, now), Constants.METAFIELD_FABRIC) ==
      Get(MetafieldUpdates(Constants.METAFIELD_COLUMN_MAP, Payload(ai)), Constants.METAFIELD_FABRIC)
  {
    var k := Constants.METAFIELD_FABRIC;
    var base := CopyBase(ai, BuildInventorySizes(row), now);
    var mf := MetafieldUpdates(Constants.METAFIELD_COLUMN_MAP, Payload(ai));
    LayeredGet(base, GpcColumnsOf(GpcProfileFor(ai)), mf, k);
    FabricApart();
    CopyBaseAbsent(ai, BuildInventorySizes(row), now, k);
    GpcColumnsAbsent(GpcProfileFor(ai), k);
  }

  lemma CopyBaseAbsent(ai: AIContent, sizes: string, now: string, k: string)
    requires forall j :: 0 <= j < |COPY_KEYS| ==> COPY_KEYS[j] != k
    ensures Get(CopyBase(ai, sizes, now), k).None?
  {
    GetAbsent(CopyBase(ai, sizes, now), k);
  }

  /** `MetafieldColumn` for the metafield column map. */
  lemma MappedColumn(metafields: seq<(string, Option<string>)>, i: nat)
    requires i < |Constants.METAFIELD_COLUMN_MAP|
    ensures var next := Get(metafields, Constants.METAFIELD_COLUMN_MAP[i].1);
      Get(MetafieldUpdates(Constants.METAFIELD_COLUMN_MAP, metafields), Constants.METAFIELD_COLUMN_MAP[i].0) ==
      if Truthy(next) then next else None
  {
    MetafieldColumnsDistinct();
    MetafieldColumn(Constants.METAFIELD_COLUMN_MAP, metafields, i);
  }

  lemma FabricApart()
    ensures forall j :: 0 <= j < |COPY_KEYS| ==> COPY_KEYS[j] != Constants.METAFIELD_FABRIC
    ensures forall j :: 0 <= j < |Gpc.GPC_COLUMNS| ==> Gpc.GPC_COLUMNS[j] != Constants.METAFIELD_FABRIC
  {
  }

  lemma GpcCodeColumn()
    ensures Constants.METAFIELD_COLUMN_MAP[7] == (Constants.GPC_CODE, "gpc_code")
    ensures Gpc.GPC_METAFIELDS[0] == "gpc_code" && Gpc.GPC_COLUMNS[0] == Constants.GPC_CODE
  {
  }

  /** With a GPC profile, the GPC code column gets the profile's code. */
  lemma GpcCodeWritten(ai: AIContent, row: SheetRow, now: string)
    requires GpcProfileFor(ai).Some?
    ensures Get(CopyUpdates(ai, row, now), Constants.GPC_CODE) == Some(Some(GpcProfileFor(ai).value.base.code))
  {
    var k := Constants.GPC_CODE;
    var p := GpcProfileFor(ai).value;
    var entries := GpcMetafieldEntries(p);
    GetUnique(entries, 0);
    OverlayGet(MetafieldsPayload(ai), entries, "gpc_code");
    GpcCodeColumn();
    MappedColumn(Payload(ai), 7);
    GetUnique(GpcColumnEntries(p), 0);
    LayeredGet(CopyBase(ai, BuildInventorySizes(row), now), GpcColumnsOf(GpcProfileFor(ai)),
               MetafieldUpdates(Constants.METAFIELD_COLUMN_MAP, Payload(ai)), k);
  }

  // ---------------------------------------------------------------------------
  // stageSingleProduct

  /** What staging one product reports. */
  datatype StageResult = StageResult(staged: bool, imageUpdated: bool)

  /** The Products tab, the log entries written and the outcome after staging one
      product. */
  datatype Staging = Staging(grid: seq<seq<CellValue>>, logs: seq<LogEntry>, result: Result<StageResult, string>)

  /** `asset` or `assets`. */
  function Plural(noun: string, n: nat): string {
    if n == 1 then noun else noun + "s"
  }

  function ImagesSyncedEntry(productKey: string, count: nat, now: string): LogEntry {
    LogEntry(now, "draft:images-synced", Some(productKey),
             "Updated image references for draft (" + NatToString(count) + " " + Plural("asset", count) + ")")
  }

  function GeneratedEntry(productKey: string, count: nat, now: string): LogEntry {
    LogEntry(now, "draft:generated", Some(productKey),
             "Generated AI draft with " + NatToString(count) + " " + Plural("image", count))
  }

  function ReloadError(productKey: string): string {
    "Unable to reload sheet row for product " + productKey
  }

  /** Every row of a snapshot sits at row 2 or below. */
  lemma DataRowNumber(hm: map<string, nat>, grid: seq<seq<CellValue>>, row: SheetRow)
    requires row in DataRows(hm, grid)
    ensures row.rowNumber >= 2
  {
  }

  /** The row `ensureDraftRow` returns is a data row. */
  lemma DraftRowNumber(headerRow: seq<string>, grid: seq<seq<CellValue>>, productKey: string, rowId: Option<string>, now: string)
    ensures DraftOutcome(headerRow, grid, productKey, rowId, now).Ok? ==>
      DraftOutcome(headerRow, grid, productKey, rowId, now).value.rowNumber >= 2
  {
    var hm := HeaderMap(headerRow);
    var outcome := DraftOutcome(headerRow, grid, productKey, rowId, now);
    if outcome.Err? {
    } else if FindByKey(DataRows(hm, grid), ToLower(productKey)).Some? {
      DataRowNumber(hm, grid, outcome.value);
    } else {
      DataRowNumber(hm, DraftGrid(headerRow, grid, productKey, rowId, now), outcome.value);
    }
  }

  /** The reloaded row is a data row. */
  lemma ReloadedRowNumber(hm: map<string, nat>, grid: seq<seq<CellValue>>, productKey: string)
    ensures var r := RowByProductKey(DataRows(hm, grid), productKey);
      r.Some? ==> r.value.rowNumber >= 2
  {
    var r := RowByProductKey(DataRows(hm, grid), productKey);
    if r.Some? {
      DataRowNumber(hm, grid, r.value);
    }
  }

  /** The row the image updates are written to: the snapshot row, else the draft row
      `ensureDraftRow` finds or appends; and the Products tab after that call. */
  function BaseRow(headerRow: seq<string>, grid: seq<seq<CellValue>>, productKey: string,
                   existing: Option<SheetRow>, now: string): (r: (seq<seq<CellValue>>, Result<SheetRow, string>))
    requires existing.Some? ==> existing.value.rowNumber >= 2
    ensures r.1.Ok? ==> r.1.value.rowNumber >= 2
    ensures existing.Some? ==> r == (grid, Ok(existing.value))
  {
    if existing.Some? then (grid, Ok(existing.value))
    else
      var outcome := DraftOutcome(headerRow, grid, productKey, None, now);
      DraftRowNumber(headerRow, grid, productKey, None, now);
      (DraftGrid(headerRow, grid, productKey, None, now), outcome)
  }

  /** `stageSingleProduct` on the Products tab `grid` under `headerRow`, with the AI
      call as the oracle `generate` and one clock reading `now`. */
  function StageProduct(headerRow: seq<string>, grid: seq<seq<CellValue>>, productKey: string,
                        files: seq<MapFilenames.RawImageFile>, existing: Option<SheetRow>, now: string,
                        generate: SheetRow -> Result<AIContent, string>): Staging
    requires existing.Some? ==> existing.value.rowNumber >= 2
  {
    if files == [] then Staging(grid, [], Ok(StageResult(false, false)))
    else StageAssets(headerRow, grid, productKey, MapFilenames.Assets(files), |files|, existing, now, generate)
  }

  /** Staging the placed assets of a non-empty group of `count` files. */
  function StageAssets(headerRow: seq<string>, grid: seq<seq<CellValue>>, productKey: string,
                       assets: seq<ImageAsset>, count: nat, existing: Option<SheetRow>, now: string,
                       generate: SheetRow -> Result<AIContent, string>): Staging
    requires existing.Some? ==> existing.value.rowNumber >= 2
  {
    var (grid1, base) := BaseRow(headerRow, grid, productKey, existing, now);
    if base.Err? then Staging(grid1, [], Err(base.error))
    else StageOnRow(headerRow, grid1, productKey, base.value, assets, count, now, generate)
  }

  /** Staging on the row found or created: the image and bookkeeping write, then the
      rest. */
  function StageOnRow(headerRow: seq<string>, grid: seq<seq<CellValue>>, productKey: string, baseRow: SheetRow,
                      assets: seq<ImageAsset>, count: nat, now: string,
                      generate: SheetRow -> Result<AIContent, string>): Staging
    requires baseRow.rowNumber >= 2
  {
    var imageUpdates := ImageUpdates(assets);
    var grid' := ApplyWrites(grid, RowWrites(baseRow, StagingUpdates(productKey, baseRow, imageUpdates, now)));
    AfterStaging(headerRow, grid', productKey, count, imageUpdates != [], now, generate)
  }

  /** What follows the staging write: the reload, and then either the image log or the
      generated copy. */
  function AfterStaging(headerRow: seq<string>, grid: seq<seq<CellValue>>, productKey: string, count: nat,
                        hasImageUpdates: bool, now: string, generate: SheetRow -> Result<AIContent, string>): Staging
  {
    var rows := DataRows(HeaderMap(headerRow), grid);
    var refreshed := RowByProductKey(rows, productKey);
    ReloadedRowNumber(HeaderMap(headerRow), grid, productKey);
    AfterReload(grid, refreshed, productKey, count, hasImageUpdates, now, generate)
  }

  /** What follows the reload of the row, `refreshed`. */
  function AfterReload(grid: seq<seq<CellValue>>, refreshed: Option<SheetRow>, productKey: string, count: nat,
                       hasImageUpdates: bool, now: string, generate: SheetRow -> Result<AIContent, string>): Staging
    requires refreshed.Some? ==> refreshed.value.rowNumber >= 2
  {
    if refreshed.None? then Staging(grid, [], Err(ReloadError(productKey)))
    else if !ShouldGenerateCopy(refreshed.value) then
      Staging(grid, if hasImageUpdates then [ImagesSyncedEntry(productKey, count, now)] else [],
              Ok(StageResult(false, hasImageUpdates)))
    else
      var ai := generate(refreshed.value);
      if ai.Err? then Staging(grid, [], Err(ai.error))
      else
        Staging(ApplyWrites(grid, RowWrites(refreshed.value, CopyUpdates(ai.value, refreshed.value, now))),
                [GeneratedEntry(productKey, count, now)], Ok(StageResult(true, hasImageUpdates)))
  }

  /** `stageSingleProduct` on the ledger: the images are placed, the row is found or
      created and stamped, reloaded, and given generated copy when it needs some. */
  method StageSingleProduct(ledger: Ledger, productKey: string, files: seq<MapFilenames.RawImageFile>,
                            existing: Option<SheetRow>, now: string,
                            generate: SheetRow -> Result<AIContent, string>) returns (r: Result<StageResult, string>)
    requires existing.Some? ==> existing.value.rowNumber >= 2
    modifies ledger
    ensures var s := StageProduct(old(ledger.headerRow), old(ledger.grid), productKey, files, existing, now, generate);
      ledger.grid == s.grid && ledger.logRows == old(ledger.logRows) + LogRows(s.logs) && r == s.result
    ensures ledger.headerRow == old(ledger.headerRow) && ledger.config == old(ledger.config)
    ensures ledger.errorRows == old(ledger.errorRows)
  {
    if |files| == 0 {
      assert LogRows([]) == [];
      return Ok(StageResult(false, false));
    }
    var imageAssets := MapFilenames.AssignDeterministicPositions(files);
    r := StagePlacedAssets(ledger, productKey, imageAssets, |files|, existing, now, generate);
  }

  /** The row found or created, then staging on it. */
  method StagePlacedAssets(ledger: Ledger, productKey: string, imageAssets: seq<ImageAsset>, count: nat,
                           existing: Option<SheetRow>, now: string,
                           generate: SheetRow -> Result<AIContent, string>) returns (r: Result<StageResult, string>)
    requires existing.Some? ==> existing.value.rowNumber >= 2
    modifies ledger
    ensures var s := StageAssets(old(ledger.headerRow), old(ledger.grid), productKey, imageAssets, count, existing, now, generate);
      ledger.grid == s.grid && ledger.logRows == old(ledger.logRows) + LogRows(s.logs) && r == s.result
    ensures ledger.headerRow == old(ledger.headerRow) && ledger.config == old(ledger.config)
    ensures ledger.errorRows == old(ledger.errorRows)
  {
    var baseRow := ResolveBaseRow(ledger, productKey, existing, now);
    if baseRow.Err? {
      assert LogRows([]) == [];
      return Err(baseRow.error);
    }
    r := StageRow(ledger, productKey, baseRow.value, imageAssets, count, now, generate);
  }

  /** `existingRow ?? (await ensureDraftRow(productKey))`. */
  method ResolveBaseRow(ledger: Ledger, productKey: string, existing: Option<SheetRow>, now: string)
    returns (baseRow: Result<SheetRow, string>)
    requires existing.Some? ==> existing.value.rowNumber >= 2
    modifies ledger
    ensures (ledger.grid, baseRow) == BaseRow(old(ledger.headerRow), old(ledger.grid), productKey, existing, now)
    ensures ledger.headerRow == old(ledger.headerRow) && ledger.config == old(ledger.config)
    ensures ledger.logRows == old(ledger.logRows) && ledger.errorRows == old(ledger.errorRows)
  {
    if existing.Some? {
      return Ok(existing.value);
    }
    baseRow := ledger.EnsureDraftRow(productKey, None, now);
  }

  /** The image and bookkeeping write on the row, then the rest. */
  method StageRow(ledger: Ledger, productKey: string, baseRow: SheetRow, imageAssets: seq<ImageAsset>,
                  count: nat, now: string, generate: SheetRow -> Result<AIContent, string>) returns (r: Result<StageResult, string>)
    requires baseRow.rowNumber >= 2
    modifies ledger
    ensures var s := StageOnRow(old(ledger.headerRow), old(ledger.grid), productKey, baseRow, imageAssets, count, now, generate);
      ledger.grid == s.grid && ledger.logRows == old(ledger.logRows) + LogRows(s.logs) && r == s.result
    ensures ledger.headerRow == old(ledger.headerRow) && ledger.config == old(ledger.config)
    ensures ledger.errorRows == old(ledger.errorRows)
  {
    var imageUpdates := BuildImageUpdates(imageAssets);
    var updates := StagingUpdates(productKey, baseRow, imageUpdates, now);
    var hasImageUpdates := |imageUpdates| > 0;
    ledger.UpdateRowValues(baseRow, updates);
    r := FinishStaging(ledger, productKey, count, hasImageUpdates, now, generate);
  }

  /** The reload and what follows it. */
  method FinishStaging(ledger: Ledger, productKey: string, count: nat, hasImageUpdates: bool, now: string,
                       generate: SheetRow -> Result<AIContent, string>) returns (r: Result<StageResult, string>)
    modifies ledger
    ensures var s := AfterStaging(old(ledger.headerRow), old(ledger.grid), productKey, count, hasImageUpdates, now, generate);
      ledger.grid == s.grid && ledger.logRows == old(ledger.logRows) + LogRows(s.logs) && r == s.result
    ensures ledger.headerRow == old(ledger.headerRow) && ledger.config == old(ledger.config)
    ensures ledger.errorRows == old(ledger.errorRows)
  {
    var refreshed := ledger.GetRowByProductKey(productKey);
    ReloadedRowNumber(HeaderMap(ledger.headerRow), ledger.grid, productKey);
    r := ContinueAfterReload(ledger, refreshed, productKey, count, hasImageUpdates, now, generate);
  }

  /** The image log, or the generated copy, after the reload. */
  method ContinueAfterReload(ledger: Ledger, refreshed: Option<SheetRow>, productKey: string, count: nat,
                             hasImageUpdates: bool, now: string, generate: SheetRow -> Result<AIContent, string>)
    returns (r: Result<StageResult, string>)
    requires refreshed.Some? ==> refreshed.value.rowNumber >= 2
    modifies ledger
    ensures var s := AfterReload(old(ledger.grid), refreshed, productKey, count, hasImageUpdates, now, generate);
      ledger.grid == s.grid && ledger.logRows == old(ledger.logRows) + LogRows(s.logs) && r == s.result
    ensures ledger.headerRow == old(ledger.headerRow) && ledger.config == old(ledger.config)
    ensures ledger.errorRows == old(ledger.errorRows)
  {
    assert LogRows([]) == [];
    if refreshed.None? {
      return Err(ReloadError(productKey));
    }
    if !ShouldGenerateCopy(refreshed.value) {
      if hasImageUpdates {
        ledger.WriteLogs([ImagesSyncedEntry(productKey, count, now)]);
      }
      return Ok(StageResult(false, hasImageUpdates));
    }
    var aiContent := generate(refreshed.value);
    if aiContent.Err? {
      return Err(aiContent.error);
    }
    WriteCopy(ledger, productKey, refreshed.value, aiContent.value, count, now);
    return Ok(StageResult(true, hasImageUpdates));
  }

  /** The generated copy written to the reloaded row, and its log entry. */
  method WriteCopy(ledger: Ledger, productKey: string, row: SheetRow, aiContent: AIContent, count: nat, now: string)
    requires row.rowNumber >= 2
    modifies ledger
    ensures ledger.grid == ApplyWrites(old(ledger.grid), RowWrites(row, CopyUpdates(aiContent, row, now)))
    ensures ledger.logRows == old(ledger.logRows) + LogRows([GeneratedEntry(productKey, count, now)])
    ensures ledger.headerRow == old(ledger.headerRow) && ledger.config == old(ledger.config)
    ensures ledger.errorRows == old(ledger.errorRows)
  {
    ledger.UpdateRowValues(row, CopyUpdates(aiContent, row, now));
    ledger.WriteLogs([GeneratedEntry(productKey, count, now)]);
  }

  // ---------------------------------------------------------------------------
  // What staging one product does

  /** The reload and what follows it: a missing row is an error; a row that needs no
      copy gets the image log only when images were updated; otherwise the copy is
      generated, and its failure is the product's failure. */
  lemma AfterReloadReport(grid: seq<seq<CellValue>>, refreshed: Option<SheetRow>, productKey: string, count: nat,
                          hasImageUpdates: bool, now: string, generate: SheetRow -> Result<AIContent, string>)
    requires refreshed.Some? ==> refreshed.value.rowNumber >= 2
    ensures var s := AfterReload(grid, refreshed, productKey, count, hasImageUpdates, now, generate);
      (refreshed.None? ==> s.result == Err(ReloadError(productKey)) && s.grid == grid) &&
      (s.result.Ok? ==> s.result.value.imageUpdated == hasImageUpdates) &&
      (s.result.Ok? && s.result.value.staged <==>
        refreshed.Some? && ShouldGenerateCopy(refreshed.value) && generate(refreshed.value).Ok?) &&
      (s.result.Ok? && s.result.value.staged ==> s.logs == [GeneratedEntry(productKey, count, now)]) &&
      (s.result.Ok? && !s.result.value.staged ==>
        s.grid == grid && s.logs == if hasImageUpdates then [ImagesSyncedEntry(productKey, count, now)] else []) &&
      (s.result.Err? ==> s.logs == [])
  {
  }

  /** Staging on a row reports an image update exactly when some asset has an image
      role, and writes at most one log entry. */
  lemma StageOnRowReport(headerRow: seq<string>, grid: seq<seq<CellValue>>, productKey: string, baseRow: SheetRow,
                         assets: seq<ImageAsset>, count: nat, now: string,
                         generate: SheetRow -> Result<AIContent, string>)
    requires baseRow.rowNumber >= 2
    ensures var s := StageOnRow(headerRow, grid, productKey, baseRow, assets, count, now, generate);
      (s.result.Ok? ==> (s.result.value.imageUpdated <==> exists i :: 0 <= i < |assets| && RoleColumn(assets[i].role).Some?)) &&
      |s.logs| <= 1 &&
      (s.logs != [] <==> s.result.Ok? && (s.result.value.staged || s.result.value.imageUpdated))
  {
    var imageUpdates := ImageUpdates(assets);
    var grid' := ApplyWrites(grid, RowWrites(baseRow, StagingUpdates(productKey, baseRow, imageUpdates, now)));
    AfterStagingLogs(headerRow, grid', productKey, count, imageUpdates != [], now, generate);
    ImageUpdatesEmpty(assets);
  }

  /** After the reload at most one entry is logged, and one is exactly when the product
      was staged or had its images updated. */
  lemma AfterStagingLogs(headerRow: seq<string>, grid: seq<seq<CellValue>>, productKey: string, count: nat,
                         hasImageUpdates: bool, now: string, generate: SheetRow -> Result<AIContent, string>)
    ensures var s := AfterStaging(headerRow, grid, productKey, count, hasImageUpdates, now, generate);
      (s.result.Ok? ==> s.result.value.imageUpdated == hasImageUpdates) &&
      |s.logs| <= 1 &&
      (s.logs != [] <==> s.result.Ok? && (s.result.value.staged || s.result.value.imageUpdated))
  {
    var refreshed := RowByProductKey(DataRows(HeaderMap(headerRow), grid), productKey);
    ReloadedRowNumber(HeaderMap(headerRow), grid, productKey);
    AfterReloadReport(grid, refreshed, productKey, count, hasImageUpdates, now, generate);
  }

  /** `stageSingleProduct`'s report: nothing happens without files; an image update is
      reported exactly when some asset has an image role; at most one log entry is written,
      and only for a product that was staged or had its images updated. */
  lemma StageReport(headerRow: seq<string>, grid: seq<seq<CellValue>>, productKey: string,
                    files: seq<MapFilenames.RawImageFile>, existing: Option<SheetRow>, now: string,
                    generate: SheetRow -> Result<AIContent, string>)
    requires existing.Some? ==> existing.value.rowNumber >= 2
    ensures var s := StageProduct(headerRow, grid, productKey, files, existing, now, generate);
      var assets := MapFilenames.Assets(files);
      (files == [] ==> s == Staging(grid, [], Ok(StageResult(false, false)))) &&
      (files != [] && s.result.Ok? ==> (s.result.value.imageUpdated <==>
        exists i :: 0 <= i < |assets| && RoleColumn(assets[i].role).Some?)) &&
      |s.logs| <= 1 &&
      (s.logs != [] <==> s.result.Ok? && (s.result.value.staged || s.result.value.imageUpdated))
  {
    if files != [] {
      StageAssetsReport(headerRow, grid, productKey, MapFilenames.Assets(files), |files|, existing, now, generate);
    }
  }

  lemma StageAssetsReport(headerRow: seq<string>, grid: seq<seq<CellValue>>, productKey: string,
                          assets: seq<ImageAsset>, count: nat, existing: Option<SheetRow>, now: string,
                          generate: SheetRow -> Result<AIContent, string>)
    requires existing.Some? ==> existing.value.rowNumber >= 2
    ensures var s := StageAssets(headerRow, grid, productKey, assets, count, existing, now, generate);
      (s.result.Ok? ==> (s.result.value.imageUpdated <==> exists i :: 0 <= i < |assets| && RoleColumn(assets[i].role).Some?)) &&
      |s.logs| <= 1 &&
      (s.logs != [] <==> s.result.Ok? && (s.result.value.staged || s.result.value.imageUpdated))
  {
    var (grid1, base) := BaseRow(headerRow, grid, productKey, existing, now);
    if base.Ok? {
      StageOnRowReport(headerRow, grid1, productKey, base.value, assets, count, now, generate);
    }
  }

  // ---------------------------------------------------------------------------
  // What the next snapshot reads

  lemma CopyUpdatesUnique(ai: AIContent, row: SheetRow, now: string)
    ensures UniqueKeys(CopyUpdates(ai, row, now))
  {
    var base := CopyBase(ai, BuildInventorySizes(row), now);
    CopyBaseUnique(ai, BuildInventorySizes(row), now);
    LayeredUnique(base, GpcColumnsOf(GpcProfileFor(ai)), MetafieldUpdates(Constants.METAFIELD_COLUMN_MAP, Payload(ai)));
  }

  lemma LayeredUnique(base: seq<(string, Option<string>)>, first: seq<(string, Option<string>)>,
                      second: seq<(string, Option<string>)>)
    requires UniqueKeys(base)
    ensures UniqueKeys(Layered(base, first, second))
  {
  }

  lemma CopyBaseUnique(ai: AIContent, sizes: string, now: string)
    ensures UniqueKeys(CopyBase(ai, sizes, now))
  {
    CopyKeysDistinct();
  }

  /** The Products tab after `updateRowValues` on snapshot row `i`. */
  function Rewritten(hm: map<string, nat>, grid: seq<seq<CellValue>>, i: nat, updates: seq<(string, Option<string>)>): (g: seq<seq<CellValue>>)
    requires !Reserved(hm) && i < |grid|
    ensures |g| == |grid| && |DataRows(hm, g)| == |grid|
  {
    RowsAt(hm, grid, i);
    ApplyWritesLength(grid, RowWrites(DataRows(hm, grid)[i], updates));
    ApplyWrites(grid, RowWrites(DataRows(hm, grid)[i], updates))
  }

  /** After the staging write on a snapshot row, each image column of the sheet that an
      asset maps to reads back as that column's slot value. (The header map of a header
      row is injective: `HeaderMapInjective`.) */
  lemma StagedImageReadsBack(hm: map<string, nat>, grid: seq<seq<CellValue>>, i: nat, productKey: string,
                             assets: seq<ImageAsset>, now: string, column: string)
    requires !Reserved(hm) && Injective(hm) && i < |grid| && column in hm
    requires column in Constants.KNOWN_IMAGE_COLUMNS && SlotOf(assets, column).Some?
    ensures var base := DataRows(hm, grid)[i];
      var after := Rewritten(hm, grid, i, StagingUpdates(productKey, base, ImageUpdates(assets), now));
      Cell(DataRows(hm, after)[i], column) == NonBlank(SlotOf(assets, column).value.value)
  {
    var base := DataRows(hm, grid)[i];
    StagingOfImages(productKey, base, assets, now);
    WrittenColumnReadsBack(hm, grid, i, StagingUpdates(productKey, base, ImageUpdates(assets), now), column);
  }

  /** A snapshot row without a status reads back as pending review after staging. */
  lemma StagedStatusPending(hm: map<string, nat>, grid: seq<seq<CellValue>>, i: nat, productKey: string,
                            assets: seq<ImageAsset>, now: string)
    requires !Reserved(hm) && Injective(hm) && i < |grid| && Constants.STATUS in hm
    requires Blank(DataRows(hm, grid)[i], Constants.STATUS)
    ensures var base := DataRows(hm, grid)[i];
      var after := Rewritten(hm, grid, i, StagingUpdates(productKey, base, ImageUpdates(assets), now));
      Cell(DataRows(hm, after)[i], Constants.STATUS) == Some(Constants.STATUS_PENDING)
  {
    var base := DataRows(hm, grid)[i];
    PendingReadsBack();
    WrittenColumnReadsBack(hm, grid, i, StagingUpdates(productKey, base, ImageUpdates(assets), now), Constants.STATUS);
  }

  /** A copy column written with text that does not trim to nothing is no longer blank
      in the next snapshot. */
  lemma WrittenNotBlank(hm: map<string, nat>, grid: seq<seq<CellValue>>, i: nat,
                        updates: seq<(string, Option<string>)>, k: string, text: string)
    requires !Reserved(hm) && Injective(hm) && i < |grid| && UniqueKeys(updates)
    requires k in hm && Get(updates, k) == Some(Some(text)) && Trim(text) != []
    ensures !Blank(DataRows(hm, Rewritten(hm, grid, i, updates))[i], k)
  {
    WrittenColumnReadsBack(hm, grid, i, updates, k);
    CleanIsTrimmed(Trim(text));
  }

  /** Once generated copy has been written to a snapshot row, the next snapshot does not
      ask for copy again for that row, provided the sheet has the four copy columns and
      the generated title, description, meta description and tags are not blank. */
  lemma CopyStopsRegeneration(hm: map<string, nat>, grid: seq<seq<CellValue>>, i: nat, ai: AIContent, now: string)
    requires !Reserved(hm) && Injective(hm) && i < |grid|
    requires Constants.TITLE in hm && Constants.DESCRIPTION in hm
    requires Constants.META_DESCRIPTION in hm && Constants.TAGS in hm
    requires Trim(ai.title) != [] && Trim(ai.description) != [] && Trim(ai.meta_description) != []
    requires Trim(Join(ai.tags, ", ")) != []
    ensures var row := DataRows(hm, grid)[i];
      !ShouldGenerateCopy(DataRows(hm, Rewritten(hm, grid, i, CopyUpdates(ai, row, now)))[i])
  {
    var row := DataRows(hm, grid)[i];
    var u := CopyUpdates(ai, row, now);
    CopyUpdatesUnique(ai, row, now);
    GeneratedCopy(ai, row, now);
    WrittenNotBlank(hm, grid, i, u, Constants.TITLE, ai.title);
    WrittenNotBlank(hm, grid, i, u, Constants.DESCRIPTION, ai.description);
    WrittenNotBlank(hm, grid, i, u, Constants.META_DESCRIPTION, ai.meta_description);
    WrittenNotBlank(hm, grid, i, u, Constants.TAGS, Join(ai.tags, ", "));
  }

  // ---------------------------------------------------------------------------
  // stageDrafts

  /** The key a snapshot row is looked up by: its product key, lower-cased, unless
      blank. */
  function LookupKey(row: SheetRow): Option<string> {
    var key := StringValue(Cell(row, Constants.PRODUCT_KEY));
    if key.Some? then Some(ToLower(key.value)) else None
  }

  /** The map that `Map.set` builds over `xs` under `key`: a later element with the same
      key replaces an earlier one; elements without a key are passed over. */
  function LastBy<T>(xs: seq<T>, key: T -> Option<string>): (m: map<string, T>)
    ensures forall k :: k in m ==> m[k] in xs
    decreases |xs|
  {
    if xs == [] then map[]
    else
      var m := LastBy(xs[..|xs| - 1], key);
      var k := key(xs[|xs| - 1]);
      if k.Some? then m[k.value := xs[|xs| - 1]] else m
  }

  /** `xs[i]` is the last element of `xs` with key `k`. */
  predicate LastWith<T>(xs: seq<T>, key: T -> Option<string>, k: string, i: int) {
    0 <= i < |xs| && key(xs[i]) == Some(k) && forall j :: i < j < |xs| ==> key(xs[j]) != Some(k)
  }

  /** A key is in the map exactly when some element has it, and it names the last such
      element. */
  lemma {:induction false} LastByLast<T>(xs: seq<T>, key: T -> Option<string>, k: string)
    ensures k in LastBy(xs, key) <==> exists i :: 0 <= i < |xs| && key(xs[i]) == Some(k)
    ensures k in LastBy(xs, key) ==> exists i :: LastWith(xs, key, k, i) && LastBy(xs, key)[k] == xs[i]
    decreases |xs|
  {
    if xs != [] {
      var init := xs[..|xs| - 1];
      LastByLast(init, key, k);
      LastByStep(xs, key, k, LastBy(init, key), LastBy(xs, key));
    }
  }

  /** The two facts of `LastByLast` carried over one more element, from the map `prev`
      before it to the map `cur` after it. */
  lemma LastByStep<T>(xs: seq<T>, key: T -> Option<string>, k: string, prev: map<string, T>, cur: map<string, T>)
    requires xs != []
    requires var last := xs[|xs| - 1];
      cur == if key(last).Some? then prev[key(last).value := last] else prev
    requires var init := xs[..|xs| - 1];
      (k in prev <==> exists i :: 0 <= i < |init| && key(init[i]) == Some(k)) &&
      (k in prev ==> exists i :: LastWith(init, key, k, i) && prev[k] == init[i])
    ensures k in cur <==> exists i :: 0 <= i < |xs| && key(xs[i]) == Some(k)
    ensures k in cur ==> exists i :: LastWith(xs, key, k, i) && cur[k] == xs[i]
  {
    var n := |xs| - 1;
    var init := xs[..n];
    if key(xs[n]) == Some(k) {
      assert LastWith(xs, key, k, n);
    } else {
      assert k in cur <==> k in prev;
      if exists i :: 0 <= i < |xs| && key(xs[i]) == Some(k) {
        var i :| 0 <= i < |xs| && key(xs[i]) == Some(k);
        assert i < n && init[i] == xs[i];
      }
      if k in prev {
        var i :| LastWith(init, key, k, i) && prev[k] == init[i];
        assert init[i] == xs[i];
        forall j | i < j < |xs|
          ensures key(xs[j]) != Some(k)
        {
          if j < n {
            assert init[j] == xs[j];
          }
        }
        assert LastWith(xs, key, k, i);
      }
    }
  }

  /** The `rowLookup` map of the snapshot rows. */
  function RowLookup(rows: seq<SheetRow>): (m: map<string, SheetRow>) {
    LastBy(rows, LookupKey)
  }

  /** Building `rowLookup` from the snapshot rows. */
  method BuildRowLookup(rows: seq<SheetRow>) returns (lookup: map<string, SheetRow>)
    ensures lookup == RowLookup(rows)
  {
    lookup := map[];
    var i := 0;
    while i < |rows|
      invariant 0 <= i <= |rows|
      invariant lookup == LastBy(rows[..i], LookupKey)
    {
      LookupSnoc(rows, i);
      var key := StringValue(Cell(rows[i], Constants.PRODUCT_KEY));
      if key.Some? {
        lookup := lookup[ToLower(key.value) := rows[i]];
      }
      i := i + 1;
    }
    assert rows[..i] == rows;
  }

  /** One more row sets its key, if it has one, over the lookup of the rows before it. */
  lemma LookupSnoc(rows: seq<SheetRow>, i: int)
    requires 0 <= i < |rows|
    ensures var prev := LastBy(rows[..i], LookupKey);
      LastBy(rows[..i + 1], LookupKey) ==
        if LookupKey(rows[i]).Some? then prev[LookupKey(rows[i]).value := rows[i]] else prev
  {
    assert rows[..i + 1][..i] == rows[..i];
    assert rows[..i + 1][i] == rows[i];
  }

  /** The lookup finds the LAST snapshot row with a key, where `getRowByProductKey` finds
      the first. */
  lemma RowLookupLast(rows: seq<SheetRow>, k: string)
    ensures k in RowLookup(rows) <==> exists i :: 0 <= i < |rows| && LookupKey(rows[i]) == Some(k)
    ensures k in RowLookup(rows) ==> exists i :: LastWith(rows, LookupKey, k, i) && RowLookup(rows)[k] == rows[i]
  {
    LastByLast(rows, LookupKey, k);
  }

  /** The rows of the lookup are snapshot rows. */
  lemma LookupRowNumbers(hm: map<string, nat>, grid: seq<seq<CellValue>>)
    ensures var lookup := RowLookup(DataRows(hm, grid));
      forall k :: k in lookup ==> lookup[k].rowNumber >= 2
  {
    var lookup := RowLookup(DataRows(hm, grid));
    forall k | k in lookup
      ensures lookup[k].rowNumber >= 2
    {
      DataRowNumber(hm, grid, lookup[k]);
    }
  }

  /** The counters and the failures of one run. */
  datatype Summary = Summary(processed: nat, staged: nat, imageUpdates: nat, skipped: nat, errors: nat,
                             errorDetails: seq<(string, string)>)

  const EMPTY_SUMMARY := Summary(0, 0, 0, 0, 0, [])

  const STAGE_HINT := "Ensure Drive filenames follow <productKey>_<role>.jpg and sheet permissions are set"

  /** `JSON.stringify({ productKey }).slice(0, 500)`. */
  function PayloadSnippet(productKey: string): (r: string)
    ensures |r| <= 500
  {
    Json.Slice("{\"productKey\":" + Json.Quote(productKey) + "}", 500)
  }

  /** The error entry written for a product that failed. */
  function StageError(productKey: string, message: string, now: string): ErrorEntry {
    ErrorEntry(now, Some(productKey), "stageDrafts", message, Some(STAGE_HINT), Some(PayloadSnippet(productKey)))
  }

  /** One product's outcome added to the summary. */
  function Tally(summary: Summary, productKey: string, result: Result<StageResult, string>): (r: Summary)
    ensures r.processed == summary.processed + 1
    ensures r.staged + r.imageUpdates + r.skipped + r.errors == summary.staged + summary.imageUpdates + summary.skipped + summary.errors + 1
    ensures r.errorDetails == summary.errorDetails + if result.Err? then [(productKey, result.error)] else []
    ensures r.errors == summary.errors + if result.Err? then 1 else 0
    ensures result.Ok? && result.value.staged ==> r.staged == summary.staged + 1
  {
    var summary := summary.(processed := summary.processed + 1);
    match result
    case Err(message) => summary.(errors := summary.errors + 1, errorDetails := summary.errorDetails + [(productKey, message)])
    case Ok(outcome) =>
      if outcome.staged then summary.(staged := summary.staged + 1)
      else if outcome.imageUpdated then summary.(imageUpdates := summary.imageUpdates + 1)
      else summary.(skipped := summary.skipped + 1)
  }

  /** The Products tab, the rows appended to the Logs and Errors tabs, and the summary
      after the given groups. */
  datatype Run = Run(grid: seq<seq<CellValue>>, logRows: seq<seq<string>>, errorRows: seq<seq<string>>, summary: Summary)

  /** The row looked up for a product key. */
  function Existing(lookup: map<string, SheetRow>, productKey: string): Option<SheetRow> {
    if ToLower(productKey) in lookup then Some(lookup[ToLower(productKey)]) else None
  }

  /** The Errors tab rows a product's outcome adds: one for a failure. */
  function FailureRows(productKey: string, result: Result<StageResult, string>, now: string): (rows: seq<seq<string>>)
    ensures |rows| == if result.Err? then 1 else 0
  {
    if result.Err? then [ErrorRow(StageError(productKey, result.error, now))] else []
  }

  /** One product's staging added to the run. */
  function StepRun(prev: Run, productKey: string, s: Staging, now: string): (r: Run)
    ensures r.summary.processed == prev.summary.processed + 1
    ensures r.summary.staged + r.summary.imageUpdates + r.summary.skipped + r.summary.errors ==
      prev.summary.staged + prev.summary.imageUpdates + prev.summary.skipped + prev.summary.errors + 1
    ensures r.summary.errors == prev.summary.errors + (if s.result.Err? then 1 else 0)
    ensures |r.summary.errorDetails| == |prev.summary.errorDetails| + (if s.result.Err? then 1 else 0)
    ensures |r.errorRows| == |prev.errorRows| + (if s.result.Err? then 1 else 0)
  {
    Run(s.grid, prev.logRows + LogRows(s.logs),
        prev.errorRows + FailureRows(productKey, s.result, now),
        Tally(prev.summary, productKey, s.result))
  }

  /** The loop of `stageDrafts` over the groups, in order. */
  function StageAll(headerRow: seq<string>, grid: seq<seq<CellValue>>, lookup: map<string, SheetRow>,
                    groups: seq<(string, seq<MapFilenames.RawImageFile>)>, now: string,
                    generate: SheetRow -> Result<AIContent, string>): (r: Run)
    requires forall k :: k in lookup ==> lookup[k].rowNumber >= 2
    ensures r.summary.processed == |groups|
    ensures r.summary.staged + r.summary.imageUpdates + r.summary.skipped + r.summary.errors == |groups|
    ensures |r.summary.errorDetails| == r.summary.errors == |r.errorRows|
    decreases |groups|
  {
    if groups == [] then Run(grid, [], [], EMPTY_SUMMARY)
    else
      var prev := StageAll(headerRow, grid, lookup, groups[..|groups| - 1], now, generate);
      var productKey := groups[|groups| - 1].0;
      StepRun(prev, productKey, StageProduct(headerRow, prev.grid, productKey, groups[|groups| - 1].1,
                                             Existing(lookup, productKey), now, generate), now)
  }

  /** Each failure in the summary's details has its row on the Errors tab, in the same
      order, carrying the same product key and message. */
  predicate ErrorsAgree(r: Run, now: string) {
    |r.errorRows| == |r.summary.errorDetails| &&
    forall j :: 0 <= j < |r.errorRows| ==>
      r.errorRows[j] == ErrorRow(StageError(r.summary.errorDetails[j].0, r.summary.errorDetails[j].1, now))
  }

  lemma {:induction false} StageAllErrorsAgree(headerRow: seq<string>, grid: seq<seq<CellValue>>,
                                               lookup: map<string, SheetRow>,
                                               groups: seq<(string, seq<MapFilenames.RawImageFile>)>, now: string,
                                               generate: SheetRow -> Result<AIContent, string>)
    requires forall k :: k in lookup ==> lookup[k].rowNumber >= 2
    ensures ErrorsAgree(StageAll(headerRow, grid, lookup, groups, now, generate), now)
    decreases |groups|
  {
    if groups != [] {
      var init := groups[..|groups| - 1];
      StageAllErrorsAgree(headerRow, grid, lookup, init, now, generate);
      var prev := StageAll(headerRow, grid, lookup, init, now, generate);
      var productKey := groups[|groups| - 1].0;
      StepRunErrors(prev, productKey, StageProduct(headerRow, prev.grid, productKey, groups[|groups| - 1].1,
                                                   Existing(lookup, productKey), now, generate), now);
    }
  }

  lemma StepRunErrors(prev: Run, productKey: string, s: Staging, now: string)
    requires ErrorsAgree(prev, now)
    ensures ErrorsAgree(StepRun(prev, productKey, s, now), now)
  {
  }

  /** The lookup of a snapshot; its rows are data rows. */
  function SnapshotLookup(hm: map<string, nat>, grid: seq<seq<CellValue>>): (m: map<string, SheetRow>)
    ensures forall k :: k in m ==> m[k].rowNumber >= 2
  {
    LookupRowNumbers(hm, grid);
    RowLookup(DataRows(hm, grid))
  }

  /** `stageDrafts` over the image groups listed from Drive, in the order listed, with the
      AI call as the oracle `generate` and one clock reading `now`: each product is staged,
      counted by its outcome, and a failure is recorded in the summary and on the Errors
      tab without stopping the run. */
  method StageDrafts(ledger: Ledger, groups: seq<(string, seq<MapFilenames.RawImageFile>)>, now: string,
                     generate: SheetRow -> Result<AIContent, string>) returns (summary: Summary)
    modifies ledger
    ensures groups == [] ==> (summary == EMPTY_SUMMARY && ledger.grid == old(ledger.grid) &&
      ledger.logRows == old(ledger.logRows) && ledger.errorRows == old(ledger.errorRows))
    ensures groups != [] ==>
      var run := StageAll(old(ledger.headerRow), old(ledger.grid),
                          SnapshotLookup(HeaderMap(old(ledger.headerRow)), old(ledger.grid)), groups, now, generate);
      ledger.grid == run.grid && ledger.logRows == old(ledger.logRows) + run.logRows &&
      ledger.errorRows == old(ledger.errorRows) + run.errorRows && summary == run.summary
    ensures ledger.headerRow == old(ledger.headerRow) && ledger.config == old(ledger.config)
  {
    summary := EMPTY_SUMMARY;
    if |groups| == 0 {
      return;
    }
    var snapshot := ledger.FetchProductsSheet();
    var lookup := BuildRowLookup(snapshot.rows);
    assert lookup == SnapshotLookup(HeaderMap(ledger.headerRow), ledger.grid);
    ghost var run := StageAll(ledger.headerRow, ledger.grid, lookup, [], now, generate);
    var i := 0;
    while i < |groups|
      invariant 0 <= i <= |groups|
      invariant ledger.headerRow == old(ledger.headerRow) && ledger.config == old(ledger.config)
      invariant run == StageAll(old(ledger.headerRow), old(ledger.grid), lookup, groups[..i], now, generate)
      invariant ledger.grid == run.grid && ledger.logRows == old(ledger.logRows) + run.logRows
      invariant ledger.errorRows == old(ledger.errorRows) + run.errorRows && summary == run.summary
    {
      ghost var logRows, errorRows := ledger.logRows, ledger.errorRows;
      summary := StageGroup(ledger, lookup, groups[i].0, groups[i].1, summary, now, generate);
      StageAllSnoc(old(ledger.headerRow), old(ledger.grid), lookup, groups, i, now, generate);
      ghost var s := StageProduct(old(ledger.headerRow), run.grid, groups[i].0, groups[i].1,
                                  Existing(lookup, groups[i].0), now, generate);
      Associate(old(ledger.logRows), run.logRows, LogRows(s.logs));
      Associate(old(ledger.errorRows), run.errorRows, FailureRows(groups[i].0, s.result, now));
      run := StepRun(run, groups[i].0, s, now);
      i := i + 1;
    }
    assert groups[..i] == groups;
  }

  /** The run over one more group is the step added to the run before it. */
  lemma StageAllSnoc(headerRow: seq<string>, grid: seq<seq<CellValue>>, lookup: map<string, SheetRow>,
                     groups: seq<(string, seq<MapFilenames.RawImageFile>)>, i: nat, now: string,
                     generate: SheetRow -> Result<AIContent, string>)
    requires forall k :: k in lookup ==> lookup[k].rowNumber >= 2
    requires i < |groups|
    ensures var prev := StageAll(headerRow, grid, lookup, groups[..i], now, generate);
      StageAll(headerRow, grid, lookup, groups[..i + 1], now, generate) ==
      StepRun(prev, groups[i].0, StageProduct(headerRow, prev.grid, groups[i].0, groups[i].1,
                                              Existing(lookup, groups[i].0), now, generate), now)
  {
    assert groups[..i + 1][..i] == groups[..i];
  }

  /** One pass of the `for` loop: the product is staged, then counted and, on failure,
      recorded. */
  method StageGroup(ledger: Ledger, lookup: map<string, SheetRow>, productKey: string,
                    files: seq<MapFilenames.RawImageFile>, summary: Summary, now: string,
                    generate: SheetRow -> Result<AIContent, string>) returns (summary': Summary)
    requires forall k :: k in lookup ==> lookup[k].rowNumber >= 2
    modifies ledger
    ensures var s := StageProduct(old(ledger.headerRow), old(ledger.grid), productKey, files,
                                  Existing(lookup, productKey), now, generate);
      ledger.grid == s.grid && ledger.logRows == old(ledger.logRows) + LogRows(s.logs) &&
      ledger.errorRows == old(ledger.errorRows) + FailureRows(productKey, s.result, now) &&
      summary' == Tally(summary, productKey, s.result)
    ensures ledger.headerRow == old(ledger.headerRow) && ledger.config == old(ledger.config)
  {
    var result := StageSingleProduct(ledger, productKey, files, Existing(lookup, productKey), now, generate);
    summary' := RecordOutcome(ledger, summary, productKey, result, now);
  }

  /** The counters of the summary, and for a failure its detail and an Errors tab row. */
  method RecordOutcome(ledger: Ledger, summary: Summary, productKey: string,
                       result: Result<StageResult, string>, now: string) returns (summary': Summary)
    modifies ledger
    ensures ledger.errorRows == old(ledger.errorRows) + FailureRows(productKey, result, now)
    ensures summary' == Tally(summary, productKey, result)
    ensures ledger.grid == old(ledger.grid) && ledger.logRows == old(ledger.logRows)
    ensures ledger.headerRow == old(ledger.headerRow) && ledger.config == old(ledger.config)
  {
    summary' := CountOutcome(summary, productKey, result);
    if result.Err? {
      ledger.WriteError(StageError(productKey, result.error, now));
    }
  }

  /** The counter updates of one loop pass. */
  method CountOutcome(summary: Summary, productKey: string, result: Result<StageResult, string>) returns (summary': Summary)
    ensures summary' == Tally(summary, productKey, result)
  {
    summary' := summary.(processed := summary.processed + 1);
    if result.Ok? {
      if result.value.staged {
        summary' := summary'.(staged := summary'.staged + 1);
      } else if result.value.imageUpdated {
        summary' := summary'.(imageUpdates := summary'.imageUpdates + 1);
      } else {
        summary' := summary'.(skipped := summary'.skipped + 1);
      }
    } else {
      summary' := summary'.(errors := summary'.errors + 1,
                            errorDetails := summary'.errorDetails + [(productKey, result.error)]);
    }
  }
}
