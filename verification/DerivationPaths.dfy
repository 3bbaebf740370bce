/** Parsing and printing of BIP-32 derivation paths, l2geth/accounts/hd.go. */
module DerivationPaths {
  import opened Common

  type uint32 = x: nat | x < 0x1_0000_0000
  type Path = seq<uint32>

  const HARDENED: uint32 := 0x8000_0000
  const DEFAULT_ROOT: Path := [HARDENED + 44, HARDENED + 60, HARDENED + 0, 0]

  datatype Error = Ambiguous | Empty | InvalidComponent | OutOfRange
  datatype Result = Ok(path: Path) | Bad(error: Error)

  // ----- strings -----

  /** Unicode white space, as `strings.TrimSpace` knows it. */
  predicate IsSpace(c: char) {
    || c == ' ' || '\t' <= c <= '\r' || c == '\U{85}' || c == '\U{A0}' || c == '\U{1680}'
    || '\U{2000}' <= c <= '\U{200A}' || c == '\U{2028}' || c == '\U{2029}' || c == '\U{202F}' || c == '\U{205F}'
    || c == '\U{3000}'
  }

  function TrimLeft(s: string): string { if s != "" && IsSpace(s[0]) then TrimLeft(s[1..]) else s }

  function TrimRight(s: string): string {
    if s != "" && IsSpace(s[|s| - 1]) then TrimRight(s[..|s| - 1]) else s
  }

  function TrimSpace(s: string): string { TrimRight(TrimLeft(s)) }

  /** `strings.Split` at slashes. */
  function Split(s: string): (r: seq<string>)
    ensures |r| >= 1
  {
    if s == "" then [""]
    else
      var rest := Split(s[1..]);
      if s[0] == '/' then [""] + rest else [[s[0]] + rest[0]] + rest[1..]
  }

  // ----- numbers, as `big.Int.SetString(s, 0)` reads them -----

  datatype Prev = Start | Digit | Separator

  function DigitValue(c: char): Option<nat> {
    if '0' <= c <= '9' then Some((c - '0') as nat)
    else if 'a' <= c <= 'z' then Some((c - 'a') as nat + 10)
    else if 'A' <= c <= 'Z' then Some((c - 'A') as nat + 10)
    else None
  }

  predicate IsDigitOf(c: char, base: nat) { DigitValue(c).Some? && DigitValue(c).value < base }

  /** Digits of `base` with single underscores between them. */
  function Digits(s: string, base: nat, prev: Prev): Option<seq<nat>> {
    if s == "" then if prev == Separator then None else Some([])
    else if s[0] == '_' then if prev == Digit then Digits(s[1..], base, Separator) else None
    else if !IsDigitOf(s[0], base) then None
    else
      var rest := Digits(s[1..], base, Digit);
      if rest.None? then None else Some([DigitValue(s[0]).value] + rest.value)
  }

  function Value(digits: seq<nat>, base: nat): nat {
    if digits == [] then 0 else Value(digits[..|digits| - 1], base) * base + digits[|digits| - 1]
  }

  function Scan(s: string, base: nat, prev: Prev): Option<nat> {
    var digits := Digits(s, base, prev);
    if digits.None? || digits.value == [] then None else Some(Value(digits.value, base))
  }

  function ScanUnsigned(s: string): Option<nat> {
    if s == "" then None
    else if s[0] != '0' then Scan(s, 10, Start)
    else if |s| == 1 then Some(0)
    else if s[1] == 'b' || s[1] == 'B' then Scan(s[2..], 2, Digit)
    else if s[1] == 'o' || s[1] == 'O' then Scan(s[2..], 8, Digit)
    else if s[1] == 'x' || s[1] == 'X' then Scan(s[2..], 16, Digit)
    else Scan(s[1..], 8, Digit)
  }

  function ScanInt(s: string): Option<int> {
    if s != "" && s[0] == '-' then
      var n := ScanUnsigned(s[1..]);
      if n.None? then None else Some(0 - n.value)
    else
      var n := ScanUnsigned(if s != "" && s[0] == '+' then s[1..] else s);
      if n.Some? then Some(n.value) else None
  }

  // ----- parsing -----

  /** One component. */
  function ParseComponent(component: string): Result {
    var c := TrimSpace(component);
    var hardened := c != "" && c[|c| - 1] == '\'';
    var digits := if hardened then TrimSpace(c[..|c| - 1]) else c;
    var value := if hardened then HARDENED else 0;
    var n := ScanInt(digits);
    if n.None? then Bad(InvalidComponent)
    else if n.value < 0 || n.value > 0xffff_ffff - value then Bad(OutOfRange)
    else Ok([value + n.value])
  }

  function Prepend(prefix: Path, r: Result): Result { if r.Bad? then r else Ok(prefix + r.path) }

  /** All parts in a row, or the first error. */
  function Concat(parts: seq<Result>): Result {
    if parts == [] then Ok([]) else if parts[0].Bad? then parts[0] else Prepend(parts[0].path, Concat(parts[1..]))
  }

  function Parts(components: seq<string>): seq<Result> {
    seq(|components|, i requires 0 <= i < |components| => ParseComponent(components[i]))
  }

  function ParseComponents(components: seq<string>): Result { Concat(Parts(components)) }

  function Parse(path: string): Result {
    var components := Split(path);
    var first := TrimSpace(components[0]);
    if first == "" then Bad(Ambiguous)
    else if first == "m" then
      if |components| == 1 then Bad(Empty) else ParseComponents(components[1..])
    else Prepend(DEFAULT_ROOT, ParseComponents(components))
  }

  lemma PrependTwice(a: Path, b: Path, r: Result)
    ensures Prepend(a, Prepend(b, r)) == Prepend(a + b, r)
  {
    assert r.Ok? ==> a + (b + r.path) == a + b + r.path;
  }

  /** The parser's loop over the components. */
  method AppendComponents(prefix: Path, components: seq<string>) returns (r: Result)
    ensures r == Prepend(prefix, ParseComponents(components))
  {
    var result := prefix;
    ghost var parts := Parts(components);
    assert parts[0..] == parts;
    for i := 0 to |components|
      invariant Prepend(prefix, Concat(parts)) == Prepend(result, Concat(parts[i..]))
    {
      assert parts[i..][1..] == parts[i + 1..];
      var value := ParseComponent(components[i]);
      if value.Bad? {
        return value;
      }
      PrependTwice(result, value.path, Concat(parts[i + 1..]));
      result := result + value.path;
    }
    assert result + [] == result;
    r := Ok(result);
  }

  method ParseDerivationPath(path: string) returns (r: Result)
    ensures r == Parse(path)
  {
    var result: Path := [];
    var components := Split(path);
    if TrimSpace(components[0]) == "" {
      return Bad(Ambiguous);
    }
    if TrimSpace(components[0]) == "m" {
      components := components[1..];
    } else {
      result := DEFAULT_ROOT;
    }
    if |components| == 0 {
      return Bad(Empty);
    }
    r := AppendComponents(result, components);
    assert r.Ok? ==> [] + ParseComponents(components).path == ParseComponents(components).path;
  }

  // ----- printing -----

  function DigitChar(d: nat): char
    requires d < 10
  {
    '0' + d as char
  }

  function Decimal(n: nat): string {
    if n < 10 then [DigitChar(n)] else Decimal(n / 10) + [DigitChar(n % 10)]
  }

  function PrintComponent(c: uint32): string {
    if c >= HARDENED then Decimal(c - HARDENED) + "'" else Decimal(c)
  }

  function PrintComponents(path: Path): string {
    if path == [] then "" else PrintComponents(path[..|path| - 1]) + "/" + PrintComponent(path[|path| - 1])
  }

  function Print(path: Path): string { "m" + PrintComponents(path) }

  lemma PrintOneMore(path: Path, i: nat)
    requires i < |path|
    ensures Print(path[..i + 1]) == Print(path[..i]) + "/" + PrintComponent(path[i])
  {
    assert path[..i + 1][..i] == path[..i];
  }

  /** The printer's loop. */
  method String(path: Path) returns (result: string)
    ensures result == Print(path)
  {
    result := "m";
    for i := 0 to |path|
      invariant result == Print(path[..i])
    {
      PrintOneMore(path, i);
      var component, hardened := path[i], false;
      if component >= HARDENED {
        component := component - HARDENED;
        hardened := true;
      }
      result := result + "/" + Decimal(component);
      if hardened {
        result := result + "'";
      }
      assert result == Print(path[..i]) + "/" + PrintComponent(path[i]);
    }
    assert path[..|path|] == path;
  }

  // ----- printed numbers read back -----

  predicate IsDigit(c: char) { '0' <= c <= '9' }

  lemma {:induction false} DecimalShape(n: nat)
    ensures |Decimal(n)| > 0 && forall i | 0 <= i < |Decimal(n)| :: IsDigit(Decimal(n)[i])
    ensures Decimal(n)[0] == '0' <==> n == 0
    ensures n == 0 ==> Decimal(n) == "0"
  {
    if n >= 10 { DecimalShape(n / 10); }
  }

  lemma OneDigit(c: char, base: nat, prev: Prev)
    requires IsDigitOf(c, base) && c != '_'
    ensures Digits([c], base, prev) == Some([DigitValue(c).value])
  {
    var s, d := [c], DigitValue(c).value;
    assert s[0] == c && s[1..] == "" && Digits("", base, Digit) == Some([]);
    assert Digits(s, base, prev) == Some([d] + []);
    assert [d] + [] == [d];
  }

  lemma {:induction false} DigitsOneMore(s: string, c: char, base: nat, prev: Prev)
    requires IsDigitOf(c, base) && c != '_' && Digits(s, base, prev).Some?
    ensures Digits(s + [c], base, prev) == Some(Digits(s, base, prev).value + [DigitValue(c).value])
    decreases |s|
  {
    var t := s + [c];
    if s == "" {
      assert t == [c];
      OneDigit(c, base, prev);
      assert Digits(s, base, prev).value + [DigitValue(c).value] == [DigitValue(c).value];
    } else {
      assert t[0] == s[0] && t[1..] == s[1..] + [c];
      var mid := if s[0] == '_' then Separator else Digit;
      DigitsOneMore(s[1..], c, base, mid);
      var rest, d := Digits(s[1..], base, mid).value, DigitValue(c).value;
      assert forall x: nat :: [x] + (rest + [d]) == [x] + rest + [d];
    }
  }

  /** One more digit at the end multiplies by the base and adds. */
  lemma ScanOneMore(s: string, c: char, base: nat, prev: Prev, n: nat)
    requires IsDigitOf(c, base) && c != '_' && Scan(s, base, prev) == Some(n)
    ensures Scan(s + [c], base, prev) == Some(n * base + DigitValue(c).value)
  {
    DigitsOneMore(s, c, base, prev);
    var digits := Digits(s, base, prev).value;
    assert (digits + [DigitValue(c).value])[..|digits|] == digits;
  }

  lemma ScanDigit(c: char, base: nat, prev: Prev)
    requires IsDigitOf(c, base) && c != '_'
    ensures Scan([c], base, prev) == Some(DigitValue(c).value)
  {
    OneDigit(c, base, prev);
    var d := DigitValue(c).value;
    assert [d][..0] == [] && Value([], base) * base == 0;
  }

  lemma {:induction false} ScanDecimal(n: nat)
    ensures Scan(Decimal(n), 10, Start) == Some(n)
  {
    if n < 10 {
      ScanDigit(DigitChar(n), 10, Start);
    } else {
      ScanDecimal(n / 10);
      ScanOneMore(Decimal(n / 10), DigitChar(n % 10), 10, Start, n / 10);
    }
  }

  lemma IntReadsDecimal(n: nat)
    ensures ScanInt(Decimal(n)) == Some(n)
  {
    DecimalShape(n);
    ScanDecimal(n);
    assert IsDigit(Decimal(n)[0]);
  }

  /** Nothing to trim. */
  lemma TrimNothing(s: string)
    requires s != "" && !IsSpace(s[0]) && !IsSpace(s[|s| - 1])
    ensures TrimSpace(s) == s
  {
  }

  predicate AllDigits(s: string) { s != "" && forall i | 0 <= i < |s| :: IsDigit(s[i]) }

  lemma PlainComponent(d: string, n: uint32)
    requires AllDigits(d) && ScanInt(d) == Some(n)
    ensures ParseComponent(d) == Ok([n])
  {
  }

  lemma HardenedComponent(d: string, n: uint32)
    requires AllDigits(d) && ScanInt(d) == Some(n) && n < HARDENED
    ensures ParseComponent(d + "'") == Ok([HARDENED + n])
  {
  }

  lemma ComponentRoundTrip(c: uint32)
    ensures ParseComponent(PrintComponent(c)) == Ok([c])
    ensures '/' !in PrintComponent(c)
  {
    var n := if c >= HARDENED then c - HARDENED else c;
    DecimalShape(n);
    IntReadsDecimal(n);
    assert AllDigits(Decimal(n));
    if c >= HARDENED { HardenedComponent(Decimal(n), n); } else { PlainComponent(Decimal(n), n); }
  }

  // ----- printed paths read back -----

  lemma {:induction false} SplitPlain(s: string)
    requires '/' !in s
    ensures Split(s) == [s]
  {
    if s != "" {
      SplitPlain(s[1..]);
      assert s == [s[0]] + s[1..];
    }
  }

  /** Splitting after another component. */
  lemma {:induction false} SplitAppend(s: string, piece: string)
    requires '/' !in piece
    ensures Split(s + "/" + piece) == Split(s) + [piece]
    decreases |s|
  {
    var t := s + "/" + piece;
    if s == "" {
      assert t[0] == '/' && t[1..] == piece;
      SplitPlain(piece);
    } else {
      assert t[0] == s[0] && t[1..] == s[1..] + "/" + piece;
      SplitAppend(s[1..], piece);
    }
  }

  function PrintedComponents(path: Path): seq<string> {
    seq(|path|, i requires 0 <= i < |path| => PrintComponent(path[i]))
  }

  lemma PrintedOneMore(init: Path, last: uint32)
    ensures ["m"] + PrintedComponents(init + [last]) == ["m"] + PrintedComponents(init) + [PrintComponent(last)]
  {
  }

  lemma {:induction false} SplitPrint(path: Path)
    ensures Split(Print(path)) == ["m"] + PrintedComponents(path)
  {
    if path == [] {
      SplitPlain("m");
    } else {
      var init, last := path[..|path| - 1], path[|path| - 1];
      assert path == init + [last] && path[..|path|] == path;
      SplitPrint(init);
      ComponentRoundTrip(last);
      PrintOneMore(path, |path| - 1);
      SplitAppend(Print(init), PrintComponent(last));
      PrintedOneMore(init, last);
    }
  }

  lemma {:induction false} ConcatSingles(parts: seq<Result>, path: Path)
    requires |parts| == |path| && forall i | 0 <= i < |path| :: parts[i] == Ok([path[i]])
    ensures Concat(parts) == Ok(path)
  {
    if path != [] {
      ConcatSingles(parts[1..], path[1..]);
      assert path == [path[0]] + path[1..];
    }
  }

  lemma ComponentsRoundTrip(path: Path)
    ensures ParseComponents(PrintedComponents(path)) == Ok(path)
  {
    forall i | 0 <= i < |path| ensures Parts(PrintedComponents(path))[i] == Ok([path[i]]) {
      ComponentRoundTrip(path[i]);
    }
    ConcatSingles(Parts(PrintedComponents(path)), path);
  }

  /** Parsing what was printed gives the path back, exactly when it is not empty. */
  lemma PathRoundTrip(path: Path)
    ensures Parse(Print(path)) == if path == [] then Bad(Empty) else Ok(path)
  {
    SplitPrint(path);
    ComponentsRoundTrip(path);
    TrimNothing("m");
    assert (["m"] + PrintedComponents(path))[1..] == PrintedComponents(path);
  }

  /** Different paths print differently. */
  lemma PrintInjective(a: Path, b: Path)
    requires Print(a) == Print(b)
    ensures a == b
  {
    PathRoundTrip(a);
    PathRoundTrip(b);
  }

  lemma {:induction false} ConcatCount(parts: seq<Result>)
    requires Concat(parts).Ok? && forall i | 0 <= i < |parts| :: parts[i].Ok? ==> |parts[i].path| == 1
    ensures |Concat(parts).path| == |parts|
  {
    if parts != [] { ConcatCount(parts[1..]); }
  }

  lemma ComponentCount(components: seq<string>)
    requires ParseComponents(components).Ok?
    ensures |ParseComponents(components).path| == |components|
  {
    ConcatCount(Parts(components));
  }

  /** Printing is the normal form of everything the parser accepts. */
  lemma AcceptedReprints(s: string)
    requires Parse(s).Ok?
    ensures Parse(Print(Parse(s).path)) == Parse(s)
  {
    PathRoundTrip(Parse(s).path);
    if IsRelative(s) { ComponentCount(Split(s)); } else { ComponentCount(Split(s)[1..]); }
  }

  /** A path whose first component is neither blank nor "m" is relative. */
  predicate IsRelative(path: string) {
    TrimSpace(Split(path)[0]) != "" && TrimSpace(Split(path)[0]) != "m"
  }

  /** A relative path is the default root followed by what "m/" makes of it, errors included. */
  lemma RelativePath(path: string)
    requires IsRelative(path)
    ensures Parse(path) == match Parse("m/" + path)
                           case Ok(p) => Ok(DEFAULT_ROOT + p)
                           case Bad(e) => Bad(e)
  {
    var t := "m/" + path;
    assert t[0] == 'm' && t[1..] == "/" + path;
    assert t[1..][0] == '/' && t[1..][1..] == path;
    var rest := Split(t[1..]);
    assert rest == [""] + Split(path) && rest[0] == "" && rest[1..] == Split(path);
    assert Split(t) == [[t[0]] + rest[0]] + rest[1..];
    assert [t[0]] + rest[0] == "m";
    assert Split(t)[1..] == Split(path);
    TrimNothing("m");
  }

  // ----- the other forms a number may have -----

  function DigitOf(d: nat): char
    requires d < 16
  {
    if d < 10 then '0' + d as char else 'a' + (d - 10) as char
  }

  /** The numeral of n in a base up to sixteen. */
  function Numeral(n: nat, base: nat): string
    requires 2 <= base <= 16
  {
    if n < base then [DigitOf(n)] else Numeral(n / base, base) + [DigitOf(n % base)]
  }

  lemma DigitOfValue(d: nat)
    requires d < 16
    ensures DigitValue(DigitOf(d)) == Some(d) && DigitOf(d) != '_'
  {
  }

  lemma DivMod(n: nat, base: nat)
    requires base >= 2
    ensures n / base * base + n % base == n && (n >= base ==> n / base < n)
  {
  }

  lemma {:induction false} ScanNumeral(n: nat, base: nat, prev: Prev)
    requires 2 <= base <= 16
    ensures Scan(Numeral(n, base), base, prev) == Some(n) && Numeral(n, base) != ""
    decreases n
  {
    DivMod(n, base);
    DigitOfValue(n % base);
    if n < base {
      DigitOfValue(n);
      ScanDigit(DigitOf(n), base, prev);
    } else {
      ScanNumeral(n / base, base, prev);
      ScanOneMore(Numeral(n / base, base), DigitOf(n % base), base, prev, n / base);
    }
  }

  lemma {:induction false} OctalDigits(n: nat)
    ensures Numeral(n, 8) != "" && '0' <= Numeral(n, 8)[0] <= '7'
  {
    if n >= 8 { OctalDigits(n / 8); }
  }

  /** The base a letter after a leading zero stands for. */
  function BaseOf(letter: char): nat {
    if letter == 'x' || letter == 'X' then 16 else if letter == 'o' || letter == 'O' then 8
    else if letter == 'b' || letter == 'B' then 2 else 0
  }

  /** Each prefix reads the numeral after it in its own base. */
  lemma PrefixReads(letter: char, n: nat)
    requires BaseOf(letter) != 0
    ensures ScanUnsigned(['0', letter] + Numeral(n, BaseOf(letter))) == Some(n)
  {
    var digits := Numeral(n, BaseOf(letter));
    var s := ['0', letter] + digits;
    assert s[0] == '0' && s[1] == letter && s[2..] == digits;
    ScanNumeral(n, BaseOf(letter), Digit);
  }

  /** A lone leading zero means octal. */
  lemma ZeroReads(n: nat)
    ensures ScanUnsigned("0" + Numeral(n, 8)) == Some(n)
  {
    ScanNumeral(n, 8, Digit);
    OctalDigits(n);
    assert ("0" + Numeral(n, 8))[1..] == Numeral(n, 8);
  }

  /** A sign negates or does nothing. */
  lemma SignsRead(s: string)
    ensures ScanInt("-" + s) == (if ScanUnsigned(s).None? then None else Some(0 - ScanUnsigned(s).value))
    ensures ScanInt("+" + s) == (if ScanUnsigned(s).None? then None else Some(ScanUnsigned(s).value))
    ensures s != "" && s[0] != '-' && s[0] != '+' ==>
            ScanInt(s) == if ScanUnsigned(s).None? then None else Some(ScanUnsigned(s).value)
  {
    assert ("-" + s)[1..] == s && ("+" + s)[1..] == s;
  }

  // ----- separators -----

  function Strip(s: string): string {
    if s == "" then "" else (if s[0] == '_' then "" else [s[0]]) + Strip(s[1..])
  }

  /** Underscores stand between digits only. */
  predicate Separated(s: string, prev: Prev) {
    && (prev == Separator ==> s != "" && s[0] != '_')
    && (prev == Start && s != "" ==> s[0] != '_')
    && (forall i | 0 <= i < |s| && s[i] == '_' :: i + 1 < |s| && s[i + 1] != '_')
  }

  predicate DigitsOnly(s: string, base: nat) { forall i | 0 <= i < |s| && s[i] != '_' :: IsDigitOf(s[i], base) }

  lemma SeparatedRest(s: string, prev: Prev)
    requires s != ""
    ensures Separated(s, prev) <==>
            (if s[0] == '_' then prev == Digit && Separated(s[1..], Separator) else Separated(s[1..], Digit))
  {
    assert forall i | 1 <= i < |s| :: s[i] == s[1..][i - 1];
    if Separated(s, prev) {
      assert s[0] == '_' ==> s[1..] != "" && s[1..][0] == s[1];
    }
  }

  lemma DigitsRest(s: string, base: nat)
    requires s != ""
    ensures DigitsOnly(s, base) <==> (s[0] != '_' ==> IsDigitOf(s[0], base)) && DigitsOnly(s[1..], base)
  {
    assert forall i | 1 <= i < |s| :: s[i] == s[1..][i - 1];
  }

  /** A string has digits of the base exactly when underscores stand only between them, and then those it has without
      the underscores. */
  lemma {:induction false} DigitsIff(s: string, base: nat, prev: Prev)
    ensures Digits(s, base, prev).Some? <==> Separated(s, prev) && DigitsOnly(s, base)
    ensures Digits(s, base, prev).Some? ==> Digits(s, base, prev) == Digits(Strip(s), base, Digit)
    decreases |s|
  {
    if s != "" {
      SeparatedRest(s, prev);
      DigitsRest(s, base);
      DigitsIff(s[1..], base, if s[0] == '_' then Separator else Digit);
      if s[0] == '_' {
        assert Strip(s) == Strip(s[1..]);
      } else {
        assert Strip(s)[0] == s[0] && Strip(s)[1..] == Strip(s[1..]);
      }
    }
  }

  // ----- ranges and white space -----

  predicate AllSpace(s: string) { forall i | 0 <= i < |s| :: IsSpace(s[i]) }

  lemma {:induction false} TrimLeftIs(a: string, s: string)
    requires AllSpace(a) && (s == "" || !IsSpace(s[0]))
    ensures TrimLeft(a + s) == s
  {
    if a == "" {
      assert a + s == s;
    } else {
      assert (a + s)[1..] == a[1..] + s;
      TrimLeftIs(a[1..], s);
    }
  }

  lemma {:induction false} TrimRightIs(s: string, b: string)
    requires AllSpace(b) && (s == "" || !IsSpace(s[|s| - 1]))
    ensures TrimRight(s + b) == s
  {
    if b == "" {
      assert s + b == s;
    } else {
      assert (s + b)[..|s + b| - 1] == s + b[..|b| - 1];
      TrimRightIs(s, b[..|b| - 1]);
    }
  }

  /** White space around a component does not matter. */
  lemma SpaceIgnored(a: string, s: string, b: string)
    requires AllSpace(a) && AllSpace(b) && s != "" && !IsSpace(s[0]) && !IsSpace(s[|s| - 1])
    ensures ParseComponent(a + s + b) == ParseComponent(s)
  {
    TrimIs(a, s, b);
    TrimNothing(s);
  }

  /** A component is accepted up to the largest index of its kind, and refused beyond and when negative. */
  lemma ComponentRange(n: nat)
    ensures ParseComponent(Decimal(n)) == if n <= 0xffff_ffff then Ok([n]) else Bad(OutOfRange)
    ensures ParseComponent(Decimal(n) + "'") == if n <= 0x7fff_ffff then Ok([0x8000_0000 + n]) else Bad(OutOfRange)
    ensures n > 0 ==> ParseComponent("-" + Decimal(n)) == Bad(OutOfRange)
  {
    var d := Decimal(n);
    DecimalShape(n);
    IntReadsDecimal(n);
    assert IsDigit(d[0]) && IsDigit(d[|d| - 1]);
    TrimNothing(d);
    var c := d + "'";
    assert c[0] == d[0] && c[|c| - 1] == '\'' && c[..|c| - 1] == d;
    TrimNothing(c);
    var m := "-" + d;
    assert m[0] == '-' && m[|m| - 1] == d[|d| - 1];
    TrimNothing(m);
    SignsRead(d);
  }

  /** Nor does it matter before the apostrophe. */
  lemma SpaceBeforeMark(d: string, b: string)
    requires AllSpace(b) && d != "" && !IsSpace(d[0]) && !IsSpace(d[|d| - 1]) && d[|d| - 1] != '\''
    ensures ParseComponent(d + b + "'") == ParseComponent(d + "'")
  {
    var c, e := d + b + "'", d + "'";
    assert c[0] == d[0] && c[|c| - 1] == '\'' && c[..|c| - 1] == d + b;
    assert e[0] == d[0] && e[|e| - 1] == '\'' && e[..|e| - 1] == d;
    TrimNothing(c);
    TrimNothing(e);
    TrimNothing(d);
    TrimLeftIs("", d + b);
    assert "" + (d + b) == d + b;
    TrimRightIs(d, b);
  }

  /** The white space of Unicode. */
  lemma SpacesAre(c: char)
    ensures IsSpace(c) <==>
            c in {'\t', '\n', '\U{B}', '\U{C}', '\r', ' ', '\U{85}', '\U{A0}', '\U{1680}', '\U{2000}', '\U{2001}',
                  '\U{2002}', '\U{2003}', '\U{2004}', '\U{2005}', '\U{2006}', '\U{2007}', '\U{2008}', '\U{2009}',
                  '\U{200A}', '\U{2028}', '\U{2029}', '\U{202F}', '\U{205F}', '\U{3000}'}
  {
  }

  function UpperChar(c: char): char { if 'a' <= c <= 'z' then 'A' + (c - 'a') else c }

  function Upper(s: string): string { seq(|s|, i requires 0 <= i < |s| => UpperChar(s[i])) }

  /** Capital digits count the same. */
  lemma {:induction false} CaseIgnored(s: string, base: nat, prev: Prev)
    ensures Digits(Upper(s), base, prev) == Digits(s, base, prev)
    decreases |s|
  {
    if s != "" {
      assert Upper(s)[1..] == Upper(s[1..]);
      CaseIgnored(s[1..], base, if s[0] == '_' then Separator else Digit);
    }
  }

  // ----- the shape of a path -----

  function Join(parts: seq<string>): string
    requires |parts| >= 1
  {
    if |parts| == 1 then parts[0] else parts[0] + "/" + Join(parts[1..])
  }

  /** Splitting takes a path apart at its slashes and nowhere else. */
  lemma {:induction false} SplitJoins(s: string)
    ensures Join(Split(s)) == s
    ensures forall i | 0 <= i < |Split(s)| :: '/' !in Split(s)[i]
  {
    if s != "" {
      SplitJoins(s[1..]);
      var rest := Split(s[1..]);
      assert s == [s[0]] + s[1..];
      if s[0] == '/' {
        assert Split(s)[1..] == rest;
      } else {
        var head := [s[0]] + rest[0];
        assert Split(s)[1..] == rest[1..];
        assert |rest| > 1 ==> head + "/" + Join(rest[1..]) == [s[0]] + (rest[0] + "/" + Join(rest[1..]));
      }
    }
  }

  lemma {:induction false} TrimLeftEnds(s: string)
    ensures TrimLeft(s) == "" <==> AllSpace(s)
    ensures TrimLeft(s) != "" ==> !IsSpace(TrimLeft(s)[0])
  {
    if s != "" && IsSpace(s[0]) {
      TrimLeftEnds(s[1..]);
      assert s == [s[0]] + s[1..];
    }
  }

  lemma {:induction false} TrimRightEnds(s: string)
    requires s != "" && !IsSpace(s[0])
    ensures TrimRight(s) != ""
  {
    if IsSpace(s[|s| - 1]) { TrimRightEnds(s[..|s| - 1]); }
  }

  /** A path is ambiguous exactly when there is nothing but white space before its first slash or its end. */
  lemma AmbiguousIff(path: string)
    ensures Parse(path) == Bad(Ambiguous) <==> AllSpace(Split(path)[0])
  {
    var first := Split(path)[0];
    TrimLeftEnds(first);
    if TrimLeft(first) != "" { TrimRightEnds(TrimLeft(first)); }
    NeverAmbiguous(Parts(Split(path)));
    NeverAmbiguous(Parts(Split(path)[1..]));
  }

  lemma {:induction false} NeverAmbiguous(parts: seq<Result>)
    requires forall i | 0 <= i < |parts| :: parts[i] != Bad(Ambiguous)
    ensures Concat(parts) != Bad(Ambiguous)
  {
    if parts != [] { NeverAmbiguous(parts[1..]); }
  }

  lemma PrintAppend(init: Path, c: uint32)
    ensures Print(init + [c]) == Print(init) + "/" + PrintComponent(c)
  {
    var path := init + [c];
    PrintOneMore(path, |init|);
    assert path[..|init|] == init && path[..|init| + 1] == path;
  }

  lemma PrintFour(a: uint32, b: uint32, c: uint32, d: uint32)
    ensures Print([a, b, c, d]) == Print([]) + "/" + PrintComponent(a) + "/" + PrintComponent(b) + "/" +
                                   PrintComponent(c) + "/" + PrintComponent(d)
  {
    PrintAppend([], a);
    PrintAppend([a], b);
    PrintAppend([a, b], c);
    PrintAppend([a, b, c], d);
    assert [] + [a] == [a] && [a] + [b] == [a, b] && [a, b] + [c] == [a, b, c] && [a, b, c] + [d] == [a, b, c, d];
  }

  lemma SmallDecimals()
    ensures Decimal(44) == "44" && Decimal(60) == "60" && Decimal(0) == "0"
  {
  }

  /** The default root is Ethereum's branch of BIP-44. */
  lemma DefaultRootPrints()
    ensures Print(DEFAULT_ROOT) == "m" + "/" + "44'" + "/" + "60'" + "/" + "0'" + "/" + "0"
  {
    SmallDecimals();
    PrintFour(HARDENED + 44, HARDENED + 60, HARDENED, 0);
    assert Print([]) == "m";
    assert PrintComponent(HARDENED + 44) == "44'" && PrintComponent(HARDENED + 60) == "60'";
    assert PrintComponent(HARDENED) == "0'" && PrintComponent(0) == "0";
  }

  lemma TrimIs(a: string, s: string, b: string)
    requires AllSpace(a) && AllSpace(b) && s != "" && !IsSpace(s[0]) && !IsSpace(s[|s| - 1])
    ensures TrimSpace(a + s + b) == s
  {
    assert a + s + b == a + (s + b) && (s + b)[0] == s[0];
    TrimLeftIs(a, s + b);
    TrimRightIs(s, b);
  }

  /** An absolute path, white space around its "m" or not, is its other components, of which there has to be one. */
  lemma AbsolutePath(path: string, a: string, b: string)
    requires AllSpace(a) && AllSpace(b) && Split(path)[0] == a + "m" + b
    ensures Parse(path) == if |Split(path)| == 1 then Bad(Empty) else ParseComponents(Split(path)[1..])
  {
    TrimIs(a, "m", b);
  }

  /** A component without marks is invalid exactly when it is not a number, and otherwise only a question of range. */
  lemma InvalidIff(s: string)
    requires s != "" && !IsSpace(s[0]) && !IsSpace(s[|s| - 1]) && s[|s| - 1] != '\''
    ensures ParseComponent(s) == Bad(InvalidComponent) <==> ScanInt(s).None?
    ensures ScanInt(s).Some? ==>
            ParseComponent(s) == if 0 <= ScanInt(s).value <= 0xffff_ffff then Ok([ScanInt(s).value]) else Bad(OutOfRange)
  {
    TrimNothing(s);
  }

  /** The first component that does not parse decides the error. */
  lemma {:induction false} FirstErrorWins(parts: seq<Result>, i: nat)
    requires i < |parts| && parts[i].Bad? && forall j | 0 <= j < i :: parts[j].Ok?
    ensures Concat(parts) == parts[i]
  {
    if i > 0 { FirstErrorWins(parts[1..], i - 1); }
  }
}
