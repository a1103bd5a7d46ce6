/**
 The signed text of a reserved-name seed (`crates/enrollment/src/seed.rs`): what `text` writes,
 what `parse` accepts, and the hex form of its signature.

 A time is a count of nanoseconds; the text carries whole seconds.
 */
module SeedText {
  import opened Prelude
  import opened EnrollmentStore

  const HEADER := "grid-reserved-seed-v1"

  const SECOND := 1_000_000_000

  /** The first and last second a calendar date can name. */
  const FIRST_SECOND := -377_705_116_800
  const LAST_SECOND := 253_402_300_799

  const I64_MIN := -0x8000_0000_0000_0000

  // ---- Numbers as text ----

  function DigitOf(d: nat): char
    requires d < 10
  {
    '0' + d as char
  }

  function Decimal(n: nat): string {
    if n < 10 then [DigitOf(n)] else Decimal(n / 10) + [DigitOf(n % 10)]
  }

  function SignedDecimal(i: int): string {
    if i < 0 then "-" + Decimal(-i) else Decimal(i)
  }

  predicate IsDigit(c: char) {
    '0' <= c <= '9'
  }

  predicate AllDigits(s: string) {
    forall i | 0 <= i < |s| :: IsDigit(s[i])
  }

  function DigitsValue(s: string): nat
    requires AllDigits(s)
  {
    if s == [] then 0 else 10 * DigitsValue(s[..|s| - 1]) + (s[|s| - 1] - '0') as nat
  }

  /** Rust's unsigned parse: an optional plus sign, then digits that fit. */
  function ParseU64(s: string): Option<u64> {
    var digits := if |s| > 1 && s[0] == '+' then s[1..] else s;
    if digits != [] && AllDigits(digits) && DigitsValue(digits) <= U64_MAX then Some(DigitsValue(digits)) else None
  }

  /** Rust's signed parse: an optional sign, then digits that fit. */
  function ParseI64(s: string): Option<int> {
    var signed := |s| > 1 && (s[0] == '+' || s[0] == '-');
    var digits := if signed then s[1..] else s;
    if digits == [] || !AllDigits(digits) then None
    else
      var magnitude: int := DigitsValue(digits);
      var value := if signed && s[0] == '-' then -magnitude else magnitude;
      if I64_MIN <= value <= I64_MAX then Some(value) else None
  }

  // ---- The seed ----

  predicate LowerOrDigit(c: char) {
    'a' <= c <= 'z' || IsDigit(c)
  }

  predicate ValidSiteName(name: string) {
    && 0 < |name| <= 63
    && LowerOrDigit(name[0]) && LowerOrDigit(name[|name| - 1])
    && forall i | 0 <= i < |name| :: LowerOrDigit(name[i]) || name[i] == '-'
  }

  predicate ValidKey(key: string) {
    && |key| == 64
    && forall i | 0 <= i < 64 :: IsDigit(key[i]) || 'a' <= key[i] <= 'f'
  }

  /** Rounds down, before the epoch too. */
  function Seconds(t: Time): int {
    t / SECOND
  }

  function Lines(seed: SeedRecord): seq<string> {
    [HEADER,
     "site=" + seed.siteName,
     "key=" + seed.key,
     "generation=" + Decimal(seed.generation),
     "issued=" + SignedDecimal(Seconds(seed.issuedAt))]
  }

  /** Each line with its line break. */
  function Joined(lines: seq<string>): string {
    if lines == [] then "" else lines[0] + "\n" + Joined(lines[1..])
  }

  function Text(seed: SeedRecord): string {
    Joined(Lines(seed))
  }

  /** Where the first line break is, or the end. */
  function FirstBreak(s: string): (at: nat)
    ensures at <= |s| && (forall i | 0 <= i < at :: s[i] != '\n') && (at < |s| ==> s[at] == '\n')
  {
    if s == "" || s[0] == '\n' then 0 else 1 + FirstBreak(s[1..])
  }

  function Split(s: string): seq<string> {
    var at := FirstBreak(s);
    if at == |s| then [s] else [s[..at]] + Split(s[at + 1..])
  }

  predicate NoBreak(line: string) {
    forall i | 0 <= i < |line| :: line[i] != '\n'
  }

  /** The rest of `line` after `name` and an equals sign. */
  function Field(line: string, name: string): Option<string> {
    if name + "=" <= line then Some(line[|name| + 1..]) else None
  }

  function ParseFields(site: string, key: string, generation: string, issued: string): Option<SeedRecord> {
    var s, k, g, t := Field(site, "site"), Field(key, "key"), Field(generation, "generation"), Field(issued, "issued");
    if s.None? || k.None? || g.None? || t.None? then None
    else
      var n, secs := ParseU64(g.value), ParseI64(t.value);
      if n.None? || secs.None? || !(FIRST_SECOND <= secs.value <= LAST_SECOND) then None
      else Some(SeedRecord(s.value, k.value, n.value, secs.value * SECOND))
  }

  /** `None` stands for the one error, a malformed seed. */
  function Parse(body: string): Option<SeedRecord> {
    if body == [] || body[|body| - 1] != '\n' then None
    else
      var lines := Split(body[..|body| - 1]);
      if |lines| != 5 then None
      else
        var seed := ParseFields(lines[1], lines[2], lines[3], lines[4]);
        if seed.None? then None
        else if lines[0] != HEADER || !ValidKey(seed.value.key) || !ValidSiteName(seed.value.siteName) then None
        else if Text(seed.value) != body then None
        else seed
  }

  // ---- Numbers round trip ----

  lemma {:induction false} DecimalRoundTrip(n: nat)
    ensures Decimal(n) != [] && AllDigits(Decimal(n)) && DigitsValue(Decimal(n)) == n
  {
    if n < 10 {
      assert Decimal(n)[..0] == [];
    } else {
      DecimalRoundTrip(n / 10);
      assert Decimal(n)[..|Decimal(n)| - 1] == Decimal(n / 10);
    }
  }

  lemma U64RoundTrip(n: u64)
    ensures ParseU64(Decimal(n)) == Some(n)
  {
    DecimalRoundTrip(n);
    assert IsDigit(Decimal(n)[0]);
  }

  lemma I64RoundTrip(i: int)
    requires I64_MIN <= i <= I64_MAX
    ensures ParseI64(SignedDecimal(i)) == Some(i)
  {
    DecimalRoundTrip(if i < 0 then -i else i);
    assert IsDigit(Decimal(if i < 0 then -i else i)[0]);
    if i < 0 {
      assert SignedDecimal(i)[1..] == Decimal(-i);
    }
  }

  lemma NoBreakInDigits(s: string)
    requires AllDigits(s)
    ensures NoBreak(s) && NoBreak("-" + s)
  {
  }

  // ---- Lines round trip ----

  lemma SplitLine(line: string, rest: string)
    requires NoBreak(line)
    ensures Split(line + "\n" + rest) == [line] + Split(rest)
  {
    var s := line + "\n" + rest;
    assert forall i | 0 <= i < |line| :: s[i] == line[i];
    assert s[|line|] == '\n';
    var at := FirstBreak(s);
    assert at == |line|;
    assert s[..at] == line && s[at + 1..] == rest;
  }

  predicate NoBreaks(lines: seq<string>) {
    forall i | 0 <= i < |lines| :: NoBreak(lines[i])
  }

  /** The lines with breaks only between them. */
  function Tight(lines: seq<string>): string
    requires lines != []
  {
    if |lines| == 1 then lines[0] else lines[0] + "\n" + Tight(lines[1..])
  }

  lemma {:induction false} JoinedIsTight(lines: seq<string>)
    requires lines != []
    ensures Joined(lines) == Tight(lines) + "\n"
  {
    if |lines| == 1 {
      assert Joined(lines[1..]) == "";
    } else {
      JoinedIsTight(lines[1..]);
      assert lines[0] + "\n" + (Tight(lines[1..]) + "\n") == lines[0] + "\n" + Tight(lines[1..]) + "\n";
    }
  }

  lemma {:induction false} SplitUndoesTight(lines: seq<string>)
    requires lines != [] && NoBreaks(lines)
    ensures Split(Tight(lines)) == lines
  {
    if |lines| == 1 {
      assert lines == [lines[0]];
    } else {
      SplitUndoesTight(lines[1..]);
      SplitLine(lines[0], Tight(lines[1..]));
    }
  }

  lemma FieldOf(name: string, value: string)
    ensures Field(name + "=" + value, name) == Some(value)
  {
    assert (name + "=" + value)[|name| + 1..] == value;
  }

  // ---- Theorems ----

  /** A seed whose text says all of it: valid site and key, and a representable whole second. */
  predicate Valid(seed: SeedRecord) {
    && ValidSiteName(seed.siteName) && ValidKey(seed.key)
    && seed.issuedAt % SECOND == 0 && FIRST_SECOND <= Seconds(seed.issuedAt) <= LAST_SECOND
  }

  lemma NoBreakAfter(prefix: string, value: string)
    requires NoBreak(prefix) && NoBreak(value)
    ensures NoBreak(prefix + value)
  {
  }

  lemma LinesHaveNoBreaks(seed: SeedRecord)
    requires ValidSiteName(seed.siteName) && ValidKey(seed.key)
    ensures NoBreaks(Lines(seed))
  {
    var secs := Seconds(seed.issuedAt);
    DecimalRoundTrip(seed.generation);
    DecimalRoundTrip(if secs < 0 then -secs else secs);
    NoBreakInDigits(Decimal(seed.generation));
    NoBreakInDigits(Decimal(if secs < 0 then -secs else secs));
    NoBreakAfter("site=", seed.siteName);
    NoBreakAfter("key=", seed.key);
    NoBreakAfter("generation=", Decimal(seed.generation));
    NoBreakAfter("issued=", SignedDecimal(secs));
  }

  lemma FieldsOfText(seed: SeedRecord)
    requires Valid(seed)
    ensures var lines := Lines(seed); ParseFields(lines[1], lines[2], lines[3], lines[4]) == Some(seed)
  {
    FieldOf("site", seed.siteName);
    FieldOf("key", seed.key);
    FieldOf("generation", Decimal(seed.generation));
    FieldOf("issued", SignedDecimal(Seconds(seed.issuedAt)));
    assert "site" + "=" == "site=" && "key" + "=" == "key=";
    assert "generation" + "=" == "generation=" && "issued" + "=" == "issued=";
    U64RoundTrip(seed.generation);
    I64RoundTrip(Seconds(seed.issuedAt));
    assert Seconds(seed.issuedAt) * SECOND == seed.issuedAt;
  }

  lemma WholeSeconds(secs: int)
    ensures (secs * SECOND) % SECOND == 0 && Seconds(secs * SECOND) == secs
  {
  }

  lemma FieldsAreWholeSeconds(site: string, key: string, generation: string, issued: string, seed: SeedRecord)
    requires ParseFields(site, key, generation, issued) == Some(seed)
    ensures seed.issuedAt % SECOND == 0 && FIRST_SECOND <= Seconds(seed.issuedAt) <= LAST_SECOND
  {
    WholeSeconds(ParseI64(Field(issued, "issued").value).value);
  }

  lemma ParsedIsText(body: string, seed: SeedRecord)
    requires Parse(body) == Some(seed)
    ensures Valid(seed) && body == Text(seed)
  {
    var lines := Split(body[..|body| - 1]);
    FieldsAreWholeSeconds(lines[1], lines[2], lines[3], lines[4], seed);
  }

  lemma SplitText(seed: SeedRecord)
    requires ValidSiteName(seed.siteName) && ValidKey(seed.key)
    ensures var body := Text(seed);
            body != [] && body[|body| - 1] == '\n' && Split(body[..|body| - 1]) == Lines(seed)
  {
    LinesHaveNoBreaks(seed);
    JoinedIsTight(Lines(seed));
    SplitUndoesTight(Lines(seed));
    assert Text(seed)[..|Text(seed)| - 1] == Tight(Lines(seed));
  }

  lemma TextParses(seed: SeedRecord)
    requires Valid(seed)
    ensures Parse(Text(seed)) == Some(seed)
  {
    SplitText(seed);
    FieldsOfText(seed);
  }

  /** A body parses to a seed exactly when the seed is valid and the body is its text. */
  lemma AcceptedExactly(body: string, seed: SeedRecord)
    ensures Parse(body) == Some(seed) <==> Valid(seed) && body == Text(seed)
  {
    if Parse(body) == Some(seed) {
      ParsedIsText(body, seed);
    }
    if Valid(seed) {
      TextParses(seed);
    }
  }

  /** The text round trips exactly for the valid seeds. */
  lemma RoundTripsIffValid(seed: SeedRecord)
    ensures Parse(Text(seed)) == Some(seed) <==> Valid(seed)
  {
    AcceptedExactly(Text(seed), seed);
  }

  /** No signed body reads two ways: distinct valid seeds have distinct texts. */
  lemma TextIsInjective(a: SeedRecord, b: SeedRecord)
    requires Valid(a) && Valid(b) && Text(a) == Text(b)
    ensures a == b
  {
    AcceptedExactly(Text(a), a);
    AcceptedExactly(Text(a), b);
  }

  /** A time between two seconds reads back rounded down. */
  lemma SubSecondIsLost(seed: SeedRecord)
    requires Valid(seed.(issuedAt := Seconds(seed.issuedAt) * SECOND))
    ensures Parse(Text(seed)) == Some(seed.(issuedAt := Seconds(seed.issuedAt) * SECOND))
  {
    var whole := seed.(issuedAt := Seconds(seed.issuedAt) * SECOND);
    assert Seconds(whole.issuedAt) == Seconds(seed.issuedAt);
    assert Text(whole) == Text(seed);
    AcceptedExactly(Text(seed), whole);
  }

  // ---- Hex ----

  type byte = n: nat | n < 256

  function Nibble(n: nat): char
    requires n < 16
  {
    if n < 10 then '0' + n as char else 'a' + (n - 10) as char
  }

  function Hex(bytes: seq<byte>): string {
    if bytes == [] then "" else [Nibble(bytes[0] / 16), Nibble(bytes[0] % 16)] + Hex(bytes[1..])
  }

  function HexDigit(c: char): Option<nat> {
    if IsDigit(c) then Some((c - '0') as nat)
    else if 'a' <= c <= 'f' then Some(10 + (c - 'a') as nat)
    else if 'A' <= c <= 'F' then Some(10 + (c - 'A') as nat)
    else None
  }

  /** Rust's radix-16 parse of two characters, which takes a leading plus sign. */
  function ParsePair(a: char, b: char): Option<nat> {
    var low := HexDigit(b);
    if low.None? then None
    else if a == '+' then low
    else if HexDigit(a).None? then None
    else Some(16 * HexDigit(a).value + low.value)
  }

  function Unhex(text: string): Option<seq<byte>> {
    if text == "" then Some([])
    else if |text| == 1 then None
    else
      var first, rest := ParsePair(text[0], text[1]), Unhex(text[2..]);
      if first.Some? && rest.Some? then
        PairFits(text[0], text[1]);
        Some([first.value] + rest.value)
      else None
  }

  lemma PairFits(a: char, b: char)
    ensures ParsePair(a, b).Some? ==> ParsePair(a, b).value < 256
  {
  }

  lemma {:induction false} HexRoundTrip(bytes: seq<byte>)
    ensures Unhex(Hex(bytes)) == Some(bytes)
  {
    if bytes != [] {
      HexRoundTrip(bytes[1..]);
      assert Hex(bytes)[2..] == Hex(bytes[1..]);
      assert HexDigit(Nibble(bytes[0] / 16)) == Some(bytes[0] / 16);
      assert HexDigit(Nibble(bytes[0] % 16)) == Some(bytes[0] % 16);
      assert bytes == [bytes[0]] + bytes[1..];
    }
  }

  /** Pairs of a hex digit or a plus sign and a hex digit. */
  predicate Pairs(text: string) {
    && |text| % 2 == 0
    && (forall i | 0 <= i < |text| && i % 2 == 1 :: HexDigit(text[i]).Some?)
    && (forall i | 0 <= i < |text| && i % 2 == 0 :: HexDigit(text[i]).Some? || text[i] == '+')
  }

  lemma {:induction false} UnhexAcceptsExactly(text: string)
    ensures Unhex(text).Some? <==> Pairs(text)
  {
    if |text| > 1 {
      UnhexAcceptsExactly(text[2..]);
      assert forall i | 2 <= i < |text| :: text[i] == text[2..][i - 2];
      assert forall i | 0 <= i < |text| - 2 :: text[2..][i] == text[i + 2];
    }
  }

  predicate AllHex(text: string) {
    forall i | 0 <= i < |text| :: HexDigit(text[i]).Some?
  }

  /** `unhex` takes even-length hex and nothing else, except exactly on pairs with a plus sign among them. */
  lemma UnhexTakesHexIffNoPlus(text: string)
    ensures (Unhex(text).Some? <==> |text| % 2 == 0 && AllHex(text)) <==> !(Pairs(text) && '+' in text)
  {
    UnhexAcceptsExactly(text);
    assert forall i | 0 <= i < |text| :: i % 2 == 0 || i % 2 == 1;
  }

  /** A plus sign reads like a zero, so two texts name one signature. */
  lemma PlusReadsAsZero(digit: char, rest: string)
    requires HexDigit(digit).Some?
    ensures Unhex(['+', digit] + rest) == Unhex(['0', digit] + rest) && !AllHex(['+', digit] + rest)
  {
    assert (['+', digit] + rest)[2..] == rest == (['0', digit] + rest)[2..];
    assert (['+', digit] + rest)[0] == '+';
  }

  /** Hex is two lower-case digits a byte. */
  lemma {:induction false} HexIsLowerCase(bytes: seq<byte>)
    ensures |Hex(bytes)| == 2 * |bytes|
    ensures forall i | 0 <= i < |Hex(bytes)| :: IsDigit(Hex(bytes)[i]) || 'a' <= Hex(bytes)[i] <= 'f'
  {
    if bytes != [] {
      HexIsLowerCase(bytes[1..]);
      var first := [Nibble(bytes[0] / 16), Nibble(bytes[0] % 16)];
      assert Hex(bytes) == first + Hex(bytes[1..]);
    }
  }

  const DIGITS := "0123456789abcdef"
  const CAPITALS := "0123456789ABCDEF"

  /** Digits stand for their place in the table, in either case. */
  lemma DigitTable(n: nat)
    requires n < 16
    ensures Nibble(n) == DIGITS[n]
    ensures HexDigit(DIGITS[n]) == HexDigit(CAPITALS[n]) == Some(n)
  {
  }

  /** A pair of digits of either case reads as sixteen times the first and the second. */
  lemma PairValue(hi: nat, lo: nat, a: char, b: char)
    requires hi < 16 && lo < 16
    requires (a == DIGITS[hi] || a == CAPITALS[hi]) && (b == DIGITS[lo] || b == CAPITALS[lo])
    ensures ParsePair(a, b) == Some(16 * hi + lo)
  {
    DigitTable(hi);
    DigitTable(lo);
  }

  /** And a text as its pairs, one after another. */
  lemma UnhexPair(a: char, b: char, rest: string)
    requires ParsePair(a, b).Some? && Unhex(rest).Some?
    ensures Unhex([a, b] + rest).Some? && Unhex([a, b] + rest).value == [ParsePair(a, b).value] + Unhex(rest).value
  {
    assert ([a, b] + rest)[2..] == rest;
  }

  /** The text, written out. */
  lemma TextWrittenOut(seed: SeedRecord)
    ensures Text(seed) ==
            "grid-reserved-seed-v1" + "\n" + ("site=" + seed.siteName + "\n" + ("key=" + seed.key + "\n" + (
              "generation=" + Decimal(seed.generation) + "\n" + (
                "issued=" + SignedDecimal(Seconds(seed.issuedAt)) + "\n"))))
  {
    FiveJoined(HEADER, "site=" + seed.siteName, "key=" + seed.key, "generation=" + Decimal(seed.generation),
               "issued=" + SignedDecimal(Seconds(seed.issuedAt)));
  }

  lemma FiveJoined(a: string, b: string, c: string, d: string, e: string)
    ensures Joined([a, b, c, d, e]) == a + "\n" + (b + "\n" + (c + "\n" + (d + "\n" + (e + "\n"))))
  {
    var lines := [a, b, c, d, e];
    JoinedMore(lines, 0);
    JoinedMore(lines, 1);
    JoinedMore(lines, 2);
    JoinedMore(lines, 3);
    JoinedOne(e);
    assert lines[0..] == lines && lines[4..] == [e];
  }

  lemma JoinedOne(line: string)
    ensures Joined([line]) == line + "\n"
  {
    assert Joined([line][1..]) == "";
  }

  lemma JoinedMore(lines: seq<string>, i: nat)
    requires i < |lines|
    ensures Joined(lines[i..]) == lines[i] + "\n" + Joined(lines[i + 1..])
  {
    assert lines[i..][1..] == lines[i + 1..];
  }
}
