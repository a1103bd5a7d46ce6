/**
 An invite's lifetime (`crates/enrollment/src/site_invite.rs`, `duration`): a run of numbers with
 units, summed in saturating 64-bit nanoseconds and bounded to five minutes through a week.
 */
module Lifetime {
  import opened Prelude
  import opened SeedText

  const SHORTEST := 300_000_000_000
  const LONGEST := 604_800_000_000_000

  datatype Unit = Micros | Millis | PlainMicros | Nanos | Hours | Minutes | Seconds

  function Name(u: Unit): string {
    match u
    case Micros => "\U{B5}s"
    case Millis => "ms"
    case PlainMicros => "us"
    case Nanos => "ns"
    case Hours => "h"
    case Minutes => "m"
    case Seconds => "s"
  }

  function Scale(u: Unit): nat {
    match u
    case Micros => 1_000
    case Millis => 1_000_000
    case PlainMicros => 1_000
    case Nanos => 1
    case Hours => 3_600_000_000_000
    case Minutes => 60_000_000_000
    case Seconds => 1_000_000_000
  }

  datatype Piece = Piece(digits: string, suffix: Unit)

  predicate Spelled(p: Piece) {
    p.digits != [] && AllDigits(p.digits)
  }

  predicate AllSpelled(pieces: seq<Piece>) {
    forall i | 0 <= i < |pieces| :: Spelled(pieces[i])
  }

  /** The text of the pieces, one after another. */
  function Rendered(pieces: seq<Piece>): string {
    if pieces == [] then "" else pieces[0].digits + (Name(pieces[0].suffix) + Rendered(pieces[1..]))
  }

  /** A piece in nanoseconds, without bound. */
  function Nanoseconds(p: Piece): nat
    requires Spelled(p)
  {
    DigitsValue(p.digits) * Scale(p.suffix)
  }

  function Sum(pieces: seq<Piece>): nat
    requires AllSpelled(pieces)
  {
    if pieces == [] then 0 else Sum(pieces[..|pieces| - 1]) + Nanoseconds(pieces[|pieces| - 1])
  }

  // ---- Reading ----

  /** The number of digits `s` begins with. */
  function DigitRun(s: string): (n: nat)
    ensures n <= |s| && (forall i | 0 <= i < n :: IsDigit(s[i])) && (n < |s| ==> !IsDigit(s[n]))
  {
    if s == "" || !IsDigit(s[0]) then 0
    else
      var n := DigitRun(s[1..]);
      assert forall i | 1 <= i < n + 1 :: s[i] == s[1..][i - 1];
      n + 1
  }

  /** The first unit in the table that `s` begins with. */
  function UnitAt(s: string): (u: Option<Unit>)
    ensures u.Some? ==> Name(u.value) <= s
  {
    if Name(Micros) <= s then Some(Micros)
    else if Name(Millis) <= s then Some(Millis)
    else if Name(PlainMicros) <= s then Some(PlainMicros)
    else if Name(Nanos) <= s then Some(Nanos)
    else if Name(Hours) <= s then Some(Hours)
    else if Name(Minutes) <= s then Some(Minutes)
    else if Name(Seconds) <= s then Some(Seconds)
    else None
  }

  /** The piece `s` begins with, taking every digit and the first unit that fits. */
  function Leading(s: string): (p: Option<Piece>)
    ensures p.Some? ==> Spelled(p.value) && |p.value.digits| + |Name(p.value.suffix)| <= |s|
  {
    var n := DigitRun(s);
    var u := UnitAt(s[n..]);
    if n == 0 || u.None? then None else Some(Piece(s[..n], u.value))
  }

  function After(s: string, p: Piece): string
    requires |p.digits| + |Name(p.suffix)| <= |s|
  {
    s[|p.digits|..][|Name(p.suffix)|..]
  }

  function Pieces(s: string): Option<seq<Piece>>
    decreases |s|
  {
    if s == "" then Some([])
    else
      var p := Leading(s);
      if p.None? then None else Prepended([p.value], Pieces(After(s, p.value)))
  }

  function Prepended(done: seq<Piece>, more: Option<seq<Piece>>): Option<seq<Piece>> {
    if more.None? then None else Some(done + more.value)
  }

  // ---- Splits are unique ----

  lemma {:induction false} PiecesRender(s: string)
    requires Pieces(s).Some?
    ensures AllSpelled(Pieces(s).value) && Rendered(Pieces(s).value) == s
    decreases |s|
  {
    if s != "" {
      var p := Leading(s).value;
      var rest := After(s, p);
      PiecesStep(s, p, rest);
      PiecesRender(rest);
      LeadingRenders(s, p);
      assert ([p] + Pieces(rest).value)[1..] == Pieces(rest).value;
    }
  }

  lemma LeadingRenders(s: string, p: Piece)
    requires Leading(s) == Some(p)
    ensures s == p.digits + (Name(p.suffix) + After(s, p))
  {
    var n := |p.digits|;
    assert s == s[..n] + s[n..];
  }

  lemma DigitRunStops(digits: string, rest: string)
    requires AllDigits(digits) && rest != [] && !IsDigit(rest[0])
    ensures DigitRun(digits + rest) == |digits|
  {
    var s := digits + rest;
    assert s[|digits|] == rest[0];
    assert forall i | 0 <= i < |digits| :: s[i] == digits[i];
  }

  /** A unit is read back when what follows it is empty or begins with a digit. */
  lemma UnitReadsBack(u: Unit, rest: string)
    requires rest == [] || IsDigit(rest[0])
    ensures UnitAt(Name(u) + rest) == Some(u)
  {
    var s := Name(u) + rest;
    assert forall i | 0 <= i < |Name(u)| :: s[i] == Name(u)[i];
    assert |s| > 1 && |Name(u)| == 1 ==> IsDigit(s[1]);
    forall v: Unit | Name(v) <= s
      ensures v == u || (v == Minutes && u == Millis)
    {
      assert s[0] == Name(v)[0];
      assert |Name(v)| == 2 ==> s[1] == Name(v)[1];
    }
    assert Name(u) <= s;
  }

  /** Taking the leading piece again and again gives `pieces`. */
  ghost predicate ReadsAs(s: string, pieces: seq<Piece>) {
    if pieces == [] then s == ""
    else s != "" && Leading(s) == Some(pieces[0]) && ReadsAs(After(s, pieces[0]), pieces[1..])
  }

  lemma {:induction false} RenderReadsAs(pieces: seq<Piece>)
    requires AllSpelled(pieces)
    ensures ReadsAs(Rendered(pieces), pieces)
  {
    if pieces != [] {
      RenderReadsAs(pieces[1..]);
      RenderStart(pieces[1..]);
      PieceReadsBack(pieces[0], Rendered(pieces[1..]));
    }
  }

  lemma {:induction false} ReadsAsPieces(s: string, pieces: seq<Piece>)
    requires ReadsAs(s, pieces)
    ensures Pieces(s) == Some(pieces)
  {
    if pieces != [] {
      var rest := After(s, pieces[0]);
      ReadsAsPieces(rest, pieces[1..]);
      PiecesStep(s, pieces[0], rest);
      assert [pieces[0]] + pieces[1..] == pieces;
    }
  }

  lemma RenderReadsBack(pieces: seq<Piece>)
    requires AllSpelled(pieces)
    ensures Pieces(Rendered(pieces)) == Some(pieces)
  {
    RenderReadsAs(pieces);
    ReadsAsPieces(Rendered(pieces), pieces);
  }

  lemma PiecesStep(s: string, p: Piece, rest: string)
    requires s != "" && Leading(s) == Some(p) && After(s, p) == rest
    ensures Pieces(s) == Prepended([p], Pieces(rest))
  {
  }

  lemma PieceReadsBack(p: Piece, rest: string)
    requires Spelled(p) && (rest == [] || IsDigit(rest[0]))
    ensures var s := p.digits + (Name(p.suffix) + rest); Leading(s) == Some(p) && After(s, p) == rest
  {
    var tail := Name(p.suffix) + rest;
    var s := p.digits + tail;
    DigitRunStops(p.digits, tail);
    assert s[..|p.digits|] == p.digits && s[|p.digits|..] == tail;
    UnitReadsBack(p.suffix, rest);
    assert tail[|Name(p.suffix)|..] == rest;
  }

  lemma RenderStart(pieces: seq<Piece>)
    requires AllSpelled(pieces)
    ensures Rendered(pieces) == [] || IsDigit(Rendered(pieces)[0])
  {
  }

  /** A text splits into pieces in at most one way, the one reading finds. */
  lemma SplitIsUnique(s: string, pieces: seq<Piece>)
    ensures AllSpelled(pieces) && Rendered(pieces) == s <==> Pieces(s) == Some(pieces)
  {
    if Pieces(s) == Some(pieces) {
      PiecesRender(s);
    }
    if AllSpelled(pieces) && Rendered(pieces) == s {
      RenderReadsBack(pieces);
    }
  }

  // ---- The parser ----

  lemma {:induction false} SumSplits(done: seq<Piece>, more: seq<Piece>)
    requires AllSpelled(done) && AllSpelled(more)
    ensures AllSpelled(done + more) && Sum(done + more) == Sum(done) + Sum(more)
  {
    if more == [] {
      assert done + more == done;
    } else {
      SumSplits(done, more[..|more| - 1]);
      assert (done + more)[..|done + more| - 1] == done + more[..|more| - 1];
    }
  }

  lemma AtLeastItsDigits(p: Piece)
    requires Spelled(p)
    ensures DigitsValue(p.digits) <= Nanoseconds(p)
  {
    assert Scale(p.suffix) >= 1;
  }

  /** What the text stands for when it splits and its exact sum is in bounds. */
  function Meaning(raw: string): Option<nat> {
    var pieces := Pieces(raw);
    if pieces.Some? then
      PiecesRender(raw);
      var sum := Sum(pieces.value);
      if SHORTEST <= sum <= LONGEST then Some(sum) else None
    else None
  }

  /** Once the pieces read so far are too long, so is the whole. */
  lemma TooLongAlready(raw: string, done: seq<Piece>, rest: string)
    requires AllSpelled(done) && Pieces(raw) == Prepended(done, Pieces(rest)) && Sum(done) > LONGEST
    ensures Meaning(raw).None?
  {
    if Pieces(raw).Some? {
      PiecesRender(rest);
      SumSplits(done, Pieces(rest).value);
    }
  }

  lemma ParseDigits(digits: string)
    requires digits != [] && AllDigits(digits)
    ensures ParseI64(digits) == if DigitsValue(digits) <= I64_MAX then Some(DigitsValue(digits)) else None
  {
    assert IsDigit(digits[0]);
  }

  method Duration(raw: string) returns (lifetime: Option<nat>)
    ensures lifetime == Meaning(raw)
  {
    var rest := raw;
    var total: nat := 0;
    ghost var done: seq<Piece> := [];
    PrependNothing(Pieces(raw));
    while rest != ""
      invariant Read(raw, done, rest, total)
      decreases |rest|
    {
      var digits := DigitRun(rest);
      if digits == 0 {
        Unreadable(raw, done, rest, total);
        return None;
      }
      var value := ParseI64(rest[..digits]);
      var unit := UnitAt(rest[digits..]);
      ParseDigits(rest[..digits]);
      if value.None? || unit.None? {
        Unreadable(raw, done, rest, total);
        return None;
      }
      done := OneMore(raw, done, rest, total);
      total := Min(total + Min(value.value * Scale(unit.value), I64_MAX), I64_MAX);
      rest := rest[digits..][|Name(unit.value)|..];
    }
    Finished(raw, done, total);
    return if SHORTEST <= total <= LONGEST then Some(total) else None;
  }

  /** `done` is read, `rest` is not, and `total` is the saturated sum of what is read. */
  ghost predicate Read(raw: string, done: seq<Piece>, rest: string, total: nat) {
    && AllSpelled(done)
    && Pieces(raw) == Prepended(done, Pieces(rest))
    && total == Min(Sum(done), I64_MAX)
  }

  /** All pieces read: their sum decides, and saturation cannot bring it back in bounds. */
  lemma Finished(raw: string, done: seq<Piece>, total: nat)
    requires Read(raw, done, "", total)
    ensures Meaning(raw) == if SHORTEST <= total <= LONGEST then Some(total) else None
  {
    assert done + [] == done;
  }

  /** No piece next, or a number that does not fit: the text stands for nothing in bounds. */
  lemma Unreadable(raw: string, done: seq<Piece>, rest: string, total: nat)
    requires Read(raw, done, rest, total) && rest != ""
    requires Leading(rest).Some? ==> DigitsValue(Leading(rest).value.digits) > I64_MAX
    ensures Meaning(raw).None?
  {
    if Leading(rest).Some? {
      var p := Leading(rest).value;
      AtLeastItsDigits(p);
      var more := OneMore(raw, done, rest, total);
      TooLongAlready(raw, more, After(rest, p));
    }
  }

  /** Reading one more piece. */
  lemma OneMore(raw: string, done: seq<Piece>, rest: string, total: nat) returns (more: seq<Piece>)
    requires Read(raw, done, rest, total) && rest != "" && Leading(rest).Some?
    ensures var p := Leading(rest).value;
            && more == done + [p]
            && Read(raw, more, After(rest, p), Saturated(total, p))
            && Sum(more) >= Nanoseconds(p)
  {
    var p := Leading(rest).value;
    more := done + [p];
    var tail := Pieces(After(rest, p));
    PiecesStep(rest, p, After(rest, p));
    PrependTwice(done, [p], tail);
    SumSplits(done, [p]);
    assert [p][..0] == [];
  }

  function Saturated(total: nat, p: Piece): nat
    requires Spelled(p)
  {
    Min(total + Min(Nanoseconds(p), I64_MAX), I64_MAX)
  }

  lemma PrependTwice(a: seq<Piece>, b: seq<Piece>, more: Option<seq<Piece>>)
    ensures Prepended(a, Prepended(b, more)) == Prepended(a + b, more)
  {
    if more.Some? {
      assert a + (b + more.value) == a + b + more.value;
    }
  }

  lemma PrependNothing(more: Option<seq<Piece>>)
    ensures Prepended([], more) == more
  {
    if more.Some? {
      assert [] + more.value == more.value;
    }
  }

  /**
   The accepted texts are exactly those with a split into numbers and units whose exact sum is
   in bounds, and the result is that sum: saturation never shows.
   */
  lemma AcceptedExactly(raw: string, lifetime: nat)
    ensures Meaning(raw) == Some(lifetime) <==>
            SHORTEST <= lifetime <= LONGEST &&
            exists pieces :: AllSpelled(pieces) && Rendered(pieces) == raw && Sum(pieces) == lifetime
  {
    if Meaning(raw) == Some(lifetime) {
      PiecesRender(raw);
    }
    forall pieces | AllSpelled(pieces) && Rendered(pieces) == raw && Sum(pieces) == lifetime
      ensures Pieces(raw) == Some(pieces)
    {
      SplitIsUnique(raw, pieces);
    }
  }

  /** The units are those of the clock, and the bounds are five minutes and a week of hours. */
  lemma UnitsOfTheClock()
    ensures Scale(Nanos) == 1
    ensures Scale(Micros) == Scale(PlainMicros) == 1000 * Scale(Nanos)
    ensures Scale(Millis) == 1000 * Scale(Micros) && Scale(Seconds) == 1000 * Scale(Millis)
    ensures Scale(Minutes) == 60 * Scale(Seconds) && Scale(Hours) == 60 * Scale(Minutes)
    ensures SHORTEST == 5 * Scale(Minutes) && LONGEST == 7 * 24 * Scale(Hours)
  {
  }

  lemma DigitsGrow(init: string, last: char)
    requires AllDigits(init) && IsDigit(last)
    ensures AllDigits(init + [last]) && DigitsValue(init + [last]) == 10 * DigitsValue(init) + (last - '0') as nat
  {
    assert (init + [last])[..|init|] == init;
  }

  /** Five minutes is the shortest lifetime. */
  lemma FiveMinutes()
    ensures Meaning("5m") == Some(300_000_000_000)
  {
    DigitsGrow("", '5');
    OnePiece("5", Minutes, 5);
    assert "5" + Name(Minutes) == "5m";
  }

  /** A week, in hours, is the longest. */
  lemma AWeek()
    ensures Meaning("168h") == Some(604_800_000_000_000)
  {
    DigitsGrow("", '1');
    DigitsGrow("1", '6');
    DigitsGrow("16", '8');
    assert "" + ['1'] == "1" && "1" + ['6'] == "16" && "16" + ['8'] == "168";
    OnePiece("168", Hours, 168);
    assert "168" + Name(Hours) == "168h";
  }

  lemma OnePiece(digits: string, unit: Unit, value: nat)
    requires digits != [] && AllDigits(digits) && value * Scale(unit) >= SHORTEST && value * Scale(unit) <= LONGEST
    requires DigitsValue(digits) == value
    ensures Meaning(digits + Name(unit)) == Some(value * Scale(unit))
  {
    var pieces := [Piece(digits, unit)];
    assert pieces[1..] == [] && pieces[..0] == [];
    assert Rendered(pieces) == digits + Name(unit);
    assert Sum(pieces) == value * Scale(unit);
    AcceptedExactly(digits + Name(unit), value * Scale(unit));
  }
}
