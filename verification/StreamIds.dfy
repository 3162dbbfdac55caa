/**
 * Redis stream identifiers: their numeric order, how `XADD *` chooses the next
 * one, and the string arithmetic the call-record validator performs on their
 * textual form "milliseconds-sequence" (registry/call_decision.go:63-101).
 */
module StreamIds {
  import opened Basics

  /** A stream ID as a pair of numbers; the second one is the sequence number. */
  datatype Id = Id(ms: nat, num: nat)

  const ZERO := Id(0, 0)

  const TWO_64: nat := 18446744073709551616

  predicate Before(a: Id, b: Id) {
    a.ms < b.ms || (a.ms == b.ms && a.num < b.num)
  }

  predicate AtOrBefore(a: Id, b: Id) {
    a == b || Before(a, b)
  }

  /** The ID `XADD *` assigns on a stream whose greatest ID so far is `last`. */
  function NextId(last: Id, now: nat): (id: Id)
    ensures Before(last, id) && id != ZERO
    ensures last.ms <= now ==> id.ms == now
  {
    if last.ms < now then Id(now, 0) else Id(last.ms, last.num + 1)
  }

  // ---------------------------------------------------------------------
  // Decimal strings
  // ---------------------------------------------------------------------

  predicate IsDigit(c: char) {
    '0' <= c <= '9'
  }

  /** Lua's "^%d+$". */
  predicate IsDigits(s: string) {
    |s| > 0 && forall i :: 0 <= i < |s| ==> IsDigit(s[i])
  }

  predicate IsCanonical(s: string) {
    IsDigits(s) && (|s| > 1 ==> s[0] != '0')
  }

  function Digit(c: char): (d: nat)
    requires IsDigit(c)
    ensures d < 10
  {
    (c - '0') as nat
  }

  /** The number a digit string denotes, most significant digit first. */
  function Value(s: string): nat
    requires forall i :: 0 <= i < |s| ==> IsDigit(s[i])
  {
    if s == [] then 0 else 10 * Value(s[..|s| - 1]) + Digit(s[|s| - 1])
  }

  function Power10(n: nat): (p: nat)
    ensures p > 0
  {
    if n == 0 then 1 else 10 * Power10(n - 1)
  }

  /** Lua's `left <= right` on strings (byte order). */
  predicate LexAtOrBefore(l: string, r: string) {
    l == [] || (r != [] && (l[0] < r[0] || (l[0] == r[0] && LexAtOrBefore(l[1..], r[1..]))))
  }

  predicate DecimalAtOrBefore(l: string, r: string) {
    if |l| != |r| then |l| < |r| else LexAtOrBefore(l, r)
  }

  lemma {:induction false} ValueBelowPower(s: string)
    requires forall i :: 0 <= i < |s| ==> IsDigit(s[i])
    ensures Value(s) < Power10(|s|)
  {
    if s != [] {
      ValueBelowPower(s[..|s| - 1]);
    }
  }

  /** Peeling the most significant digit instead of the least significant one. */
  lemma {:induction false} ValueFromFront(s: string)
    requires IsDigits(s)
    ensures Value(s) == Digit(s[0]) * Power10(|s| - 1) + Value(s[1..])
  {
    if |s| > 1 {
      var n := |s| - 1;
      var init, tail := s[..n], s[1..];
      ValueFromFront(init);
      assert tail[..n - 1] == init[1..] && tail[n - 1] == s[n];
      assert Value(tail) == 10 * Value(init[1..]) + Digit(s[n]);
      ShiftLeft(Digit(s[0]), Power10(n - 1), Value(init[1..]), Digit(s[n]));
    }
  }

  lemma ShiftLeft(d: nat, p: nat, v: nat, x: nat)
    ensures 10 * (d * p + v) + x == d * (10 * p) + (10 * v + x)
  {
  }

  lemma {:induction false} CanonicalAtLeastPower(s: string)
    requires IsCanonical(s) && s[0] != '0'
    ensures Value(s) >= Power10(|s| - 1)
  {
    ValueFromFront(s);
    assert Digit(s[0]) >= 1;
    MulAtLeast(Digit(s[0]), Power10(|s| - 1));
  }

  lemma MulAtLeast(a: nat, b: nat)
    requires a >= 1
    ensures a * b >= b
  {
    if a > 1 {
      MulAtLeast(a - 1, b);
      assert a * b == (a - 1) * b + b;
    }
  }

  lemma {:induction false} Power10Monotone(a: nat, b: nat)
    requires a <= b
    ensures Power10(a) <= Power10(b)
    decreases b - a
  {
    if a < b {
      Power10Monotone(a, b - 1);
    }
  }

  /** On equally long digit strings byte order is numeric order. */
  lemma {:induction false} LexIsNumeric(l: string, r: string)
    requires |l| == |r|
    requires forall i :: 0 <= i < |l| ==> IsDigit(l[i]) && IsDigit(r[i])
    ensures LexAtOrBefore(l, r) <==> Value(l) <= Value(r)
  {
    if l != [] {
      ValueFromFront(l);
      ValueFromFront(r);
      LexIsNumeric(l[1..], r[1..]);
      ValueBelowPower(l[1..]);
      ValueBelowPower(r[1..]);
      var p := Power10(|l| - 1);
      var dl, dr := Digit(l[0]), Digit(r[0]);
      if l[0] < r[0] {
        DigitStep(dl, dr, p);
      } else if r[0] < l[0] {
        DigitStep(dr, dl, p);
      }
    }
  }

  lemma DigitStep(a: nat, b: nat, p: nat)
    requires a < b
    ensures a * p + p <= b * p
  {
    MulAtLeast(b - a, p);
    assert b * p == a * p + (b - a) * p;
  }

  /**
   * Length first, bytes second: the validator's comparison of canonical
   * decimals of any length is numeric order.
   */
  lemma DecimalOrderIsNumeric(l: string, r: string)
    requires IsCanonical(l) && IsCanonical(r)
    ensures DecimalAtOrBefore(l, r) <==> Value(l) <= Value(r)
  {
    if |l| == |r| {
      LexIsNumeric(l, r);
    } else if |l| < |r| {
      LongerIsGreater(l, r);
    } else {
      LongerIsGreater(r, l);
    }
  }

  lemma LongerIsGreater(short: string, long: string)
    requires IsCanonical(short) && IsCanonical(long) && |short| < |long|
    ensures Value(short) < Value(long)
  {
    ValueBelowPower(short);
    Power10Monotone(|short|, |long| - 1);
    CanonicalAtLeastPower(long);
  }

  // ---------------------------------------------------------------------
  // Components and whole IDs
  // ---------------------------------------------------------------------

  const MAX_COMPONENT := "18446744073709551615"

  /** `canonical_stream_component`. */
  predicate CanonicalComponent(s: string) {
    && IsDigits(s)
    && !(|s| > 1 && s[0] == '0')
    && !(|s| > 20 || (|s| == 20 && !LexAtOrBefore(s, MAX_COMPONENT)))
  }

  /** Appending one digit to a decimal. */
  lemma ValueSnoc(s: string, c: char)
    requires (forall i :: 0 <= i < |s| ==> IsDigit(s[i])) && IsDigit(c)
    ensures Value(s + [c]) == 10 * Value(s) + Digit(c)
  {
    assert (s + [c])[..|s|] == s;
  }

  /** Five digits spelled out. */
  lemma ValueOfFive(a: char, b: char, c: char, d: char, e: char)
    requires IsDigit(a) && IsDigit(b) && IsDigit(c) && IsDigit(d) && IsDigit(e)
    ensures Value([a, b, c, d, e]) ==
            10000 * Digit(a) + 1000 * Digit(b) + 100 * Digit(c) + 10 * Digit(d) + Digit(e)
  {
    ValueSnoc([], a);
    assert [] + [a] == [a];
    ValueSnoc([a], b);
    assert [a] + [b] == [a, b];
    ValueSnoc([a, b], c);
    assert [a, b] + [c] == [a, b, c];
    ValueSnoc([a, b, c], d);
    assert [a, b, c] + [d] == [a, b, c, d];
    ValueSnoc([a, b, c, d], e);
    assert [a, b, c, d] + [e] == [a, b, c, d, e];
  }

  lemma {:induction false} ValueConcat(s: string, t: string)
    requires forall i :: 0 <= i < |s| ==> IsDigit(s[i])
    requires forall i :: 0 <= i < |t| ==> IsDigit(t[i])
    ensures Value(s + t) == Value(s) * Power10(|t|) + Value(t)
  {
    if t == [] {
      assert s + t == s;
    } else {
      var n := |t| - 1;
      ValueConcat(s, t[..n]);
      ValueSnoc(s + t[..n], t[n]);
      assert s + t[..n] + [t[n]] == s + t;
      ShiftLeft(Value(s), Power10(n), Value(t[..n]), Digit(t[n]));
    }
  }

  lemma FiveMoreDigits(s: string, a: char, b: char, c: char, d: char, e: char)
    requires forall i :: 0 <= i < |s| ==> IsDigit(s[i])
    requires IsDigit(a) && IsDigit(b) && IsDigit(c) && IsDigit(d) && IsDigit(e)
    ensures Value(s + [a, b, c, d, e]) == 100000 * Value(s) +
            10000 * Digit(a) + 1000 * Digit(b) + 100 * Digit(c) + 10 * Digit(d) + Digit(e)
  {
    ValueConcat(s, [a, b, c, d, e]);
    ValueOfFive(a, b, c, d, e);
    assert Power10(5) == 10 * Power10(4) == 100 * Power10(3) == 1000 * Power10(2) == 100000;
  }

  lemma MaxComponentValue()
    ensures IsCanonical(MAX_COMPONENT) && Value(MAX_COMPONENT) == TWO_64 - 1
  {
    ValueOfFive('1', '8', '4', '4', '6');
    FiveMoreDigits("18446", '7', '4', '4', '0', '7');
    assert "18446" + ['7', '4', '4', '0', '7'] == "1844674407";
    FiveMoreDigits("1844674407", '3', '7', '0', '9', '5');
    assert "1844674407" + ['3', '7', '0', '9', '5'] == "184467440737095";
    FiveMoreDigits("184467440737095", '5', '1', '6', '1', '5');
    assert "184467440737095" + ['5', '1', '6', '1', '5'] == MAX_COMPONENT;
  }

  /** The 20-digit test accepts exactly the canonical decimals below 2^64. */
  lemma ComponentAcceptsExactly64Bits(s: string)
    ensures CanonicalComponent(s) <==> IsCanonical(s) && Value(s) < TWO_64
  {
    MaxComponentValue();
    if IsCanonical(s) {
      DecimalOrderIsNumeric(s, MAX_COMPONENT);
    }
  }

  /** Position of the first character that is not a digit. */
  function DigitRun(s: string): (n: nat)
    ensures n <= |s|
    ensures forall i :: 0 <= i < n ==> IsDigit(s[i])
    ensures n < |s| ==> !IsDigit(s[n])
  {
    if s == [] || !IsDigit(s[0]) then 0 else 1 + DigitRun(s[1..])
  }

  /** Lua's string.match(raw, "^(%d+)%-(%d+)$"). */
  function Split(raw: string): Option<(string, string)> {
    var n := DigitRun(raw);
    if 0 < n < |raw| && raw[n] == '-' && IsDigits(raw[n + 1..]) then
      Some((raw[..n], raw[n + 1..]))
    else
      None
  }

  /** Splitting finds the two digit groups exactly when the text has that shape. */
  lemma SplitIsTheOnlyReading(raw: string, ms: string, num: string)
    ensures Split(raw) == Some((ms, num)) <==>
            IsDigits(ms) && IsDigits(num) && raw == ms + "-" + num
  {
    var n := DigitRun(raw);
    if IsDigits(ms) && IsDigits(num) && raw == ms + "-" + num {
      assert raw[|ms|] == '-';
      assert forall i :: 0 <= i < |ms| ==> raw[i] == ms[i];
      assert n == |ms|;
      assert raw[..n] == ms && raw[n + 1..] == num;
    }
    if Split(raw) == Some((ms, num)) {
      assert raw == raw[..n] + "-" + raw[n + 1..];
    }
  }

  /** `stream_id`. */
  predicate IsStreamId(raw: string) {
    match Split(raw)
    case None => false
    case Some((ms, num)) =>
      CanonicalComponent(ms) && CanonicalComponent(num) && !(ms == "0" && num == "0")
  }

  /** `stream_id_at_or_before`, on text that already passed `stream_id`. */
  predicate TextAtOrBefore(l: string, r: string)
    requires IsStreamId(l) && IsStreamId(r)
  {
    var (lms, lnum) := Split(l).value;
    var (rms, rnum) := Split(r).value;
    if lms != rms then DecimalAtOrBefore(lms, rms) else DecimalAtOrBefore(lnum, rnum)
  }

  /** The ID an accepted text denotes. */
  function Parse(raw: string): (id: Id)
    requires IsStreamId(raw)
  {
    var (ms, num) := Split(raw).value;
    Id(Value(ms), Value(num))
  }

  /** A canonical decimal is determined by the number it denotes. */
  lemma {:induction false} CanonicalIsUnique(l: string, r: string)
    requires IsCanonical(l) && IsCanonical(r) && Value(l) == Value(r)
    ensures l == r
  {
    if |l| < |r| {
      LongerIsGreater(l, r);
    } else if |r| < |l| {
      LongerIsGreater(r, l);
    } else {
      SameLengthUnique(l, r);
    }
  }

  lemma {:induction false} SameLengthUnique(l: string, r: string)
    requires |l| == |r|
    requires forall i :: 0 <= i < |l| ==> IsDigit(l[i]) && IsDigit(r[i])
    requires Value(l) == Value(r)
    ensures l == r
  {
    if l != [] {
      var n := |l| - 1;
      LastDigit(Value(l[..n]), Digit(l[n]), Value(r[..n]), Digit(r[n]));
      SameLengthUnique(l[..n], r[..n]);
      assert l == l[..n] + [l[n]] && r == r[..n] + [r[n]];
    }
  }

  lemma LastDigit(a: nat, x: nat, b: nat, y: nat)
    requires 10 * a + x == 10 * b + y && x < 10 && y < 10
    ensures a == b && x == y
  {
  }

  /** Comparing the texts is comparing the numeric pairs lexicographically. */
  lemma TextOrderIsIdOrder(l: string, r: string)
    requires IsStreamId(l) && IsStreamId(r)
    ensures TextAtOrBefore(l, r) <==> AtOrBefore(Parse(l), Parse(r))
  {
    var (lms, lnum) := Split(l).value;
    var (rms, rnum) := Split(r).value;
    ComponentAcceptsExactly64Bits(lms);
    ComponentAcceptsExactly64Bits(rms);
    ComponentAcceptsExactly64Bits(lnum);
    ComponentAcceptsExactly64Bits(rnum);
    DecimalOrderIsNumeric(lms, rms);
    DecimalOrderIsNumeric(lnum, rnum);
    if Value(lms) == Value(rms) {
      CanonicalIsUnique(lms, rms);
    }
  }

  // ---------------------------------------------------------------------
  // Formatting
  // ---------------------------------------------------------------------

  function DigitChar(d: nat): (c: char)
    requires d < 10
    ensures IsDigit(c) && Digit(c) == d
  {
    '0' + d as char
  }

  /** Redis writes each component without leading zeros. */
  function Format(n: nat): (s: string)
    ensures IsCanonical(s) && Value(s) == n
    ensures n > 0 ==> s[0] != '0'
  {
    if n < 10 then
      assert [DigitChar(n)][..0] == [];
      [DigitChar(n)]
    else
      ValueSnoc(Format(n / 10), DigitChar(n % 10));
      Format(n / 10) + [DigitChar(n % 10)]
  }

  function FormatId(id: Id): string {
    Format(id.ms) + "-" + Format(id.num)
  }

  /** IDs the validator can represent: nonzero and both components below 2^64. */
  predicate Representable(id: Id) {
    id != ZERO && id.ms < TWO_64 && id.num < TWO_64
  }

  /** The validator accepts a formatted ID exactly when it is representable, and reads it back. */
  lemma FormatRoundTrips(id: Id)
    ensures IsStreamId(FormatId(id)) <==> Representable(id)
    ensures Representable(id) ==> Parse(FormatId(id)) == id
  {
    var ms, num := Format(id.ms), Format(id.num);
    SplitIsTheOnlyReading(FormatId(id), ms, num);
    ComponentAcceptsExactly64Bits(ms);
    ComponentAcceptsExactly64Bits(num);
    assert Value("0") == 0 by { ValueSnoc("", '0'); assert "" + ['0'] == "0"; }
    if id.ms == 0 { CanonicalIsUnique(ms, "0"); }
    if id.num == 0 { CanonicalIsUnique(num, "0"); }
  }
}
