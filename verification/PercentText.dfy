/** UTF-16 text with percent-encoded characters: hex case, one UTF-8 scalar at a
    time, and views that remember which original positions each unit came from. */
module PercentText {
  import opened Journal

  type Unit = n: int | 0 <= n < 0x10000

  type Text = seq<Unit>

  const PERCENT: Unit := 0x25
  const TWO: Unit := 0x32
  const FIVE: Unit := 0x35

  predicate IsHexDigit(u: Unit) {
    0x30 <= u <= 0x39 || 0x41 <= u <= 0x46 || 0x61 <= u <= 0x66
  }

  function HexValue(u: Unit): (v: nat)
    requires IsHexDigit(u)
    ensures v < 16
  {
    if u <= 0x39 then u - 0x30 else if u <= 0x46 then u - 0x41 + 10 else u - 0x61 + 10
  }

  predicate HexAt(text: Text, i: nat) { i < |text| && IsHexDigit(text[i]) }

  function Lower(u: Unit): Unit { if 65 <= u <= 90 then u + 32 else u }

  /** Folding ASCII case keeps every position. */
  method LowercaseAscii(text: Text) returns (r: Text)
    ensures |r| == |text| && forall k :: 0 <= k < |text| ==> r[k] == Lower(text[k])
  {
    r := [];
    for i := 0 to |text|
      invariant |r| == i && forall k :: 0 <= k < i ==> r[k] == Lower(text[k])
    {
      r := r + [Lower(text[i])];
    }
  }

  // Hex case

  predicate StartsNested(text: Text, d: nat) {
    d + 1 < |text| && text[d] == TWO && text[d + 1] == FIVE
  }

  /** Past the nested encodings of a percent sign. */
  function SkipNested(text: Text, d: nat): (r: nat)
    ensures d <= r && (d <= |text| ==> r <= |text|)
    decreases |text| - d
  {
    if StartsNested(text, d) then SkipNested(text, d + 2) else d
  }

  predicate HexPairAt(text: Text, d: nat) { HexAt(text, d) && HexAt(text, d + 1) }

  /** What one step at `i` leaves: one plain unit, or an escape with its nested percent
      signs as they were and its hex pair in lower case. */
  function StepUnits(text: Text, i: nat): (r: Text)
    requires i < |text|
    ensures 0 < |r| <= |text| - i
  {
    if text[i] != PERCENT then [text[i]]
    else
      var d := SkipNested(text, i + 1);
      if HexPairAt(text, d) then text[i..d] + [Lower(text[d]), Lower(text[d + 1])] else text[i..d]
  }

  /** The text from `i` with the hex pair of every escape in lower case. */
  function NormalizedFrom(text: Text, i: nat): (r: Text)
    requires i <= |text|
    ensures |r| == |text| - i
    decreases |text| - i
  {
    if i == |text| then [] else StepUnits(text, i) + NormalizedFrom(text, i + |StepUnits(text, i)|)
  }

  /** Where the step's hex pair starts, or its end when it has none. */
  function PairStart(text: Text, i: nat): (d: nat)
    requires i < |text|
    ensures i < d <= |text|
  {
    if text[i] != PERCENT then i + 1 else SkipNested(text, i + 1)
  }

  predicate HasPair(text: Text, i: nat)
    requires i < |text|
  {
    text[i] == PERCENT && HexPairAt(text, PairStart(text, i))
  }

  lemma StepAt(text: Text, i: nat, j: nat)
    requires i < |text|
    ensures |StepUnits(text, i)| == PairStart(text, i) - i + if HasPair(text, i) then 2 else 0
    ensures j < |StepUnits(text, i)| ==>
      StepUnits(text, i)[j] == if HasPair(text, i) && i + j >= PairStart(text, i) then Lower(text[i + j]) else text[i + j]
  {
  }

  function StepEnd(text: Text, i: nat): (e: nat)
    requires i < |text|
    ensures i < e <= |text|
  {
    PairStart(text, i) + if HasPair(text, i) then 2 else 0
  }

  function StepUnit(text: Text, i: nat, k: nat): Unit
    requires i <= k < |text|
  {
    if HasPair(text, i) && k >= PairStart(text, i) then Lower(text[k]) else text[k]
  }

  /** The in-place pass over the units computes the normal form, position by position. */
  method NormalizePercentEscapes(text: Text) returns (r: Text)
    ensures r == NormalizedFrom(text, 0) && |r| == |text|
  {
    hide StepUnits;
    hide NormalizedFrom;
    hide PairStart;
    hide HexPairAt;
    r := text;
    ghost var goal := NormalizedFrom(text, 0);
    var index := 0;
    while index < |text|
      invariant 0 <= index <= |text| == |r| == |goal|
      invariant r[index..] == text[index..]
      invariant r[..index] == goal[..index]
      invariant goal[index..] == NormalizedFrom(text, index)
    {
      var digit := NestedEnd(text, index);
      GoalStep(text, goal, index);
      if text[index] == PERCENT && HexPairAt(text, digit) {
        ghost var before := r;
        r := r[..digit] + [Lower(text[digit]), Lower(text[digit + 1])] + r[digit + 2..];
        StepWritten(text, before, r, goal, index);
        index := digit + 2;
      } else {
        StepWritten(text, r, r, goal, index);
        index := digit;
      }
    }
  }

  /** Writing the step's units extends the part that agrees with the goal. */
  lemma StepWritten(text: Text, before: Text, after: Text, goal: Text, i: nat)
    requires i < |text| == |before| == |goal| && before[i..] == text[i..] && before[..i] == goal[..i]
    requires forall k :: i <= k < StepEnd(text, i) ==> goal[k] == StepUnit(text, i, k)
    requires var d := PairStart(text, i);
      after == if HasPair(text, i) then before[..d] + [Lower(text[d]), Lower(text[d + 1])] + before[d + 2..] else before
    ensures |after| == |text| && after[StepEnd(text, i)..] == text[StepEnd(text, i)..]
    ensures after[..StepEnd(text, i)] == goal[..StepEnd(text, i)]
  {
    hide PairStart;
    var d, e := PairStart(text, i), StepEnd(text, i);
    assert forall k :: i <= k < |text| ==> before[k] == before[i..][k - i] == text[i..][k - i] == text[k];
    assert forall k :: 0 <= k < i ==> before[k] == before[..i][k] == goal[..i][k] == goal[k];
    forall k | 0 <= k < e ensures after[k] == goal[k] {
      if k >= i { assert goal[k] == StepUnit(text, i, k); }
    }
    assert forall k :: e <= k < |text| ==> after[k] == text[k];
  }

  /** Skips the nested percent signs of an escape; a plain unit is one step. */
  method NestedEnd(text: Text, index: nat) returns (digit: nat)
    requires index < |text|
    ensures digit == PairStart(text, index)
  {
    digit := index + 1;
    if text[index] == PERCENT {
      while StartsNested(text, digit)
        invariant index < digit <= |text| && SkipNested(text, digit) == SkipNested(text, index + 1)
        decreases |text| - digit
      {
        digit := digit + 2;
      }
    }
  }

  lemma GoalStep(text: Text, goal: Text, i: nat)
    requires i < |text| == |goal| && goal[i..] == NormalizedFrom(text, i)
    ensures goal[StepEnd(text, i)..] == NormalizedFrom(text, StepEnd(text, i))
    ensures forall k :: i <= k < StepEnd(text, i) ==> goal[k] == StepUnit(text, i, k)
  {
    hide StepUnits;
    hide PairStart;
    var step := StepUnits(text, i);
    StepAt(text, i, 0);
    assert goal[i + |step|..] == goal[i..][|step|..];
    forall k | i <= k < i + |step| ensures goal[k] == StepUnit(text, i, k) {
      StepAt(text, i, k - i);
      assert goal[k] == goal[i..][k - i];
    }
  }

  /** One of the two hex digits of an escape. */
  ghost predicate EscapeDigit(text: Text, k: nat) {
    exists i: nat :: i <= k && i < |text| && HasPair(text, i) && PairStart(text, i) <= k < PairStart(text, i) + 2
  }

  /** The texts agree unit by unit, but for the case of the digits of escapes. */
  ghost predicate CaseVariant(text: Text, other: Text) {
    && |text| == |other|
    && forall k :: 0 <= k < |text| ==> text[k] == other[k] || (EscapeDigit(text, k) && Lower(text[k]) == Lower(other[k]))
  }

  /** A percent sign inside a step would have to be its first unit. */
  lemma {:induction false} NestedHoldsNoPercent(text: Text, d: nat, k: nat)
    requires d <= k < SkipNested(text, d)
    ensures k < |text| && (text[k] == TWO || text[k] == FIVE)
    decreases |text| - d
  {
    if k >= d + 2 { NestedHoldsNoPercent(text, d + 2, k); }
  }

  /** No escape that starts before `i` reaches past it. */
  ghost predicate Boundary(text: Text, i: nat) {
    forall j: nat :: j < i && j < |text| && HasPair(text, j) ==> PairStart(text, j) + 2 <= i
  }

  lemma StepKeepsBoundary(text: Text, i: nat)
    requires i < |text| && Boundary(text, i)
    ensures Boundary(text, StepEnd(text, i))
    ensures forall j: nat :: i < j < StepEnd(text, i) ==> !HasPair(text, j)
  {
    forall j: nat | i < j < StepEnd(text, i) ensures !HasPair(text, j) {
      if j < PairStart(text, i) { NestedHoldsNoPercent(text, i + 1, j); }
    }
    hide PairStart;
    hide HasPair;
    forall j: nat | j < StepEnd(text, i) && j < |text| && HasPair(text, j) ensures PairStart(text, j) + 2 <= StepEnd(text, i) {
      if j < i { assert PairStart(text, j) + 2 <= i; }
    }
  }

  /** The normal form lowers exactly the digits of escapes. */
  lemma {:induction false} NormalAt(text: Text, i: nat, k: nat)
    requires i <= k < |text| && Boundary(text, i)
    ensures NormalizedFrom(text, i)[k - i] == if EscapeDigit(text, k) then Lower(text[k]) else text[k]
    decreases |text| - i
  {
    hide StepUnits;
    hide PairStart;
    hide HasPair;
    StepAt(text, i, 0);
    StepKeepsBoundary(text, i);
    var e := StepEnd(text, i);
    if k >= e {
      NormalAt(text, e, k);
    } else {
      StepAt(text, i, k - i);
      if EscapeDigit(text, k) {
        var j: nat :| j <= k && j < |text| && HasPair(text, j) && PairStart(text, j) <= k < PairStart(text, j) + 2;
        assert j == i;
      }
    }
  }

  ghost predicate SameFolded(text: Text, other: Text) {
    |text| == |other| && forall k :: 0 <= k < |text| ==> Lower(text[k]) == Lower(other[k])
  }

  /** Folding leaves percent signs, the digits 2 and 5, and being a hex digit. */
  lemma {:induction false} SameNesting(text: Text, other: Text, d: nat)
    requires SameFolded(text, other)
    ensures SkipNested(text, d) == SkipNested(other, d)
    decreases |text| - d
  {
    if d + 1 < |text| {
      assert Lower(text[d]) == Lower(other[d]) && Lower(text[d + 1]) == Lower(other[d + 1]);
      if StartsNested(text, d) { SameNesting(text, other, d + 2); }
    }
  }

  lemma SameDigits(text: Text, other: Text, k: nat)
    requires SameFolded(text, other)
    ensures EscapeDigit(text, k) <==> EscapeDigit(other, k)
  {
    forall i: nat | i < |text| ensures PairStart(text, i) == PairStart(other, i) && HasPair(text, i) == HasPair(other, i) {
      SameNesting(text, other, i + 1);
      var d := PairStart(text, i);
      assert Lower(text[i]) == Lower(other[i]);
      assert d < |text| ==> Lower(text[d]) == Lower(other[d]);
      assert d + 1 < |text| ==> Lower(text[d + 1]) == Lower(other[d + 1]);
    }
  }

  /** The normal form of every unit. */
  ghost predicate IsNormal(text: Text, normal: Text) {
    && |normal| == |text|
    && forall k: nat :: k < |text| ==> normal[k] == if EscapeDigit(text, k) then Lower(text[k]) else text[k]
  }

  lemma NormalForm(text: Text)
    ensures IsNormal(text, NormalizedFrom(text, 0))
  {
    hide EscapeDigit;
    forall k: nat | k < |text|
      ensures NormalizedFrom(text, 0)[k] == if EscapeDigit(text, k) then Lower(text[k]) else text[k]
    {
      NormalAt(text, 0, k);
    }
  }

  lemma AllSameDigits(text: Text, other: Text)
    requires SameFolded(text, other)
    ensures forall k: nat :: EscapeDigit(text, k) == EscapeDigit(other, k)
  {
    forall k: nat ensures EscapeDigit(text, k) == EscapeDigit(other, k) {
      SameDigits(text, other, k);
    }
  }

  lemma VariantsAreFolded(text: Text, other: Text, a: Text, b: Text)
    requires IsNormal(text, a) && IsNormal(other, b) && |text| == |other|
    ensures a == b ==> SameFolded(text, other)
    ensures CaseVariant(text, other) ==> SameFolded(text, other)
  {
    hide EscapeDigit;
    if a == b {
      forall k: nat | k < |text| ensures Lower(text[k]) == Lower(other[k]) {
        assert Lower(a[k]) == Lower(text[k]) && Lower(b[k]) == Lower(other[k]);
      }
    }
  }

  /** Two texts have one normal form exactly when they differ in nothing but the case of
      the digits of their escapes, so a secret is found however those were written. */
  lemma CaseDoesNotMatter(text: Text, other: Text)
    requires |text| == |other|
    ensures NormalizedFrom(text, 0) == NormalizedFrom(other, 0) <==> CaseVariant(text, other)
  {
    var a, b := NormalizedFrom(text, 0), NormalizedFrom(other, 0);
    NormalForm(text);
    NormalForm(other);
    hide NormalizedFrom;
    hide EscapeDigit;
    VariantsAreFolded(text, other, a, b);
    if SameFolded(text, other) {
      AllSameDigits(text, other);
      hide Lower;
      if CaseVariant(text, other) {
        forall k: nat | k < |text| ensures a[k] == b[k] { assert EscapeDigit(text, k) == EscapeDigit(other, k); }
      }
      if a == b {
        forall k: nat | k < |text| ensures text[k] == other[k] || (EscapeDigit(text, k) && Lower(text[k]) == Lower(other[k])) {
          assert EscapeDigit(text, k) == EscapeDigit(other, k) && a[k] == b[k];
        }
      }
    }
  }

  /** Normalizing twice changes nothing more. */
  lemma NormalizingSettles(text: Text)
    ensures NormalizedFrom(NormalizedFrom(text, 0), 0) == NormalizedFrom(text, 0)
  {
    var normal := NormalizedFrom(text, 0);
    NormalForm(text);
    hide EscapeDigit;
    CaseDoesNotMatter(text, normal);
  }

  // One percent-encoded character

  /** A Unicode scalar value. */
  predicate Scalar(c: nat) { c < 0xD800 || 0xE000 <= c <= 0x10FFFF }

  /** RFC 3629, section 3. */
  function Utf8(c: nat): (r: seq<nat>)
    ensures 1 <= |r| <= 4
  {
    if c < 0x80 then [c]
    else if c < 0x800 then [0xC0 + c / 64, 0x80 + c % 64]
    else if c < 0x10000 then [0xE0 + c / 64 / 64, 0x80 + c / 64 % 64, 0x80 + c % 64]
    else [0xF0 + c / 64 / 64 / 64, 0x80 + c / 64 / 64 % 64, 0x80 + c / 64 % 64, 0x80 + c % 64]
  }

  function Utf16(c: nat): (r: Text)
    requires Scalar(c)
    ensures 1 <= |r| <= 2
  {
    if c < 0x10000 then [c] else [0xD800 + (c - 0x10000) / 1024, 0xDC00 + (c - 0x10000) % 1024]
  }

  predicate Trailing(b: nat) { 0x80 <= b < 0xC0 }

  /** Appends the six bits of a continuation byte. */
  function Join(high: nat, b: nat): (r: nat)
    requires Trailing(b)
    ensures r / 64 == high && r % 64 == b - 0x80
  {
    high * 64 + (b - 0x80)
  }

  /** Decodes exactly one scalar: continuation bytes, no overlong form, no surrogate,
      nothing above the last code point. */
  function DecodeUtf8(b: seq<nat>): (r: Option<nat>)
    ensures r.Some? ==> Scalar(r.value)
  {
    if |b| == 1 then (if b[0] < 0x80 then Some(b[0]) else None)
    else if |b| == 2 then
      if 0xC2 <= b[0] < 0xE0 && Trailing(b[1]) then Some(Join(b[0] - 0xC0, b[1])) else None
    else if |b| == 3 then
      if 0xE0 <= b[0] < 0xF0 && Trailing(b[1]) && Trailing(b[2]) then
        var c := Join(Join(b[0] - 0xE0, b[1]), b[2]);
        if c >= 0x800 && Scalar(c) then Some(c) else None
      else None
    else if |b| == 4 then
      if 0xF0 <= b[0] < 0xF5 && Trailing(b[1]) && Trailing(b[2]) && Trailing(b[3]) then
        var c := Join(Join(Join(b[0] - 0xF0, b[1]), b[2]), b[3]);
        if 0x10000 <= c <= 0x10FFFF then Some(c) else None
      else None
    else None
  }

  /** Decoding inverts encoding for every scalar. */
  lemma Utf8Decodes(c: nat)
    requires Scalar(c)
    ensures DecodeUtf8(Utf8(c)) == Some(c)
  {
    var q, r := c / 64, c / 64 / 64;
    assert c == q * 64 + c % 64 && q == r * 64 + q % 64 && r == r / 64 * 64 + r % 64;
    if c >= 0x80 { assert Join(q, 0x80 + c % 64) == c; }
    if c >= 0x800 { assert Join(r, 0x80 + q % 64) == q; }
    if c >= 0x10000 { assert Join(r / 64, 0x80 + r % 64) == r; }
  }

  /** Only the encoding of a scalar decodes to it. */
  lemma Utf8Unique(b: seq<nat>)
    requires DecodeUtf8(b).Some?
    ensures Utf8(DecodeUtf8(b).value) == b
  {
  }

  /** How many bytes a character starting with this byte has, or none. */
  function BytesFor(first: nat): (n: nat)
    ensures n <= 4
  {
    if first <= 0x7F then 1
    else if 0xC2 <= first <= 0xDF then 2
    else if 0xE0 <= first <= 0xEF then 3
    else if 0xF0 <= first <= 0xF4 then 4
    else 0
  }

  lemma FirstByte(c: nat)
    requires Scalar(c)
    ensures BytesFor(Utf8(c)[0]) == |Utf8(c)|
    ensures forall k :: 0 <= k < |Utf8(c)| ==> Utf8(c)[k] < 256
  {
  }

  predicate EscapeAt(text: Text, i: nat) {
    i + 2 < |text| && text[i] == PERCENT && IsHexDigit(text[i + 1]) && IsHexDigit(text[i + 2])
  }

  function ByteAt(text: Text, i: nat): (b: nat)
    requires EscapeAt(text, i)
    ensures b < 256
  {
    HexValue(text[i + 1]) * 16 + HexValue(text[i + 2])
  }

  predicate EscapesAt(text: Text, i: nat, n: nat) {
    forall k :: 0 <= k < n ==> EscapeAt(text, i + 3 * k)
  }

  function BytesAt(text: Text, i: nat, n: nat): (b: seq<nat>)
    requires EscapesAt(text, i, n)
    ensures |b| == n && forall k :: 0 <= k < n ==> b[k] == ByteAt(text, i + 3 * k)
  {
    if n == 0 then [] else BytesAt(text, i, n - 1) + [ByteAt(text, i + 3 * (n - 1))]
  }

  /** At `i` the text holds the percent-encoded UTF-8 form of the scalar `c`. */
  predicate EncodesAt(text: Text, i: nat, c: nat) {
    && Scalar(c) && EscapesAt(text, i, |Utf8(c)|)
    && BytesAt(text, i, |Utf8(c)|) == Utf8(c)
  }

  lemma EncodesOne(text: Text, i: nat, c: nat, d: nat)
    requires EncodesAt(text, i, c) && EncodesAt(text, i, d)
    ensures c == d
  {
    FirstByte(c);
    FirstByte(d);
    assert EscapeAt(text, i + 3 * 0);
    assert Utf8(c)[0] == ByteAt(text, i + 3 * 0) == Utf8(d)[0];
    Utf8Decodes(c);
    Utf8Decodes(d);
  }

  lemma EncodedShape(text: Text, i: nat, c: nat)
    requires EncodesAt(text, i, c)
    ensures EscapeAt(text, i) && BytesFor(ByteAt(text, i)) == |Utf8(c)| && EscapesAt(text, i, |Utf8(c)|)
    ensures DecodeUtf8(BytesAt(text, i, |Utf8(c)|)) == Some(c)
  {
    hide Utf8;
    hide DecodeUtf8;
    hide BytesFor;
    assert EscapeAt(text, i + 3 * 0);
    FirstByte(c);
    Utf8Decodes(c);
    assert BytesAt(text, i, |Utf8(c)|)[0] == ByteAt(text, i + 3 * 0);
  }

  lemma DecodedShape(text: Text, i: nat, n: nat)
    requires EscapesAt(text, i, n) && n > 0 && DecodeUtf8(BytesAt(text, i, n)).Some?
    ensures var c := DecodeUtf8(BytesAt(text, i, n)).value;
      EncodesAt(text, i, c) && |Utf8(c)| == n && i + 3 * n <= |text|
  {
    Utf8Unique(BytesAt(text, i, n));
    assert EscapeAt(text, i + 3 * (n - 1));
  }

  /** Reads one escaped character exactly when one is there: any well-formed UTF-8
      scalar, and nothing else. */
  method ReadPercentCharacter(text: Text, start: nat) returns (r: Option<(Text, nat)>, ghost scalar: nat)
    ensures r.Some? ==> EncodesAt(text, start, scalar) && r.value == (Utf16(scalar), 3 * |Utf8(scalar)|)
    ensures r.Some? ==> start + r.value.1 <= |text|
    ensures r.None? ==> forall c :: !EncodesAt(text, start, c)
  {
    forall c: nat | EncodesAt(text, start, c)
      ensures EscapeAt(text, start) && BytesFor(ByteAt(text, start)) == |Utf8(c)| && EscapesAt(text, start, |Utf8(c)|)
      ensures DecodeUtf8(BytesAt(text, start, |Utf8(c)|)) == Some(c)
    {
      EncodedShape(text, start, c);
    }
    hide EncodesAt;
    hide DecodeUtf8;
    hide Utf8;
    hide BytesFor;
    hide ByteAt;
    hide BytesAt;
    scalar := 0;
    if !EscapeAt(text, start) { return None, 0; }
    var first := ByteAt(text, start);
    var bytes := BytesFor(first);
    if bytes == 0 { return None, 0; }
    var byte := 1;
    while byte < bytes
      invariant 1 <= byte <= bytes && EscapesAt(text, start, byte)
    {
      if !EscapeAt(text, start + 3 * byte) { return None, 0; }
      byte := byte + 1;
    }
    var decoded := DecodeUtf8(BytesAt(text, start, bytes));
    if decoded.None? { return None, 0; }
    DecodedShape(text, start, bytes);
    return Some((Utf16(decoded.value), 3 * bytes)), decoded.value;
  }

  // Views

  /** Text with, for every unit, the original range it stands for. */
  datatype View = View(text: Text, starts: seq<nat>, ends: seq<nat>)

  predicate SurrogatePair(high: Unit, low: Unit) {
    0xD800 <= high < 0xDC00 <= low < 0xE000
  }

  predicate Shares(v: View, i: nat)
    requires i + 1 < |v.starts| == |v.ends|
  {
    v.starts[i + 1] == v.starts[i] && v.ends[i + 1] == v.ends[i]
  }

  /** Neighbouring units meet at an original boundary, or are the two halves of one
      character and share its range. */
  predicate Meet(v: View, i: nat)
    requires i + 1 < |v.text| == |v.starts| == |v.ends|
  {
    v.starts[i + 1] == v.ends[i] || (Shares(v, i) && SurrogatePair(v.text[i], v.text[i + 1]))
  }

  ghost predicate Linked(v: View) {
    && |v.starts| == |v.ends| == |v.text|
    && (forall i :: 0 <= i < |v.text| ==> v.starts[i] < v.ends[i])
    && (forall i {:trigger Meet(v, i)} :: 0 <= i < |v.text| - 1 ==> Meet(v, i))
  }

  /** The units' ranges tile the original positions without gap or overlap. */
  ghost predicate Tiles(v: View, n: nat) {
    && Linked(v) && (n == 0 <==> |v.text| == 0)
    && (n > 0 ==> v.starts[0] == 0 && v.ends[|v.text| - 1] == n)
  }

  function WholeView(text: Text): View {
    View(text, seq(|text|, i => i), seq(|text|, i => i + 1))
  }

  lemma WholeViewTiles(text: Text)
    ensures Tiles(WholeView(text), |text|)
  {
  }

  lemma {:induction false} LinkedOrder(v: View, i: nat, j: nat)
    requires Linked(v) && i <= j < |v.text|
    ensures v.starts[i] <= v.starts[j] && v.ends[i] <= v.ends[j]
    decreases j - i
  {
    if i < j {
      LinkedOrder(v, i, j - 1);
      assert Meet(v, j - 1);
    }
  }

  /** A run of units stands for exactly the original positions of its range: every
      unit's own positions lie inside, and every position inside belongs to one. */
  lemma {:induction false} RunCoversExactly(v: View, a: nat, b: nat, p: nat)
    requires Linked(v) && a < b <= |v.text|
    ensures v.starts[a] <= p < v.ends[b - 1] <==> exists i :: a <= i < b && v.starts[i] <= p < v.ends[i]
    decreases b - a
  {
    forall i | a <= i < b ensures v.starts[a] <= v.starts[i] && v.ends[i] <= v.ends[b - 1] {
      LinkedOrder(v, a, i);
      LinkedOrder(v, i, b - 1);
    }
    if a + 1 < b {
      RunCoversExactly(v, a, b - 1, p);
      assert Meet(v, b - 2);
    }
  }

  ghost function ScalarAt(text: Text, i: nat): (r: Option<nat>)
    ensures r.Some? ==> EncodesAt(text, i, r.value)
  {
    if c: nat :| EncodesAt(text, i, c) then Some(c) else None
  }

  lemma ScalarIsUnique(text: Text, i: nat, c: nat)
    requires EncodesAt(text, i, c)
    ensures ScalarAt(text, i) == Some(c)
  {
    hide EncodesAt;
    if ScalarAt(text, i).Some? { EncodesOne(text, i, c, ScalarAt(text, i).value); }
  }

  lemma EncodedFits(text: Text, i: nat, c: nat)
    requires EncodesAt(text, i, c)
    ensures i + 3 * |Utf8(c)| <= |text|
  {
    assert EscapeAt(text, i + 3 * (|Utf8(c)| - 1));
  }

  /** How much one decoding step reads, and what it emits. */
  ghost function Consumed(text: Text, i: nat): (n: nat)
    requires i < |text|
    ensures 0 < n <= |text| - i
  {
    match ScalarAt(text, i)
    case Some(c) =>
      EncodedFits(text, i, c);
      3 * |Utf8(c)|
    case None => 1
  }

  ghost function Emitted(text: Text, i: nat): Text
    requires i < |text|
  {
    match ScalarAt(text, i)
    case Some(c) => Utf16(c)
    case None => [text[i]]
  }

  /** Every complete escape replaced by its character, once, from left to right. */
  ghost function DecodedFrom(text: Text, i: nat): Text
    requires i <= |text|
    decreases |text| - i
  {
    if i == |text| then [] else Emitted(text, i) + DecodedFrom(text, i + Consumed(text, i))
  }

  /** The part of a view built from the first `index` units of another. */
  ghost predicate BuiltFrom(v: View, index: nat, built: View)
    requires index <= |v.text| == |v.starts| == |v.ends|
  {
    && Linked(built) && (index == 0 <==> |built.text| == 0)
    && (index > 0 ==> built.starts[0] == v.starts[0] && built.ends[|built.text| - 1] == v.ends[index - 1])
    && (0 < index < |v.text| && Shares(v, index - 1) ==>
          built.text[|built.text| - 1] == v.text[index - 1] && built.starts[|built.text| - 1] == v.starts[index - 1])
  }

  function Extended(v: View, units: Text, start: nat, end: nat): (r: View)
    ensures r.text == v.text + units
  {
    View(v.text + units, v.starts + seq(|units|, i => start), v.ends + seq(|units|, i => end))
  }

  lemma ExtendedLinks(built: View, units: Text, start: nat, end: nat)
    requires Linked(built) && start < end
    requires |units| == 1 || (|units| == 2 && SurrogatePair(units[0], units[1]))
    requires |built.text| > 0 ==>
      var last := |built.text| - 1;
      start == built.ends[last]
      || (|units| == 1 && SurrogatePair(built.text[last], units[0]) && start == built.starts[last] && end == built.ends[last])
    ensures Linked(Extended(built, units, start, end))
  {
    var r := Extended(built, units, start, end);
    forall i | 0 <= i < |r.text| - 1 ensures Meet(r, i) {
      if i + 1 < |built.text| { assert Meet(built, i); }
    }
  }

  lemma PlainUnitBuilds(v: View, n: nat, index: nat, built: View)
    requires Tiles(v, n) && index < |v.text| && BuiltFrom(v, index, built)
    ensures BuiltFrom(v, index + 1, Extended(built, [v.text[index]], v.starts[index], v.ends[index]))
  {
    if index > 0 { assert Meet(v, index - 1); }
    ExtendedLinks(built, [v.text[index]], v.starts[index], v.ends[index]);
  }

  /** An encoded character starts with a percent sign and ends with a hex digit. */
  lemma EncodedEnds(text: Text, i: nat, c: nat)
    requires EncodesAt(text, i, c)
    ensures Scalar(c)
    ensures var end := i + 3 * |Utf8(c)|;
      end <= |text| && text[i] == PERCENT && IsHexDigit(text[end - 1])
    ensures |Utf16(c)| == 1 || (|Utf16(c)| == 2 && SurrogatePair(Utf16(c)[0], Utf16(c)[1]))
  {
    assert EscapeAt(text, i + 3 * 0) && EscapeAt(text, i + 3 * (|Utf8(c)| - 1));
    hide Utf8;
    hide EscapesAt;
  }

  lemma RunBuilds(v: View, n: nat, index: nat, end: nat, built: View, units: Text)
    requires Tiles(v, n) && index < end <= |v.text| && BuiltFrom(v, index, built)
    requires v.text[index] == PERCENT && IsHexDigit(v.text[end - 1])
    requires |units| == 1 || (|units| == 2 && SurrogatePair(units[0], units[1]))
    ensures BuiltFrom(v, end, Extended(built, units, v.starts[index], v.ends[end - 1]))
  {
    LinkedOrder(v, index, end - 1);
    if index > 0 { assert Meet(v, index - 1); }
    ExtendedLinks(built, units, v.starts[index], v.ends[end - 1]);
    if end < |v.text| { assert Meet(v, end - 1); }
  }

  lemma EscapeBuilds(v: View, n: nat, index: nat, built: View, c: nat)
    requires Tiles(v, n) && index < |v.text| && BuiltFrom(v, index, built) && EncodesAt(v.text, index, c)
    ensures var consumed := 3 * |Utf8(c)|;
      && index + consumed <= |v.text|
      && BuiltFrom(v, index + consumed, Extended(built, Utf16(c), v.starts[index], v.ends[index + consumed - 1]))
  {
    hide *;
    EncodedEnds(v.text, index, c);
    RunBuilds(v, n, index, index + 3 * |Utf8(c)|, built, Utf16(c));
  }

  lemma StepBuilds(v: View, n: nat, index: nat, built: View)
    requires Tiles(v, n) && index < |v.text| && BuiltFrom(v, index, built)
    ensures |v.text| == |v.starts| == |v.ends|
    ensures var next := index + Consumed(v.text, index);
      BuiltFrom(v, next, Extended(built, Emitted(v.text, index), v.starts[index], v.ends[next - 1]))
  {
    hide EncodesAt;
    hide BuiltFrom;
    hide Utf16;
    hide Utf8;
    match ScalarAt(v.text, index) {
      case Some(c) => EscapeBuilds(v, n, index, built, c);
      case None => PlainUnitBuilds(v, n, index, built);
    }
  }

  method NextUnits(text: Text, index: nat) returns (units: Text, consumed: nat)
    requires index < |text|
    ensures units == Emitted(text, index) && consumed == Consumed(text, index)
  {
    var decoded, scalar := ReadPercentCharacter(text, index);
    if decoded.Some? { ScalarIsUnique(text, index, scalar); }
    hide EncodesAt;
    hide Utf8;
    hide Utf16;
    return if decoded.Some? then decoded.value.0 else [text[index]], if decoded.Some? then decoded.value.1 else 1;
  }

  lemma BuiltTiles(v: View, n: nat, built: View)
    requires Tiles(v, n) && BuiltFrom(v, |v.text|, built)
    ensures Tiles(built, n)
  {
  }

  lemma DecodedStep(text: Text, before: Text, i: nat)
    requires i < |text|
    ensures (before + Emitted(text, i)) + DecodedFrom(text, i + Consumed(text, i)) == before + DecodedFrom(text, i)
  {
  }

  /** A view built so far whose text, with the rest still to decode, is the decoded text. */
  ghost predicate Halfway(v: View, index: nat, built: View)
    requires index <= |v.text| == |v.starts| == |v.ends|
  {
    BuiltFrom(v, index, built) && built.text + DecodedFrom(v.text, index) == DecodedFrom(v.text, 0)
  }

  lemma HalfwayEnds(v: View, n: nat, built: View)
    requires Tiles(v, n)
    ensures Halfway(v, 0, View([], [], []))
    ensures Halfway(v, |v.text|, built) ==> Tiles(built, n) && built.text == DecodedFrom(v.text, 0)
  {
    if Halfway(v, |v.text|, built) { BuiltTiles(v, n, built); }
  }

  method DecodeNext(v: View, ghost n: nat, index: nat, built: View) returns (next: nat, r: View)
    requires Tiles(v, n) && index < |v.text| && Halfway(v, index, built)
    ensures index < next <= |v.text| && Halfway(v, next, r)
  {
    hide *;
    HalfwayNext(v, n, index, built);
    var units, consumed := NextUnits(v.text, index);
    next := index + consumed;
    r := Extended(built, units, v.starts[index], v.ends[next - 1]);
  }

  lemma HalfwayNext(v: View, n: nat, index: nat, built: View)
    requires Tiles(v, n) && index < |v.text| && Halfway(v, index, built)
    ensures |v.text| == |v.starts| == |v.ends|
    ensures var next := index + Consumed(v.text, index);
      Halfway(v, next, Extended(built, Emitted(v.text, index), v.starts[index], v.ends[next - 1]))
  {
    hide *;
    var next := index + Consumed(v.text, index);
    TileLengths(v, n);
    HalfwayHas(v, index, built);
    StepBuilds(v, n, index, built);
    DecodedStep(v.text, built.text, index);
    HalfwayIs(v, next, Extended(built, Emitted(v.text, index), v.starts[index], v.ends[next - 1]));
  }

  lemma TileLengths(v: View, n: nat)
    requires Tiles(v, n)
    ensures |v.text| == |v.starts| == |v.ends|
  {
  }

  lemma HalfwayHas(v: View, index: nat, built: View)
    requires index <= |v.text| == |v.starts| == |v.ends| && Halfway(v, index, built)
    ensures BuiltFrom(v, index, built) && built.text + DecodedFrom(v.text, index) == DecodedFrom(v.text, 0)
  {
  }

  lemma HalfwayIs(v: View, index: nat, built: View)
    requires index <= |v.text| == |v.starts| == |v.ends|
    requires BuiltFrom(v, index, built) && built.text + DecodedFrom(v.text, index) == DecodedFrom(v.text, 0)
    ensures Halfway(v, index, built)
  {
  }

  /** One decoding pass: the decoded text, still tiling the same original positions. */
  method DecodePercentView(v: View, ghost n: nat) returns (r: View)
    requires Tiles(v, n)
    ensures Tiles(r, n) && r.text == DecodedFrom(v.text, 0)
  {
    r := View([], [], []);
    HalfwayEnds(v, n, r);
    var index := 0;
    while index < |v.text|
      invariant index <= |v.text| && Halfway(v, index, r)
    {
      index, r := DecodeNext(v, n, index, r);
    }
    HalfwayEnds(v, n, r);
  }

  // Encoding, for comparison

  function HexDigit(v: nat): Unit
    requires v < 16
  {
    if v < 10 then 0x30 + v else 0x41 + v - 10
  }

  function EncodeBytes(b: seq<nat>): (r: Text)
    requires forall k :: 0 <= k < |b| ==> b[k] < 256
    ensures |r| == 3 * |b|
  {
    if b == [] then [] else [PERCENT, HexDigit(b[0] / 16), HexDigit(b[0] % 16)] + EncodeBytes(b[1..])
  }

  lemma {:induction false} EncodedByte(b: seq<nat>, k: nat)
    requires k < |b| && forall j :: 0 <= j < |b| ==> b[j] < 256
    ensures var r := EncodeBytes(b);
      r[3 * k] == PERCENT && r[3 * k + 1] == HexDigit(b[k] / 16) && r[3 * k + 2] == HexDigit(b[k] % 16)
  {
    if k > 0 {
      EncodedByte(b[1..], k - 1);
      assert EncodeBytes(b)[3..] == EncodeBytes(b[1..]);
    }
  }

  lemma EncodedReads(text: Text, i: nat, b: seq<nat>)
    requires forall j :: 0 <= j < |b| ==> b[j] < 256
    requires i + 3 * |b| <= |text| && text[i..i + 3 * |b|] == EncodeBytes(b)
    ensures EscapesAt(text, i, |b|) && BytesAt(text, i, |b|) == b
  {
    forall k | 0 <= k < |b| ensures EscapeAt(text, i + 3 * k) && ByteAt(text, i + 3 * k) == b[k] {
      EncodedByte(b, k);
      var r := text[i..i + 3 * |b|];
      assert text[i + 3 * k] == r[3 * k] && text[i + 3 * k + 1] == r[3 * k + 1] && text[i + 3 * k + 2] == r[3 * k + 2];
    }
  }

  predicate AllScalars(cs: seq<nat>) { forall k :: 0 <= k < |cs| ==> Scalar(cs[k]) }

  function EncodedCharacter(c: nat): (r: Text)
    requires Scalar(c)
    ensures |r| == 3 * |Utf8(c)|
  {
    FirstByte(c);
    EncodeBytes(Utf8(c))
  }

  function EncodedText(cs: seq<nat>): Text
    requires AllScalars(cs)
  {
    if cs == [] then [] else EncodedCharacter(cs[0]) + EncodedText(cs[1..])
  }

  function PlainText(cs: seq<nat>): Text
    requires AllScalars(cs)
  {
    if cs == [] then [] else Utf16(cs[0]) + PlainText(cs[1..])
  }

  lemma EncodedIsFound(text: Text, i: nat, c: nat)
    requires Scalar(c) && i + 3 * |Utf8(c)| <= |text| && text[i..i + 3 * |Utf8(c)|] == EncodedCharacter(c)
    ensures EncodesAt(text, i, c)
  {
    FirstByte(c);
    EncodedReads(text, i, Utf8(c));
  }

  lemma EncodedSplits(text: Text, i: nat, cs: seq<nat>)
    requires AllScalars(cs) && cs != [] && i <= |text| && text[i..] == EncodedText(cs)
    ensures var n := 3 * |Utf8(cs[0])|;
      && i < i + n <= |text| && AllScalars(cs[1..]) && text[i + n..] == EncodedText(cs[1..])
      && text[i..i + n] == EncodedCharacter(cs[0])
  {
    hide EncodedCharacter;
    hide Utf8;
    var n := 3 * |Utf8(cs[0])|;
    assert text[i..][..n] == text[i..i + n] && text[i..][n..] == text[i + n..];
  }

  lemma CharacterDecodes(text: Text, i: nat, c: nat)
    requires i < |text| && EncodesAt(text, i, c)
    ensures Scalar(c) && i + 3 * |Utf8(c)| <= |text|
    ensures DecodedFrom(text, i) == Utf16(c) + DecodedFrom(text, i + 3 * |Utf8(c)|)
  {
    hide Utf8;
    hide Utf16;
    ScalarIsUnique(text, i, c);
    EncodedFits(text, i, c);
    assert Scalar(c);
    hide EncodesAt;
  }

  lemma PlainStarts(cs: seq<nat>)
    requires AllScalars(cs) && cs != []
    ensures AllScalars(cs[1..]) && PlainText(cs) == Utf16(cs[0]) + PlainText(cs[1..])
  {
  }

  lemma NothingEncoded(text: Text, i: nat)
    requires i <= |text| && text[i..] == EncodedText([])
    ensures DecodedFrom(text, i) == [] == PlainText([])
  {
    assert |text[i..]| == 0;
  }

  /** One decoding pass gives back any Unicode text from its percent-encoded form. */
  lemma {:induction false} DecodingInvertsEncoding(text: Text, i: nat, cs: seq<nat>)
    requires AllScalars(cs) && i <= |text| && text[i..] == EncodedText(cs)
    ensures DecodedFrom(text, i) == PlainText(cs)
    decreases |cs|
  {
    hide *;
    if cs == [] {
      NothingEncoded(text, i);
    } else {
      PlainStarts(cs);
      EncodedSplits(text, i, cs);
      FirstIsScalar(cs);
      EncodedIsFound(text, i, cs[0]);
      CharacterDecodes(text, i, cs[0]);
      DecodingInvertsEncoding(text, i + 3 * |Utf8(cs[0])|, cs[1..]);
    }
  }

  lemma FirstIsScalar(cs: seq<nat>)
    requires AllScalars(cs) && cs != []
    ensures Scalar(cs[0])
  {
  }
}
