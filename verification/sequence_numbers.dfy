/** Prefixed sequence numbers: printing, parsing back, and the order of the stored strings. */
module SequenceNumbers {
  import opened Options

  // ---------- decimal digits ----------

  predicate IsDigit(c: char) { '0' <= c <= '9' }

  predicate AllDigits(s: string) { forall i :: 0 <= i < |s| ==> IsDigit(s[i]) }

  function Digit(d: nat): char
    requires d < 10
  {
    ('0' as int + d) as char
  }

  function DigitValue(c: char): nat
    requires IsDigit(c)
  {
    c as int - '0' as int
  }

  /** `String(n)`. */
  function Digits(n: nat): string {
    if n < 10 then [Digit(n)] else Digits(n / 10) + [Digit(n % 10)]
  }

  function Value(s: string): nat
    requires AllDigits(s)
  {
    if s == [] then 0 else 10 * Value(s[..|s| - 1]) + DigitValue(s[|s| - 1])
  }

  function Pow10(k: nat): (r: nat)
    ensures r >= 1
  {
    if k == 0 then 1 else 10 * Pow10(k - 1)
  }

  lemma {:induction false} DigitsRoundTrip(n: nat)
    ensures AllDigits(Digits(n)) && |Digits(n)| > 0 && Value(Digits(n)) == n
  {
    if n < 10 {
      assert Digits(n)[..0] == [];
    } else {
      DigitsRoundTrip(n / 10);
      assert Digits(n)[..|Digits(n)| - 1] == Digits(n / 10);
    }
  }

  lemma {:induction false} ValueBelowPow(s: string)
    requires AllDigits(s)
    ensures Value(s) < Pow10(|s|)
  {
    if s != [] { ValueBelowPow(s[..|s| - 1]); }
  }

  /** A number has at most k digits exactly when it is below 10^k. */
  lemma {:induction false} DigitCount(n: nat, k: nat)
    requires k > 0
    ensures |Digits(n)| <= k <==> n < Pow10(k)
  {
    if n < 10 {
      assert Pow10(k) == 10 * Pow10(k - 1);
    } else if k == 1 {
      assert Pow10(1) == 10 * Pow10(0);
      assert |Digits(n / 10)| > 0 by { DigitsRoundTrip(n / 10); }
    } else {
      DigitCount(n / 10, k - 1);
      assert Pow10(k) == 10 * Pow10(k - 1);
    }
  }

  function Zeros(k: nat): string { seq(k, i => '0') }

  /** `padStart(width, '0')`. */
  function PadStart(s: string, width: nat): (r: string) {
    if |s| < width then Zeros(width - |s|) + s else s
  }

  lemma {:induction false} ValueIgnoresZeros(k: nat, s: string)
    requires AllDigits(s)
    ensures AllDigits(Zeros(k) + s) && Value(Zeros(k) + s) == Value(s)
  {
    if s == [] {
      assert Zeros(k) + s == Zeros(k);
      ZerosAreZero(k);
    } else {
      ValueIgnoresZeros(k, s[..|s| - 1]);
      assert (Zeros(k) + s)[..|Zeros(k) + s| - 1] == Zeros(k) + s[..|s| - 1];
    }
  }

  lemma {:induction false} ZerosAreZero(k: nat)
    ensures AllDigits(Zeros(k)) && Value(Zeros(k)) == 0
  {
    if k > 0 {
      ZerosAreZero(k - 1);
      assert Zeros(k)[..k - 1] == Zeros(k - 1);
    }
  }

  /** A padded number has exactly the padded width when it fits, and still reads as itself. */
  lemma PaddedFacts(n: nat, pad: nat)
    requires pad > 0
    ensures var s := PadStart(Digits(n), pad);
            && AllDigits(s) && Value(s) == n && |s| > 0
            && (n < Pow10(pad) ==> |s| == pad)
  {
    DigitsRoundTrip(n);
    DigitCount(n, pad);
    if |Digits(n)| < pad {
      ValueIgnoresZeros(pad - |Digits(n)|, Digits(n));
    }
  }

  // ---------- the utility itself ----------

  /** The part after the last '-', or the whole string. */
  function LastSegment(s: string): string {
    if s == [] then [] else if s[|s| - 1] == '-' then [] else LastSegment(s[..|s| - 1]) + [s[|s| - 1]]
  }

  predicate IsSpace(c: char) { c == ' ' || c == '\t' || c == '\n' || c == '\r' }

  function SkipSpaces(s: string): string {
    if s != [] && IsSpace(s[0]) then SkipSpaces(s[1..]) else s
  }

  function DigitPrefix(s: string): (r: string)
    ensures AllDigits(r)
  {
    if s != [] && IsDigit(s[0]) then [s[0]] + DigitPrefix(s[1..]) else []
  }

  /** `parseInt(s, 10)` of a segment (which holds no '-'); None is NaN. */
  function ParseInt(s: string): Option<nat> {
    var t := SkipSpaces(s);
    var digits := DigitPrefix(if t != [] && t[0] == '+' then t[1..] else t);
    if digits == [] then None else Some(Value(digits))
  }

  /** The number after the one that can be read at the end of `last`; one when there is none. */
  function NextNumber(last: Option<string>): nat {
    if last.None? || last.value == [] then 1
    else
      var segment := LastSegment(last.value);
      if segment == [] then 1
      else match ParseInt(segment) case None => 1 case Some(n) => n + 1
  }

  function Format(prefix: string, pad: nat, n: nat): string {
    prefix + PadStart(Digits(n), pad)
  }

  function BuildNextSequenceNumber(last: Option<string>, prefix: string, pad: nat): string {
    Format(prefix, pad, NextNumber(last))
  }

  // ---------- parsing undoes printing ----------

  /** A prefix ends with its separator. */
  predicate IsPrefix(prefix: string) { prefix == [] || prefix[|prefix| - 1] == '-' }

  lemma {:induction false} LastSegmentOfDigits(prefix: string, s: string)
    requires IsPrefix(prefix) && AllDigits(s)
    ensures LastSegment(prefix + s) == s
  {
    if s == [] {
      assert prefix + s == prefix;
    } else {
      LastSegmentOfDigits(prefix, s[..|s| - 1]);
      assert (prefix + s)[..|prefix + s| - 1] == prefix + s[..|s| - 1];
    }
  }

  lemma {:induction false} DigitPrefixOfDigits(s: string)
    requires AllDigits(s)
    ensures DigitPrefix(s) == s
  {
    if s != [] { DigitPrefixOfDigits(s[1..]); }
  }

  lemma ParseUndoesPrint(prefix: string, pad: nat, n: nat)
    requires IsPrefix(prefix) && pad > 0
    ensures ParseInt(LastSegment(Format(prefix, pad, n))) == Some(n)
    ensures NextNumber(Some(Format(prefix, pad, n))) == n + 1
  {
    var s := PadStart(Digits(n), pad);
    PaddedFacts(n, pad);
    LastSegmentOfDigits(prefix, s);
    DigitPrefixOfDigits(s);
    assert IsDigit(s[0]);
  }

  /** Nothing stored, or a last segment that starts with no digit: the numbering starts at one. */
  lemma StartsAtOne(last: Option<string>)
    requires last == None || LastSegment(last.value) == []
             || (var c := LastSegment(last.value)[0]; !IsDigit(c) && !IsSpace(c) && c != '+')
    ensures NextNumber(last) == 1
  {
  }

  /** Whatever follows the digits of the last segment is ignored. */
  lemma RestIsIgnored(prefix: string, digits: string, rest: string)
    requires IsPrefix(prefix) && AllDigits(digits) && digits != []
    requires rest != [] ==> !IsDigit(rest[0])
    requires forall i :: 0 <= i < |rest| ==> rest[i] != '-'
    ensures NextNumber(Some(prefix + digits + rest)) == Value(digits) + 1
  {
    var segment := digits + rest;
    assert prefix + digits + rest == prefix + segment;
    LastSegmentWithoutDash(prefix, segment);
    DigitPrefixStops(digits, rest);
    StartingDigitParses(segment);
    hide ParseInt, LastSegment, DigitPrefix, Value;
  }

  /** Blanks, tabs and line ends before the digits are skipped, and then one plus sign. */
  lemma {:induction false} BlanksAndPlusAreSkipped(blanks: string, digits: string)
    requires forall i :: 0 <= i < |blanks| ==> blanks[i] in " \t\n\r"
    requires AllDigits(digits) && digits != []
    ensures ParseInt(blanks + digits) == Some(Value(digits)) == ParseInt(blanks + "+" + digits)
  {
    DigitPrefixOfDigits(digits);
    assert blanks + "+" + digits == blanks + ("+" + digits);
    BlanksSkipped(blanks, digits);
    BlanksSkipped(blanks, "+" + digits);
    assert ("+" + digits)[1..] == digits;
    hide Value, DigitPrefix, SkipSpaces;
  }

  lemma {:induction false} BlanksSkipped(blanks: string, rest: string)
    requires forall i :: 0 <= i < |blanks| ==> blanks[i] in " \t\n\r"
    requires rest != [] && rest[0] !in " \t\n\r"
    ensures SkipSpaces(blanks + rest) == rest
  {
    if blanks == [] {
      assert blanks + rest == rest;
    } else {
      BlanksSkipped(blanks[1..], rest);
      assert (blanks + rest)[1..] == blanks[1..] + rest;
    }
  }

  lemma StartingDigitParses(s: string)
    requires s != [] && IsDigit(s[0])
    ensures DigitPrefix(s) != [] && ParseInt(s) == Some(Value(DigitPrefix(s)))
  {
    assert SkipSpaces(s) == s;
  }

  lemma {:induction false} LastSegmentWithoutDash(prefix: string, s: string)
    requires IsPrefix(prefix) && forall i :: 0 <= i < |s| ==> s[i] != '-'
    ensures LastSegment(prefix + s) == s
  {
    if s == [] {
      assert prefix + s == prefix;
    } else {
      LastSegmentWithoutDash(prefix, s[..|s| - 1]);
      assert (prefix + s)[..|prefix + s| - 1] == prefix + s[..|s| - 1];
    }
  }

  lemma {:induction false} DigitPrefixStops(digits: string, rest: string)
    requires AllDigits(digits) && (rest != [] ==> !IsDigit(rest[0]))
    ensures DigitPrefix(digits + rest) == digits
  {
    if digits == [] {
      assert digits + rest == rest;
    } else {
      DigitPrefixStops(digits[1..], rest);
      assert (digits + rest)[1..] == digits[1..] + rest;
    }
  }

  lemma FormatInjective(prefix: string, pad: nat, m: nat, n: nat)
    requires IsPrefix(prefix) && pad > 0 && Format(prefix, pad, m) == Format(prefix, pad, n)
    ensures m == n
  {
    ParseUndoesPrint(prefix, pad, m);
    ParseUndoesPrint(prefix, pad, n);
  }

  // ---------- the order of the stored strings ----------

  predicate LexLess(a: string, b: string) {
    b != [] && (a == [] || a[0] < b[0] || (a[0] == b[0] && LexLess(a[1..], b[1..])))
  }

  lemma {:induction false} LexTotal(a: string, b: string)
    ensures a == b || LexLess(a, b) || LexLess(b, a)
    ensures !(LexLess(a, b) && LexLess(b, a)) && !LexLess(a, a)
  {
    if a != [] && b != [] {
      LexTotal(a[1..], b[1..]);
      LexTotal(a[1..], a[1..]);
      assert a == [a[0]] + a[1..] && b == [b[0]] + b[1..];
    } else if a != [] {
      LexTotal(a[1..], a[1..]);
    }
  }

  lemma {:induction false} LexTransitive(a: string, b: string, c: string)
    requires LexLess(a, b) && LexLess(b, c)
    ensures LexLess(a, c)
  {
    if a != [] && b != [] && c != [] && a[0] == b[0] == c[0] {
      LexTransitive(a[1..], b[1..], c[1..]);
    }
  }

  lemma {:induction false} LexUnderPrefix(p: string, a: string, b: string)
    ensures LexLess(p + a, p + b) <==> LexLess(a, b)
  {
    if p == [] {
      assert p + a == a && p + b == b;
    } else {
      LexUnderPrefix(p[1..], a, b);
      assert (p + a)[1..] == p[1..] + a && (p + b)[1..] == p[1..] + b;
    }
  }

  lemma {:induction false} ValueFromFront(s: string)
    requires AllDigits(s) && s != []
    ensures Value(s) == DigitValue(s[0]) * Pow10(|s| - 1) + Value(s[1..])
  {
    if |s| == 1 {
      assert s[..0] == [] && s[1..] == [];
    } else {
      ValueFromFront(s[..|s| - 1]);
      assert s[..|s| - 1][1..] == s[1..][..|s| - 2];
      FrontStep(DigitValue(s[0]), |s|, Value(s[1..][..|s| - 2]), DigitValue(s[|s| - 1]));
    }
  }

  lemma FrontStep(d: nat, len: nat, rest: nat, last: nat)
    requires len >= 2
    ensures 10 * (d * Pow10(len - 2) + rest) + last == d * Pow10(len - 1) + (10 * rest + last)
  {
    assert Pow10(len - 1) == 10 * Pow10(len - 2);
    calc {
      d * Pow10(len - 1);
      d * (10 * Pow10(len - 2));
      10 * (d * Pow10(len - 2));
    }
  }

  /** On digit strings of one length, the order of the strings is the order of the numbers. */
  lemma {:induction false} LexIsNumericAtEqualLength(a: string, b: string)
    requires AllDigits(a) && AllDigits(b) && |a| == |b|
    ensures LexLess(a, b) <==> Value(a) < Value(b)
  {
    if a != [] {
      LexIsNumericAtEqualLength(a[1..], b[1..]);
      ValueFromFront(a);
      ValueFromFront(b);
      ValueBelowPow(a[1..]);
      ValueBelowPow(b[1..]);
      LeadingDigit(DigitValue(a[0]), DigitValue(b[0]), Pow10(|a| - 1), Value(a[1..]), Value(b[1..]));
      LeadingDigit(DigitValue(b[0]), DigitValue(a[0]), Pow10(|a| - 1), Value(b[1..]), Value(a[1..]));
    }
  }

  lemma LeadingDigit(d: nat, e: nat, p: nat, x: nat, y: nat)
    requires x < p && y < p
    ensures d < e ==> d * p + x < e * p + y
  {
    if d < e {
      assert (d + 1) * p <= e * p;
      assert (d + 1) * p == d * p + p;
    }
  }

  /** While both numbers fit the padding, the stored strings sort like the numbers. */
  lemma FormatOrder(prefix: string, pad: nat, m: nat, n: nat)
    requires pad > 0 && m < Pow10(pad) && n < Pow10(pad)
    ensures LexLess(Format(prefix, pad, m), Format(prefix, pad, n)) <==> m < n
  {
    PaddedFacts(m, pad);
    PaddedFacts(n, pad);
    LexIsNumericAtEqualLength(PadStart(Digits(m), pad), PadStart(Digits(n), pad));
    LexUnderPrefix(prefix, PadStart(Digits(m), pad), PadStart(Digits(n), pad));
  }

  lemma {:induction false} LeadingOne(k: nat)
    ensures Digits(Pow10(k))[0] == '1' && |Digits(Pow10(k))| == k + 1
  {
    if k > 0 {
      LeadingOne(k - 1);
    }
  }

  lemma {:induction false} LeadingNine(k: nat)
    requires k > 0
    ensures Pow10(k) >= 10 && Digits(Pow10(k) - 1)[0] == '9' && |Digits(Pow10(k) - 1)| == k
  {
    if k == 1 {
      assert Pow10(1) == 10 * Pow10(0);
    } else {
      LeadingNine(k - 1);
      assert (Pow10(k) - 1) / 10 == Pow10(k - 1) - 1;
    }
  }

  /** One step past the padding the order turns round: 10^pad sorts below 10^pad - 1. */
  lemma OverflowSortsLow(prefix: string, pad: nat)
    requires pad > 0
    ensures LexLess(Format(prefix, pad, Pow10(pad)), Format(prefix, pad, Pow10(pad) - 1))
  {
    LeadingOne(pad);
    LeadingNine(pad);
    LexUnderPrefix(prefix, PadStart(Digits(Pow10(pad)), pad), PadStart(Digits(Pow10(pad) - 1), pad));
  }

  // ---------- what the generator returns ----------

  ghost predicate IsLexMax(stored: set<string>, s: string) {
    s in stored && forall t :: t in stored && t != s ==> LexLess(t, s)
  }

  /** The stored strings are numbers of this prefix, none of them zero. */
  ghost predicate Numbered(stored: set<string>, prefix: string, pad: nat, ns: set<nat>) {
    && (forall n :: n in ns ==> n > 0 && Format(prefix, pad, n) in stored)
    && (forall s :: s in stored ==> exists n :: n in ns && s == Format(prefix, pad, n))
  }

  /**
   While every stored number is below 10^pad, the greatest string holds the greatest number, and the
   next number is fresh and above all of them.
   */
  lemma NextIsFreshBelowBound(stored: set<string>, prefix: string, pad: nat, ns: set<nat>, last: string)
    requires IsPrefix(prefix) && pad > 0 && Numbered(stored, prefix, pad, ns)
    requires IsLexMax(stored, last) && forall n :: n in ns ==> n < Pow10(pad)
    ensures var next := NextNumber(Some(last));
            && next - 1 in ns && last == Format(prefix, pad, next - 1)
            && (forall n :: n in ns ==> n < next)
            && BuildNextSequenceNumber(Some(last), prefix, pad) !in stored
  {
    var top :| top in ns && last == Format(prefix, pad, top);
    ParseUndoesPrint(prefix, pad, top);
    forall n | n in ns ensures n <= top {
      FormatOrder(prefix, pad, top, n);
      LexTotal(Format(prefix, pad, n), last);
    }
    var next := Format(prefix, pad, top + 1);
    if next in stored {
      var n :| n in ns && next == Format(prefix, pad, n);
      FormatInjective(prefix, pad, top + 1, n);
    }
  }

  // ---------- when the next number is taken, for any table ----------

  /** Numbers printed at one width sort like numbers. */
  lemma SameWidthOrder(prefix: string, pad: nat, m: nat, n: nat)
    requires pad > 0 && |PadStart(Digits(m), pad)| == |PadStart(Digits(n), pad)|
    ensures LexLess(Format(prefix, pad, m), Format(prefix, pad, n)) <==> m < n
  {
    PaddedFacts(m, pad);
    PaddedFacts(n, pad);
    LexIsNumericAtEqualLength(PadStart(Digits(m), pad), PadStart(Digits(n), pad));
    LexUnderPrefix(prefix, PadStart(Digits(m), pad), PadStart(Digits(n), pad));
  }

  /** A number is printed wider than the one before it only when it is a power of ten past the padding. */
  lemma WidthGrowsAtPowers(pad: nat, n: nat) returns (j: nat)
    requires pad > 0 && |PadStart(Digits(n), pad)| != |PadStart(Digits(n + 1), pad)|
    ensures j >= pad && n + 1 == Pow10(j)
  {
    j := |Digits(n)|;
    DigitsRoundTrip(n);
    DigitCount(n, j);
    DigitCount(n, pad);
    DigitCount(n + 1, pad);
    DigitCount(n + 1, j);
    if n + 1 < Pow10(j) {
      DigitsRoundTrip(n + 1);
      FewerDigits(n, n + 1);
    }
    LeadingOne(j);
  }

  lemma FewerDigits(m: nat, n: nat)
    requires m <= n
    ensures |Digits(m)| <= |Digits(n)|
  {
    DigitsRoundTrip(n);
    DigitCount(n, |Digits(n)|);
    DigitCount(m, |Digits(n)|);
  }

  /** The greatest stored string is 10^j - 1 for some j past the padding, and 10^j is stored as well. */
  ghost predicate Exhausted(stored: set<string>, prefix: string, pad: nat, j: nat) {
    && j >= pad
    && IsLexMax(stored, Format(prefix, pad, Pow10(j) - 1))
    && Format(prefix, pad, Pow10(j)) in stored
  }

  /** Whatever the table holds, gaps included: the generated number is taken exactly when the table is exhausted. */
  lemma NextTakenIff(stored: set<string>, prefix: string, pad: nat, ns: set<nat>, last: string)
    requires IsPrefix(prefix) && pad > 0 && Numbered(stored, prefix, pad, ns) && IsLexMax(stored, last)
    ensures BuildNextSequenceNumber(Some(last), prefix, pad) in stored <==>
            exists j :: Exhausted(stored, prefix, pad, j)
  {
    var top :| top in ns && last == Format(prefix, pad, top);
    ParseUndoesPrint(prefix, pad, top);
    var next := Format(prefix, pad, top + 1);
    hide Format, LexLess;
    if next in stored {
      if |PadStart(Digits(top), pad)| == |PadStart(Digits(top + 1), pad)| {
        SameWidthOrder(prefix, pad, top, top + 1);
        LexTotal(last, next);
        assert false;
      }
      var j := WidthGrowsAtPowers(pad, top);
      assert Exhausted(stored, prefix, pad, j);
    }
    if j :| Exhausted(stored, prefix, pad, j) {
      GreatestIsUnique(stored, last, Format(prefix, pad, Pow10(j) - 1));
      FormatInjective(prefix, pad, top, Pow10(j) - 1);
    }
  }

  lemma GreatestIsUnique(stored: set<string>, a: string, b: string)
    requires IsLexMax(stored, a) && IsLexMax(stored, b)
    ensures a == b
  {
    LexTotal(a, b);
  }

  lemma {:induction false} PowersGrow(i: nat, j: nat)
    requires i < j
    ensures Pow10(i) < Pow10(j)
  {
    if i < j - 1 { PowersGrow(i, j - 1); }
  }

  /**
   With no number above 10^pad, gaps or not: the generated number is taken exactly when 10^pad - 1 and
   10^pad are both stored, and then it is 10^pad, every time.
   */
  lemma TakenUpToPaddingIff(stored: set<string>, prefix: string, pad: nat, ns: set<nat>, last: string)
    requires IsPrefix(prefix) && pad > 0 && Numbered(stored, prefix, pad, ns) && IsLexMax(stored, last)
    requires forall n :: n in ns ==> n <= Pow10(pad)
    ensures var both := Pow10(pad) in ns && Pow10(pad) - 1 in ns;
            var next := BuildNextSequenceNumber(Some(last), prefix, pad);
            && (next in stored <==> both)
            && (both ==> next == Format(prefix, pad, Pow10(pad)))
  {
    NextTakenIff(stored, prefix, pad, ns, last);
    hide *;
    if Pow10(pad) in ns && Pow10(pad) - 1 in ns {
      BothExhaust(stored, prefix, pad, ns, last);
    }
    if j :| Exhausted(stored, prefix, pad, j) {
      ExhaustedHoldsBoth(stored, prefix, pad, ns, j);
    }
  }

  lemma NumberIsStored(stored: set<string>, prefix: string, pad: nat, ns: set<nat>, n: nat)
    requires Numbered(stored, prefix, pad, ns) && n in ns
    ensures Format(prefix, pad, n) in stored
  {
    hide Format;
  }

  lemma PowerStep(pad: nat)
    requires pad > 0
    ensures Pow10(pad) == 10 * Pow10(pad - 1) && Pow10(pad - 1) >= 1
  {
  }

  lemma {:induction false} BothExhaust(stored: set<string>, prefix: string, pad: nat, ns: set<nat>, last: string)
    requires IsPrefix(prefix) && pad > 0 && Numbered(stored, prefix, pad, ns) && IsLexMax(stored, last)
    requires forall n :: n in ns ==> n <= Pow10(pad)
    requires Pow10(pad) in ns && Pow10(pad) - 1 in ns
    ensures Exhausted(stored, prefix, pad, pad)
    ensures BuildNextSequenceNumber(Some(last), prefix, pad) == Format(prefix, pad, Pow10(pad))
  {
    PowerStep(pad);
    hide LexLess, IsLexMax, Format, NextNumber, Pow10, Numbered;
    NumberIsStored(stored, prefix, pad, ns, Pow10(pad));
    GreatestUpToPadding(stored, prefix, pad, ns, Pow10(pad) - 1);
    GreatestIsUnique(stored, last, Format(prefix, pad, Pow10(pad) - 1));
    ParseUndoesPrint(prefix, pad, Pow10(pad) - 1);
  }

  lemma ExhaustedHoldsBoth(stored: set<string>, prefix: string, pad: nat, ns: set<nat>, j: nat)
    requires IsPrefix(prefix) && pad > 0 && Numbered(stored, prefix, pad, ns) && Exhausted(stored, prefix, pad, j)
    requires forall n :: n in ns ==> n <= Pow10(pad)
    ensures Pow10(pad) in ns && Pow10(pad) - 1 in ns
  {
    hide Format, LexLess;
    StoredIsNumbered(stored, prefix, pad, ns, Pow10(j));
    StoredIsNumbered(stored, prefix, pad, ns, Pow10(j) - 1);
    if pad < j { PowersGrow(pad, j); }
  }

  lemma StoredIsNumbered(stored: set<string>, prefix: string, pad: nat, ns: set<nat>, n: nat)
    requires IsPrefix(prefix) && pad > 0 && Numbered(stored, prefix, pad, ns) && Format(prefix, pad, n) in stored
    ensures n in ns
  {
    hide Format;
    var m :| m in ns && Format(prefix, pad, n) == Format(prefix, pad, m);
    FormatInjective(prefix, pad, n, m);
  }

  lemma {:induction false} LexAgainstLonger(a: string, b: string)
    requires |a| < |b|
    ensures LexLess(a, b) <==> LexLess(a, b[..|a|]) || a == b[..|a|]
  {
    if a != [] {
      LexAgainstLonger(a[1..], b[1..]);
      assert b[..|a|][1..] == b[1..][..|a| - 1];
      assert a == [a[0]] + a[1..] && b[..|a|] == [b[0]] + b[1..][..|a| - 1];
    }
  }

  /** 10^pad sorts among the padded numbers directly after 10^(pad - 1). */
  lemma WherePaddingOverflowSorts(prefix: string, pad: nat, n: nat)
    requires pad > 0 && n < Pow10(pad)
    ensures LexLess(Format(prefix, pad, n), Format(prefix, pad, Pow10(pad))) <==> n <= Pow10(pad - 1)
  {
    var a, b := PadStart(Digits(n), pad), PadStart(Digits(Pow10(pad)), pad);
    PaddedFacts(n, pad);
    LeadingOne(pad);
    LeadingOne(pad - 1);
    assert b == Digits(Pow10(pad)) && b[..pad] == Digits(Pow10(pad - 1));
    LexUnderPrefix(prefix, a, b);
    LexAgainstLonger(a, b);
    DigitsRoundTrip(Pow10(pad - 1));
    LexIsNumericAtEqualLength(a, b[..pad]);
    LexIsNumericAtEqualLength(b[..pad], a);
    LexTotal(a, b[..pad]);
  }

  /**
   With no number above 10^pad, which one sorts last: the greatest below 10^pad, unless 10^pad is stored
   and all others are at most 10^(pad - 1).
   */
  lemma GreatestUpToPadding(stored: set<string>, prefix: string, pad: nat, ns: set<nat>, top: nat)
    requires IsPrefix(prefix) && pad > 0 && Numbered(stored, prefix, pad, ns)
    requires forall n :: n in ns ==> n <= Pow10(pad)
    requires top in ns
    ensures IsLexMax(stored, Format(prefix, pad, top)) <==>
            if top == Pow10(pad) then forall n :: n in ns ==> n <= Pow10(pad - 1) || n == Pow10(pad)
            else (forall n :: n in ns ==> n <= top || n == Pow10(pad)) && (Pow10(pad) in ns ==> top > Pow10(pad - 1))
  {
    hide Format, LexLess;
    var last := Format(prefix, pad, top);
    forall n | n in ns
      ensures n != top ==> Format(prefix, pad, n) != last
      ensures n != top ==> (LexLess(Format(prefix, pad, n), last) <==>
                              if top == Pow10(pad) then n <= Pow10(pad - 1)
                              else if n == Pow10(pad) then top > Pow10(pad - 1)
                              else n < top)
    {
      if n != top {
        OrderUpToPadding(prefix, pad, n, top);
      }
    }
    if IsLexMax(stored, last) {
      forall n | n in ns && n != top ensures LexLess(Format(prefix, pad, n), last) {}
    }
    assert Pow10(pad) == 10 * Pow10(pad - 1);
  }

  lemma OrderUpToPadding(prefix: string, pad: nat, n: nat, top: nat)
    requires IsPrefix(prefix) && pad > 0 && n <= Pow10(pad) && top <= Pow10(pad) && n != top
    ensures Format(prefix, pad, n) != Format(prefix, pad, top)
    ensures LexLess(Format(prefix, pad, n), Format(prefix, pad, top)) <==>
            if top == Pow10(pad) then n <= Pow10(pad - 1)
            else if n == Pow10(pad) then top > Pow10(pad - 1)
            else n < top
  {
    hide Format, LexLess;
    if Format(prefix, pad, n) == Format(prefix, pad, top) { FormatInjective(prefix, pad, n, top); }
    if top == Pow10(pad) {
      WherePaddingOverflowSorts(prefix, pad, n);
    } else if n == Pow10(pad) {
      WherePaddingOverflowSorts(prefix, pad, top);
      LexTotal(Format(prefix, pad, n), Format(prefix, pad, top));
    } else {
      FormatOrder(prefix, pad, n, top);
    }
  }

  /** The numbers 1..k of one prefix. */
  function FirstNumbers(prefix: string, pad: nat, k: nat): set<string> {
    if k == 0 then {} else FirstNumbers(prefix, pad, k - 1) + {Format(prefix, pad, k)}
  }

  lemma {:induction false} InFirstNumbers(prefix: string, pad: nat, k: nat, s: string)
    ensures s in FirstNumbers(prefix, pad, k) <==> exists n :: 1 <= n <= k && s == Format(prefix, pad, n)
  {
    if k > 0 { InFirstNumbers(prefix, pad, k - 1, s); }
  }

  /** Which of the numbers 1..k sorts last: k itself, until k is 10^pad; then still the one below. */
  function TopOf(pad: nat, k: nat): (top: nat)
    requires k > 0
  {
    if k < Pow10(pad) then k else k - 1
  }

  lemma GreatestOfFirst(prefix: string, pad: nat, k: nat, last: string)
    requires IsPrefix(prefix) && pad > 0 && 0 < k <= Pow10(pad)
    requires IsLexMax(FirstNumbers(prefix, pad, k), last)
    ensures last == Format(prefix, pad, TopOf(pad, k))
  {
    hide Format, LexLess;
    var top := Format(prefix, pad, TopOf(pad, k));
    LeadingNine(pad);
    InFirstNumbers(prefix, pad, k, last);
    InFirstNumbers(prefix, pad, k, top);
    assert top in FirstNumbers(prefix, pad, k);
    if last != top {
      var n :| 1 <= n <= k && last == Format(prefix, pad, n);
      assert Pow10(pad) == 10 * Pow10(pad - 1);
      OrderUpToPadding(prefix, pad, n, TopOf(pad, k));
      LexTotal(last, top);
    }
  }

  lemma {:induction false} HeldByFirst(prefix: string, pad: nat, k: nat, n: nat)
    requires IsPrefix(prefix) && pad > 0
    ensures Format(prefix, pad, n) in FirstNumbers(prefix, pad, k) <==> 1 <= n <= k
  {
    InFirstNumbers(prefix, pad, k, Format(prefix, pad, n));
    hide FirstNumbers, Format;
    if Format(prefix, pad, n) in FirstNumbers(prefix, pad, k) {
      var m :| 1 <= m <= k && Format(prefix, pad, n) == Format(prefix, pad, m);
      FormatInjective(prefix, pad, n, m);
    }
  }

  /**
   Counting up from nothing, the number after the first k is k + 1 and fresh exactly while k is below
   10^pad; from then on the generator returns 10^pad, which is already stored.
   */
  lemma {:induction false} CountingUp(prefix: string, pad: nat, k: nat, last: string)
    requires IsPrefix(prefix) && pad > 0 && 0 < k <= Pow10(pad)
    requires IsLexMax(FirstNumbers(prefix, pad, k), last)
    ensures BuildNextSequenceNumber(Some(last), prefix, pad)
            == Format(prefix, pad, if k < Pow10(pad) then k + 1 else Pow10(pad))
    ensures BuildNextSequenceNumber(Some(last), prefix, pad) !in FirstNumbers(prefix, pad, k) <==> k < Pow10(pad)
  {
    PowerStep(pad);
    GreatestOfFirst(prefix, pad, k, last);
    ParseUndoesPrint(prefix, pad, TopOf(pad, k));
    HeldByFirst(prefix, pad, k, if k < Pow10(pad) then k + 1 else Pow10(pad));
  }
}
