/** Creating attack paths: lock, read the greatest number, insert, as one transaction. */
module AttackPaths {
  import opened Options
  import opened SequenceNumbers

  const PAD := 4

  /** `AP-<year>-`. */
  function YearPrefix(year: nat): string { "AP-" + Digits(year) + "-" }

  function WithPrefix(stored: set<string>, prefix: string): set<string> {
    set s | s in stored && prefix <= s
  }

  class AttackPathsRepository {
    /** The path numbers in the table; the column is unique. */
    var numbers: set<string>

    constructor ()
      ensures numbers == {}
    {
      numbers := {};
    }

    /** The first row in descending order among those that start with the prefix. */
    method FindLast(prefix: string) returns (last: Option<string>)
      ensures last.None? <==> WithPrefix(numbers, prefix) == {}
      ensures last.Some? ==> IsLexMax(WithPrefix(numbers, prefix), last.value)
    {
      var rows := WithPrefix(numbers, prefix);
      last := None;
      var rest := rows;
      while rest != {}
        invariant rest <= rows
        invariant last.None? ==> rest == rows
        invariant last.Some? ==> last.value in rows - rest
        invariant last.Some? ==> forall t :: t in rows - rest && t != last.value ==> LexLess(t, last.value)
        decreases |rest|
      {
        var s: string :| s in rest;
        if last.None? || LexLess(last.value, s) {
          if last.Some? {
            forall t | t in rows - rest && t != last.value ensures LexLess(t, s) {
              LexTransitive(t, last.value, s);
            }
          }
          last := Some(s);
        } else {
          LexTotal(last.value, s);
        }
        rest := rest - {s};
      }
    }

    /**
     None when the unique column refuses the number: the transaction rolls back. Whatever numbers the
     table holds, that happens exactly when it is exhausted; with none above 10000, when 9999 and
     10000 are both stored.
     */
    method CreateWithNumber(year: nat) returns (created: Option<string>)
      modifies this
      ensures created.Some? ==> created.value !in old(numbers) && numbers == old(numbers) + {created.value}
      ensures created.None? ==> numbers == old(numbers)
      ensures WithPrefix(old(numbers), YearPrefix(year)) == {} ==> created == Some(Format(YearPrefix(year), PAD, 1))
      ensures (forall s :: s in old(numbers) ==> !("AP-" + Digits(year) + "-" <= s)) ==>
                created == Some("AP-" + Digits(year) + "-" + "0001")
      ensures created.Some? ==> "AP-" + Digits(year) + "-" <= created.value && |created.value| >= |Digits(year)| + 8
      ensures RefusedOnlyWhenExhausted(WithPrefix(old(numbers), YearPrefix(year)), YearPrefix(year), PAD, created)
      ensures FollowsTheGreatest(WithPrefix(old(numbers), YearPrefix(year)), YearPrefix(year), PAD, created)
      ensures CountsUp(WithPrefix(old(numbers), YearPrefix(year)), YearPrefix(year), PAD, created,
                       WithPrefix(numbers, YearPrefix(year)))
    {
      NumbersOfYear(numbers, year);
      hide Format, LexLess, IsLexMax, NextNumber, Numbered, Exhausted, YearPrefix;
      var prefix := YearPrefix(year);
      YearPrefixEnds(year);
      var last := FindLast(prefix);
      var next := BuildNextSequenceNumber(last, prefix, PAD);
      ghost var before := WithPrefix(numbers, prefix);
      NextHasPrefix(last, prefix, PAD);
      NextIsLong(last, year);
      assert next in numbers <==> next in before;
      if next in numbers {
        OutcomeFacts(before, prefix, PAD, last, None);
        return None;
      }
      numbers := numbers + {next};
      assert WithPrefix(numbers, prefix) == before + {next};
      OutcomeFacts(before, prefix, PAD, last, Some(next));
      return Some(next);
    }
  }

  lemma YearPrefixEnds(year: nat)
    ensures IsPrefix(YearPrefix(year))
  {
  }

  lemma NumbersOfYear(numbers: set<string>, year: nat)
    ensures YearPrefix(year) == "AP-" + Digits(year) + "-"
    ensures Format(YearPrefix(year), PAD, 1) == "AP-" + Digits(year) + "-" + "0001"
    ensures (forall s :: s in numbers ==> !("AP-" + Digits(year) + "-" <= s)) ==> WithPrefix(numbers, YearPrefix(year)) == {}
  {
    assert PadStart(Digits(1), 4) == "0001";
  }

  /** The first number of 2026. */
  lemma FirstOf2026()
    ensures Format(YearPrefix(2026), PAD, 1) == "AP-2026-0001" && Format(YearPrefix(2026), PAD, 42) == "AP-2026-0042"
    ensures Format(YearPrefix(2026), PAD, 10000) == "AP-2026-10000"
  {
    assert Digits(2026) == "2026" && Digits(42) == "42";
    assert Digits(10000) == "10000";
    assert PadStart("1", 4) == "0001" && PadStart("42", 4) == "0042" && PadStart("10000", 4) == "10000";
  }

  /** At least four digits follow the prefix. */
  lemma NextIsLong(last: Option<string>, year: nat)
    ensures |BuildNextSequenceNumber(last, YearPrefix(year), PAD)| >= |Digits(year)| + 8
  {
  }

  lemma NextHasPrefix(last: Option<string>, prefix: string, pad: nat)
    ensures prefix <= BuildNextSequenceNumber(last, prefix, pad)
  {
  }

  // ---------- what a caller may rely on ----------

  /** For any numbers of the prefix, gaps included. */
  ghost predicate RefusedOnlyWhenExhausted(stored: set<string>, prefix: string, pad: nat, created: Option<string>) {
    forall ns: set<nat> | Numbered(stored, prefix, pad, ns) ::
      && (created.None? <==> exists j :: Exhausted(stored, prefix, pad, j))
      && ((forall n :: n in ns ==> n <= Pow10(pad)) ==>
            (created.None? <==> Pow10(pad) in ns && Pow10(pad) - 1 in ns))
  }

  /** A created number is the successor of the one that sorts last; below 10^pad that is the greatest. */
  ghost predicate FollowsTheGreatest(stored: set<string>, prefix: string, pad: nat, created: Option<string>) {
    forall ns: set<nat>, m: nat | Numbered(stored, prefix, pad, ns) && m in ns ::
      && (IsLexMax(stored, Format(prefix, pad, m)) && created.Some? ==> created.value == Format(prefix, pad, m + 1))
      && (m < Pow10(pad) && (forall n :: n in ns ==> n <= m) ==> created == Some(Format(prefix, pad, m + 1)))
  }

  /** From 1..k to 1..k + 1, until k is 10^pad. */
  ghost predicate CountsUp(stored: set<string>, prefix: string, pad: nat, created: Option<string>, after: set<string>) {
    forall k :: 0 < k <= Pow10(pad) && stored == FirstNumbers(prefix, pad, k) ==>
      if k < Pow10(pad)
      then created == Some(Format(prefix, pad, k + 1)) && after == FirstNumbers(prefix, pad, k + 1)
      else created.None?
  }

  lemma OutcomeFacts(stored: set<string>, prefix: string, pad: nat, last: Option<string>, created: Option<string>)
    requires IsPrefix(prefix) && pad > 0
    requires if last.None? then stored == {} else IsLexMax(stored, last.value)
    requires var next := BuildNextSequenceNumber(last, prefix, pad);
             created == if next in stored then None else Some(next)
    ensures RefusedOnlyWhenExhausted(stored, prefix, pad, created)
    ensures FollowsTheGreatest(stored, prefix, pad, created)
    ensures CountsUp(stored, prefix, pad, created, if created.Some? then stored + {created.value} else stored)
    ensures stored == {} ==> created == Some(Format(prefix, pad, 1))
  {
    assert last.Some? ==> last.value in stored;
    hide Format, LexLess, Numbered, IsLexMax, Exhausted;
    forall ns: set<nat> | Numbered(stored, prefix, pad, ns)
      ensures created.None? <==> exists j :: Exhausted(stored, prefix, pad, j)
      ensures (forall n :: n in ns ==> n <= Pow10(pad)) ==> (created.None? <==> Pow10(pad) in ns && Pow10(pad) - 1 in ns)
    {
      NextFrom(stored, prefix, pad, ns, last);
    }
    forall ns: set<nat>, m: nat | Numbered(stored, prefix, pad, ns) && m in ns
      ensures IsLexMax(stored, Format(prefix, pad, m)) && created.Some? ==> created.value == Format(prefix, pad, m + 1)
      ensures m < Pow10(pad) && (forall n :: n in ns ==> n <= m) ==> created == Some(Format(prefix, pad, m + 1))
    {
      NextAfter(stored, prefix, pad, ns, m, last);
    }
    CountsUpFacts(stored, prefix, pad, last, created);
  }

  lemma CountsUpFacts(stored: set<string>, prefix: string, pad: nat, last: Option<string>, created: Option<string>)
    requires IsPrefix(prefix) && pad > 0
    requires if last.None? then stored == {} else IsLexMax(stored, last.value)
    requires var next := BuildNextSequenceNumber(last, prefix, pad);
             created == if next in stored then None else Some(next)
    ensures CountsUp(stored, prefix, pad, created, if created.Some? then stored + {created.value} else stored)
  {
    hide Format, LexLess, IsLexMax, NextNumber;
    forall k | 0 < k <= Pow10(pad) && stored == FirstNumbers(prefix, pad, k)
      ensures if k < Pow10(pad)
              then created == Some(Format(prefix, pad, k + 1)) && stored + {created.value} == FirstNumbers(prefix, pad, k + 1)
              else created.None?
    {
      FirstNotEmpty(prefix, pad, k);
      CountingUp(prefix, pad, k, last.value);
    }
  }

  /** When the next number is taken, for an empty table too. */
  lemma NextFrom(stored: set<string>, prefix: string, pad: nat, ns: set<nat>, last: Option<string>)
    requires IsPrefix(prefix) && pad > 0 && Numbered(stored, prefix, pad, ns)
    requires if last.None? then stored == {} else IsLexMax(stored, last.value)
    ensures var next := BuildNextSequenceNumber(last, prefix, pad);
            && (next in stored <==> exists j :: Exhausted(stored, prefix, pad, j))
            && ((forall n :: n in ns ==> n <= Pow10(pad)) ==>
                  (next in stored <==> Pow10(pad) in ns && Pow10(pad) - 1 in ns))
  {
    hide Format, LexLess;
    if last.Some? {
      NextTakenIff(stored, prefix, pad, ns, last.value);
      if forall n :: n in ns ==> n <= Pow10(pad) {
        TakenUpToPaddingIff(stored, prefix, pad, ns, last.value);
      }
    }
  }

  lemma NextAfter(stored: set<string>, prefix: string, pad: nat, ns: set<nat>, m: nat, last: Option<string>)
    requires IsPrefix(prefix) && pad > 0 && Numbered(stored, prefix, pad, ns) && m in ns
    requires if last.None? then stored == {} else IsLexMax(stored, last.value)
    ensures var next := BuildNextSequenceNumber(last, prefix, pad);
            && (IsLexMax(stored, Format(prefix, pad, m)) ==> next == Format(prefix, pad, m + 1))
            && (m < Pow10(pad) && (forall n :: n in ns ==> n <= m) ==>
                  next == Format(prefix, pad, m + 1) && next !in stored)
  {
    hide Format, LexLess;
    assert Format(prefix, pad, m) in stored;
    if IsLexMax(stored, Format(prefix, pad, m)) {
      GreatestIsUnique(stored, last.value, Format(prefix, pad, m));
      ParseUndoesPrint(prefix, pad, m);
    }
    if m < Pow10(pad) && forall n :: n in ns ==> n <= m {
      NextIsFreshBelowBound(stored, prefix, pad, ns, last.value);
    }
  }

  lemma FirstNotEmpty(prefix: string, pad: nat, k: nat)
    requires k > 0
    ensures FirstNumbers(prefix, pad, k) != {}
  {
    assert Format(prefix, pad, k) in FirstNumbers(prefix, pad, k);
  }
}
