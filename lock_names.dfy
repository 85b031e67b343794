/**
 * Names of the per-partition locks in the coordination service.
 *
 * A partition's lock lives at the path "/partition-lock-" followed by the
 * partition id written the way Java's string concatenation writes an `int`
 * (decimal, no leading zeros, a leading '-' for negative ids). The lemmas show
 * that the id can be read back from the name, so distinct partitions never
 * share a lock.
 */
module LockNames {

  /** The fixed prefix of every partition-lock path. */
  const LockPathBase: string := "/partition-lock-"

  function DigitChar(d: nat): (c: char)
    requires d < 10
    ensures '0' <= c <= '9'
  {
    ('0' as int + d) as char
  }

  function DigitValue(c: char): nat
  {
    if '0' <= c <= '9' then (c as int - '0' as int) else 0
  }

  /** Decimal text of a natural number, most significant digit first. */
  function NatText(n: nat): (s: string)
    ensures |s| >= 1
    ensures forall i :: 0 <= i < |s| ==> '0' <= s[i] <= '9'
    decreases n
  {
    if n < 10 then [DigitChar(n)] else NatText(n / 10) + [DigitChar(n % 10)]
  }

  /** Decimal text of an int, as `"" + n` renders it in Java. */
  function IntText(n: int): string
    decreases if n < 0 then 1 else 0
  {
    if n < 0 then "-" + IntText(-n) else NatText(n)
  }

  /** Value of a string of decimal digits (the inverse of NatText). */
  function NatValue(s: string): nat
  {
    if s == [] then 0 else NatValue(s[..|s| - 1]) * 10 + DigitValue(s[|s| - 1])
  }

  /** Reads back what IntText writes. */
  function IntValue(s: string): int
  {
    if |s| > 0 && s[0] == '-' then -(NatValue(s[1..]) as int) else NatValue(s)
  }

  lemma {:induction false} NatTextRoundTrip(n: nat)
    ensures NatValue(NatText(n)) == n
    decreases n
  {
    var s := NatText(n);
    if n >= 10 {
      NatTextRoundTrip(n / 10);
      assert s[..|s| - 1] == NatText(n / 10);
    }
  }

  lemma IntTextRoundTrip(n: int)
    ensures IntValue(IntText(n)) == n
  {
    if n < 0 {
      NatTextRoundTrip(-n);
      assert IntText(n)[1..] == NatText(-n);
    } else {
      NatTextRoundTrip(n);
      assert '0' <= NatText(n)[0] <= '9';
    }
  }

  /** Path of the lock guarding partition `partitionId`. */
  function LockName(partitionId: int): (name: string)
    ensures |name| > |LockPathBase| && name[..|LockPathBase|] == LockPathBase
  {
    LockPathBase + IntText(partitionId)
  }

  /**
   * A lock path in the form the client builds it, the fixed prefix followed by
   * a partition id; `Text()` is the string the coordination service sees.
   */
  datatype LockPath = LockPath(partitionId: int)
  {
    function Text(): string
    {
      LockName(partitionId)
    }
  }

  /** The partition id a lock path names. */
  function PartitionOfLockName(name: string): int
    requires |name| >= |LockPathBase|
  {
    IntValue(name[|LockPathBase|..])
  }

  lemma LockNameRoundTrip(partitionId: int)
    ensures PartitionOfLockName(LockName(partitionId)) == partitionId
  {
    assert LockName(partitionId)[|LockPathBase|..] == IntText(partitionId);
    IntTextRoundTrip(partitionId);
  }

  /** Distinct partitions have distinct lock paths, and equal ones the same. */
  lemma LockNameInjective(a: int, b: int)
    ensures LockName(a) == LockName(b) <==> a == b
  {
    if LockName(a) == LockName(b) {
      LockNameRoundTrip(a);
      LockNameRoundTrip(b);
    }
  }

  /** Two lock paths have the same text exactly when they are the same path. */
  lemma LockPathTextInjective(p: LockPath, q: LockPath)
    ensures p.Text() == q.Text() <==> p == q
  {
    LockNameInjective(p.partitionId, q.partitionId);
  }
}
