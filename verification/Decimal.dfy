/**
 Decimal printing of row ids, and the statistics e-mail built from two of them
 (`device_email`).  The e-mail is the key under which Xray counts a device's
 bytes and under which the panel finds its own clients again, so it has to be
 injective.
 */
module Decimal {
  function Digit(d: nat): char
    requires d < 10
  {
    '0' + d as char
  }

  function Print(n: nat): (s: string)
    ensures |s| >= 1
    ensures forall i :: 0 <= i < |s| ==> '0' <= s[i] <= '9'
  {
    if n < 10 then [Digit(n)] else Print(n / 10) + [Digit(n % 10)]
  }

  /** The reader that `int(...)` applies to a run of digits. */
  function Read(s: string): nat
    requires forall i :: 0 <= i < |s| ==> '0' <= s[i] <= '9'
  {
    if s == [] then 0 else 10 * Read(s[..|s| - 1]) + (s[|s| - 1] - '0') as int
  }

  lemma {:induction false} ReadPrint(n: nat)
    ensures Read(Print(n)) == n
  {
    if n >= 10 {
      ReadPrint(n / 10);
      assert Print(n)[..|Print(n)| - 1] == Print(n / 10);
    } else {
      assert Print(n)[..0] == [];
    }
  }

  lemma PrintInjective(m: nat, n: nat)
    requires Print(m) == Print(n)
    ensures m == n
  {
    ReadPrint(m);
    ReadPrint(n);
  }

  const EMAIL_PREFIX := "akfa_user_"
  const EMAIL_MIDDLE := "_device_"

  function DeviceEmail(userId: nat, deviceId: nat): string {
    EMAIL_PREFIX + Print(userId) + EMAIL_MIDDLE + Print(deviceId)
  }

  /** A run of digits that is followed by the same non-digit on both sides ends at the same place. */
  lemma DigitRunsEqual(a: string, b: string, restA: string, restB: string)
    requires forall i :: 0 <= i < |a| ==> '0' <= a[i] <= '9'
    requires forall i :: 0 <= i < |b| ==> '0' <= b[i] <= '9'
    requires |restA| > 0 && !('0' <= restA[0] <= '9')
    requires |restB| > 0 && !('0' <= restB[0] <= '9')
    requires a + restA == b + restB
    ensures a == b && restA == restB
  {
    var s := a + restA;
    assert s[|a|] == restA[0] && s[|b|] == restB[0];
    assert forall i :: 0 <= i < |a| ==> s[i] == a[i];
    assert forall i :: 0 <= i < |b| ==> s[i] == b[i];
    assert |a| == |b|;
    assert a == (a + restA)[..|a|] == (b + restB)[..|b|] == b;
    assert restA == (a + restA)[|a|..] == (b + restB)[|b|..] == restB;
  }

  lemma SamePartsOfEmail(prefix: string, a: string, middle: string, b: string, a': string, b': string)
    requires prefix + a + middle + b == prefix + a' + middle + b'
    requires middle != "" && !('0' <= middle[0] <= '9')
    requires (forall i :: 0 <= i < |a| ==> '0' <= a[i] <= '9') && (forall i :: 0 <= i < |a'| ==> '0' <= a'[i] <= '9')
    ensures a == a' && b == b'
  {
    var rest, rest' := middle + b, middle + b';
    Regroup(prefix, a, middle, b);
    Regroup(prefix, a', middle, b');
    Cancel(prefix, a + rest, a' + rest');
    DigitRunsEqual(a, a', rest, rest');
    Cancel(middle, b, b');
  }

  lemma Regroup(p: string, a: string, m: string, b: string)
    ensures p + a + m + b == p + (a + (m + b))
  {
  }

  lemma Cancel(p: string, a: string, b: string)
    requires p + a == p + b
    ensures a == b
  {
    assert a == (p + a)[|p|..];
    assert b == (p + b)[|p|..];
  }

  /** Two devices of two users never share a statistics key. */
  lemma DeviceEmailInjective(u: nat, d: nat, u': nat, d': nat)
    requires DeviceEmail(u, d) == DeviceEmail(u', d')
    ensures u == u' && d == d'
  {
    SamePartsOfEmail(EMAIL_PREFIX, Print(u), EMAIL_MIDDLE, Print(d), Print(u'), Print(d'));
    PrintInjective(u, u');
    PrintInjective(d, d');
  }
}
