/** The ring identifiers `f"RING_{n:03d}"` and the decimal text `f"{n}"` used in pattern names
    (backend/graph_engine.py:371, 380). */
module RingIds {

  /** The character of a decimal digit. */
  function DigitChar(d: nat): (c: char)
    requires d < 10
    ensures '0' <= c <= '9'
  {
    "0123456789"[d]
  }

  /** The value of a decimal digit character. */
  function DigitValue(c: char): nat
  {
    if '0' <= c <= '9' then (c - '0') as nat else 0
  }

  /** `f"{n}"`: the decimal digits of `n`, without leading zeros. */
  function Decimal(n: nat): (s: string)
    ensures 1 <= |s| && forall k :: 0 <= k < |s| ==> '0' <= s[k] <= '9'
    decreases n
  {
    if n < 10 then [DigitChar(n)] else Decimal(n / 10) + [DigitChar(n % 10)]
  }

  /** The number a string of decimal digits denotes, leading zeros allowed. */
  function Value(s: string): nat
    decreases |s|
  {
    if s == [] then 0 else Value(s[..|s| - 1]) * 10 + DigitValue(s[|s| - 1])
  }

  /** `f"{n:03d}"`: the decimal digits, padded with zeros on the left to at least three. */
  function Pad3(n: nat): (s: string)
    ensures |s| >= 3 && forall k :: 0 <= k < |s| ==> '0' <= s[k] <= '9'
  {
    var d := Decimal(n);
    if |d| >= 3 then d else seq(3 - |d|, _ => '0') + d
  }

  const RingPrefix: string := "RING_"

  /** `f"RING_{n:03d}"`. */
  function RingId(n: nat): (id: string)
    ensures |id| >= 8 && id[..5] == RingPrefix
  {
    RingPrefix + Pad3(n)
  }

  // ----- the text determines the number -----

  lemma DigitRoundTrip(d: nat)
    requires d < 10
    ensures DigitValue(DigitChar(d)) == d
  {
  }

  /** Reading back `f"{n}"` gives `n`. */
  lemma {:induction false} DecimalValue(n: nat)
    ensures Value(Decimal(n)) == n
    decreases n
  {
    var s := Decimal(n);
    if n < 10 {
      assert s[..0] == [];
    } else {
      DecimalValue(n / 10);
      assert s[..|s| - 1] == Decimal(n / 10);
    }
  }

  /** Leading zeros do not change the value. */
  lemma {:induction false} ZerosValue(z: nat, s: string)
    ensures Value(seq(z, _ => '0') + s) == Value(s)
    decreases |s|
  {
    var t := seq(z, _ => '0') + s;
    if s == [] {
      ZerosOnly(z);
      assert t == seq(z, _ => '0');
    } else {
      ZerosValue(z, s[..|s| - 1]);
      assert t[..|t| - 1] == seq(z, _ => '0') + s[..|s| - 1];
    }
  }

  lemma {:induction false} ZerosOnly(z: nat)
    ensures Value(seq(z, _ => '0')) == 0
    decreases z
  {
    if z > 0 {
      ZerosOnly(z - 1);
      assert seq(z, _ => '0')[..z - 1] == seq(z - 1, _ => '0');
    }
  }

  /** Reading back the padded text gives the number. */
  lemma Pad3Value(n: nat)
    ensures Value(Pad3(n)) == n
  {
    var d := Decimal(n);
    DecimalValue(n);
    if |d| < 3 { ZerosValue(3 - |d|, d); }
  }

  /** Distinct counters give distinct ring ids, so the ids handed out in sequence never clash. */
  lemma RingIdInjective(a: nat, b: nat)
    ensures RingId(a) == RingId(b) <==> a == b
  {
    if RingId(a) == RingId(b) {
      assert Pad3(a) == RingId(a)[5..] && Pad3(b) == RingId(b)[5..];
      Pad3Value(a);
      Pad3Value(b);
    }
  }

  /** The first id reads `RING_001`. */
  lemma FirstRingId()
    ensures RingId(1) == "RING_001"
  {
    assert Decimal(1) == "1";
    assert seq(2, _ => '0') == "00";
  }

}
