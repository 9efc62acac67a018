/** Replay cursors: "rt_" and the sequence number padded to twenty digits. */
module Cursors {
  import opened Strings

  const MAX_UINT64: nat := 0xFFFF_FFFF_FFFF_FFFF

  datatype Parsed = Sequence(n: nat) | Malformed

  predicate IsDigit(c: char) { '0' <= c <= '9' }

  predicate IsSpace(c: char) { c == ' ' || '\t' <= c <= '\r' }

  function DigitOf(n: nat): (c: char)
    requires n < 10
    ensures IsDigit(c) && Worth(c) == n
  {
    (n as char) + '0'
  }

  function Worth(c: char): nat
    requires IsDigit(c)
  {
    (c - '0') as nat
  }

  ghost predicate AllDigits(s: string) { forall i | 0 <= i < |s| :: IsDigit(s[i]) }

  function Decimal(n: nat): string {
    if n < 10 then [DigitOf(n)] else Decimal(n / 10) + [DigitOf(n % 10)]
  }

  function Zeros(n: nat): string { if n == 0 then "" else "0" + Zeros(n - 1) }

  /** fmt's %020d. */
  function Padded(n: nat): string {
    var digits := Decimal(n);
    if |digits| < 20 then Zeros(20 - |digits|) + digits else digits
  }

  function NewCursor(n: nat): string { "rt_" + Padded(n) }

  /** The number a run of digits denotes after a leading part worth `acc`. */
  function Value(s: string, acc: nat): nat
    requires AllDigits(s)
  {
    if s == "" then acc else Value(s[1..], 10 * acc + Worth(s[0]))
  }

  function DigitRun(s: string): (r: string)
    ensures |r| <= |s| && r == s[..|r|] && AllDigits(r) && (|r| == |s| || !IsDigit(s[|r|]))
  {
    if s == "" || !IsDigit(s[0]) then "" else [s[0]] + DigitRun(s[1..])
  }

  /** fmt's %d into a uint64: blanks are skipped, a newline is an error, digits are
      read as far as they go and whatever follows them is ignored. */
  function ScanUint(s: string): Parsed {
    if s == "" || s[0] == '\n' then Malformed
    else if IsSpace(s[0]) then ScanUint(s[1..])
    else
      var digits := DigitRun(s);
      if digits == "" || Value(digits, 0) > MAX_UINT64 then Malformed else Sequence(Value(digits, 0))
  }

  function ParseCursor(cursor: string): Parsed {
    if cursor == "" then Sequence(0)
    else if |cursor| < 3 || cursor[..3] != "rt_" then Malformed
    else ScanUint(cursor[3..])
  }

  // ---- round trip ----

  lemma {:induction false} ValueOfLastDigit(s: string, c: char, acc: nat)
    requires AllDigits(s) && IsDigit(c)
    ensures AllDigits(s + [c]) && Value(s + [c], acc) == 10 * Value(s, acc) + Worth(c)
  {
    if s != "" {
      assert (s + [c])[1..] == s[1..] + [c];
      ValueOfLastDigit(s[1..], c, 10 * acc + Worth(s[0]));
    }
  }

  lemma {:induction false} DecimalDenotes(n: nat)
    ensures AllDigits(Decimal(n)) && Value(Decimal(n), 0) == n && Decimal(n) != ""
  {
    if n >= 10 {
      DecimalDenotes(n / 10);
      ValueOfLastDigit(Decimal(n / 10), DigitOf(n % 10), 0);
    }
  }

  lemma {:induction false} ZerosDenoteNothing(k: nat, s: string)
    requires AllDigits(s)
    ensures AllDigits(Zeros(k) + s) && Value(Zeros(k) + s, 0) == Value(s, 0) && |Zeros(k)| == k
  {
    if k == 0 {
      assert Zeros(0) + s == s;
    } else {
      ZerosDenoteNothing(k - 1, s);
      assert Zeros(k) + s == ['0'] + (Zeros(k - 1) + s);
    }
  }

  /** n < 10^k has at most k digits. */
  lemma {:induction false} DecimalWidth(n: nat, k: nat)
    requires k > 0 && n < Power10(k)
    ensures |Decimal(n)| <= k
  {
    if n >= 10 { DecimalWidth(n / 10, k - 1); }
  }

  function Power10(k: nat): nat { if k == 0 then 1 else 10 * Power10(k - 1) }

  lemma PaddedDenotes(n: nat)
    ensures AllDigits(Padded(n)) && Value(Padded(n), 0) == n && Padded(n) != ""
    ensures n <= MAX_UINT64 ==> |Padded(n)| == 20
  {
    DecimalDenotes(n);
    if |Decimal(n)| < 20 { ZerosDenoteNothing(20 - |Decimal(n)|, Decimal(n)); }
    if n <= MAX_UINT64 {
      assert Power10(8) == 1_0000_0000 && Power10(16) == 1_0000_0000 * Power10(8);
      assert Power10(20) == 1_0000 * Power10(16);
      DecimalWidth(n, 20);
    }
  }

  lemma CursorRoundTrip(n: nat)
    ensures ParseCursor(NewCursor(n)) == if n <= MAX_UINT64 then Sequence(n) else Malformed
  {
    PaddedDenotes(n);
    assert NewCursor(n)[3..] == Padded(n);
    assert DigitRun(Padded(n)) == Padded(n);
  }

  /** A cursor read back need not be one that was issued: blanks before the number,
      missing padding and anything after the last digit are accepted. */
  lemma LenientCursor(blanks: string, digits: string, rest: string)
    requires forall i | 0 <= i < |blanks| :: IsSpace(blanks[i]) && blanks[i] != '\n'
    requires AllDigits(digits) && digits != "" && (rest == "" || !IsDigit(rest[0]))
    ensures ParseCursor("rt_" + blanks + digits + rest) ==
            if Value(digits, 0) <= MAX_UINT64 then Sequence(Value(digits, 0)) else Malformed
  {
    assert ("rt_" + blanks + digits + rest)[3..] == blanks + digits + rest;
    LenientScan(blanks, digits, rest);
  }

  lemma {:induction false} LenientScan(blanks: string, digits: string, rest: string)
    requires forall i | 0 <= i < |blanks| :: IsSpace(blanks[i]) && blanks[i] != '\n'
    requires AllDigits(digits) && digits != "" && (rest == "" || !IsDigit(rest[0]))
    ensures ScanUint(blanks + digits + rest) ==
            if Value(digits, 0) <= MAX_UINT64 then Sequence(Value(digits, 0)) else Malformed
  {
    var s := blanks + digits + rest;
    if blanks == "" {
      var run := DigitRun(s);
      assert s[..|digits|] == digits;
      assert forall i | 0 <= i < |digits| :: s[i] == digits[i];
      assert forall i | 0 <= i < |run| :: s[i] == run[i];
      assert rest != "" ==> s[|digits|] == rest[0];
      assert run == digits;
    } else {
      assert s[1..] == blanks[1..] + digits + rest;
      LenientScan(blanks[1..], digits, rest);
    }
  }

  /** And nothing else is accepted. */
  lemma ParsedCursorsAreLenient(cursor: string)
    requires ParseCursor(cursor).Sequence? && cursor != ""
    ensures exists blanks, digits, rest :: IsLenient(cursor, blanks, digits, rest)
  {
    var blanks, digits, rest := ScannedParts(cursor[3..]);
    assert cursor == "rt_" + cursor[3..];
    assert cursor == "rt_" + blanks + digits + rest;
    assert IsLenient(cursor, blanks, digits, rest);
  }

  ghost predicate IsLenient(cursor: string, blanks: string, digits: string, rest: string) {
    && cursor == "rt_" + blanks + digits + rest
    && (forall i | 0 <= i < |blanks| :: IsSpace(blanks[i]) && blanks[i] != '\n')
    && AllDigits(digits) && digits != "" && (rest == "" || !IsDigit(rest[0]))
    && ParseCursor(cursor) == Sequence(Value(digits, 0))
  }

  lemma {:induction false} ScannedParts(s: string) returns (blanks: string, digits: string, rest: string)
    requires ScanUint(s).Sequence?
    ensures s == blanks + digits + rest && forall i | 0 <= i < |blanks| :: IsSpace(blanks[i]) && blanks[i] != '\n'
    ensures AllDigits(digits) && digits != "" && (rest == "" || !IsDigit(rest[0]))
    ensures ScanUint(s) == Sequence(Value(digits, 0))
  {
    if IsSpace(s[0]) {
      blanks, digits, rest := ScannedParts(s[1..]);
      blanks := [s[0]] + blanks;
    } else {
      digits := DigitRun(s);
      blanks, rest := "", s[|digits|..];
    }
  }

  // ---- order ----

  lemma {:induction false} ValueIsMonotone(a: string, b: string, x: nat, y: nat)
    requires AllDigits(a) && AllDigits(b) && |a| == |b| && x < y
    ensures Value(a, x) < Value(b, y)
  {
    if a != "" { ValueIsMonotone(a[1..], b[1..], 10 * x + Worth(a[0]), 10 * y + Worth(b[0])); }
  }

  lemma {:induction false} DigitsOrder(a: string, b: string, acc: nat)
    requires AllDigits(a) && AllDigits(b) && |a| == |b|
    ensures Before(a, b) <==> Value(a, acc) < Value(b, acc)
  {
    if a != "" {
      var x, y := 10 * acc + Worth(a[0]), 10 * acc + Worth(b[0]);
      if a[0] < b[0] { ValueIsMonotone(a[1..], b[1..], x, y); }
      else if a[0] > b[0] { ValueIsMonotone(b[1..], a[1..], y, x); }
      else { DigitsOrder(a[1..], b[1..], x); }
    }
  }

  /** Padding makes the order of cursors as strings the order of the numbers. */
  lemma CursorsSortLikeNumbers(m: nat, n: nat)
    requires m <= MAX_UINT64 && n <= MAX_UINT64
    ensures Before(NewCursor(m), NewCursor(n)) <==> m < n
  {
    PaddedDenotes(m);
    PaddedDenotes(n);
    DigitsOrder(Padded(m), Padded(n), 0);
    SharedPrefix("rt_", Padded(m), Padded(n));
  }
}
