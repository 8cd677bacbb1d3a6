/** The checkpoint text: how a cursor is printed into the Consul KV and read back. */
module Checkpoint {

  const TWO63: int := 0x8000_0000_0000_0000
  const TWO64: int := 0x1_0000_0000_0000_0000

  datatype Option<+T> = None | Some(value: T)

  type Int64 = i: int | -TWO63 <= i < TWO63
  type Uint64 = n: nat | n < TWO64

  /** The dynamically typed values that cross the Runner interface. */
  datatype GoValue =
    | GoInt(i: Int64)
    | GoInt64(i: Int64)
    | GoUint64(n: Uint64)
    | GoOther

  /** What reading the KV key returned: an error, no pair (or a pair without a value), or text. */
  datatype KvRead = ReadError | Missing | Found(text: string)

  // ---- printing: fmt.Sprintf("%d", v) and strconv.Itoa ----

  function Digit(d: nat): char
    requires d < 10
  {
    '0' + d as char
  }

  function PrintNat(n: nat): string {
    if n < 10 then [Digit(n)] else PrintNat(n / 10) + [Digit(n % 10)]
  }

  function PrintInt(i: int): string {
    if i < 0 then "-" + PrintNat(-i) else PrintNat(i)
  }

  // ---- parsing: strconv.ParseInt(s, 10, 64) ----

  predicate AllDigits(s: string) {
    forall k :: 0 <= k < |s| ==> '0' <= s[k] <= '9'
  }

  function DigitsValue(s: string): nat
    requires AllDigits(s)
  {
    if s == [] then 0 else 10 * DigitsValue(s[..|s| - 1]) + (s[|s| - 1] - '0') as nat
  }

  function ParseUint(s: string): Option<nat> {
    if s == [] || !AllDigits(s) || DigitsValue(s) >= TWO64 then None else Some(DigitsValue(s))
  }

  /** ParseInt accepts one leading sign, then ParseUint's digits, then the int64 range. */
  function ParseInt(s: string): Option<Int64> {
    if s == [] then None else
    var signed := s[0] == '+' || s[0] == '-';
    var negative := s[0] == '-';
    match ParseUint(if signed then s[1..] else s)
    case None => None
    case Some(n) =>
      if !negative && n >= TWO63 then None
      else if negative && n > TWO63 then None
      else
        var magnitude: int := n;
        Some(if negative then -magnitude else magnitude)
  }

  // ---- restoring ----

  /** restoreLastChangeTime: every failure and an absent key give the untyped constant 0, an int. */
  function RestoredValue(r: KvRead): GoValue {
    match r
    case ReadError => GoInt(0)
    case Missing => GoInt(0)
    case Found(text) =>
      match ParseInt(text)
      case None => GoInt(0)
      case Some(v) => GoInt64(v)
  }

  /** Go's conversion uint64(v) of a 64-bit signed value. */
  function ToUint64(v: Int64): Uint64 {
    if v < 0 then v + TWO64 else v
  }

  /** SetRestoreValue of the index watchers: the new cursor, None for a type it rejects. */
  function CursorFrom(v: GoValue): Option<Uint64> {
    match v
    case GoInt(i) => Some(ToUint64(i))
    case GoInt64(i) => Some(ToUint64(i))
    case GoUint64(_) => None
    case GoOther => None
  }

  /** The cursor a new leader starts with; a restored value is never of a rejected type. */
  function RestoredCursor(r: KvRead): Uint64 {
    CursorFrom(RestoredValue(r)).value
  }

  /** What the manager writes for an update, None for a type it does not know. */
  function UpdateText(v: GoValue): Option<string> {
    match v
    case GoInt(i) => Some(PrintInt(i))
    case GoInt64(i) => Some(PrintInt(i))
    case GoUint64(n) => Some(PrintNat(n))
    case GoOther => None
  }

  // ---- the round trips ----

  /** Reading the printed digits gives the number back. */
  lemma {:induction false} PrintedDigits(n: nat)
    ensures PrintNat(n) != [] && AllDigits(PrintNat(n)) && DigitsValue(PrintNat(n)) == n
  {
    if n >= 10 {
      PrintedDigits(n / 10);
      var s := PrintNat(n);
      assert s[..|s| - 1] == PrintNat(n / 10);
    } else {
      assert PrintNat(n)[..0] == [];
    }
  }

  lemma ParsePrintedNat(n: nat)
    ensures PrintNat(n) != [] && PrintNat(n)[0] != '+' && PrintNat(n)[0] != '-'
    ensures ParseUint(PrintNat(n)) == if n < TWO64 then Some(n) else None
  {
    PrintedDigits(n);
  }

  lemma ParseNegative(s: string, n: nat)
    requires ParseUint(s) == Some(n) && n <= TWO63
    ensures ParseInt("-" + s) == Some(-(n as int))
  {
    assert ("-" + s)[1..] == s;
  }

  lemma ParsePrintedInt(v: Int64)
    ensures ParseInt(PrintInt(v)) == Some(v)
  {
    var i: int := v;
    var n: nat := if i < 0 then -i else i;
    ParsePrintedNat(n);
    if v < 0 {
      ParseNegative(PrintNat(n), n);
    } else {
      assert ParseInt(PrintNat(n)) == Some(v);
    }
  }

  /** The int64 cursor of the allocation watcher survives the KV for every int64. */
  lemma SignedRoundTrip(v: Int64)
    ensures RestoredValue(Found(PrintInt(v))) == GoInt64(v)
  {
    ParsePrintedInt(v);
  }

  /** An index cursor survives exactly when it fits an int64; a larger one restarts the
      watcher from scratch. Either way the restored cursor never exceeds the stored one. */
  lemma UnsignedRoundTrip(v: nat)
    ensures RestoredCursor(Found(PrintNat(v))) == if v < TWO63 then v else 0
    ensures RestoredCursor(Found(PrintNat(v))) <= v
  {
    ParsePrintedNat(v);
  }

  /** A negative text, which no index watcher writes, wraps to the top of the uint64 range. */
  lemma NegativeTextWraps(v: Int64)
    requires v < 0
    ensures RestoredCursor(Found(PrintInt(v))) == TWO64 + v
  {
    SignedRoundTrip(v);
  }

  lemma ParseTooNegative(n: nat)
    requires n > TWO63
    ensures ParseInt("-" + PrintNat(n)) == None
  {
    ParsePrintedNat(n);
    assert ("-" + PrintNat(n))[1..] == PrintNat(n);
  }

  /** The cursor restored from the text of any integer. It is above that integer exactly when
      the integer is negative: no other text restores more than was stored. */
  lemma RestoredFromInteger(i: int)
    ensures RestoredCursor(Found(PrintInt(i))) == if 0 <= i < TWO63 then i else if -TWO63 <= i < 0 then TWO64 + i else 0
    ensures RestoredCursor(Found(PrintInt(i))) > i <==> i < 0
  {
    if i >= 0 {
      UnsignedRoundTrip(i);
    } else if i >= -TWO63 {
      NegativeTextWraps(i);
    } else {
      ParseTooNegative(-i);
    }
  }

  // ---- what the manager writes ----

  /** Whatever update of a known type the manager writes, the next leader restores: a signed
      one in full, an unsigned one up to int64. Other types give no text. */
  lemma WrittenUpdateRestores(v: GoValue)
    ensures UpdateText(v).None? <==> v == GoOther
    ensures v.GoInt? || v.GoInt64? ==>
              UpdateText(v).Some? && RestoredValue(Found(UpdateText(v).value)) == GoInt64(v.i)
    ensures v.GoUint64? ==>
              UpdateText(v).Some? &&
              RestoredValue(Found(UpdateText(v).value)) == if v.n < TWO63 then GoInt64(v.n) else GoInt(0)
  {
    match v
    case GoInt(i) => SignedRoundTrip(i);
    case GoInt64(i) => SignedRoundTrip(i);
    case GoUint64(n) => ParsePrintedNat(n);
    case GoOther =>
  }

  /** The printed text is canonical: decimal digits without a leading zero, unless it is "0". */
  predicate Canonical(s: string) {
    s != [] && AllDigits(s) && (s[0] == '0' ==> s == "0")
  }

  /** A canonical text is the print of its value, and no other number's. */
  lemma {:induction false} CanonicalText(s: string, n: nat)
    ensures s == PrintNat(n) <==> Canonical(s) && DigitsValue(s) == n
  {
    PrintedDigits(n);
    PrintIsCanonical(n);
    if Canonical(s) && DigitsValue(s) == n {
      SameDigits(s, n);
    }
  }

  lemma {:induction false} PrintIsCanonical(n: nat)
    ensures Canonical(PrintNat(n)) && (PrintNat(n)[0] == '0' <==> n == 0)
  {
    PrintedDigits(n);
    if n >= 10 { PrintIsCanonical(n / 10); }
  }

  lemma CanonicalInit(s: string)
    requires Canonical(s) && |s| > 1
    ensures Canonical(s[..|s| - 1]) && DigitsValue(s[..|s| - 1]) > 0
  {
    var init := s[..|s| - 1];
    assert init[0] == s[0];
    LeadingDigit(init);
  }

  lemma {:induction false} LeadingDigit(s: string)
    requires s != [] && AllDigits(s) && s[0] != '0'
    ensures DigitsValue(s) > 0
  {
    if |s| > 1 {
      LeadingDigit(s[..|s| - 1]);
    } else {
      assert s[..0] == [];
    }
  }

  lemma {:induction false} SameDigits(s: string, n: nat)
    requires Canonical(s) && DigitsValue(s) == n
    ensures s == PrintNat(n)
    decreases |s|
  {
    var init, last := s[..|s| - 1], s[|s| - 1];
    assert s == init + [last];
    if |s| > 1 {
      CanonicalInit(s);
      SameDigits(init, n / 10);
    }
  }

  lemma {:induction false} ZerosAddNothing(s: string)
    requires AllDigits(s)
    ensures AllDigits("0" + s) && DigitsValue("0" + s) == DigitsValue(s)
  {
    var t := "0" + s;
    if s == [] {
      assert t[..0] == [];
    } else {
      ZerosAddNothing(s[..|s| - 1]);
      assert t[..|t| - 1] == "0" + s[..|s| - 1];
    }
  }

  /** Some digits, leading zeros allowed, with this value. */
  ghost predicate Digits(s: string, n: int) {
    s != [] && AllDigits(s) && DigitsValue(s) == n
  }

  /** The decimal texts of v: digits, with '+' or nothing before them, or '-' before those of -v. */
  ghost predicate Denotes(s: string, v: int) {
    || Digits(s, v)
    || (s != [] && s[0] == '+' && Digits(s[1..], v))
    || (s != [] && s[0] == '-' && Digits(s[1..], 0 - v))
  }

  lemma ParseDigits(s: string, n: int)
    requires 0 <= n < TWO64
    ensures ParseUint(s) == Some(n) <==> Digits(s, n)
  {
  }

  lemma DenotesBySign(s: string, v: int)
    ensures s != [] && s[0] == '-' ==> (Denotes(s, v) <==> Digits(s[1..], 0 - v))
    ensures s != [] && s[0] == '+' ==> (Denotes(s, v) <==> Digits(s[1..], v))
    ensures s != [] && s[0] != '-' && s[0] != '+' ==> (Denotes(s, v) <==> Digits(s, v))
  {
  }

  /** A text restores to v, rather than to the fallback, exactly when it denotes v. */
  lemma ParsesExactly(s: string, v: Int64)
    ensures ParseInt(s) == Some(v) <==> Denotes(s, v)
  {
    if s != [] {
      DenotesBySign(s, v);
      var w: int := v;
      if s[0] == '-' {
        if w <= 0 { ParseDigits(s[1..], -w); }
      } else if s[0] == '+' {
        if w >= 0 { ParseDigits(s[1..], w); }
      } else if w >= 0 {
        ParseDigits(s, w);
      }
    }
  }
}
