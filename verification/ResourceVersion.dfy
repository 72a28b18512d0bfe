/** resourceVersions as the Registry compares them: decimal text read as an unsigned 64-bit number. */
module ResourceVersion {
  import opened Lists

  const MaxUint64: nat := 0xFFFF_FFFF_FFFF_FFFF

  predicate Digits(s: string) {
    forall i :: 0 <= i < |s| ==> '0' <= s[i] <= '9'
  }

  function ValueOf(s: string): nat
    requires Digits(s)
  {
    if s == "" then 0 else 10 * ValueOf(s[..|s| - 1]) + (s[|s| - 1] as int - '0' as int)
  }

  /** strconv.ParseUint in base 10 with 64 bits: no sign, no empty text, no overflow. */
  function ParseUint(s: string): Option<nat> {
    if s != "" && Digits(s) && ValueOf(s) <= MaxUint64 then Some(ValueOf(s)) else None
  }

  predicate Decimal(s: string) {
    ParseUint(s).Some?
  }

  /** An empty floor and anything unparseable err on the side of delivering. */
  predicate IsNewer(rv: string, floor: string) {
    floor == "" ||
    var n, f := ParseUint(rv), ParseUint(floor);
    n.None? || f.None? || n.value > f.value
  }

  /** The position of a floor in the numeric order; the empty floor lies below every version. */
  function Level(s: string): int {
    match ParseUint(s)
    case Some(n) => n
    case None => -1
  }

  // --- canonical decimals ---

  function Render(n: nat): (s: string)
    ensures s != "" && Digits(s)
  {
    var digit := ('0' as int + n % 10) as char;
    if n < 10 then [digit] else Render(n / 10) + [digit]
  }

  /** What the API server writes, the Registry reads back. */
  lemma {:induction false} RenderRoundTrip(n: nat)
    ensures ValueOf(Render(n)) == n
    ensures n <= MaxUint64 ==> ParseUint(Render(n)) == Some(n)
  {
    var digit := ('0' as int + n % 10) as char;
    if n < 10 {
      assert Render(n)[..0] == "";
    } else {
      RenderRoundTrip(n / 10);
      assert Render(n)[..|Render(n)| - 1] == Render(n / 10);
    }
  }

  /** On rendered versions the comparison is the strict order on numbers. */
  lemma NewerIsGreater(n: nat, m: nat)
    requires n <= MaxUint64 && m <= MaxUint64
    ensures IsNewer(Render(n), Render(m)) <==> n > m
  {
    RenderRoundTrip(n);
    RenderRoundTrip(m);
  }

  /** Whatever cannot be compared is delivered: no floor yet, a version or a floor that is no 64-bit decimal. */
  lemma IncomparableIsDelivered(rv: string, floor: string)
    requires floor == "" || !Decimal(rv) || !Decimal(floor)
    ensures IsNewer(rv, floor)
  {
  }

  /** A decimal with anything but digits in it, or beyond 64 bits, is none. */
  lemma NotDecimal(s: string, i: nat, n: nat)
    ensures i < |s| && !('0' <= s[i] <= '9') ==> !Decimal(s)
    ensures s == "" || (n > MaxUint64 && s == Render(n)) ==> !Decimal(s)
  {
    RenderRoundTrip(n);
  }

  predicate TextuallyBefore(a: string, b: string) {
    if b == "" then false
    else if a == "" then true
    else a[0] < b[0] || (a[0] == b[0] && TextuallyBefore(a[1..], b[1..]))
  }

  /** Comparing the text instead would put version 10 before version 9. */
  lemma TextOrderDiffers()
    ensures IsNewer(Render(10), Render(9)) && TextuallyBefore(Render(10), Render(9))
  {
  }
}
