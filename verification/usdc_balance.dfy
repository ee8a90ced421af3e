/** The balance display of app/page.tsx: the `eth_call` data for the USDC
    `balanceOf(address)` query and the rendering of the returned amount with
    USDC's 6 decimals. */
module UsdcBalance {
  import opened Wrappers
  import opened Strings

  /** The 4-byte selector of `balanceOf(address)`, as hex text. */
  const BalanceOfSelector := "0x70a08231"

  /** Width of one ABI word in hex characters (32 bytes). */
  const WordHexChars: nat := 64

  const Decimals: nat := 6

  /** The address lower-cased, without its leading `0x`. */
  function StripHexPrefix(s: string): (r: string)
    ensures "0x" <= s ==> r == s[2..]
    ensures !("0x" <= s) ==> r == s
  {
    if "0x" <= s then s[2..] else s
  }

  /** The call data: selector, then the address left-padded with `0` to one
      32-byte word (an address of more than 64 hex characters is kept whole). */
  function BalanceCallData(address: string): (r: string)
    ensures var a := StripHexPrefix(Lower(address));
      && |r| == |BalanceOfSelector| + (if |a| >= WordHexChars then |a| else WordHexChars)
      && r[..|BalanceOfSelector|] == BalanceOfSelector
      && r[|r| - |a|..] == a
      && forall i :: |BalanceOfSelector| <= i < |r| - |a| ==> r[i] == '0'
  {
    BalanceOfSelector + PadStart(StripHexPrefix(Lower(address)), WordHexChars, '0')
  }

  /** For a 20-byte address `0x` + 40 hex digits, in either case, the call
      data is 4 + 32 bytes: the selector, 12 zero bytes, then the address in
      lower case, as the Solidity ABI encodes a static `address` argument. */
  lemma BalanceCallDataOfAddress(address: string)
    requires |address| == 42 && address[..2] == "0x" && AllHexDigits(address[2..])
    ensures var r := BalanceCallData(address);
      && |r| == 74
      && r[..10] == BalanceOfSelector
      && (forall i :: 10 <= i < 34 ==> r[i] == '0')
      && r[34..] == Lower(address[2..])
  {
    var l := Lower(address);
    assert l[..2] == "0x";
    assert "0x" <= l;
    assert l[2..] == Lower(address[2..]);
  }

  // -----------------------------------------------------------------------
  // Fixed-point rendering
  // -----------------------------------------------------------------------

  /** Drops trailing `0` characters. */
  function StripTrailingZeros(s: string): (r: string)
    ensures r <= s
    ensures r == [] || r[|r| - 1] != '0'
    ensures forall i :: |r| <= i < |s| ==> s[i] == '0'
  {
    if s != [] && s[|s| - 1] == '0' then StripTrailingZeros(s[..|s| - 1]) else s
  }

  /** Putting the stripped zeros back gives the original. */
  lemma StripTrailingZerosRestore(s: string)
    ensures StripTrailingZeros(s) + Repeat('0', |s| - |StripTrailingZeros(s)|) == s
  {
    var r := StripTrailingZeros(s);
    var z := Repeat('0', |s| - |r|);
    assert r + z == s by {
      assert forall i :: 0 <= i < |s| ==> (r + z)[i] == s[i];
    }
  }

  // The rendering is stated for any number `k >= 1` of decimals; USDC uses
  // `Decimals`.

  /** Quotient and remainder of natural numbers. */
  function Div(a: nat, b: nat): nat
    requires b > 0
  {
    a / b
  }

  function Mod(a: nat, b: nat): (r: nat)
    requires b > 0
    ensures r < b
  {
    a % b
  }

  lemma DivMod(a: nat, b: nat)
    requires b > 0
    ensures a == Div(a, b) * b + Mod(a, b)
  {
  }

  /** The whole units in `raw` base units of `10^-k`. */
  function Whole(raw: nat, k: nat): nat {
    Div(raw, Pow10(k))
  }

  /** The base units left over below one whole unit. */
  function Fraction(raw: nat, k: nat): (r: nat)
    ensures r < Pow10(k)
  {
    Mod(raw, Pow10(k))
  }

  /** Whole and fraction together make up the amount. */
  lemma WholeAndFraction(raw: nat, k: nat)
    ensures raw == Scale(Whole(raw, k), k) + Fraction(raw, k)
  {
    DivMod(raw, Pow10(k));
  }

  /** `n` whole units in base units. */
  function Scale(n: nat, k: nat): nat {
    n * Pow10(k)
  }

  /** The fraction `raw mod 10^k` as exactly `k` digits. */
  function PaddedFraction(raw: nat, k: nat): (p: string)
    requires k >= 1
    ensures |p| == k && AllDigits(p)
  {
    NatToStringLength(Fraction(raw, k), k);
    PadStart(NatToString(Fraction(raw, k)), k, '0')
  }

  /** The `k` digits read back as the fraction. */
  lemma PaddedFractionValue(raw: nat, k: nat)
    requires k >= 1
    ensures ParseNat(PaddedFraction(raw, k)) == Fraction(raw, k)
  {
    var frac := Fraction(raw, k);
    var digits := NatToString(frac);
    NatToStringLength(frac, k);
    assert PaddedFraction(raw, k) == Repeat('0', k - |digits|) + digits;
    ParseNatLeadingZeros(k - |digits|, digits);
    ParseNatToString(frac);
  }

  /** The `k` fraction digits of `raw`, with trailing zeros dropped. */
  function FractionDigits(raw: nat, k: nat): (f: string)
    requires k >= 1
    ensures |f| <= k && AllDigits(f)
    ensures f == [] || f[|f| - 1] != '0'
  {
    var p := PaddedFraction(raw, k);
    var f := StripTrailingZeros(p);
    DigitsPrefix(f, p);
    f
  }

  lemma DigitsPrefix(a: string, b: string)
    requires a <= b && AllDigits(b)
    ensures AllDigits(a)
  {
    assert forall i :: 0 <= i < |a| ==> a[i] == b[i];
  }

  lemma DigitsHaveNoPoint(s: string)
    requires AllDigits(s)
    ensures '.' !in s
  {
  }

  /** Restoring the dropped zeros gives the `k` digits back. */
  lemma FractionDigitsRestore(raw: nat, k: nat)
    requires k >= 1
    ensures FractionDigits(raw, k) + Repeat('0', k - |FractionDigits(raw, k)|) == PaddedFraction(raw, k)
  {
    StripTrailingZerosRestore(PaddedFraction(raw, k));
  }

  /** Digits that do not end in `0` do not denote zero. */
  lemma LastDigitNonZero(f: string)
    requires AllDigits(f) && f != [] && f[|f| - 1] != '0'
    ensures ParseNat(f) != 0
  {
  }

  /** The fraction digits vanish exactly when the fraction is zero. */
  lemma FractionDigitsZero(raw: nat, k: nat)
    requires k >= 1
    ensures FractionDigits(raw, k) == [] <==> Fraction(raw, k) == 0
  {
    PaddedFractionValue(raw, k);
    FractionDigitsRestore(raw, k);
    var f := FractionDigits(raw, k);
    if f == [] {
      assert PaddedFraction(raw, k) == Repeat('0', k) by {
        assert [] + Repeat('0', k) == Repeat('0', k);
      }
      ParseNatZeros(k);
    } else {
      ParseNatTrailingZeros(f, k - |f|);
      LastDigitNonZero(f);
    }
  }

  /** `raw` in units of `10^k`: whole part, then `.` and the fraction digits
      unless the fraction is zero. */
  function FormatFixed(raw: nat, k: nat): (r: string)
    requires k >= 1
    ensures '.' in r <==> Fraction(raw, k) != 0
  {
    var whole := NatToString(Whole(raw, k));
    var frac := FractionDigits(raw, k);
    FractionDigitsZero(raw, k);
    DigitsHaveNoPoint(whole);
    DigitsHaveNoPoint(frac);
    if frac != [] then
      var r := whole + ['.'] + frac;
      assert r[|whole|] == '.';
      r
    else whole
  }

  /** Fraction digits scaled to `k` places: `"5"` with `k = 6` is 500000. */
  function ScaledFraction(f: string, k: nat): nat
    requires AllDigits(f) && |f| <= k
  {
    ParseNat(f + Repeat('0', k - |f|))
  }

  /** Reads a fixed-point numeral back into base units: whole digits, then
      optionally `.` and at most `k` fraction digits. */
  function ParseFixed(s: string, k: nat): (r: Option<nat>)
    ensures r.Some? ==> AllDigits(BeforeChar(s, '.'))
  {
    var whole := BeforeChar(s, '.');
    if !AllDigits(whole) then None
    else if whole == s then Some(Scale(ParseNat(whole), k))
    else
      var frac := s[|whole| + 1..];
      if !AllDigits(frac) || |frac| > k then None
      else Some(Scale(ParseNat(whole), k) + ScaledFraction(frac, k))
  }

  /** A whole number without a point parses as that many units. */
  lemma ParseFixedWhole(whole: string, k: nat)
    requires AllDigits(whole) && '.' !in whole
    ensures ParseFixed(whole, k) == Some(Scale(ParseNat(whole), k))
  {
    BeforeCharStops(whole, '.', []);
    assert whole + [] == whole;
  }

  /** `whole.f` parses as whole units plus the fraction scaled to `k` digits. */
  lemma ParseFixedFraction(whole: string, f: string, k: nat)
    requires AllDigits(whole) && '.' !in whole
    requires AllDigits(f) && |f| <= k
    ensures ParseFixed(whole + ['.'] + f, k)
      == Some(Scale(ParseNat(whole), k) + ScaledFraction(f, k))
  {
    var tail := ['.'] + f;
    var s := whole + tail;
    assert whole + ['.'] + f == s;
    BeforeCharStops(whole, '.', tail);
    assert s[|whole| + 1..] == f;
    ParseFixedAt(s, whole, f, k);
  }

  /** Unfolds `ParseFixed` once the text is known to be `whole.f`. */
  lemma ParseFixedAt(s: string, whole: string, f: string, k: nat)
    requires BeforeChar(s, '.') == whole && |s| == |whole| + 1 + |f| && s[|whole| + 1..] == f
    requires AllDigits(whole) && AllDigits(f) && |f| <= k
    ensures ParseFixed(s, k) == Some(Scale(ParseNat(whole), k) + ScaledFraction(f, k))
  {
  }

  /** The kept fraction digits, scaled back, are the fraction. */
  lemma ScaledFractionDigits(raw: nat, k: nat)
    requires k >= 1
    ensures ScaledFraction(FractionDigits(raw, k), k) == Fraction(raw, k)
  {
    FractionDigitsRestore(raw, k);
    PaddedFractionValue(raw, k);
  }

  /** The two shapes of the rendering. */
  lemma FormatFixedShape(raw: nat, k: nat)
    requires k >= 1
    ensures FractionDigits(raw, k) == [] ==> FormatFixed(raw, k) == NatToString(Whole(raw, k))
    ensures FractionDigits(raw, k) != [] ==>
      FormatFixed(raw, k) == NatToString(Whole(raw, k)) + ['.'] + FractionDigits(raw, k)
  {
  }

  /** Reading back a text assembled from a whole part and fraction digits
      that together make up `raw`. */
  lemma ParseFixedParts(raw: nat, k: nat, q: nat, whole: string, f: string, s: string)
    requires AllDigits(whole) && '.' !in whole && ParseNat(whole) == q
    requires AllDigits(f) && |f| <= k
    requires raw == Scale(q, k) + ScaledFraction(f, k)
    requires if f == [] then s == whole else s == whole + ['.'] + f
    ensures ParseFixed(s, k) == Some(raw)
  {
    if f == [] {
      ParseFixedWhole(whole, k);
      assert ScaledFraction(f, k) == 0 by {
        assert f + Repeat('0', k - |f|) == Repeat('0', k);
        ParseNatZeros(k);
      }
    } else {
      ParseFixedFraction(whole, f, k);
    }
  }

  /** The rendering loses nothing: reading it back yields the raw amount. */
  lemma {:induction false} FormatFixedRoundTrip(raw: nat, k: nat)
    requires k >= 1
    ensures ParseFixed(FormatFixed(raw, k), k) == Some(raw)
  {
    var q := Whole(raw, k);
    var whole := NatToString(q);
    var f := FractionDigits(raw, k);
    FormatFixedShape(raw, k);
    ParseNatToString(q);
    DigitsHaveNoPoint(whole);
    WholeAndFraction(raw, k);
    ScaledFractionDigits(raw, k);
    ParseFixedParts(raw, k, q, whole, f, FormatFixed(raw, k));
  }

  /** The balance text shown for `raw` base units of USDC. */
  function FormatUsdc(raw: nat): (r: string)
    ensures ParseFixed(r, Decimals) == Some(raw)
    ensures '.' in r <==> raw % 1_000_000 != 0
  {
    FormatFixedRoundTrip(raw, Decimals);
    UsdcUnit();
    FormatFixed(raw, Decimals)
  }

  /** One USDC is 10^6 base units. */
  lemma UsdcUnit()
    ensures Pow10(Decimals) == 1_000_000
  {
    assert Pow10(0) == 1;
  }

  /** `BigInt(text)` for the forms a node returns: a hex literal or decimal
      digits. Anything else throws, which the caller turns into no balance. */
  function ParseBigInt(s: string): (r: Option<nat>)
    ensures IsHexLiteral(s) ==> r == Some(ParseHex(s[2..]))
    ensures !IsHexLiteral(s) && s != [] && AllDigits(s) ==> r == Some(ParseNat(s))
    ensures r.Some? <==> IsHexLiteral(s) || (s != [] && AllDigits(s))
  {
    if IsHexLiteral(s) then Some(ParseHex(s[2..]))
    else if s != [] && AllDigits(s) then Some(ParseNat(s))
    else None
  }

  /** The balance shown for the `result` of the `eth_call` reply: none for
      a missing, empty or unreadable result, else the formatted amount. */
  function BalanceText(result: Option<string>): (r: Option<string>)
    ensures result.None? || result.value == "" ==> r.None?
    ensures result.Some? && ParseBigInt(result.value).None? ==> r.None?
    ensures result.Some? && result.value != "" && ParseBigInt(result.value).Some? ==>
      r == Some(FormatUsdc(ParseBigInt(result.value).value))
  {
    if result.None? || result.value == "" then None
    else match ParseBigInt(result.value)
      case None => None
      case Some(raw) => Some(FormatUsdc(raw))
  }

  /** A hex `result`, in either case and with any leading zeros (an
      `eth_call` answer is a zero-padded 64-digit word), is shown as the
      amount it encodes, and that text reads back as the same number of
      base units. */
  lemma BalanceTextOfHex(s: string)
    requires IsHexLiteral(s)
    ensures BalanceText(Some(s)) == Some(FormatUsdc(ParseHex(s[2..])))
    ensures ParseFixed(BalanceText(Some(s)).value, Decimals) == Some(ParseHex(s[2..]))
  {
  }

  /** Leading zeros of the word do not change the shown balance. */
  lemma {:induction false} ParseHexLeadingZeros(k: nat, s: string)
    requires AllHexDigits(s)
    ensures AllHexDigits(Repeat('0', k) + s) && ParseHex(Repeat('0', k) + s) == ParseHex(s)
  {
    var z := Repeat('0', k);
    if s == [] {
      assert z + s == z;
      ParseHexZeros(k);
    } else {
      var t := z + s;
      assert t[..|t| - 1] == z + s[..|s| - 1];
      ParseHexLeadingZeros(k, s[..|s| - 1]);
    }
  }

  lemma {:induction false} ParseHexZeros(k: nat)
    ensures AllHexDigits(Repeat('0', k)) && ParseHex(Repeat('0', k)) == 0
  {
    if k > 0 {
      var z := Repeat('0', k);
      assert z[..|z| - 1] == Repeat('0', k - 1);
      ParseHexZeros(k - 1);
    }
  }

  /** The balance shown for an `eth_call` answer, the amount as a hex word
      padded with leading zeros (to 64 digits on the wire), is that amount. */
  lemma BalanceTextOfWord(raw: nat, padding: nat)
    ensures BalanceText(Some("0x" + Repeat('0', padding) + NatToHex(raw))) == Some(FormatUsdc(raw))
  {
    var w := "0x" + Repeat('0', padding) + NatToHex(raw);
    HexWord(raw, padding);
    BalanceTextOfHex(w);
  }

  lemma HexWord(raw: nat, padding: nat)
    ensures var w := "0x" + Repeat('0', padding) + NatToHex(raw);
      IsHexLiteral(w) && ParseHex(w[2..]) == raw
  {
    var w := "0x" + Repeat('0', padding) + NatToHex(raw);
    assert w[2..] == Repeat('0', padding) + NatToHex(raw);
    ParseHexToHex(raw);
    ParseHexLeadingZeros(padding, NatToHex(raw));
  }
}
