/** `formatNumberWithDecimal` of `lib/utils.ts`, over the decimal string
    that `num.toString()` produces: split at '.', keep the integer part,
    and pad the fractional part to at least two digits. */
module NumberFormat {

  /** Index of the first '.', or the length when there is none. */
  function DotIndex(s: string): (i: nat)
    ensures i <= |s|
    ensures i < |s| ==> s[i] == '.'
    ensures forall k :: 0 <= k < i ==> s[k] != '.'
    decreases |s|
  {
    if s == [] || s[0] == '.' then 0 else 1 + DotIndex(s[1..])
  }

  predicate NoDot(s: string)
  {
    forall k :: 0 <= k < |s| ==> s[k] != '.'
  }

  /** The first element of `s.split('.')`. */
  function IntPart(s: string): (r: string)
    ensures NoDot(r)
    ensures |r| <= |s| && s[..|r|] == r
    ensures |r| == |s| || s[|r|] == '.'
  {
    s[..DotIndex(s)]
  }

  /** The second element of `s.split('.')`, or "" when there is none. */
  function FracPart(s: string): (r: string)
    ensures NoDot(r)
    ensures NoDot(s) ==> r == ""
    ensures !NoDot(s) ==>
      var n := |IntPart(s)| + 1 + |r|;
      && n <= |s| && s[..n] == IntPart(s) + "." + r
      && (n == |s| || s[n] == '.')
  {
    if DotIndex(s) == |s| then ""
    else
      var rest := s[DotIndex(s) + 1..];
      rest[..DotIndex(rest)]
  }

  /** `s.padEnd(n, c)`: pads on the right up to length `n`, never cuts. */
  function PadEnd(s: string, n: nat, c: char): (r: string)
    ensures |r| == if |s| < n then n else |s|
    ensures r[..|s|] == s
    ensures forall k :: |s| <= k < |r| ==> r[k] == c
  {
    if |s| < n then s + seq(n - |s|, _ => c) else s
  }

  function FormatNumberWithDecimal(s: string): (r: string)
    ensures NoDot(s) ==> r == s + ".00"
    ensures FracPart(s) == "" ==> r == IntPart(s) + ".00"
    ensures |FracPart(s)| == 1 ==> r == IntPart(s) + "." + FracPart(s) + "0"
    ensures |FracPart(s)| >= 2 ==> r == IntPart(s) + "." + FracPart(s)
    ensures |r| >= |IntPart(s)| + 3 && r[..|IntPart(s)|] == IntPart(s) && r[|IntPart(s)|] == '.'
    ensures NoDot(r[|IntPart(s)| + 1..])
  {
    var decimal := FracPart(s);
    if decimal == "" then
      IntPart(s) + ".00"
    else
      IntPart(s) + "." + PadEnd(decimal, 2, '0')
  }

  /** The integer part of the output is the integer part of the input, and
      the output's fraction is the input's, padded. */
  lemma {:induction false} FormatParts(s: string)
    ensures IntPart(FormatNumberWithDecimal(s)) == IntPart(s)
    ensures |FracPart(FormatNumberWithDecimal(s))| >= 2
    ensures FracPart(s) != "" ==> FracPart(FormatNumberWithDecimal(s)) == PadEnd(FracPart(s), 2, '0')
  {
    var r := FormatNumberWithDecimal(s);
    var n := |IntPart(s)|;
    assert DotIndex(r) == n;
    var rest := r[n + 1..];
    assert DotIndex(rest) == |rest|;
    assert FracPart(r) == rest;
    if FracPart(s) != "" {
      assert r == IntPart(s) + "." + PadEnd(FracPart(s), 2, '0');
      assert rest == PadEnd(FracPart(s), 2, '0');
    }
  }

  /** Formatting an already formatted value changes nothing. */
  lemma Idempotent(s: string)
    ensures FormatNumberWithDecimal(FormatNumberWithDecimal(s)) == FormatNumberWithDecimal(s)
  {
    var r := FormatNumberWithDecimal(s);
    FormatParts(s);
    assert r == IntPart(r) + "." + FracPart(r) by {
      var n := |IntPart(s)|;
      assert r[n + 1..] == FracPart(r);
      assert r == r[..n] + "." + r[n + 1..];
    }
  }
}
