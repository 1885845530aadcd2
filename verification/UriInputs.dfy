/** Devv URIs that were not printed by the code itself: white space, signs, letter case and trailing
    characters that its parser lets through.
 */
module UriInputs {
  import opened Words
  import opened Options
  import opened Uris

  predicate AllSpace(s: string)
  {
    forall i :: 0 <= i < |s| ==> IsSpace(s[i])
  }

  /** Something that ends a number. */
  predicate NoDigitFirst(s: string)
  {
    s == "" || !IsDigit(s[0])
  }

  lemma {:induction false} TakeUpTo(ds: string, rest: string)
    requires AllDigits(ds) && NoDigitFirst(rest)
    ensures TakeDigits(ds + rest) == ds
  {
    if ds == "" {
      assert ds + rest == rest;
    } else {
      assert (ds + rest)[0] == ds[0] && (ds + rest)[1..] == ds[1..] + rest;
      TakeUpTo(ds[1..], rest);
    }
  }

  lemma {:induction false} SkipSpace(ws: string, s: string)
    requires AllSpace(ws)
    ensures Stoul(ws + s) == Stoul(s)
  {
    if ws == "" {
      assert ws + s == s;
    } else {
      assert (ws + s)[0] == ws[0] && (ws + s)[1..] == ws[1..] + s;
      SkipSpace(ws[1..], s);
    }
  }

  lemma MagnitudeIs(n: nat, rest: string)
    requires n < WORD && NoDigitFirst(rest)
    ensures Magnitude(ToDecimal(n) + rest) == Some(n)
    ensures ToDecimal(n) != "" && IsDigit(ToDecimal(n)[0])
  {
    DecimalRoundTrip(n);
    TakeUpTo(ToDecimal(n), rest);
  }

  /** stoul skips white space, takes a sign and stops at the first character that is no digit; a minus
      sign wraps around. */
  lemma StoulAccepts(ws: string, n: nat, rest: string)
    requires AllSpace(ws) && n < WORD && NoDigitFirst(rest)
    ensures Stoul(ws + (ToDecimal(n) + rest)) == Some(n)
    ensures Stoul(ws + ("+" + (ToDecimal(n) + rest))) == Some(n)
    ensures Stoul(ws + ("-" + (ToDecimal(n) + rest))) == Some(if n == 0 then 0 else WORD - n)
  {
    var s := ToDecimal(n) + rest;
    MagnitudeIs(n, rest);
    SkipSpace(ws, s);
    SkipSpace(ws, "+" + s);
    SkipSpace(ws, "-" + s);
    assert ("+" + s)[1..] == s && ("-" + s)[1..] == s;
  }

  /** A height beyond 32 bits is cut off. */
  lemma HeightIsCut(n: nat)
    requires n < WORD
    ensures ParseHeight(ToDecimal(n)) == Some(n % 0x1_0000_0000)
  {
    StoulRoundTrip(n);
    DecimalRoundTrip(n);
    TrimPlain(ToDecimal(n));
  }

  /** The same hexadecimal digit, in either case. */
  predicate SameDigit(c: char, d: char)
  {
    c == d || ('A' <= d <= 'F' && c as int == d as int + 32)
  }

  lemma SameValue(c: char, k: int)
    requires 0 <= k < 16 && SameDigit(c, ALPHA[k])
    ensures Char2Int(c) == k
  {
    DigitRoundTrip(k);
    assert ALPHA == ['0', '1', '2', '3', '4', '5', '6', '7', '8', '9', 'A', 'B', 'C', 'D', 'E', 'F'];
  }

  lemma SameByte(hi: char, lo: char, b: byte)
    requires SameDigit(hi, ALPHA[b / 16]) && SameDigit(lo, ALPHA[b % 16])
    ensures HexByte(hi, lo) == b
  {
    SameValue(hi, b / 16);
    SameValue(lo, b % 16);
    SameValue(ALPHA[b / 16], b / 16);
    SameValue(ALPHA[b % 16], b % 16);
    ByteRoundTrip(b);
  }

  lemma HexParts(b: byte, bs: seq<byte>)
    ensures var h := ToHex([b] + bs); |h| >= 2 && h[0] == ALPHA[b / 16] && h[1] == ALPHA[b % 16] && h[2..] == ToHex(bs)
  {
    assert ([b] + bs)[1..] == bs;
  }

  /** Hex2Bin reads both cases. */
  lemma {:induction false} EitherCase(bs: seq<byte>, hex: string)
    requires |hex| == |ToHex(bs)| && forall i :: 0 <= i < |hex| ==> SameDigit(hex[i], ToHex(bs)[i])
    ensures FromHex(hex) == bs
    decreases |bs|
  {
    if bs != [] {
      assert bs == [bs[0]] + bs[1..];
      HexParts(bs[0], bs[1..]);
      SameByte(hex[0], hex[1], bs[0]);
      Rest(hex, ToHex(bs), ToHex(bs[1..]));
      EitherCase(bs[1..], hex[2..]);
    }
  }

  lemma Rest(hex: string, all: string, rest: string)
    requires |hex| == |all| >= 2 && all[2..] == rest && forall i :: 0 <= i < |hex| ==> SameDigit(hex[i], all[i])
    ensures |hex[2..]| == |rest| && forall i :: 0 <= i < |hex[2..]| ==> SameDigit(hex[2..][i], rest[i])
  {
    forall i | 0 <= i < |hex[2..]| ensures SameDigit(hex[2..][i], rest[i]) {
      assert SameDigit(hex[i + 2], all[i + 2]) && rest[i] == all[2..][i];
    }
  }

  /** Does not begin or end with white space. */
  predicate Tight(s: string)
  {
    s != "" && !IsSpace(s[0]) && !IsSpace(s[|s| - 1])
  }

  lemma {:induction false} TrimsLeft(ws: string, s: string)
    requires AllSpace(ws) && s != "" && !IsSpace(s[0])
    ensures TrimLeft(ws + s) == s
  {
    if ws == "" {
      assert ws + s == s;
    } else {
      assert (ws + s)[0] == ws[0] && (ws + s)[1..] == ws[1..] + s;
      TrimsLeft(ws[1..], s);
    }
  }

  lemma {:induction false} TrimsRight(s: string, ws: string)
    requires AllSpace(ws) && s != "" && !IsSpace(s[|s| - 1])
    ensures TrimRight(s + ws) == s
    decreases |ws|
  {
    if ws == "" {
      assert s + ws == s;
    } else {
      assert (s + ws)[|s + ws| - 1] == ws[|ws| - 1] && (s + ws)[..|s + ws| - 1] == s + ws[..|ws| - 1];
      TrimsRight(s, ws[..|ws| - 1]);
    }
  }

  /** trim takes away all white space around a part, and nothing else. */
  lemma TrimIs(before: string, s: string, after: string)
    requires AllSpace(before) && AllSpace(after) && Tight(s)
    ensures Trim(before + (s + after)) == s
  {
    TrimsLeft(before, s + after);
    TrimsRight(s, after);
  }
}
