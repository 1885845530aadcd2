/** Devv URIs: devv://shard/height/signature/address, printed by MakeDevvUri and read back by
    ParseDevvUri. A string is a sequence of characters; None is a thrown exception.
 */
module Uris {
  import opened Words
  import opened Permutations
  import opened Buffers
  import opened Options
  import opened Summaries

  const PROTOCOL := "devv://"
  const NO_HEIGHT: nat := 0xFFFF_FFFF

  /** sig and addr are the canonical bytes of the Signature and the Address. */
  datatype DevvUri = DevvUri(valid: bool, shard: string, height: nat, sig: seq<byte>, addr: seq<byte>)

  const BLANK := DevvUri(false, "", NO_HEIGHT, [0], [0])

  predicate IsNull(canonical: seq<byte>)
  {
    canonical == [] || canonical[0] == 0
  }

  // ---------------------------------------------------------------------------------
  // Hexadecimal
  // ---------------------------------------------------------------------------------

  const ALPHA := "0123456789ABCDEF"

  function Char2Int(c: char): int
  {
    if '0' <= c <= '9' then c as int - '0' as int
    else if 'A' <= c <= 'F' then c as int - 'A' as int + 10
    else if 'a' <= c <= 'f' then c as int - 'a' as int + 10
    else -1
  }

  /** Two characters as a byte; the first is cast to a byte before it is scaled. */
  function HexByte(hi: char, lo: char): byte
  {
    ((Char2Int(hi) % 256) * 16 + Char2Int(lo)) % 256
  }

  function FromHex(hex: string): (r: seq<byte>)
    ensures |r| == |hex| / 2
    decreases |hex|
  {
    if |hex| < 2 then [] else [HexByte(hex[0], hex[1])] + FromHex(hex[2..])
  }

  function ToHex(bs: seq<byte>): string
  {
    if bs == [] then "" else [ALPHA[bs[0] / 16], ALPHA[bs[0] % 16]] + ToHex(bs[1..])
  }

  lemma DigitRoundTrip(k: int)
    requires 0 <= k < 16
    ensures Char2Int(ALPHA[k]) == k && ALPHA[k] != '/' && !IsSpace(ALPHA[k])
  {
    assert ALPHA == ['0', '1', '2', '3', '4', '5', '6', '7', '8', '9', 'A', 'B', 'C', 'D', 'E', 'F'];
  }

  lemma ByteRoundTrip(b: byte)
    ensures HexByte(ALPHA[b / 16], ALPHA[b % 16]) == b
  {
    DigitRoundTrip(b / 16);
    DigitRoundTrip(b % 16);
    Nibbles(b / 16, b % 16);
  }

  lemma Nibbles(hi: int, lo: int)
    requires 0 <= hi < 16 && 0 <= lo < 16
    ensures ((hi % 256) * 16 + lo) % 256 == hi * 16 + lo
  {
    assert hi % 256 == hi;
  }

  lemma {:induction false} HexRoundTrip(bs: seq<byte>)
    ensures FromHex(ToHex(bs)) == bs
    decreases |bs|
  {
    if bs != [] {
      ByteRoundTrip(bs[0]);
      HexRoundTrip(bs[1..]);
      var hex := ToHex(bs);
      assert hex[2..] == ToHex(bs[1..]);
      assert hex[0] == ALPHA[bs[0] / 16] && hex[1] == ALPHA[bs[0] % 16];
      assert bs == [bs[0]] + bs[1..];
    }
  }

  /** The loop of Hex2Bin. */
  method Hex2Bin(hex: string) returns (buf: seq<byte>)
    ensures buf == FromHex(hex)
  {
    buf := [];
    assert hex[0..] == hex;
    for i := 0 to |hex| / 2
      invariant buf + FromHex(hex[2 * i..]) == FromHex(hex)
    {
      var rest := hex[2 * i..];
      assert rest[2..] == hex[2 * (i + 1)..];
      Assoc(buf, [HexByte(rest[0], rest[1])], FromHex(rest[2..]));
      buf := buf + [HexByte(hex[i * 2], hex[1 + i * 2])];
    }
  }

  /** The loop of getJSON and ToHex. */
  method HexString(bs: seq<byte>) returns (out: string)
    ensures out == ToHex(bs)
  {
    out := "";
    assert bs[0..] == bs;
    for j := 0 to |bs|
      invariant out + ToHex(bs[j..]) == ToHex(bs)
    {
      assert bs[j..][1..] == bs[j + 1..];
      Assoc(out, [ALPHA[bs[j] / 16], ALPHA[bs[j] % 16]], ToHex(bs[j + 1..]));
      out := out + [ALPHA[bs[j] / 16], ALPHA[bs[j] % 16]];
    }
  }

  // ---------------------------------------------------------------------------------
  // Decimal
  // ---------------------------------------------------------------------------------

  predicate IsDigit(c: char)
  {
    '0' <= c <= '9'
  }

  function Digit(k: nat): (c: char)
    requires k < 10
    ensures IsDigit(c) && c as int - '0' as int == k
  {
    '0' + k as char
  }

  /** std::to_string. */
  function ToDecimal(n: nat): string
  {
    if n < 10 then [Digit(n)] else ToDecimal(n / 10) + [Digit(n % 10)]
  }

  predicate AllDigits(s: string)
  {
    forall i :: 0 <= i < |s| ==> IsDigit(s[i])
  }

  function TakeDigits(s: string): (r: string)
    ensures AllDigits(r)
  {
    if s != [] && IsDigit(s[0]) then [s[0]] + TakeDigits(s[1..]) else []
  }

  function DecimalValue(s: string): nat
    requires AllDigits(s)
  {
    if s == [] then 0 else DecimalValue(s[..|s| - 1]) * 10 + (s[|s| - 1] as int - '0' as int)
  }

  function Magnitude(s: string): Option<nat>
  {
    var ds := TakeDigits(s);
    if ds == [] || DecimalValue(ds) >= WORD then None else Some(DecimalValue(ds))
  }

  /** std::stoul in base 10: white space, a sign, digits; anything after them is ignored. A minus
      sign negates the unsigned result. */
  function Stoul(s: string): Option<nat>
    decreases |s|
  {
    if s != [] && IsSpace(s[0]) then Stoul(s[1..])
    else if s != [] && s[0] == '-' then
      (var v := Magnitude(s[1..]); if v.None? then None else Some(Wrap(0 - v.value)))
    else if s != [] && s[0] == '+' then Magnitude(s[1..])
    else Magnitude(s)
  }

  lemma {:induction false} TakeAllDigits(s: string)
    requires AllDigits(s)
    ensures TakeDigits(s) == s
    decreases |s|
  {
    if s != [] {
      TakeAllDigits(s[1..]);
      assert s == [s[0]] + s[1..];
    }
  }

  lemma {:induction false} DecimalRoundTrip(n: nat)
    ensures AllDigits(ToDecimal(n)) && ToDecimal(n) != [] && DecimalValue(ToDecimal(n)) == n
    decreases n
  {
    if n < 10 {
      assert ToDecimal(n)[..0] == [];
    } else {
      DecimalRoundTrip(n / 10);
      var s := ToDecimal(n);
      assert s[..|s| - 1] == ToDecimal(n / 10);
    }
  }

  lemma StoulRoundTrip(n: nat)
    requires n < WORD
    ensures Stoul(ToDecimal(n)) == Some(n)
  {
    DecimalRoundTrip(n);
    TakeAllDigits(ToDecimal(n));
    assert IsDigit(ToDecimal(n)[0]);
  }

  // ---------------------------------------------------------------------------------
  // Trimming and splitting
  // ---------------------------------------------------------------------------------

  predicate IsSpace(c: char)
  {
    c in {' ', '\t', '\n', '\r', '\U{000C}', '\U{000B}'}
  }

  function TrimLeft(s: string): string
  {
    if s != [] && IsSpace(s[0]) then TrimLeft(s[1..]) else s
  }

  function TrimRight(s: string): string
  {
    if s != [] && IsSpace(s[|s| - 1]) then TrimRight(s[..|s| - 1]) else s
  }

  function Trim(s: string): string
  {
    TrimRight(TrimLeft(s))
  }

  /** No slash, no white space: such a part survives splitting and trimming. */
  predicate Plain(s: string)
  {
    forall i :: 0 <= i < |s| ==> s[i] != '/' && !IsSpace(s[i])
  }

  lemma TrimPlain(s: string)
    requires Plain(s)
    ensures Trim(s) == s
  {
  }

  lemma {:induction false} HexPlain(bs: seq<byte>)
    ensures Plain(ToHex(bs))
    decreases |bs|
  {
    if bs != [] {
      DigitRoundTrip(bs[0] / 16);
      DigitRoundTrip(bs[0] % 16);
      HexPlain(bs[1..]);
    }
  }

  lemma DecimalPlain(n: nat)
    ensures Plain(ToDecimal(n))
  {
    DecimalRoundTrip(n);
  }

  /** boost::split on slashes: one part more than there are slashes, empty parts kept. */
  function Split(s: string): (parts: seq<string>)
    ensures parts != []
  {
    if s == [] then [""]
    else if s[0] == '/' then [""] + Split(s[1..])
    else
      var rest := Split(s[1..]);
      [[s[0]] + rest[0]] + rest[1..]
  }

  predicate NoSlash(s: string)
  {
    forall i :: 0 <= i < |s| ==> s[i] != '/'
  }

  lemma {:induction false} SplitWhole(s: string)
    requires NoSlash(s)
    ensures Split(s) == [s]
    decreases |s|
  {
    if s != [] {
      SplitWhole(s[1..]);
      assert s == [s[0]] + s[1..];
    }
  }

  lemma {:induction false} SplitFirst(s: string, rest: string)
    requires NoSlash(s)
    ensures Split(s + ("/" + rest)) == [s] + Split(rest)
    decreases |s|
  {
    var all := s + ("/" + rest);
    if s == [] {
      assert all[0] == '/' && all[1..] == rest;
    } else {
      SplitFirst(s[1..], rest);
      assert all[0] == s[0] && all[1..] == s[1..] + ("/" + rest);
      assert s == [s[0]] + s[1..];
    }
  }

  lemma {:induction false} FirstPart(s: string)
    ensures NoSlash(Split(s)[0])
    decreases |s|
  {
    if s != [] && s[0] != '/' {
      FirstPart(s[1..]);
    }
  }

  // ---------------------------------------------------------------------------------
  // Printing and parsing
  // ---------------------------------------------------------------------------------

  /** Signature::getJSON and Address::getJSON. */
  function Json(canonical: seq<byte>): string
  {
    if IsNull(canonical) then "" else ToHex(canonical)
  }

  /** MakeDevvUri, with its early returns. */
  function Make(u: DevvUri): string
  {
    if !u.valid then ""
    else if u.shard == "" then ""
    else if u.height == NO_HEIGHT then PROTOCOL + u.shard
    else if IsNull(u.sig) then PROTOCOL + (u.shard + ("/" + ToDecimal(u.height)))
    else if IsNull(u.addr) then PROTOCOL + (u.shard + ("/" + (ToDecimal(u.height) + ("/" + Json(u.sig)))))
    else PROTOCOL + (u.shard + ("/" + (ToDecimal(u.height) + ("/" + (Json(u.sig) + ("/" + Json(u.addr)))))))
  }

  function ParseHeight(part: string): Option<nat>
  {
    if part == "" then Some(NO_HEIGHT)
    else
      var v := Stoul(Trim(part));
      if v.None? then None else Some(v.value % 0x1_0000_0000)
  }

  function ParseSig(part: string): Option<seq<byte>>
  {
    if part == "" then Some([0]) else MakeSignature(FromHex(Trim(part)))
  }

  function ParseAddr(part: string): seq<byte>
  {
    if part == "" then [0] else MakeAddress(FromHex(Trim(part)))
  }

  /** ParseDevvUri from the parts after the protocol. */
  function FromParts(parts: seq<string>): Option<DevvUri>
    requires parts != []
  {
    var shard := Trim(parts[0]);
    var height := if |parts| > 1 then ParseHeight(parts[1]) else Some(NO_HEIGHT);
    var sig := if |parts| > 2 then ParseSig(parts[2]) else Some([0]);
    var addr := if |parts| > 3 then ParseAddr(parts[3]) else [0];
    if height.None? || sig.None? then None else Some(DevvUri(true, shard, height.value, sig.value, addr))
  }

  /** ParseDevvUri. */
  function Parse(uri: string): Option<DevvUri>
  {
    if PROTOCOL <= uri then FromParts(Split(uri[|PROTOCOL|..])) else Some(BLANK)
  }

  lemma ParsePath(path: string)
    ensures Parse(PROTOCOL + path) == FromParts(Split(path))
  {
    assert (PROTOCOL + path)[|PROTOCOL|..] == path;
  }

  lemma HeightFrom(part: string, h: nat)
    requires part != "" && Plain(part) && Stoul(part) == Some(h) && h < 0x1_0000_0000
    ensures ParseHeight(part) == Some(h) && NoSlash(part)
  {
    TrimPlain(part);
  }

  /** A height comes back from its decimal form. */
  lemma HeightPart(h: nat)
    requires h < 0x1_0000_0000
    ensures ParseHeight(ToDecimal(h)) == Some(h) && NoSlash(ToDecimal(h))
  {
    DecimalRoundTrip(h);
    DecimalPlain(h);
    StoulRoundTrip(h);
    HeightFrom(ToDecimal(h), h);
  }

  /** A non-null signature comes back as what its constructor makes of the canonical bytes. */
  lemma SigPart(sig: seq<byte>)
    requires !IsNull(sig)
    ensures ParseSig(Json(sig)) == MakeSignature(sig) && NoSlash(Json(sig))
    ensures MakeSignature(sig) == Some(sig) <==> IsSignature(sig)
  {
    HexPlain(sig);
    TrimPlain(ToHex(sig));
    HexRoundTrip(sig);
    assert ToHex(sig) != "";
  }

  lemma AddrPart(addr: seq<byte>)
    requires !IsNull(addr)
    ensures ParseAddr(Json(addr)) == MakeAddress(addr) && NoSlash(Json(addr))
    ensures MakeAddress(addr) == addr <==> |addr| != WALLET_ADDR_SIZE && |addr| != NODE_ADDR_SIZE
  {
    HexPlain(addr);
    TrimPlain(ToHex(addr));
    HexRoundTrip(addr);
    assert ToHex(addr) != "";
  }

  /** Fields filled in order, each in the form its constructor keeps, and a shard name that is
      not empty, has no slash and is trimmed. */
  predicate InOrder(u: DevvUri)
  {
    && u.valid && u.shard != "" && NoSlash(u.shard) && Trim(u.shard) == u.shard
    && (if u.height == NO_HEIGHT || IsNull(u.sig) then u.sig == [0] && u.addr == [0]
        else IsSignature(u.sig)
             && (if IsNull(u.addr) then u.addr == [0] else |u.addr| != WALLET_ADDR_SIZE && |u.addr| != NODE_ADDR_SIZE))
  }

  /** What parsing gives for a uri whose shard has no slash. */
  lemma ParsedFields(u: DevvUri)
    requires u.valid && u.shard != "" && NoSlash(u.shard) && u.height < 0x1_0000_0000
    ensures Parse(Make(u)) ==
            if u.height == NO_HEIGHT || IsNull(u.sig) then Some(DevvUri(true, Trim(u.shard), u.height, [0], [0]))
            else if MakeSignature(u.sig).None? then None
            else Some(DevvUri(true, Trim(u.shard), u.height, MakeSignature(u.sig).value,
                              if IsNull(u.addr) then [0] else MakeAddress(u.addr)))
  {
    HeightPart(u.height);
    if u.height == NO_HEIGHT {
      ParsePath(u.shard);
      SplitWhole(u.shard);
    } else if IsNull(u.sig) {
      ParsePath(u.shard + ("/" + ToDecimal(u.height)));
      SplitFirst(u.shard, ToDecimal(u.height));
      SplitWhole(ToDecimal(u.height));
    } else {
      ParsedSignature(u);
    }
  }

  lemma ParsedSignature(u: DevvUri)
    requires u.valid && u.shard != "" && NoSlash(u.shard) && u.height < NO_HEIGHT && !IsNull(u.sig)
    ensures Parse(Make(u)) ==
            if MakeSignature(u.sig).None? then None
            else Some(DevvUri(true, Trim(u.shard), u.height, MakeSignature(u.sig).value,
                              if IsNull(u.addr) then [0] else MakeAddress(u.addr)))
  {
    HeightPart(u.height);
    SigPart(u.sig);
    var tail := if IsNull(u.addr) then Json(u.sig) else Json(u.sig) + ("/" + Json(u.addr));
    var path := u.shard + ("/" + (ToDecimal(u.height) + ("/" + tail)));
    ParsePath(path);
    SplitFirst(u.shard, ToDecimal(u.height) + ("/" + tail));
    SplitFirst(ToDecimal(u.height), tail);
    if IsNull(u.addr) {
      SplitWhole(Json(u.sig));
    } else {
      AddrPart(u.addr);
      SplitFirst(Json(u.sig), Json(u.addr));
      SplitWhole(Json(u.addr));
    }
  }

  lemma {:induction false} TrimNoSlash(s: string)
    requires NoSlash(s)
    ensures NoSlash(Trim(s))
  {
    TrimLeftNoSlash(s);
    TrimRightNoSlash(TrimLeft(s));
  }

  lemma {:induction false} TrimLeftNoSlash(s: string)
    requires NoSlash(s)
    ensures NoSlash(TrimLeft(s))
    decreases |s|
  {
    if s != [] && IsSpace(s[0]) {
      TrimLeftNoSlash(s[1..]);
    }
  }

  lemma {:induction false} TrimRightNoSlash(s: string)
    requires NoSlash(s)
    ensures NoSlash(TrimRight(s))
    decreases |s|
  {
    if s != [] && IsSpace(s[|s| - 1]) {
      TrimRightNoSlash(s[..|s| - 1]);
    }
  }

  /** A shard name read from a uri never has a slash. */
  lemma ShardHasNoSlash(uri: string)
    ensures Parse(uri).Some? ==> NoSlash(Parse(uri).value.shard)
  {
    if PROTOCOL <= uri {
      var path := uri[|PROTOCOL|..];
      FirstPart(path);
      TrimNoSlash(Split(path)[0]);
    }
  }

  /** Parsing what was printed gives the same uri back if and only if its fields are filled in
      order, or it is the blank one that stands for an invalid uri. */
  lemma UriRoundTripExactly(u: DevvUri)
    requires u.height < 0x1_0000_0000
    ensures Parse(Make(u)) == Some(u) <==> InOrder(u) || u == BLANK
  {
    if !u.valid || u.shard == "" {
      assert Make(u) == "" && Parse("") == Some(BLANK);
    } else if !NoSlash(u.shard) {
      ShardHasNoSlash(Make(u));
    } else {
      ParsedFields(u);
      if u.height != NO_HEIGHT && !IsNull(u.sig) {
        SigPart(u.sig);
        if !IsNull(u.addr) {
          AddrPart(u.addr);
        }
      }
    }
  }
}
