/** The cursor over a byte vector (InputBuffer), addresses, signatures, transfers and the canonical
    form of a Tier 2 transaction.

    A read past the end either throws or is undefined in the code; both are Failed here. A loop
    that makes no progress is Diverged. Sizes and offsets are 64-bit and wrap.
 */
module Buffers {
  import opened Words
  import opened Permutations
  import opened Bytes
  import opened Options
  import opened Summaries

  datatype Result<+T> = Ok(value: T, next: nat) | Failed | Diverged

  // ---------------------------------------------------------------------------------
  // Reads at an offset
  // ---------------------------------------------------------------------------------

  function ReadBytes(d: seq<byte>, o: nat, n: nat): Result<seq<byte>>
  {
    if o + n <= |d| then Ok(d[o..o + n], o + n) else Failed
  }

  function ReadNat(d: seq<byte>, o: nat, n: nat): Result<nat>
  {
    if o + n <= |d| then Ok(LeValue(d[o..o + n]), o + n) else Failed
  }

  const WALLET_ADDR_SIZE := 33
  const NODE_ADDR_SIZE := 49
  const WALLET_SIG_SIZE := 73
  const NODE_SIG_SIZE := 105

  /** The Address constructor: prepends the type to a raw address; anything else is kept as it
      is, with a log message if its size is wrong. */
  function MakeAddress(raw: seq<byte>): seq<byte>
  {
    if |raw| == WALLET_ADDR_SIZE then [WALLET_ADDR_SIZE] + raw
    else if |raw| == NODE_ADDR_SIZE then [NODE_ADDR_SIZE] + raw
    else raw
  }

  /** The Signature constructor, which throws on a wrong size or type. */
  function MakeSignature(raw: seq<byte>): Option<seq<byte>>
  {
    if |raw| == WALLET_SIG_SIZE then Some([WALLET_SIG_SIZE] + raw)
    else if |raw| == WALLET_SIG_SIZE + 1 then
      if raw[0] == WALLET_SIG_SIZE then Some(raw) else None
    else if |raw| == NODE_SIG_SIZE then Some([NODE_SIG_SIZE] + raw)
    else if |raw| == NODE_SIG_SIZE + 1 then
      if raw[0] == NODE_SIG_SIZE then Some(raw) else None
    else None
  }

  /** A wallet or node address in canonical form. */
  predicate IsAddress(a: Address)
  {
    || (|a| == WALLET_ADDR_SIZE + 1 && a[0] == WALLET_ADDR_SIZE)
    || (|a| == NODE_ADDR_SIZE + 1 && a[0] == NODE_ADDR_SIZE)
  }

  predicate IsSignature(s: seq<byte>)
  {
    || (|s| == WALLET_SIG_SIZE + 1 && s[0] == WALLET_SIG_SIZE)
    || (|s| == NODE_SIG_SIZE + 1 && s[0] == NODE_SIG_SIZE)
  }

  /** InputBuffer::copy(Address&): a length byte, then that many bytes. */
  function ReadAddress(d: seq<byte>, o: nat): Result<Address>
  {
    if o >= |d| then Failed
    else if o + 1 + d[o] > |d| then Failed
    else Ok(MakeAddress(d[o + 1..o + 1 + d[o]]), o + 1 + d[o])
  }

  function ReadSignature(d: seq<byte>, o: nat): Result<seq<byte>>
  {
    if o >= |d| then Failed
    else if o + 1 + d[o] > |d| then Failed
    else
      var sig := MakeSignature(d[o + 1..o + 1 + d[o]]);
      if sig.None? then Failed else Ok(sig.value, o + 1 + d[o])
  }

  lemma ReadAddressHas(d: seq<byte>, o: nat, a: Address)
    requires Has(d, o, a) && IsAddress(a)
    ensures ReadAddress(d, o) == Ok(a, o + |a|)
  {
    assert a == [a[0]] + a[1..];
    assert d[o] == d[o..o + |a|][0] && d[o + 1..o + |a|] == d[o..o + |a|][1..];
  }

  lemma ReadSignatureHas(d: seq<byte>, o: nat, s: seq<byte>)
    requires Has(d, o, s) && IsSignature(s)
    ensures ReadSignature(d, o) == Ok(s, o + |s|)
  {
    assert s == [s[0]] + s[1..];
    assert d[o] == d[o..o + |s|][0] && d[o + 1..o + |s|] == d[o..o + |s|][1..];
  }

  // ---------------------------------------------------------------------------------
  // Where the next transaction ends
  // ---------------------------------------------------------------------------------

  const TX_MIN_SIZE := 91
  const OPERATION_OFFSET := 16
  const TRANSFER_OFFSET := 17
  const MIN_NONCE_SIZE := 8
  const NUM_OPERATIONS := 4

  /** getNextT1Transaction: nothing, without moving, if the buffer is too short. */
  function NextT1Transaction(d: seq<byte>, o: nat): (r: Result<seq<byte>>)
    ensures r.Ok? ==> o <= r.next <= |d|
  {
    if o + U64 > |d| then Failed
    else
      var size := Wrap(LeValue(d[o..o + U64]) + (NODE_SIG_SIZE + 1) + U64 + (NODE_ADDR_SIZE + 1));
      if |d| < Wrap(o + size) then Ok([], o) else ReadBytes(d, o, size)
  }

  /** getNextTransaction: tries the Tier 2 layout and falls back to Tier 1. */
  function NextTransaction(d: seq<byte>, o: nat): (r: Result<seq<byte>>)
    ensures r.Ok? ==> o <= r.next <= |d|
  {
    if |d| < o + TX_MIN_SIZE then NextT1Transaction(d, o)
    else
      var xferSize := LeValue(d[o..o + U64]);
      var nonceSize := LeValue(d[o + U64..o + 2 * U64]);
      if nonceSize < MIN_NONCE_SIZE then NextT1Transaction(d, o)
      else if d[o + OPERATION_OFFSET] >= NUM_OPERATIONS then NextT1Transaction(d, o)
      else SizedTransaction(d, o, xferSize, nonceSize)
  }

  /** The length byte of the signature completes the size of a Tier 2 transaction. */
  function SizedTransaction(d: seq<byte>, o: nat, xferSize: nat, nonceSize: nat): (r: Result<seq<byte>>)
    ensures r.Ok? ==> o <= r.next <= |d|
  {
    var sigAt := Wrap(Wrap(TRANSFER_OFFSET + xferSize + nonceSize) + o);
    if sigAt >= |d| then Failed
    else
      var size := Wrap(d[sigAt] + TRANSFER_OFFSET + xferSize + nonceSize + 1);
      if |d| < Wrap(o + size) then NextT1Transaction(d, o) else ReadBytes(d, o, size)
  }

  /** Tier2Transaction::Fill and QuickFill: the same layout, exceptions instead of the fallback,
      and a length that leaves out the type byte of the signature. */
  function Fill(d: seq<byte>, o: nat): Result<seq<byte>>
  {
    if |d| < o + TX_MIN_SIZE then Failed
    else
      var xferSize := LeValue(d[o..o + U64]);
      var nonceSize := LeValue(d[o + U64..o + 2 * U64]);
      if nonceSize < MIN_NONCE_SIZE then Failed
      else if d[o + OPERATION_OFFSET] >= NUM_OPERATIONS then Failed
      else
        var sigAt := Wrap(Wrap(TRANSFER_OFFSET + xferSize + nonceSize) + o);
        if sigAt >= |d| then Failed
        else
          var size := Wrap(d[sigAt] + TRANSFER_OFFSET + xferSize + nonceSize);
          if |d| < Wrap(o + size) then Failed else ReadBytes(d, o, size)
  }

  /** The bytes of one Tier 2 transaction, by their own length fields. */
  predicate IsTier2(tx: seq<byte>)
  {
    && |tx| >= TX_MIN_SIZE
    && var xferSize := LeValue(tx[..U64]); var nonceSize := LeValue(tx[U64..2 * U64]);
       && nonceSize >= MIN_NONCE_SIZE && tx[OPERATION_OFFSET] < NUM_OPERATIONS
       && TRANSFER_OFFSET + xferSize + nonceSize < |tx|
       && |tx| == TRANSFER_OFFSET + xferSize + nonceSize + 1 + tx[TRANSFER_OFFSET + xferSize + nonceSize]
  }

  /** What the length fields of tx say, read at o. */
  lemma Fields(d: seq<byte>, o: nat, tx: seq<byte>)
    requires Has(d, o, tx) && IsTier2(tx)
    ensures d[o..o + U64] == tx[..U64] && d[o + U64..o + 2 * U64] == tx[U64..2 * U64]
    ensures forall k :: 0 <= k < |tx| ==> d[o + k] == tx[k]
  {
    forall k | 0 <= k < |tx|
      ensures d[o + k] == tx[k]
    {
      assert d[o..o + |tx|][k] == tx[k];
    }
  }

  /** The next transaction ends exactly where it was written to end, whatever follows it. */
  lemma NextTier2(d: seq<byte>, o: nat, tx: seq<byte>)
    requires |d| < HALF && Has(d, o, tx) && IsTier2(tx)
    ensures NextTransaction(d, o) == Ok(tx, o + |tx|)
  {
    Fields(d, o, tx);
  }

  /** Fill stops one byte early: it drops the last byte of the signature. */
  lemma FillDropsLastByte(d: seq<byte>, o: nat, tx: seq<byte>)
    requires |d| < HALF && Has(d, o, tx) && IsTier2(tx)
    ensures Fill(d, o) == Ok(tx[..|tx| - 1], o + |tx| - 1)
  {
    Fields(d, o, tx);
    assert d[o..o + |tx| - 1] == tx[..|tx| - 1];
  }

  // ---------------------------------------------------------------------------------
  // Transfers and the canonical form of a transaction
  // ---------------------------------------------------------------------------------

  function XferBytes(x: Transfer): seq<byte>
  {
    x.addr + (LeBytes(x.coin, U64) + (LeBytes(Wrap(x.amount), U64) + LeBytes(x.delay, U64)))
  }

  function XferCodes(xs: seq<Transfer>): (r: seq<seq<byte>>)
    ensures |r| == |xs| && forall i :: 0 <= i < |xs| ==> r[i] == XferBytes(xs[i])
  {
    seq(|xs|, i requires 0 <= i < |xs| => XferBytes(xs[i]))
  }

  function XfersBytes(xs: seq<Transfer>): seq<byte>
  {
    Chain(XferCodes(xs))
  }

  /** What a Transfer object can hold. */
  predicate IsTransfer(x: Transfer)
  {
    IsAddress(x.addr) && x.coin < WORD && -HALF <= x.amount < HALF && x.delay < WORD
  }

  function TxBytes(oper: byte, xs: seq<Transfer>, nonce: seq<byte>, sig: seq<byte>): seq<byte>
  {
    LeBytes(|XfersBytes(xs)|, U64) + (LeBytes(|nonce|, U64) + ([oper] + (XfersBytes(xs) + (nonce + sig))))
  }

  /** The loop over the transfers of a new transaction, which adds up their size. */
  method AppendTransfers(xs: seq<Transfer>, ghost codes: seq<seq<byte>>) returns (body: seq<byte>, xferSize: nat)
    requires forall x :: x in xs ==> IsTransfer(x)
    requires |codes| == |xs| && forall i :: 0 <= i < |xs| ==> codes[i] == XferBytes(xs[i])
    ensures body == Chain(codes) && xferSize == |body|
  {
    xferSize := 0;
    body := [];
    assert codes[0..] == codes;
    for i := 0 to |xs|
      invariant xferSize == |body|
      invariant body + Chain(codes[i..]) == Chain(codes)
    {
      var one := TransferBytes(xs[i]);
      assert codes[i..][0] == one && codes[i..][1..] == codes[i + 1..];
      Assoc(body, one, Chain(codes[i + 1..]));
      xferSize := xferSize + |one|;
      body := body + one;
    }
  }

  /** Tier2Transaction's constructor: nonce size and operation first, then the transfers; their
      total size is inserted at the beginning, the nonce and the signature go to the end. */
  method BuildTransaction(oper: byte, xs: seq<Transfer>, nonce: seq<byte>, sig: seq<byte>) returns (canonical: seq<byte>)
    requires forall x :: x in xs ==> IsTransfer(x)
    requires |XfersBytes(xs)| < WORD && |nonce| < WORD
    ensures canonical == TxBytes(oper, xs, nonce, sig)
  {
    var nonceSize := SizeField(|nonce|);
    var head := nonceSize + [oper];
    var body, xferSize := AppendTransfers(xs, XferCodes(xs));
    var size := SizeField(xferSize);
    canonical := size + (head + (body + (nonce + sig)));
    Assoc(nonceSize, [oper], body + (nonce + sig));
  }

  method SizeField(n: nat) returns (field: seq<byte>)
    requires n < WORD
    ensures field == LeBytes(n, U64)
  {
    field := Uint64ToBin(n, []);
    assert [] + LeBytes(n, U64) == LeBytes(n, U64);
  }

  method TransferBytes(x: Transfer) returns (canonical: seq<byte>)
    requires IsTransfer(x)
    ensures canonical == XferBytes(x)
  {
    canonical := Uint64ToBin(x.coin, x.addr);
    canonical := Uint64ToBin(Wrap(x.amount), canonical);
    canonical := Uint64ToBin(x.delay, canonical);
    Assoc(x.addr, LeBytes(x.coin, U64), LeBytes(Wrap(x.amount), U64) + LeBytes(x.delay, U64));
    Assoc(x.addr + LeBytes(x.coin, U64), LeBytes(Wrap(x.amount), U64), LeBytes(x.delay, U64));
  }

  /** Where the parts of a transaction's bytes lie. */
  lemma Layout(a: seq<byte>, b: seq<byte>, oper: byte, body: seq<byte>, nonce: seq<byte>, sig: seq<byte>)
    requires |a| == U64 && |b| == U64 && sig != []
    ensures var tx := a + (b + ([oper] + (body + (nonce + sig))));
            && tx[..U64] == a && tx[U64..2 * U64] == b && tx[OPERATION_OFFSET] == oper
            && |tx| == TRANSFER_OFFSET + |body| + |nonce| + |sig|
            && tx[TRANSFER_OFFSET + |body| + |nonce|] == sig[0]
  {
  }

  /** The constructors build what getNextTransaction recognises. */
  lemma BuiltIsTier2(oper: byte, xs: seq<Transfer>, nonce: seq<byte>, sig: seq<byte>)
    requires oper < NUM_OPERATIONS && |nonce| >= MIN_NONCE_SIZE && IsSignature(sig)
    requires |XfersBytes(xs)| < WORD && |nonce| < WORD
    ensures IsTier2(TxBytes(oper, xs, nonce, sig))
  {
    var body := XfersBytes(xs);
    WordRoundTrip(|body|);
    WordRoundTrip(|nonce|);
    Layout(LeBytes(|body|, U64), LeBytes(|nonce|, U64), oper, body, nonce, sig);
  }

  /** The Transfer constructor from a buffer: its canonical bytes. */
  function RawTransfer(d: seq<byte>, o: nat): (r: Result<seq<byte>>)
    ensures r.Ok? ==> |r.value| >= 3 * U64
  {
    var a := ReadAddress(d, o);
    if !a.Ok? then Failed
    else if a.next + 3 * U64 > |d| then Failed
    else Ok(a.value + d[a.next..a.next + 3 * U64], a.next + 3 * U64)
  }

  /** The size of the address that the getters of a Transfer assume, by its type byte. */
  function AddressSize(kind: byte): Option<nat>
  {
    if kind == WALLET_ADDR_SIZE then Some(WALLET_ADDR_SIZE + 1)
    else if kind == NODE_ADDR_SIZE then Some(NODE_ADDR_SIZE + 1)
    else None
  }

  /** A Transfer through its getters, which throw on an unknown type and past the end. */
  function ViewTransfer(raw: seq<byte>): Option<Transfer>
  {
    if raw == [] then None
    else
      var size := AddressSize(raw[0]);
      if size.None? || size.value + 3 * U64 > |raw| then None
      else
        var n := size.value;
        LeWord(raw[n + U64..n + 2 * U64]);
        Some(Transfer(raw[..n], LeValue(raw[n..n + U64]), Signed(LeValue(raw[n + U64..n + 2 * U64])),
                      LeValue(raw[n + 2 * U64..n + 3 * U64])))
  }

  /** One transfer of a transaction, read through the getters. */
  function ReadTransfer(d: seq<byte>, o: nat): (r: Result<Transfer>)
    ensures r.Ok? ==> r.next > o
  {
    var raw := RawTransfer(d, o);
    if !raw.Ok? then Failed
    else
      var x := ViewTransfer(raw.value);
      if x.None? then Failed else Ok(x.value, o + |raw.value|)
  }

  lemma LeWord(bs: seq<byte>)
    requires |bs| == U64
    ensures LeValue(bs) < WORD
  {
    LeInverse(bs);
    Powers();
  }

  lemma WordRoundTrip(a: nat)
    requires a < WORD
    ensures LeValue(LeBytes(a, U64)) == a
  {
    Powers();
    LeRoundTrip(a, U64);
  }

  /** Three words one after the other. */
  lemma ThreeParts(raw: seq<byte>, n: nat, a: seq<byte>, b: seq<byte>, c: seq<byte>)
    requires |a| == |b| == |c| == U64 && n <= |raw| && raw[n..] == a + (b + c)
    ensures |raw| == n + 3 * U64 && raw[n..n + U64] == a
    ensures raw[n + U64..n + 2 * U64] == b && raw[n + 2 * U64..n + 3 * U64] == c
  {
    var rest := raw[n..];
    assert raw[n..n + U64] == rest[..U64];
    assert raw[n + U64..n + 2 * U64] == rest[U64..2 * U64];
    assert raw[n + 2 * U64..n + 3 * U64] == rest[2 * U64..];
  }

  /** The getters see what the constructor was given. */
  lemma ViewIs(x: Transfer)
    requires IsTransfer(x)
    ensures ViewTransfer(XferBytes(x)) == Some(x)
  {
    var coin, amount, delay := LeBytes(x.coin, U64), LeBytes(Wrap(x.amount), U64), LeBytes(x.delay, U64);
    WordRoundTrip(x.coin);
    WordRoundTrip(Wrap(x.amount));
    WordRoundTrip(x.delay);
    ViewOf(x.addr, coin, amount, delay);
  }

  lemma ViewOf(addr: Address, coin: seq<byte>, amount: seq<byte>, delay: seq<byte>)
    requires IsAddress(addr) && |coin| == |amount| == |delay| == U64
    ensures LeValue(amount) < WORD
    ensures ViewTransfer(addr + (coin + (amount + delay)))
         == Some(Transfer(addr, LeValue(coin), Signed(LeValue(amount)), LeValue(delay)))
  {
    var raw, n := addr + (coin + (amount + delay)), |addr|;
    LeWord(amount);
    assert raw[..n] == addr && raw[n..] == coin + (amount + delay);
    ThreeParts(raw, n, coin, amount, delay);
  }

  lemma RawTransferHas(d: seq<byte>, o: nat, x: Transfer)
    requires Has(d, o, XferBytes(x)) && IsTransfer(x)
    ensures RawTransfer(d, o) == Ok(XferBytes(x), o + |XferBytes(x)|)
  {
    var rest := LeBytes(x.coin, U64) + (LeBytes(Wrap(x.amount), U64) + LeBytes(x.delay, U64));
    HasSplit(d, o, x.addr, rest);
    ReadAddressHas(d, o, x.addr);
  }

  lemma ReadTransferHas(d: seq<byte>, o: nat, x: Transfer)
    requires Has(d, o, XferBytes(x)) && IsTransfer(x)
    ensures ReadTransfer(d, o) == Ok(x, o + |XferBytes(x)|)
  {
    RawTransferHas(d, o, x);
    ViewIs(x);
  }

  /** `while (offset < end)`, one read a step. It never ends if a step does not move the cursor. */
  function ReadLoop<T>(read: (seq<byte>, nat) -> Result<T>, d: seq<byte>, o: nat, end: nat, acc: seq<T>): (r: Result<seq<T>>)
    ensures r.Ok? ==> o <= r.next && end <= r.next
    decreases end - o
  {
    if o >= end then Ok(acc, o)
    else
      var one := read(d, o);
      if one.Failed? then Failed
      else if one.Diverged? || one.next <= o then Diverged
      else ReadLoop(read, d, one.next, end, acc + [one.value])
  }

  /** In this buffer, x is read from its code wherever that stands. */
  ghost predicate ReadsIn<T(!new)>(read: (seq<byte>, nat) -> Result<T>, d: seq<byte>, code: seq<byte>, x: T)
  {
    forall o: nat {:trigger Has(d, o, code)} :: Has(d, o, code) ==> read(d, o) == Ok(x, o + |code|)
  }

  lemma {:induction false} ReadLoopHas<T(!new)>(
    read: (seq<byte>, nat) -> Result<T>, d: seq<byte>, o: nat, codes: seq<seq<byte>>, xs: seq<T>, acc: seq<T>)
    requires |codes| == |xs| && Has(d, o, Chain(codes))
    requires forall i :: 0 <= i < |xs| ==> codes[i] != [] && ReadsIn(read, d, codes[i], xs[i])
    ensures ReadLoop(read, d, o, o + |Chain(codes)|, acc) == Ok(acc + xs, o + |Chain(codes)|)
    decreases |xs|
  {
    if xs == [] {
      assert acc + xs == acc;
    } else {
      HasSplit(d, o, codes[0], Chain(codes[1..]));
      assert ReadsIn(read, d, codes[0], xs[0]);
      ReadLoopHas(read, d, o + |codes[0]|, codes[1..], xs[1..], acc + [xs[0]]);
      assert acc + xs == acc + [xs[0]] + xs[1..];
    }
  }

  lemma HasSelf(d: seq<byte>)
    ensures Has(d, 0, d)
  {
    assert d[0..|d|] == d;
  }

  /** The whole of a buffer, code after code. */
  lemma ReadLoopAll<T(!new)>(read: (seq<byte>, nat) -> Result<T>, d: seq<byte>, codes: seq<seq<byte>>, xs: seq<T>)
    requires d == Chain(codes) && |codes| == |xs|
    requires forall i :: 0 <= i < |xs| ==> codes[i] != [] && ReadsIn(read, d, codes[i], xs[i])
    ensures ReadLoop(read, d, 0, |d|, []) == Ok(xs, |d|)
  {
    HasSelf(d);
    ReadLoopFrom(read, d, 0, |d|, codes, xs);
  }

  lemma ReadLoopFrom<T(!new)>(
    read: (seq<byte>, nat) -> Result<T>, d: seq<byte>, o: nat, end: nat, codes: seq<seq<byte>>, xs: seq<T>)
    requires |codes| == |xs| && Has(d, o, Chain(codes)) && end == o + |Chain(codes)|
    requires forall i :: 0 <= i < |xs| ==> codes[i] != [] && ReadsIn(read, d, codes[i], xs[i])
    ensures ReadLoop(read, d, o, end, []) == Ok(xs, end)
  {
    ReadLoopHas(read, d, o, codes, xs, []);
    assert [] + xs == xs;
  }

  lemma TransferReadsIn(d: seq<byte>, x: Transfer)
    requires IsTransfer(x)
    ensures XferBytes(x) != [] && ReadsIn(ReadTransfer, d, XferBytes(x), x)
  {
    forall o: nat | Has(d, o, XferBytes(x))
      ensures ReadTransfer(d, o) == Ok(x, o + |XferBytes(x)|)
    {
      ReadTransferHas(d, o, x);
    }
  }

  lemma TransfersReadIn(d: seq<byte>, xs: seq<Transfer>, codes: seq<seq<byte>>)
    requires codes == XferCodes(xs) && forall x :: x in xs ==> IsTransfer(x)
    ensures forall i :: 0 <= i < |xs| ==> codes[i] != [] && ReadsIn(ReadTransfer, d, codes[i], xs[i])
  {
    forall i | 0 <= i < |xs|
      ensures codes[i] != [] && ReadsIn(ReadTransfer, d, codes[i], xs[i])
    {
      TransferReadsIn(d, xs[i]);
    }
  }

  method ReadWhile<T>(read: (seq<byte>, nat) -> Result<T>, d: seq<byte>, start: nat, end: nat) returns (r: Result<seq<T>>)
    ensures r == ReadLoop(read, d, start, end, [])
  {
    var out, offset := [], start;
    while offset < end
      invariant ReadLoop(read, d, offset, end, out) == ReadLoop(read, d, start, end, [])
    {
      var one := read(d, offset);
      if one.Failed? { return Failed; }
      if one.Diverged? || one.next <= offset { return Diverged; }
      out, offset := out + [one.value], one.next;
    }
    r := Ok(out, offset);
  }

  /** do_getTransfers, and every transfer through its getters. */
  method GetTransfers(canonical: seq<byte>, xferSize: nat) returns (r: Result<seq<Transfer>>)
    ensures r == ReadLoop(ReadTransfer, canonical, TRANSFER_OFFSET, TRANSFER_OFFSET + xferSize, [])
  {
    r := ReadWhile(ReadTransfer, canonical, TRANSFER_OFFSET, TRANSFER_OFFSET + xferSize);
  }

  lemma TransfersInPlace(oper: byte, xs: seq<Transfer>, nonce: seq<byte>, sig: seq<byte>)
    ensures Has(TxBytes(oper, xs, nonce, sig), TRANSFER_OFFSET, XfersBytes(xs))
  {
    var tx, body := TxBytes(oper, xs, nonce, sig), XfersBytes(xs);
    assert tx[TRANSFER_OFFSET..] == body + (nonce + sig);
    assert Has(tx, TRANSFER_OFFSET, body + (nonce + sig));
    HasSplit(tx, TRANSFER_OFFSET, body, nonce + sig);
  }

  /** The transfers put into a transaction are the transfers read from it. */
  lemma TransfersRoundTrip(oper: byte, xs: seq<Transfer>, nonce: seq<byte>, sig: seq<byte>)
    requires forall x :: x in xs ==> IsTransfer(x)
    ensures var n := |XfersBytes(xs)|;
            ReadLoop(ReadTransfer, TxBytes(oper, xs, nonce, sig), TRANSFER_OFFSET, TRANSFER_OFFSET + n, [])
              == Ok(xs, TRANSFER_OFFSET + n)
  {
    var tx, codes := TxBytes(oper, xs, nonce, sig), XferCodes(xs);
    TransfersInPlace(oper, xs, nonce, sig);
    TransfersReadIn(tx, xs, codes);
    ReadLoopFrom(ReadTransfer, tx, TRANSFER_OFFSET, TRANSFER_OFFSET + |Chain(codes)|, codes, xs);
  }

  // ---------------------------------------------------------------------------------
  // The cursor
  // ---------------------------------------------------------------------------------

  class InputBuffer {
    const data: seq<byte>
    var offset: nat

    constructor (input: seq<byte>, start: nat)
      ensures data == input && offset == start
    {
      data := input;
      offset := start;
    }

    /** The cursor after a read: moved if it succeeded and was meant to move. */
    twostate predicate Moved<T>(r: Result<T>, increment: bool)
      reads this
    {
      offset == if r.Ok? && increment then r.next else old(offset)
    }

    method GetNextByte() returns (r: Result<byte>)
      modifies this
      ensures r == (if old(offset) < |data| then Ok(data[old(offset)], old(offset) + 1) else Failed)
      ensures Moved(r, true)
    {
      if offset >= |data| { return Failed; }
      r := Ok(data[offset], offset + 1);
      offset := offset + 1;
    }

    method GetNextUint32(increment: bool) returns (r: Result<nat>)
      modifies this
      ensures r == ReadNat(data, old(offset), U32) && Moved(r, increment)
    {
      var v := BinToUint32(data, offset);
      if v.OutOfRange? { return Failed; }
      r := Ok(v.value, offset + U32);
      if increment { offset := offset + U32; }
    }

    method GetNextUint64(increment: bool) returns (r: Result<nat>)
      modifies this
      ensures r == ReadNat(data, old(offset), U64) && Moved(r, increment)
    {
      var v := BinToUint64(data, offset);
      if v.OutOfRange? { return Failed; }
      r := Ok(v.value, offset + U64);
      if increment { offset := offset + U64; }
    }

    method Copy(length: nat) returns (r: Result<seq<byte>>)
      modifies this
      ensures r == ReadBytes(data, old(offset), length) && Moved(r, true)
    {
      if offset + length > |data| { return Failed; }
      r := Ok(data[offset..offset + length], offset + length);
      offset := offset + length;
    }

    method CopyAddress() returns (r: Result<Address>)
      modifies this
      ensures r == ReadAddress(data, old(offset))
      ensures r.Ok? ==> offset == r.next
    {
      var t := GetNextByte();
      if !t.Ok? { return Failed; }
      var raw := Copy(t.value);
      if !raw.Ok? { return Failed; }
      r := Ok(MakeAddress(raw.value), offset);
    }

    method CopySignature() returns (r: Result<seq<byte>>)
      modifies this
      ensures r == ReadSignature(data, old(offset))
      ensures r.Ok? ==> offset == r.next
    {
      var t := GetNextByte();
      if !t.Ok? { return Failed; }
      var raw := Copy(t.value);
      if !raw.Ok? { return Failed; }
      var sig := MakeSignature(raw.value);
      if sig.None? { return Failed; }
      r := Ok(sig.value, offset);
    }

    method GetNextT1Transaction() returns (r: Result<seq<byte>>)
      modifies this
      ensures r == NextT1Transaction(data, old(offset)) && Moved(r, true)
    {
      var sumSize := GetNextUint64(false);
      if !sumSize.Ok? { return Failed; }
      var size := Wrap(sumSize.value + (NODE_SIG_SIZE + 1) + U64 + (NODE_ADDR_SIZE + 1));
      if |data| < Wrap(offset + size) { return Ok([], offset); }
      r := Copy(size);
    }

    method GetNextTransaction() returns (r: Result<seq<byte>>)
      modifies this
      ensures r == NextTransaction(data, old(offset)) && Moved(r, true)
    {
      if |data| < offset + TX_MIN_SIZE {
        r := GetNextT1Transaction();
        return;
      }
      var xferSize := GetNextUint64(false);
      var nonceSize := BinToUint64(data, offset + U64);
      if nonceSize.value < MIN_NONCE_SIZE {
        r := GetNextT1Transaction();
        return;
      }
      if data[offset + OPERATION_OFFSET] >= NUM_OPERATIONS {
        r := GetNextT1Transaction();
        return;
      }
      r := GetSizedTransaction(xferSize.value, nonceSize.value);
    }

    method GetSizedTransaction(xferSize: nat, nonceSize: nat) returns (r: Result<seq<byte>>)
      modifies this
      ensures r == SizedTransaction(data, old(offset), xferSize, nonceSize) && Moved(r, true)
    {
      var sigAt := Wrap(Wrap(TRANSFER_OFFSET + xferSize + nonceSize) + offset);
      if sigAt >= |data| { return Failed; }
      var size := Wrap(data[sigAt] + TRANSFER_OFFSET + xferSize + nonceSize + 1);
      if |data| < Wrap(offset + size) {
        r := GetNextT1Transaction();
        return;
      }
      r := Copy(size);
    }
  }
}
