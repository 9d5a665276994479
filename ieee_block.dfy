/**
 * The IEEE 488.2 arbitrary block (section 7.7.6 of IEEE 488.2, "arbitrary
 * block program data", and its response-data counterpart) as the driver
 * runtime frames and unframes it: `#`, one ASCII digit l, then (when l > 0)
 * l ASCII digits giving the payload length n, then the payload.  `#0`
 * introduces an open-ended block that runs to the end of the data.
 */
module IeeeBlock {
  import opened Errors
  import opened Utf8
  import Decimal
  import opened Sequences

  const HASH: byte := 35  // '#'

  /** Python's `s[lo:hi]` for non-negative bounds: clamped to the sequence,
      empty when `hi <= lo`. */
  function Slice(s: seq<byte>, lo: nat, hi: int): (r: seq<byte>)
    ensures |r| <= |s|
    ensures lo <= hi <= |s| ==> r == s[lo..hi]
    ensures lo < |s| && hi >= |s| ==> r == s[lo..]
  {
    if lo >= |s| || hi <= lo then [] else s[lo..if hi < |s| then hi else |s|]
  }

  predicate IsDigitByte(b: byte) { '0' as int <= b <= '9' as int }

  /** The number the first k bytes of a run of ASCII digit bytes denote. */
  function FieldValue(field: seq<byte>, k: nat): int
    requires k <= |field|
  {
    if k == 0 then 0 else FieldValue(field, k - 1) * 10 + (field[k - 1] as int - '0' as int)
  }

  /** `int(field)`, and `int(field.decode('utf-8'))`, on a header field: a
      non-empty run of ASCII digits gives its value; anything else raises
      ValueError (or UnicodeDecodeError, a ValueError too), None here. */
  function ParseField(field: seq<byte>): (r: Option<nat>)
    ensures r.Some? <==> |field| > 0 && forall i :: 0 <= i < |field| ==> IsDigitByte(field[i])
  {
    if |field| > 0 && forall i :: 0 <= i < |field| ==> IsDigitByte(field[i])
    then
      FieldValueBound(field, |field|);
      Some(FieldValue(field, |field|) as nat)
    else None
  }

  lemma SingleDigitField(c: byte)
    requires IsDigitByte(c)
    ensures ParseField([c]) == Some(c - '0' as int)
  {
    var f: seq<byte> := [c];
    assert forall i :: 0 <= i < |f| ==> IsDigitByte(f[i]);
    assert FieldValue(f, 1) == c - '0' as int;
  }

  /** Bytes that are, position by position, the codes of a numeral's digits
      read back, prefix by prefix, as that numeral. */
  lemma {:induction false} CodesValue(e: seq<byte>, s: string, k: nat)
    requires Decimal.AllDigits(s) && |e| == |s| && k <= |s|
    requires forall i :: 0 <= i < |s| ==> e[i] == s[i] as int
    ensures FieldValue(e, k) == Decimal.Value(s[..k])
    decreases k
  {
    if k > 0 {
      CodesValue(e, s, k - 1);
      assert s[..k][..k - 1] == s[..k - 1];
    }
  }

  /** The bytes of a numeral read back as that numeral. */
  lemma EncodedDigitsValue(s: string)
    requires Decimal.AllDigits(s)
    ensures |Encode(s)| == |s|
    ensures forall i :: 0 <= i < |Encode(s)| ==> IsDigitByte(Encode(s)[i])
    ensures FieldValue(Encode(s), |s|) == Decimal.Value(s)
  {
    DigitStringAscii(s);
    EncodeAscii(s);
    CodesValue(Encode(s), s, |s|);
    assert s[..|s|] == s;
  }

  lemma ParseEncodedDigits(s: string)
    requires |s| > 0 && Decimal.AllDigits(s)
    ensures ParseField(Encode(s)) == Some(Decimal.Value(s))
  {
    EncodedDigitsValue(s);
  }

  /** build_ieee_block: `'#8%08d' % len(data)`, UTF-8 encoded, then the data.
      The digit count is always 8, whatever the length of the numeral. */
  function BuildIeeeBlock(data: seq<byte>): (r: seq<byte>)
    ensures |r| >= |data| + 10 && r[|r| - |data|..] == data
    ensures r[0] == HASH && r[1] == '8' as int
    ensures |data| < Decimal.Pow10(8) ==> |r| == |data| + 10
  {
    var header := "#8" + Decimal.ZeroPad(|data|, 8);
    Decimal.DigitsWidth(|data|, 8);
    EncodeAscii(header);
    Encode(header) + data
  }

  /** decode_ieee_block, as a value: the payload, or the error the code raises.
      The code never returns on non-empty data without a `#` (it scans past
      the end forever), hence the precondition. */
  function Decoded(data: seq<byte>): Result<seq<byte>>
    requires |data| == 0 || HASH in data
  {
    if |data| == 0 then Ok([]) else AfterHash(data[FirstIndex(data, HASH) + 1..])
  }

  /** The rest of decode_ieee_block once the `#` is found, on the bytes `t`
      that follow it (the code's `ind` counts from the start of `t`): the
      digit count, then a definite or an open-ended block. */
  function AfterHash(t: seq<byte>): Result<seq<byte>> {
    match ParseField(Slice(t, 0, 1))
    case None => Err(ValueError)
    case Some(l) =>
      if l > 0 then DefinitePayload(Slice(t, 1, |t|), l) else Ok(Slice(t, 1, |t|))
  }

  /** A definite block, on the bytes `u` after the digit count: an `l`-digit
      length field, then the payload, cut short (not an error) when the data
      ends first. */
  function DefinitePayload(u: seq<byte>, l: nat): Result<seq<byte>> {
    match ParseField(Slice(u, 0, l))
    case None => Err(ValueError)
    case Some(num) => Ok(Slice(u, l, l + num))
  }

  /** decode_ieee_block (ivi/ivi.py): scans for `#` one position at a time,
      then reads the header fields and slices out the payload. */
  method DecodeIeeeBlock(data: seq<byte>) returns (r: Result<seq<byte>>)
    requires |data| == 0 || HASH in data
    ensures r == Decoded(data)
  {
    if |data| == 0 {
      return Ok([]);
    }
    var ind := 0;
    while data[ind] != HASH
      invariant ind <= FirstIndex(data, HASH)
      decreases FirstIndex(data, HASH) - ind
    {
      ind := ind + 1;
    }
    assert ind == FirstIndex(data, HASH);
    r := AfterHash(data[ind + 1..]);
  }

  /** The header `#<w><n, zero-padded to w digits>` for a width w of 1 to 9. */
  function Header(w: nat, n: nat): (h: string)
    requires 1 <= w <= 9
  {
    "#" + [Decimal.DigitChar(w)] + Decimal.ZeroPad(n, w)
  }

  lemma DigitStringAscii(s: string)
    requires Decimal.AllDigits(s)
    ensures IsAscii(s)
  {
  }

  /** A value written with k digits lies in [0, 10^k). */
  lemma {:induction false} FieldValueBound(field: seq<byte>, k: nat)
    requires k <= |field| && forall i :: 0 <= i < |field| ==> IsDigitByte(field[i])
    ensures 0 <= FieldValue(field, k) < Decimal.Pow10(k)
    decreases k
  {
    if k > 0 {
      FieldValueBound(field, k - 1);
      assert IsDigitByte(field[k - 1]);
    }
  }

  /** `#`, a one-byte digit count equal to the width of the length field,
      that field, then the bytes that follow: decoding yields the first
      `num` of those bytes, num being the field's value. */
  lemma DefiniteParts(count: seq<byte>, len: seq<byte>, rest: seq<byte>)
    requires |count| == 1 && |len| > 0 && ParseField(count) == Some(|len|)
    requires ParseField(len).Some?
    ensures HASH in [HASH] + count + len + rest
    ensures Decoded([HASH] + count + len + rest) == Ok(Slice(rest, 0, ParseField(len).value))
  {
    Regroup([HASH], count, len, rest);
    HashFirst(count + (len + rest));
    CountThen(count, len + rest, |len|);
    PayloadAfter(len, rest, ParseField(len).value);
  }

  /** A one-byte non-zero digit count announces a definite block in the
      bytes after it. */
  lemma CountThen(count: seq<byte>, u: seq<byte>, l: nat)
    requires |count| == 1 && l > 0 && ParseField(count) == Some(l)
    ensures AfterHash(count + u) == DefinitePayload(u, l)
  {
    var t := count + u;
    assert Slice(t, 0, 1) == count;
    assert Slice(t, 1, |t|) == u;
  }

  lemma Regroup(a: seq<byte>, b: seq<byte>, c: seq<byte>, d: seq<byte>)
    ensures a + b + c + d == a + (b + (c + d))
  {
  }

  /** Data opening with `#` decodes what follows it. */
  lemma HashFirst(t: seq<byte>)
    ensures HASH in [HASH] + t && Decoded([HASH] + t) == AfterHash(t)
  {
    var block := [HASH] + t;
    assert block[0] == HASH;
    assert FirstIndex(block, HASH) == 0;
    assert block[1..] == t;
  }

  /** A length field followed by more bytes selects the payload from them. */
  lemma PayloadAfter(len: seq<byte>, rest: seq<byte>, num: nat)
    requires ParseField(len) == Some(num)
    ensures DefinitePayload(len + rest, |len|) == Ok(Slice(rest, 0, num))
  {
    assert Slice(len + rest, 0, |len|) == len;
    SliceShift(len, rest, 0, num, |len|, |len| + num);
  }

  /** A definite-length block whose header fits its width decodes to the
      first n bytes of what follows the header: the whole payload when exactly
      n bytes follow, the short remainder (no error) when fewer do, and
      anything after the n bytes is ignored. */
  lemma DefiniteBlock(w: nat, n: nat, body: seq<byte>)
    requires 1 <= w <= 9 && n < Decimal.Pow10(w)
    ensures HASH in Encode(Header(w, n)) + body
    ensures Decoded(Encode(Header(w, n)) + body) == Ok(if n <= |body| then body[..n] else body)
  {
    var d := [Decimal.DigitChar(w)];
    var z := Decimal.ZeroPad(n, w);
    Decimal.DigitsWidth(n, w);
    assert d[..0] == [];
    assert Decimal.Value(d) == w;
    ParseEncodedDigits(d);
    ParseEncodedDigits(z);
    DigitStringAscii(d);
    DigitStringAscii(z);
    EncodeAscii(d);
    EncodeAscii(z);
    EncodeConcat("#", d);
    EncodeConcat("#" + d, z);
    assert Encode("#") == [HASH];
    var ed, ez := Encode(d), Encode(z);
    assert Encode(Header(w, n)) + body == [HASH] + ed + ez + body;
    assert |ed| == 1 && |ez| == w && ParseField(ed) == Some(w);
    assert ParseField(ez) == Some(n);
    DefiniteParts(ed, ez, body);
    assert Slice(body, 0, n) == if n <= |body| then body[..n] else body;
  }

  /** Round trip: a payload shorter than 10^8 bytes comes back from its block;
      exactly `#8`, eight digits, the payload (ivi/ivi.py build and decode). */
  lemma BuildDecodeRoundTrip(data: seq<byte>)
    requires |data| < Decimal.Pow10(8)
    ensures HASH in BuildIeeeBlock(data)
    ensures Decoded(BuildIeeeBlock(data)) == Ok(data)
  {
    BuildParts(data);
    var z := Decimal.ZeroPad(|data|, 8);
    Decimal.DigitsWidth(|data|, 8);
    EncodedDigitsValue(z);
    ParseEncodedDigits(z);
    SingleDigitField('8' as int);
    DefiniteParts(['8' as int], Encode(z), data);
  }

  /** What build_ieee_block lays down: `#`, `8`, then the encoded numeral
      and the payload. */
  lemma BuildParts(data: seq<byte>)
    ensures BuildIeeeBlock(data) == [HASH] + ['8' as int] + Encode(Decimal.ZeroPad(|data|, 8)) + data
  {
    var z := Decimal.ZeroPad(|data|, 8);
    assert BuildIeeeBlock(data) == Encode("#8" + z) + data;
    EncodeConcat("#8", z);
    EncodeAscii("#8");
    assert Encode("#8") == [HASH] + ['8' as int];
  }

  /** Any non-empty run of digit bytes parses, to a value below 10 to its length. */
  lemma DigitRun(f: seq<byte>)
    requires |f| > 0 && forall i :: 0 <= i < |f| ==> IsDigitByte(f[i])
    ensures ParseField(f).Some? && ParseField(f).value < Decimal.Pow10(|f|)
  {
    FieldValueBound(f, |f|);
  }

  /** For a payload of 10^8 bytes or more, the block build_ieee_block makes
      is `#8`, the first eight digits of the length, and then the rest. */
  lemma OverflowParts(data: seq<byte>) returns (len: seq<byte>, rest: seq<byte>)
    requires |data| >= Decimal.Pow10(8)
    ensures |len| == 8 && ParseField(len).Some? && ParseField(len).value < Decimal.Pow10(8)
    ensures BuildIeeeBlock(data) == [HASH] + ['8' as int] + len + rest
  {
    BuildParts(data);
    var z := Decimal.ZeroPad(|data|, 8);
    EncodedDigitsValue(z);
    var ez := Encode(z);
    DigitPrefix(ez, 8);
    SplitAfter([HASH] + ['8' as int], ez, data, 8);
    len, rest := ez[..8], ez[8..] + data;
  }

  /** The first k bytes of a run of digit bytes parse, below 10^k. */
  lemma DigitPrefix(e: seq<byte>, k: nat)
    requires 1 <= k <= |e| && forall i :: 0 <= i < |e| ==> IsDigitByte(e[i])
    ensures |e[..k]| == k && ParseField(e[..k]).Some? && ParseField(e[..k]).value < Decimal.Pow10(k)
  {
    DigitRun(e[..k]);
  }

  lemma SplitAfter(h: seq<byte>, e: seq<byte>, data: seq<byte>, k: nat)
    requires k <= |e|
    ensures h + e + data == h + e[..k] + (e[k..] + data)
  {
    assert e == e[..k] + e[k..];
  }

  /** As written, build_ieee_block breaks the round trip for every payload of
      10^8 bytes or more: the numeral needs nine or more digits while the
      header announces eight, so decoding reads a length below 10^8. */
  lemma BuildIeeeBlockOverflow(data: seq<byte>)
    requires |data| >= Decimal.Pow10(8)
    ensures HASH in BuildIeeeBlock(data)
    ensures Decoded(BuildIeeeBlock(data)) != Ok(data)
  {
    var len, rest := OverflowParts(data);
    SingleDigitField('8' as int);
    DefiniteParts(['8' as int], len, rest);
  }

  /** The round trip holds exactly for payloads below 10^8 bytes. */
  lemma RoundTripExactly(data: seq<byte>)
    ensures HASH in BuildIeeeBlock(data)
    ensures Decoded(BuildIeeeBlock(data)) == Ok(data) <==> |data| < Decimal.Pow10(8)
  {
    if |data| < Decimal.Pow10(8) {
      BuildDecodeRoundTrip(data);
    } else {
      BuildIeeeBlockOverflow(data);
    }
  }

  /** The header the comment in build_ieee_block describes ("l is length of
      n"): eight digits as before, nine when the length needs them.  IEEE
      488.2 allows at most nine length digits; a longer payload is sent as an
      indefinite block, `#0` followed by the bytes. */
  function BuildIeeeBlockSized(data: seq<byte>): (r: seq<byte>)
    ensures |data| < Decimal.Pow10(8) ==> r == BuildIeeeBlock(data)
    ensures |r| >= |data| && r[|r| - |data|..] == data
  {
    if |data| < Decimal.Pow10(9) then
      var w := if |data| < Decimal.Pow10(8) then 8 else 9;
      assert Decimal.DigitChar(8) == '8';
      assert "#8" + Decimal.ZeroPad(|data|, 8) == Header(8, |data|);
      Encode(Header(w, |data|)) + data
    else
      [HASH, '0' as int] + data
  }

  lemma WholePrefix(s: seq<byte>)
    ensures s[..|s|] == s
  {
  }

  /** The corrected builder round-trips every payload. */
  lemma SizedRoundTrip(data: seq<byte>)
    ensures HASH in BuildIeeeBlockSized(data)
    ensures Decoded(BuildIeeeBlockSized(data)) == Ok(data)
  {
    if |data| < Decimal.Pow10(9) {
      var w := if |data| < Decimal.Pow10(8) then 8 else 9;
      assert BuildIeeeBlockSized(data) == Encode(Header(w, |data|)) + data;
      DefiniteBlock(w, |data|, data);
      WholePrefix(data);
    } else {
      assert BuildIeeeBlockSized(data) == [HASH, '0' as int] + data;
      OpenEndedBlock(data);
    }
  }

  /** A slice of `b` is the same slice of `noise + b`, moved by |noise|;
      lo2 and hi2 are the moved bounds. */
  lemma SliceShift(noise: seq<byte>, b: seq<byte>, lo: nat, hi: int, lo2: nat, hi2: int)
    requires lo2 == |noise| + lo && hi2 == |noise| + hi
    ensures Slice(noise + b, lo2, hi2) == Slice(b, lo, hi)
  {
    var s := noise + b;
    if lo < |b| && lo < hi {
      var top := if hi < |b| then hi else |b|;
      assert s[lo2..|noise| + top] == b[lo..top];
    }
  }

  lemma {:induction false} FirstIndexShift(noise: seq<byte>, block: seq<byte>)
    requires HASH !in noise && HASH in block
    ensures HASH in noise + block
    ensures FirstIndex(noise + block, HASH) == |noise| + FirstIndex(block, HASH)
    decreases |noise|
  {
    var s := noise + block;
    assert s[|noise| + FirstIndex(block, HASH)] == HASH;
    if noise != [] {
      assert s[1..] == noise[1..] + block;
      FirstIndexShift(noise[1..], block);
    }
  }

  /** Decoding starts right after the first `#`, at k. */
  lemma DecodedAfter(data: seq<byte>, k: nat)
    requires HASH in data && k == FirstIndex(data, HASH) + 1
    ensures Decoded(data) == AfterHash(data[k..])
  {
  }

  lemma DropPrefix(noise: seq<byte>, b: seq<byte>, k: nat)
    requires k <= |b|
    ensures (noise + b)[|noise| + k..] == b[k..]
  {
  }

  /** Bytes before the first `#` (a reply preamble) do not affect decoding. */
  lemma NoiseIgnored(noise: seq<byte>, block: seq<byte>)
    requires HASH !in noise && HASH in block
    ensures HASH in noise + block
    ensures Decoded(noise + block) == Decoded(block)
  {
    FirstIndexShift(noise, block);
    ShiftedDecode(noise, block);
  }

  /** Data whose first `#` is the first `#` of its tail `block` decodes as
      that tail does. */
  lemma ShiftedDecode(noise: seq<byte>, block: seq<byte>)
    requires HASH in block && HASH in noise + block
    requires FirstIndex(noise + block, HASH) == |noise| + FirstIndex(block, HASH)
    ensures Decoded(noise + block) == Decoded(block)
  {
    var s := noise + block;
    var k := FirstIndex(block, HASH) + 1;
    DecodedAfter(s, |noise| + k);
    DecodedAfter(block, k);
    DropPrefix(noise, block, k);
    assert s[|noise| + k..] == block[k..];
  }

  /** `#0` opens an indefinite block: everything after the `0` is payload. */
  lemma OpenEndedBlock(rest: seq<byte>)
    ensures Decoded([HASH, '0' as int] + rest) == Ok(rest)
  {
    var t := ['0' as int] + rest;
    assert [HASH, '0' as int] + rest == [HASH] + t;
    HashFirst(t);
    assert Slice(t, 0, 1) == ['0' as int];
    SingleDigitField('0' as int);
    assert Slice(t, 1, |t|) == rest;
  }

  /** The same after any preamble free of `#`. */
  lemma OpenEnded(noise: seq<byte>, rest: seq<byte>)
    requires HASH !in noise
    ensures HASH in noise + [HASH, '0' as int] + rest
    ensures Decoded(noise + [HASH, '0' as int] + rest) == Ok(rest)
  {
    var block := [HASH, '0' as int] + rest;
    assert noise + [HASH, '0' as int] + rest == noise + block;
    assert block[0] == HASH;
    NoiseIgnored(noise, block);
    OpenEndedBlock(rest);
  }

  /** A decoded payload is always a contiguous run of the input: decoding
      slices, it never builds new bytes. */
  lemma DecodedIsSlice(data: seq<byte>) returns (start: nat)
    requires |data| == 0 || HASH in data
    requires Decoded(data).Ok?
    ensures start + |Decoded(data).value| <= |data|
    ensures data[start..start + |Decoded(data).value|] == Decoded(data).value
  {
    if |data| == 0 {
      return 0;
    }
    var ind := FirstIndex(data, HASH) + 1;
    var s := AfterHashIsSlice(data[ind..]);
    SubSlice(data, ind, s, |Decoded(data).value|);
    start := ind + s;
  }

  lemma SubSlice(a: seq<byte>, i: nat, s: nat, n: nat)
    requires i <= |a| && s + n <= |a| - i
    ensures a[i..][s..s + n] == a[i + s..i + s + n]
  {
  }

  lemma AfterHashIsSlice(t: seq<byte>) returns (start: nat)
    requires AfterHash(t).Ok?
    ensures start + |AfterHash(t).value| <= |t|
    ensures t[start..start + |AfterHash(t).value|] == AfterHash(t).value
  {
    var l := ParseField(Slice(t, 0, 1)).value;
    var u := t[1..];
    assert Slice(t, 1, |t|) == u;
    var v := AfterHash(t).value;
    if l > 0 {
      assert v == DefinitePayload(u, l).value;
      var s := PayloadIsSlice(u, l);
      SubSlice(t, 1, s, |v|);
      start := 1 + s;
    } else {
      start := 1;
    }
  }

  lemma PayloadIsSlice(u: seq<byte>, l: nat) returns (start: nat)
    requires DefinitePayload(u, l).Ok?
    ensures start + |DefinitePayload(u, l).value| <= |u|
    ensures u[start..start + |DefinitePayload(u, l).value|] == DefinitePayload(u, l).value
  {
    var num := ParseField(Slice(u, 0, l)).value;
    start := if l < |u| && l < l + num then l else 0;
  }
}
