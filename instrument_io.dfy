/**
 * The interface object a driver session talks to, and what each I/O helper
 * of Driver (ivi/ivi.py) does with it.
 *
 * An interface always has `read_raw` and `write_raw`; every other method is
 * optional, and a missing one is an AttributeError the helpers catch and
 * emulate.  The instrument side is the stream of bytes it has queued for
 * reading; every call made on the interface is recorded, in order.
 */
module InstrumentIo {
  import opened Errors
  import opened Utf8
  import Decimal
  import IeeeBlock
  import Sequences

  /** The optional methods of an interface object. */
  datatype Capability =
    | AskRawOp | WriteOp | ReadOp | AskOp | ReadStbOp
    | TriggerOp | ClearOp | RemoteOp | LocalOp | CloseOp

  /** An interface object: the methods it has, the bytes the instrument has
      queued, and the status byte its `read_stb` would report. */
  datatype Interface = Interface(caps: set<Capability>, pending: seq<byte>, stb: int)

  /** What `_write` and `_ask` accept: a string, or a list or tuple of them
      (nested to any depth). */
  datatype Command = Text(s: string) | Batch(items: seq<Command>)

  /** What `_ask` returns: a string, or a list mirroring a Batch. */
  datatype Reply = Str(s: string) | List(items: seq<Reply>)

  /** A call made on the interface object. */
  datatype Call =
    | WriteRawCall(data: seq<byte>)
    | ReadRawCall(num: int)
    | AskRawCall(data: seq<byte>, num: int)
    | WriteCall(cmd: Command)
    | ReadCall(num: int)
    | AskCall(cmd: Command, num: int)
    | ReadStbCall | TriggerCall | ClearCall | RemoteCall | LocalCall | CloseCall

  /** The outcome of an exchange: a value or an error, the bytes still
      queued afterwards, and the calls made. */
  datatype Exchange<T> = Exchange(res: Result<T>, rest: seq<byte>, calls: seq<Call>)

  /** `read_raw(num)`: up to num bytes, or all of them for a negative num. */
  function Take(p: seq<byte>, num: int): (r: seq<byte>)
    ensures num < 0 ==> r == p
    ensures num >= 0 ==> |r| == if num < |p| then num else |p|
    ensures r == p[..|r|]
  {
    if num < 0 || num >= |p| then p else p[..num]
  }

  /** What is left queued after `read_raw(num)`. */
  function Drop(p: seq<byte>, num: int): (r: seq<byte>)
    ensures Take(p, num) + r == p
  {
    p[|Take(p, num)|..]
  }

  predicate IsCrLf(c: char) { c == '\r' || c == '\n' }

  /** `s.rstrip('\r\n')`: the longest prefix that does not end in a carriage
      return or a line feed, once all of those at the end are gone. */
  function StripCrLf(s: string): (r: string)
    ensures |r| <= |s| && r == s[..|r|]
    ensures forall i :: |r| <= i < |s| ==> IsCrLf(s[i])
    ensures r == [] || !IsCrLf(r[|r| - 1])
  {
    if s != [] && IsCrLf(s[|s| - 1]) then StripCrLf(s[..|s| - 1]) else s
  }

  /** `rstrip` removes exactly a trailing run of line terminators. */
  lemma {:induction false} StripTerminator(s: string, t: string)
    requires s == [] || !IsCrLf(s[|s| - 1])
    requires forall i :: 0 <= i < |t| ==> IsCrLf(t[i])
    ensures StripCrLf(s + t) == s
    decreases |t|
  {
    if t == [] {
      assert s + t == s;
    } else {
      var u := s + t;
      assert u[..|u| - 1] == s + t[..|t| - 1];
      StripTerminator(s, t[..|t| - 1]);
    }
  }

  /** `read_raw(num).decode(encoding).rstrip('\r\n')` with UTF-8. */
  function TextOf(bytes: seq<byte>): (r: Result<string>)
    ensures r.Err? <==> Decode(bytes).None?
    ensures r.Err? ==> r.error == UnicodeDecodeError
    ensures r.Ok? ==> (Decode(bytes).Some? && |r.value| <= |Decode(bytes).value|
                       && r.value == Decode(bytes).value[..|r.value|])
  {
    match Decode(bytes)
    case None => Err(UnicodeDecodeError)
    case Some(s) => Ok(StripCrLf(s))
  }

  /** A line the instrument sends as UTF-8 with a terminator reads back as
      the line itself. */
  lemma LineReadsBack(line: string, term: string)
    requires line == [] || !IsCrLf(line[|line| - 1])
    requires forall i :: 0 <= i < |term| ==> IsCrLf(term[i])
    ensures TextOf(Encode(line + term)) == Ok(line)
  {
    DecodeEncode(line + term);
    StripTerminator(line, term);
  }

  /** The strings of a command in the order `_write` sends them. */
  function Leaves(c: Command): (r: seq<string>)
    ensures c.Text? ==> r == [c.s]
    decreases c
  {
    match c
    case Text(s) => [s]
    case Batch(items) => LeavesOf(items)
  }

  function LeavesOf(items: seq<Command>): seq<string>
    decreases items
  {
    if |items| == 0 then [] else LeavesOf(items[..|items| - 1]) + Leaves(items[|items| - 1])
  }

  /** One `write_raw(s.encode())` per string. */
  function RawWrites(ls: seq<string>): (r: seq<Call>)
    ensures |r| == |ls|
    ensures forall i :: 0 <= i < |ls| ==> r[i] == WriteRawCall(Encode(ls[i]))
  {
    seq(|ls|, i requires 0 <= i < |ls| => WriteRawCall(Encode(ls[i])))
  }

  lemma RawWritesConcat(a: seq<string>, b: seq<string>)
    ensures RawWrites(a + b) == RawWrites(a) + RawWrites(b)
  {
  }

  /** The calls `_write(c)` makes on an initialised, non-simulated session:
      the interface's own `write`, or else one `write_raw` per string. */
  function WriteCalls(caps: set<Capability>, c: Command): (r: seq<Call>)
    ensures WriteOp in caps ==> r == [WriteCall(c)]
    ensures WriteOp !in caps ==>
      (|r| == |Leaves(c)| && forall i :: 0 <= i < |r| ==> r[i] == WriteRawCall(Encode(Leaves(c)[i])))
  {
    if WriteOp in caps then [WriteCall(c)] else RawWrites(Leaves(c))
  }

  /** The call `_read(num)` makes: the interface's `read`, or `read_raw`. */
  function ReadCalls(caps: set<Capability>, num: int): (r: seq<Call>)
    ensures |r| == 1
  {
    if ReadOp in caps then [ReadCall(num)] else [ReadRawCall(num)]
  }

  /** `_ask(c, num)` on an initialised, non-simulated session.  An interface
      with its own `ask` performs the same exchange inside one call. */
  function Ask(caps: set<Capability>, c: Command, num: int, p: seq<byte>): (x: Exchange<Reply>)
    ensures x.res.Ok? && c.Text? ==> x.res.value.Str?
    ensures x.res.Ok? && c.Batch? ==> x.res.value.List? && |x.res.value.items| == |c.items|
    ensures |x.rest| <= |p| && x.rest == p[|p| - |x.rest|..]
    ensures AskOp in caps ==> x.calls == [AskCall(c, num)]
    decreases c, 2
  {
    if AskOp in caps then
      var inner := AskEmulated({}, c, num, p);
      Exchange(inner.res, inner.rest, [AskCall(c, num)])
    else AskEmulated(caps, c, num, p)
  }

  /** The emulation in `_ask`: a string is written and a reply read; a list
      is asked element by element, stopping at the first error. */
  function AskEmulated(caps: set<Capability>, c: Command, num: int, p: seq<byte>): (x: Exchange<Reply>)
    ensures x.res.Ok? && c.Text? ==> x.res.value.Str?
    ensures x.res.Ok? && c.Batch? ==> x.res.value.List? && |x.res.value.items| == |c.items|
    ensures |x.rest| <= |p| && x.rest == p[|p| - |x.rest|..]
    decreases c, 1
  {
    match c
    case Text(s) =>
      var t := TextOf(Take(p, num));
      Exchange(if t.Ok? then Ok(Str(t.value)) else Err(t.error), Drop(p, num),
               WriteCalls(caps, c) + ReadCalls(caps, num))
    case Batch(items) => AskAll(caps, items, num, p)
  }

  /** The loop over a list in `_ask`, as a fold over its elements. */
  function AskAll(caps: set<Capability>, items: seq<Command>, num: int, p: seq<byte>): (x: Exchange<Reply>)
    ensures x.res.Ok? ==> x.res.value.List? && |x.res.value.items| == |items|
    ensures |x.rest| <= |p| && x.rest == p[|p| - |x.rest|..]
    decreases items
  {
    if |items| == 0 then Exchange(Ok(List([])), p, [])
    else
      var n := |items| - 1;
      var e := AskAll(caps, items[..n], num, p);
      if e.res.Err? then e
      else
        var y := Ask(caps, items[n], num, e.rest);
        Exchange(if y.res.Ok? then Ok(List(e.res.value.items + [y.res.value])) else Err(y.res.error),
                 y.rest, e.calls + y.calls)
  }

  /** Whether or not the interface has its own `ask`, `write` or `read`, the
      reply and the bytes consumed are the same. */
  lemma {:induction false} AskValueIndependent(caps: set<Capability>, c: Command, num: int, p: seq<byte>)
    ensures Ask(caps, c, num, p).res == Ask({}, c, num, p).res
    ensures Ask(caps, c, num, p).rest == Ask({}, c, num, p).rest
    decreases c, 1
  {
    if AskOp !in caps {
      match c
      case Text(s) =>
      case Batch(items) => AskAllIndependent(caps, items, num, p);
    }
  }

  lemma {:induction false} AskAllIndependent(caps: set<Capability>, items: seq<Command>, num: int, p: seq<byte>)
    ensures AskAll(caps, items, num, p).res == AskAll({}, items, num, p).res
    ensures AskAll(caps, items, num, p).rest == AskAll({}, items, num, p).rest
    decreases items
  {
    if |items| > 0 {
      var n := |items| - 1;
      AskAllIndependent(caps, items[..n], num, p);
      var e := AskAll(caps, items[..n], num, p);
      if e.res.Ok? {
        AskValueIndependent(caps, items[n], num, e.rest);
      }
    }
  }

  /** The emulated `_ask` of a list answers element by element, in order:
      the reply to a list extended by one command is the reply to the list
      followed by the reply to that command, asked once the list's replies
      have been read. */
  lemma AskInOrder(caps: set<Capability>, items: seq<Command>, c: Command, num: int, p: seq<byte>)
    requires AskOp !in caps
    requires Ask(caps, Batch(items + [c]), num, p).res.Ok?
    ensures var e := Ask(caps, Batch(items), num, p);
      e.res.Ok? && Ask(caps, c, num, e.rest).res.Ok? &&
      Ask(caps, Batch(items + [c]), num, p).res.value.items
        == e.res.value.items + [Ask(caps, c, num, e.rest).res.value]
  {
    var all := items + [c];
    assert all[..|all| - 1] == items && all[|all| - 1] == c;
    assert Ask(caps, Batch(all), num, p) == AskAll(caps, all, num, p);
    assert Ask(caps, Batch(items), num, p) == AskAll(caps, items, num, p);
  }

  /** A list of strings sent without the interface's own `write` reaches
      the instrument as one raw write per string, in order. */
  lemma WriteInOrder(caps: set<Capability>, cmds: seq<Command>)
    requires WriteOp !in caps
    requires forall i :: 0 <= i < |cmds| ==> cmds[i].Text?
    ensures var w := WriteCalls(caps, Batch(cmds));
      |w| == |cmds| && forall i :: 0 <= i < |cmds| ==> w[i] == WriteRawCall(Encode(cmds[i].s))
  {
    TextLeaves(cmds);
  }

  lemma {:induction false} TextLeaves(cmds: seq<Command>)
    requires forall i :: 0 <= i < |cmds| ==> cmds[i].Text?
    ensures |LeavesOf(cmds)| == |cmds|
    ensures forall i :: 0 <= i < |cmds| ==> LeavesOf(cmds)[i] == cmds[i].s
    decreases |cmds|
  {
    if |cmds| > 0 {
      var n := |cmds| - 1;
      TextLeaves(cmds[..n]);
      assert LeavesOf(cmds) == LeavesOf(cmds[..n]) + [cmds[n].s];
    }
  }

  /** The status byte `_read_stb` reports through `*STB?`: the reply as a
      decimal number (ASCII digits only), otherwise ValueError. */
  function StbFromReply(r: Result<Reply>): (v: Result<int>)
    ensures v.Ok? ==> r.Ok? && r.value.Str? && Decimal.Parse(r.value.s) == Some(v.value)
    ensures r.Ok? && r.value.Str? && Decimal.Parse(r.value.s).Some? ==> v.Ok?
    ensures r.Err? ==> v == Err(r.error)
  {
    match r
    case Err(e) => Err(e)
    case Ok(reply) =>
      if reply.Str? then
        match Decimal.Parse(reply.s)
        case Some(n) => Ok(n)
        case None => Err(ValueError)
      else Err(ValueError)
  }

  /** k single-byte `read_raw(1)` calls. */
  function ReadsOfOne(k: nat): (r: seq<Call>)
    ensures |r| == k && forall i :: 0 <= i < k ==> r[i] == ReadRawCall(1)
  {
    if k == 0 then [] else ReadsOfOne(k - 1) + [ReadRawCall(1)]
  }

  /** `_read_ieee_block` on an initialised, non-simulated session: read one
      byte; none means an empty result; otherwise read single bytes until
      the `#`, then the rest of the block. */
  function ReadIeeeBlock(p: seq<byte>): (x: Exchange<seq<byte>>)
    requires |p| == 0 || IeeeBlock.HASH in p
    ensures |x.rest| <= |p| && x.rest == p[|p| - |x.rest|..]
  {
    if |p| == 0 then Exchange(Ok([]), p, [ReadRawCall(1)])
    else
      var k := Sequences.FirstIndex(p, IeeeBlock.HASH);
      var x := ReadAfterHash(p[k + 1..]);
      Exchange(x.res, x.rest, ReadsOfOne(k + 1) + x.calls)
  }

  /** After the `#`: `int(read_raw(1))`, then for a non-zero count
      the length field and the payload, for a zero count `read_raw()`. */
  function ReadAfterHash(q: seq<byte>): (x: Exchange<seq<byte>>)
    ensures |x.rest| <= |q| && x.rest == q[|q| - |x.rest|..]
  {
    var q1 := Drop(q, 1);
    match IeeeBlock.ParseField(Take(q, 1))
    case None => Exchange(Err(ValueError), q1, [ReadRawCall(1)])
    case Some(l) =>
      if l > 0 then
        var y := ReadPayload(q1, l);
        Exchange(y.res, y.rest, [ReadRawCall(1)] + y.calls)
      else Exchange(Ok(q1), [], [ReadRawCall(1), ReadRawCall(-1)])
  }

  /** `num = int(read_raw(l))` and then `read_raw(num)`. */
  function ReadPayload(q: seq<byte>, l: nat): (x: Exchange<seq<byte>>)
    ensures |x.rest| <= |q| && x.rest == q[|q| - |x.rest|..]
  {
    var q1 := Drop(q, l);
    match IeeeBlock.ParseField(Take(q, l))
    case None => Exchange(Err(ValueError), q1, [ReadRawCall(l)])
    case Some(num) => Exchange(Ok(Take(q1, num)), Drop(q1, num), [ReadRawCall(l), ReadRawCall(num)])
  }

  /** Reading the block from the instrument one call at a time yields what
      decode_ieee_block yields for the same bytes, with both length fields
      parsed as ASCII digits. */
  lemma ReadMatchesDecode(p: seq<byte>)
    requires |p| == 0 || IeeeBlock.HASH in p
    ensures ReadIeeeBlock(p).res == IeeeBlock.Decoded(p)
  {
    if |p| > 0 {
      AfterHashMatches(p[Sequences.FirstIndex(p, IeeeBlock.HASH) + 1..]);
    }
  }

  /** Past the `#`, reading field by field meets the slicing of the decoder. */
  lemma AfterHashMatches(q: seq<byte>)
    ensures ReadAfterHash(q).res == IeeeBlock.AfterHash(q)
  {
    assert Take(q, 1) == IeeeBlock.Slice(q, 0, 1);
    match IeeeBlock.ParseField(Take(q, 1))
    case None =>
    case Some(l) =>
      assert Drop(q, 1) == IeeeBlock.Slice(q, 1, |q|);
      if l > 0 {
        PayloadMatches(Drop(q, 1), l);
      }
  }

  /** Reading the length field and then the payload is the slicing of a
      definite block. */
  lemma PayloadMatches(u: seq<byte>, l: nat)
    ensures ReadPayload(u, l).res == IeeeBlock.DefinitePayload(u, l)
  {
    assert Take(u, l) == IeeeBlock.Slice(u, 0, l);
    match IeeeBlock.ParseField(Take(u, l))
    case None =>
    case Some(num) =>
      if l <= |u| {
        assert Drop(u, l) == u[l..];
      }
      assert Take(Drop(u, l), num) == IeeeBlock.Slice(u, l, l + num);
  }
}
