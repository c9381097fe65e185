/**
 Length-prefixed framing: a four-byte big-endian length before every payload,
 written through a writer that may accept any part of what it is given and fail
 at any point.
 */
module Framing {

  newtype byte = x: int | 0 <= x < 256

  const HEAD: nat := 4
  const MAX_PAYLOAD: nat := 4 * 1024 * 1024
  const UINT32_MAX: nat := 0xffff_ffff

  function Effective(max: nat): nat {
    if max == 0 then MAX_PAYLOAD else max
  }

  function Header(n: nat): seq<byte>
    requires n <= UINT32_MAX
  {
    [(n / 0x100_0000) as byte, (n / 0x1_0000 % 0x100) as byte, (n / 0x100 % 0x100) as byte, (n % 0x100) as byte]
  }

  function HeaderValue(h: seq<byte>): nat
    requires |h| == HEAD
  {
    ((h[0] as nat * 0x100 + h[1] as nat) * 0x100 + h[2] as nat) * 0x100 + h[3] as nat
  }

  lemma HeaderRoundTrip(n: nat)
    requires n <= UINT32_MAX
    ensures HeaderValue(Header(n)) == n
  {
    var a, b, c := n / 0x100, n / 0x1_0000, n / 0x100_0000;
    assert n == a * 0x100 + n % 0x100;
    assert b == a / 0x100 && a == b * 0x100 + a % 0x100;
    assert c == b / 0x100 && b == c * 0x100 + b % 0x100;
  }

  /** The header is the length in network byte order, and the only four bytes that are. */
  lemma HeaderIsBigEndian(h: seq<byte>)
    requires |h| == HEAD
    ensures HeaderValue(h) == h[0] as nat * 0x100_0000 + h[1] as nat * 0x1_0000 + h[2] as nat * 0x100 + h[3] as nat
    ensures HeaderValue(h) <= UINT32_MAX && Header(HeaderValue(h)) == h
  {
    var n := HeaderValue(h);
    var b, c := h[0] as nat * 0x100 + h[1] as nat, h[0] as nat;
    var a := b * 0x100 + h[2] as nat;
    assert n == a * 0x100 + h[3] as nat && n / 0x100 == a && n % 0x100 == h[3] as nat;
    assert a / 0x100 == b == n / 0x1_0000 && a % 0x100 == h[2] as nat;
    assert b / 0x100 == c == n / 0x100_0000 && b % 0x100 == h[1] as nat;
  }

  function Frame(payload: seq<byte>): seq<byte>
    requires |payload| <= UINT32_MAX
  {
    Header(|payload|) + payload
  }

  // --------------------------------------------------------------------- writing

  datatype WriteResult = Written | WriterFailed | ShortWrite | TooLarge

  /** One answer of the underlying writer: how much it takes, and whether it also reports an error. */
  datatype Answer = Answer(n: nat, failed: bool)

  function Least(a: nat, b: nat): nat {
    if a < b then a else b
  }

  /** Every answer took something and reported no error. */
  ghost predicate Smooth(answers: seq<Answer>) {
    forall k :: 0 <= k < |answers| ==> !answers[k].failed && answers[k].n > 0
  }

  /** Why a write ended as it did, given the answers it used: it got through on
      smooth answers only; the last one failed, or there was none left to give; or
      the last one took nothing without saying why. */
  ghost predicate Explains(r: WriteResult, script: seq<Answer>, used: nat)
    requires used <= |script|
  {
    match r
    case Written => Smooth(script[..used])
    case WriterFailed =>
      || (used == |script| && Smooth(script))
      || (used > 0 && Smooth(script[..used - 1]) && script[used - 1].failed)
    case ShortWrite => used > 0 && Smooth(script[..used - 1]) && !script[used - 1].failed && script[used - 1].n == 0
    case TooLarge => false
  }

  lemma SmoothEnd(script: seq<Answer>, used: nat)
    requires used <= |script| && script[used..] == [] && Smooth(script[..used])
    ensures used == |script| && Smooth(script)
  {
    assert |script[used..]| == 0;
    assert script[..used] == script;
  }

  lemma SmoothMore(script: seq<Answer>, used: nat)
    requires used < |script| && Smooth(script[..used])
    ensures !script[used].failed && script[used].n > 0 ==> Smooth(script[..used + 1])
  {
  }

  lemma ExplainsMore(r: WriteResult, script: seq<Answer>, used: nat, more: nat)
    requires used <= |script| && more <= |script[used..]|
    requires Smooth(script[..used]) && Explains(r, script[used..], more)
    ensures Explains(r, script, used + more)
  {
    var tail := script[used..];
    forall m: nat | m <= more && Smooth(tail[..m]) ensures Smooth(script[..used + m]) {
      forall k | 0 <= k < used + m ensures !script[k].failed && script[k].n > 0 {
        if k < used {
          assert script[..used][k] == script[k];
        } else {
          assert tail[..m][k - used] == script[k];
        }
      }
    }
    if more > 0 {
      assert tail[more - 1] == script[used + more - 1];
    }
    assert tail[..|tail|] == tail && script[..|script|] == script;
  }

  /** A writer that behaves as its script says: any split, any failure. */
  class Writer {
    var out: seq<byte>
    var script: seq<Answer>

    constructor (answers: seq<Answer>)
      ensures out == [] && script == answers
    {
      out, script := [], answers;
    }

    method Write(data: seq<byte>) returns (n: nat, failed: bool)
      modifies this
      ensures n <= |data| && out == old(out) + data[..n]
      ensures if old(script) == [] then script == [] && n == 0 && failed
              else script == old(script)[1..] && failed == old(script)[0].failed &&
                   n == Least(old(script)[0].n, |data|)
    {
      if script == [] {
        return 0, true;
      }
      n := Least(script[0].n, |data|);
      failed := script[0].failed;
      out := out + data[..n];
      script := script[1..];
    }

    /** Writes all of `data`, or reports why not having written a prefix of it.  The
        first `used` answers of the writer decide which: all of them took something
        without an error, or the last one did not. */
    method WriteFull(data: seq<byte>) returns (r: WriteResult, ghost used: nat)
      modifies this
      ensures old(out) <= out <= old(out) + data && !r.TooLarge?
      ensures r.Written? ==> out == old(out) + data
      ensures used <= |old(script)| && script == old(script)[used..] && Explains(r, old(script), used)
    {
      var rest := data;
      ghost var k: nat := 0;
      used := 0;
      while |rest| > 0
        invariant k <= |data| && rest == data[k..] && out == old(out) + data[..k]
        invariant used <= |old(script)| && script == old(script)[used..] && Smooth(old(script)[..used])
        decreases |rest|
      {
        if script == [] {
          SmoothEnd(old(script), used);
        } else {
          SmoothMore(old(script), used);
          used := used + 1;
        }
        var n, failed := Write(rest);
        assert data[..k] + rest[..n] == data[..k + n];
        if n > 0 {
          rest := rest[n..];
          k := k + n;
        }
        if failed {
          return WriterFailed, used;
        }
        if n == 0 {
          return ShortWrite, used;
        }
      }
      return Written, used;
    }

    /** Emits one frame; nothing is written when the payload is too large. */
    method WriteLimit(payload: seq<byte>, max: nat) returns (r: WriteResult, ghost used: nat)
      modifies this
      ensures r.TooLarge? <==> |payload| > (if max > 0 then max else 4 * 1024 * 1024) || |payload| > UINT32_MAX
      ensures r.TooLarge? ==> out == old(out)
      ensures !r.TooLarge? ==> old(out) <= out <= old(out) + Frame(payload)
      ensures r.Written? ==> out == old(out) + Frame(payload)
      ensures used <= |old(script)| && script == old(script)[used..]
      ensures if r.TooLarge? then used == 0 else Explains(r, old(script), used)
    {
      if |payload| > Effective(max) || |payload| > UINT32_MAX {
        return TooLarge, 0;
      }
      var head := Header(|payload|);
      r, used := WriteFull(head);
      if !r.Written? {
        assert old(out) + head <= old(out) + Frame(payload);
        return;
      }
      assert old(out) + head + payload == old(out) + Frame(payload);
      ghost var more;
      r, more := WriteFull(payload);
      ExplainsMore(r, old(script), used, more);
      used := used + more;
    }

    /** Sends frames until one fails; `sent` frames were reported written. */
    method WriteAll(payloads: seq<seq<byte>>, max: nat) returns (sent: nat, r: WriteResult)
      requires Fit(payloads, max)
      modifies this
      ensures sent <= |payloads| && (r.Written? <==> sent == |payloads|)
      ensures old(out) + Stream(payloads[..sent]) <= out <= old(out) + Stream(payloads)
      ensures r.Written? ==> out == old(out) + Stream(payloads)
    {
      sent := 0;
      while sent < |payloads|
        invariant sent <= |payloads| && out == old(out) + Stream(payloads[..sent])
      {
        StreamGrows(old(out), payloads, sent);
        ghost var used;
        r, used := WriteLimit(payloads[sent], max);
        if !r.Written? {
          return;
        }
        sent := sent + 1;
      }
      assert payloads[..sent] == payloads;
      r := Written;
    }
  }

  /** The bytes of a list of frames. */
  function Stream(payloads: seq<seq<byte>>): seq<byte>
    requires forall i :: 0 <= i < |payloads| ==> |payloads[i]| <= UINT32_MAX
  {
    if payloads == [] then [] else Frame(payloads[0]) + Stream(payloads[1..])
  }

  lemma {:induction false} StreamAppend(a: seq<seq<byte>>, b: seq<seq<byte>>)
    requires forall i :: 0 <= i < |a| ==> |a[i]| <= UINT32_MAX
    requires forall i :: 0 <= i < |b| ==> |b[i]| <= UINT32_MAX
    ensures Stream(a + b) == Stream(a) + Stream(b)
  {
    if a == [] {
      assert a + b == b;
    } else {
      assert (a + b)[1..] == a[1..] + b;
      StreamAppend(a[1..], b);
    }
  }

  lemma StreamMore(ps: seq<seq<byte>>, k: nat)
    requires k < |ps| && forall i :: 0 <= i < |ps| ==> |ps[i]| <= UINT32_MAX
    ensures Stream(ps[..k + 1]) == Stream(ps[..k]) + Frame(ps[k])
    ensures Stream(ps[..k + 1]) <= Stream(ps)
  {
    assert ps[..k + 1] == ps[..k] + [ps[k]];
    StreamAppend(ps[..k], [ps[k]]);
    assert Stream([ps[k]]) == Frame(ps[k]) + Stream([ps[k]][1..]);
    assert ps == ps[..k + 1] + ps[k + 1..];
    StreamAppend(ps[..k + 1], ps[k + 1..]);
  }

  lemma StreamGrows(base: seq<byte>, ps: seq<seq<byte>>, k: nat)
    requires k < |ps| && forall i :: 0 <= i < |ps| ==> |ps[i]| <= UINT32_MAX
    ensures base + Stream(ps[..k]) + Frame(ps[k]) == base + Stream(ps[..k + 1]) <= base + Stream(ps)
  {
    StreamMore(ps, k);
  }

  // --------------------------------------------------------------------- reading

  datatype ReadResult =
    | Payload(payload: seq<byte>, rest: seq<byte>)
    | Oversized
    | EndOfStream
    | UnexpectedEnd

  /** Reading exactly `n` bytes: end of stream if there are none, unexpected end if there are too few. */
  function ReadLimit(stream: seq<byte>, max: nat): ReadResult {
    if |stream| == 0 then EndOfStream
    else if |stream| < HEAD then UnexpectedEnd
    else
      var n, body := HeaderValue(stream[..HEAD]), stream[HEAD..];
      if n > Effective(max) then Oversized
      else if n > 0 && |body| == 0 then EndOfStream
      else if |body| < n then UnexpectedEnd
      else Payload(body[..n], body[n..])
  }

  /** Everything a reader gets out of a stream before it stops, and how it stops. */
  function ReadAll(stream: seq<byte>, max: nat): (seq<seq<byte>>, ReadResult)
    decreases |stream|
  {
    match ReadLimit(stream, max)
    case Payload(p, rest) => var (ps, end) := ReadAll(rest, max); ([p] + ps, end)
    case end => ([], end)
  }

  lemma ReadFrame(payload: seq<byte>, rest: seq<byte>, max: nat)
    requires |payload| <= Effective(max) && |payload| <= UINT32_MAX
    ensures ReadLimit(Frame(payload) + rest, max) == Payload(payload, rest)
  {
    var s := Frame(payload) + rest;
    assert s[..HEAD] == Header(|payload|);
    HeaderRoundTrip(|payload|);
    assert s[HEAD..] == payload + rest;
  }

  /** A stream cut inside a frame yields no payload from that frame. */
  lemma ReadCutFrame(payload: seq<byte>, k: nat, max: nat)
    requires |payload| <= Effective(max) && |payload| <= UINT32_MAX && k < |Frame(payload)|
    ensures var r := ReadLimit(Frame(payload)[..k], max); r.EndOfStream? || r.UnexpectedEnd?
    ensures ReadLimit(Frame(payload)[..k], max).EndOfStream? <==> k == 0 || k == HEAD
  {
    var s := Frame(payload)[..k];
    if k >= HEAD {
      assert s[..HEAD] == Header(|payload|);
      HeaderRoundTrip(|payload|);
    }
  }

  /** A frame is refused if and only if its header says more than the limit, whatever follows. */
  lemma ReadOversizedIff(payload: seq<byte>, rest: seq<byte>, max: nat)
    requires |payload| <= UINT32_MAX
    ensures ReadLimit(Header(|payload|) + rest, max).Oversized? <==>
      |payload| > if max > 0 then max else 4 * 1024 * 1024
  {
    var s := Header(|payload|) + rest;
    assert s[..HEAD] == Header(|payload|);
    HeaderRoundTrip(|payload|);
  }

  lemma ReadAllFrame(payload: seq<byte>, rest: seq<byte>, max: nat)
    requires |payload| <= Effective(max) && |payload| <= UINT32_MAX
    ensures ReadAll(Frame(payload) + rest, max) == ([payload] + ReadAll(rest, max).0, ReadAll(rest, max).1)
  {
    ReadFrame(payload, rest, max);
  }

  lemma ReadAllCutFrame(payload: seq<byte>, k: nat, max: nat)
    requires |payload| <= Effective(max) && |payload| <= UINT32_MAX && k < |Frame(payload)|
    ensures ReadAll(Frame(payload)[..k], max).0 == []
  {
    ReadCutFrame(payload, k, max);
  }

  // ---------------------------------------------------------------- main results

  /** Payloads the writer accepts under `max`. */
  ghost predicate Fit(payloads: seq<seq<byte>>, max: nat) {
    forall i :: 0 <= i < |payloads| ==> |payloads[i]| <= Effective(max) && |payloads[i]| <= UINT32_MAX
  }

  lemma StreamCons(payloads: seq<seq<byte>>, rest: seq<byte>)
    requires payloads != [] && forall i :: 0 <= i < |payloads| ==> |payloads[i]| <= UINT32_MAX
    ensures Stream(payloads) + rest == Frame(payloads[0]) + (Stream(payloads[1..]) + rest)
  {
  }

  /** Reading frames and then bytes that yield no payload returns the payloads, and
      ends as those bytes do. */
  lemma {:induction false} StreamThen(payloads: seq<seq<byte>>, end: seq<byte>, max: nat)
    requires Fit(payloads, max) && ReadAll(end, max).0 == []
    ensures ReadAll(Stream(payloads) + end, max) == (payloads, ReadAll(end, max).1)
  {
    if payloads == [] {
      assert Stream(payloads) + end == end;
    } else {
      StreamThen(payloads[1..], end, max);
      StreamCons(payloads, end);
      ReadOneMore(payloads, Stream(payloads) + end, Stream(payloads[1..]) + end, max);
    }
  }

  /** If the rest of a stream reads as the other payloads, the whole reads as all of them. */
  lemma ReadOneMore(payloads: seq<seq<byte>>, whole: seq<byte>, rest: seq<byte>, max: nat)
    requires payloads != [] && |payloads[0]| <= Effective(max) && |payloads[0]| <= UINT32_MAX
    requires whole == Frame(payloads[0]) + rest
    ensures ReadAll(whole, max) == ([payloads[0]] + ReadAll(rest, max).0, ReadAll(rest, max).1)
    ensures ReadAll(rest, max).0 == payloads[1..] ==> ReadAll(whole, max).0 == payloads
  {
    ReadAllFrame(payloads[0], rest, max);
    assert payloads == [payloads[0]] + payloads[1..];
  }

  /** Reading back a whole stream returns exactly the payloads written, and then
      the end of the stream. */
  lemma StreamRoundTrip(payloads: seq<seq<byte>>, max: nat)
    requires Fit(payloads, max)
    ensures ReadAll(Stream(payloads), max) == (payloads, EndOfStream)
  {
    StreamThen(payloads, [], max);
    assert Stream(payloads) + [] == Stream(payloads);
  }

  lemma ReadAllOversized(big: seq<byte>, rest: seq<byte>, max: nat)
    requires Effective(max) < |big| <= UINT32_MAX
    ensures ReadAll(Frame(big) + rest, max) == ([], Oversized)
  {
    assert Frame(big) + rest == Header(|big|) + (big + rest);
    ReadOversizedIff(big, big + rest, max);
  }

  /** A reader that meets a frame above its limit has returned exactly the payloads
      before it, and stops there. */
  lemma StreamStopsAtOversized(payloads: seq<seq<byte>>, big: seq<byte>, rest: seq<byte>, max: nat)
    requires Fit(payloads, max) && Effective(max) < |big| <= UINT32_MAX
    ensures ReadAll(Stream(payloads) + (Frame(big) + rest), max) == (payloads, Oversized)
  {
    ReadAllOversized(big, rest, max);
    StreamThen(payloads, Frame(big) + rest, max);
  }

  /** How many whole frames the first `k` bytes of a stream hold. */
  function WholeFrames(payloads: seq<seq<byte>>, k: nat): (m: nat)
    requires forall i :: 0 <= i < |payloads| ==> |payloads[i]| <= UINT32_MAX
    ensures m <= |payloads|
  {
    if payloads == [] || k < HEAD + |payloads[0]| then 0
    else 1 + WholeFrames(payloads[1..], k - HEAD - |payloads[0]|)
  }

  /** The front of a stream ends inside its first frame, or is that frame and the
      front of the others. */
  lemma FrontSplits(payloads: seq<seq<byte>>, front: seq<byte>) returns (rest: seq<byte>)
    requires payloads != [] && forall i :: 0 <= i < |payloads| ==> |payloads[i]| <= UINT32_MAX
    requires front <= Stream(payloads)
    ensures if |front| < HEAD + |payloads[0]| then front == Frame(payloads[0])[..|front|]
            else |rest| == |front| - HEAD - |payloads[0]| && front == Frame(payloads[0]) + rest
                 && rest <= Stream(payloads[1..])
  {
    rest := if |front| < HEAD + |payloads[0]| then [] else front[HEAD + |payloads[0]|..];
  }

  lemma {:induction false} FrontReads(payloads: seq<seq<byte>>, front: seq<byte>, max: nat)
    requires Fit(payloads, max) && front <= Stream(payloads)
    ensures ReadAll(front, max).0 == payloads[..WholeFrames(payloads, |front|)]
  {
    if payloads == [] {
    } else {
      var rest := FrontSplits(payloads, front);
      if |front| < HEAD + |payloads[0]| {
        FrontReadsNone(payloads, front, max);
      } else {
        FrontReads(payloads[1..], rest, max);
        FrontReadsMore(payloads, front, rest, max);
      }
    }
  }

  lemma FrontReadsNone(payloads: seq<seq<byte>>, front: seq<byte>, max: nat)
    requires payloads != [] && Fit(payloads, max)
    requires |front| < HEAD + |payloads[0]| && front == Frame(payloads[0])[..|front|]
    ensures ReadAll(front, max).0 == payloads[..WholeFrames(payloads, |front|)]
  {
    ReadAllCutFrame(payloads[0], |front|, max);
  }

  lemma FrontReadsMore(payloads: seq<seq<byte>>, front: seq<byte>, rest: seq<byte>, max: nat)
    requires payloads != [] && Fit(payloads, max) && front == Frame(payloads[0]) + rest
    requires ReadAll(rest, max).0 == payloads[1..][..WholeFrames(payloads[1..], |rest|)]
    ensures ReadAll(front, max).0 == payloads[..WholeFrames(payloads, |front|)]
  {
    var m := WholeFrames(payloads[1..], |rest|);
    ReadOneMore(payloads, front, rest, max);
    FrontCons(payloads, m);
    assert WholeFrames(payloads, |front|) == m + 1;
  }

  lemma FrontCons(payloads: seq<seq<byte>>, m: nat)
    requires m < |payloads|
    ensures [payloads[0]] + payloads[1..][..m] == payloads[..m + 1]
  {
  }

  /** Reading a stream cut anywhere returns exactly the payloads whose frames are
      complete, and never a truncated one. */
  lemma CutStreamRoundTrip(payloads: seq<seq<byte>>, k: nat, max: nat)
    requires Fit(payloads, max) && k <= |Stream(payloads)|
    ensures ReadAll(Stream(payloads)[..k], max).0 == payloads[..WholeFrames(payloads, k)]
  {
    FrontReads(payloads, Stream(payloads)[..k], max);
  }

  lemma {:induction false} WholeFramesCount(payloads: seq<seq<byte>>, sent: nat, k: nat)
    requires sent <= |payloads| && forall i :: 0 <= i < |payloads| ==> |payloads[i]| <= UINT32_MAX
    requires |Stream(payloads[..sent])| <= k
    ensures sent <= WholeFrames(payloads, k)
  {
    if sent == 0 {
    } else {
      assert payloads[..sent][1..] == payloads[1..][..sent - 1];
      WholeFramesCount(payloads[1..], sent - 1, k - HEAD - |payloads[0]|);
    }
  }

  /** Whatever part of a stream came out of a writer that reported `sent` frames
      written, the reader gets at least those and never anything else. */
  lemma ReportedFramesAreRead(payloads: seq<seq<byte>>, out: seq<byte>, sent: nat, max: nat)
    requires Fit(payloads, max) && sent <= |payloads| && Stream(payloads[..sent]) <= out <= Stream(payloads)
    ensures payloads[..sent] <= ReadAll(out, max).0 <= payloads
  {
    assert out == Stream(payloads)[..|out|];
    CutStreamRoundTrip(payloads, |out|, max);
    WholeFramesCount(payloads, sent, |out|);
  }

  /** A reader over the bytes still to come. */
  class Reader {
    var input: seq<byte>

    constructor (bytes: seq<byte>)
      ensures input == bytes
    {
      input := bytes;
    }

    /** io.ReadFull: `n` bytes, or everything there is and the kind of end. */
    method ReadFull(n: nat) returns (bytes: seq<byte>, whole: bool)
      modifies this
      ensures whole <==> |old(input)| >= n
      ensures whole ==> bytes == old(input)[..n] && input == old(input)[n..]
      ensures !whole ==> bytes == old(input) && input == []
    {
      if |input| < n {
        bytes, input, whole := input, [], false;
      } else {
        bytes, input, whole := input[..n], input[n..], true;
      }
    }

    method ReadOne(max: nat) returns (r: ReadResult)
      modifies this
      ensures r == ReadLimit(old(input), max)
      ensures r.Payload? ==> input == r.rest
    {
      var head, whole := ReadFull(HEAD);
      if !whole {
        return if |head| == 0 then EndOfStream else UnexpectedEnd;
      }
      var n := HeaderValue(head);
      if n > Effective(max) {
        return Oversized;
      }
      var body, complete := ReadFull(n);
      if !complete {
        return if |body| == 0 then EndOfStream else UnexpectedEnd;
      }
      return Payload(body, input);
    }
  }
}
