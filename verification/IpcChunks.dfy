/** How the bytes arrive does not matter to Electron's parser. */
module IpcChunks {
  import opened Prelude
  import opened Ipc

  /** What the front of the input decides, more input does not change. */
  lemma MoreInput(input: bytes, more: bytes)
    ensures match ParseOne(input)
            case Waiting => true
            case Failed(why) => ParseOne(input + more) == Failed(why)
            case Frame(frame, rest) => ParseOne(input + more) == Frame(frame, rest + more)
  {
    if |input| >= HEADER_LEN {
      assert (input + more)[..HEADER_LEN] == input[..HEADER_LEN];
      var header := Judge(input[..HEADER_LEN]);
      if header.Ok? {
        var bodyAt: nat := HEADER_LEN + header.value.metadataLen;
        var total: nat := bodyAt + header.value.payloadLen;
        if total <= |input| {
          SliceOfMore(input, more, HEADER_LEN, bodyAt);
          SliceOfMore(input, more, bodyAt, total);
          assert (input + more)[total..] == input[total..] + more;
        }
      }
    }
  }

  lemma SliceOfMore(input: bytes, more: bytes, a: nat, b: nat)
    requires a <= b <= |input|
    ensures (input + more)[a..b] == input[a..b]
  {
  }

  /** Parsing what was left over together with what comes next is parsing it all at once. */
  lemma {:induction false} ParseMore(frames: seq<IpcFrame>, input: bytes, more: bytes)
    ensures var p, q := ParseAll(frames, input), ParseAll(frames, input + more);
            if p.failure == None then q == ParseAll(p.frames, p.buffer + more)
            else q.frames == p.frames && q.failure == p.failure
    decreases |input|
  {
    MoreInput(input, more);
    var one := ParseOne(input);
    if one.Frame? {
      RestIsShorter(input);
      ParseMore(frames + [one.frame], one.rest, more);
    }
  }

  /** For every byte stream and every way of cutting it into chunks, the frames taken, the bytes kept and the failure are
      those of parsing the whole stream at once. */
  lemma {:induction false} ChunksDoNotMatter(chunks: seq<bytes>)
    ensures var p, whole := FedAll(FRESH, chunks), ParseAll([], Concat(chunks));
            && p.frames == whole.frames && p.failure == whole.failure
            && (p.failure == None ==> p.buffer == whole.buffer)
    decreases |chunks|
  {
    if chunks != [] {
      var front, last := chunks[..|chunks| - 1], chunks[|chunks| - 1];
      assert chunks == front + [last];
      ConcatSnoc(front, last);
      ChunksDoNotMatter(front);
      ParseMore([], Concat(front), last);
    }
  }

  // ---- Streams of well-formed frames ----

  predicate Sent(frames: seq<IpcFrame>) {
    forall i | 0 <= i < |frames| :: Bounded(frames[i]) && FromSidecar(frames[i].kind)
  }

  function Encodings(frames: seq<IpcFrame>): bytes
    requires Sent(frames)
  {
    if frames == [] then [] else Encoding(frames[0]) + Encodings(frames[1..])
  }

  /** The frames as Electron sees them, which is without their flags. */
  function Taken(frames: seq<IpcFrame>): seq<IpcFrame> {
    seq(|frames|, i requires 0 <= i < |frames| => frames[i].(flags := 0))
  }

  lemma ParsesOwn(f: IpcFrame, rest: bytes)
    requires Bounded(f) && FromSidecar(f.kind)
    ensures ParseOne(Encoding(f) + rest) == Frame(f.(flags := 0), rest)
  {
    ReadEncoded(f, rest);
    ParsesSidecarFrames(Encoding(f) + rest);
  }

  /** Less than a whole frame is never taken for one, nor refused. */
  lemma WaitsForTheRest(f: IpcFrame, part: bytes)
    requires Bounded(f) && FromSidecar(f.kind) && part <= Encoding(f) && part != Encoding(f)
    ensures ParseOne(part) == Waiting
  {
    var more := Encoding(f)[|part|..];
    assert part + more == Encoding(f) + [];
    MoreInput(part, more);
    ParsesOwn(f, []);
  }

  /** What the parser has done with the first bytes of a stream of frames. */
  ghost predicate Progress(frames: seq<IpcFrame>, before: seq<IpcFrame>, input: bytes, p: Parser, n: nat)
    requires Sent(frames)
  {
    && n <= |frames| && p.failure == None && p.frames == before + Taken(frames[..n])
    && Encodings(frames[..n]) + p.buffer == input
    && (if n == |frames| then p.buffer == [] else p.buffer <= Encoding(frames[n]) && p.buffer != Encoding(frames[n]))
  }

  lemma StillWaiting(frames: seq<IpcFrame>, before: seq<IpcFrame>, input: bytes)
    requires Sent(frames) && ParseOne(input) == Waiting
    requires if frames == [] then input == [] else input <= Encoding(frames[0]) && input != Encoding(frames[0])
    ensures Progress(frames, before, input, ParseAll(before, input), 0)
  {
    assert Taken(frames[..0]) == [] && before + [] == before && Encodings(frames[..0]) + input == input;
  }

  lemma Associative(x: bytes, y: bytes, z: bytes)
    ensures x + (y + z) == x + y + z
  {
  }

  lemma FrontOf(frames: seq<IpcFrame>, n: nat)
    requires Sent(frames) && n < |frames|
    ensures Encodings(frames[..n + 1]) == Encoding(frames[0]) + Encodings(frames[1..][..n])
    ensures Taken(frames[..n + 1]) == [frames[0].(flags := 0)] + Taken(frames[1..][..n])
  {
    assert frames[..n + 1][1..] == frames[1..][..n];
  }

  lemma OneFrameOn(frames: seq<IpcFrame>, before: seq<IpcFrame>, rest: bytes, p: Parser, n: nat)
    requires Sent(frames) && frames != []
    requires Progress(frames[1..], before + [frames[0].(flags := 0)], rest, p, n)
    ensures Progress(frames, before, Encoding(frames[0]) + rest, p, n + 1)
  {
    FrontOf(frames, n);
    Associative(Encoding(frames[0]), Encodings(frames[1..][..n]), p.buffer);
    assert before + [frames[0].(flags := 0)] + Taken(frames[1..][..n])
        == before + ([frames[0].(flags := 0)] + Taken(frames[1..][..n]));
  }

  /** A prefix of `first + others` either reaches past `first` or stops inside it. */
  lemma PrefixOfTwo(input: bytes, first: bytes, others: bytes)
    requires input <= first + others
    ensures |input| >= |first| ==> input == first + input[|first|..] && input[|first|..] <= others
    ensures |input| < |first| ==> input <= first && input != first
  {
    if |input| >= |first| {
      assert input[..|first|] == (first + others)[..|first|] == first;
      assert (first + others)[|first|..] == others;
    } else {
      assert input == (first + others)[..|input|] == first[..|input|];
    }
  }

  lemma {:induction false} ParsesPrefix(frames: seq<IpcFrame>, before: seq<IpcFrame>, input: bytes) returns (n: nat)
    requires Sent(frames) && input <= Encodings(frames)
    ensures Progress(frames, before, input, ParseAll(before, input), n)
    decreases |frames|, 1
  {
    if frames == [] {
      StillWaiting(frames, before, input);
      n := 0;
    } else {
      PrefixOfTwo(input, Encoding(frames[0]), Encodings(frames[1..]));
      if |input| < |Encoding(frames[0])| {
        WaitsForTheRest(frames[0], input);
        StillWaiting(frames, before, input);
        n := 0;
      } else {
        n := ParsesPastFirst(frames, before, input, input[|Encoding(frames[0])|..]);
      }
    }
  }

  lemma {:induction false} ParsesPastFirst(frames: seq<IpcFrame>, before: seq<IpcFrame>, input: bytes, rest: bytes)
    returns (n: nat)
    requires Sent(frames) && frames != []
    requires input == Encoding(frames[0]) + rest && rest <= Encodings(frames[1..])
    ensures Progress(frames, before, input, ParseAll(before, input), n)
    decreases |frames|, 0
  {
    ParsesOwn(frames[0], rest);
    n := ParsesPrefix(frames[1..], before + [frames[0].(flags := 0)], rest);
    OneFrameOn(frames, before, rest, ParseAll(before, input), n);
    n := n + 1;
  }

  /** While a stream of well-formed frames is arriving, in any chunks: the frames taken are the first ones sent, nothing has
      failed, and the buffer holds a proper prefix of the next frame. */
  lemma TakesFramesInOrder(frames: seq<IpcFrame>, chunks: seq<bytes>)
    requires Sent(frames) && Concat(chunks) <= Encodings(frames)
    ensures exists n :: Progress(frames, [], Concat(chunks), FedAll(FRESH, chunks), n)
  {
    ChunksDoNotMatter(chunks);
    var n := ParsesPrefix(frames, [], Concat(chunks));
  }

  lemma EncodingsCons(first: IpcFrame, rest: seq<IpcFrame>)
    requires Sent(rest) && Bounded(first) && FromSidecar(first.kind)
    ensures Sent([first] + rest) && Encodings([first] + rest) == Encoding(first) + Encodings(rest)
  {
    assert ([first] + rest)[1..] == rest;
  }

  lemma {:induction false} EncodingsSplit(a: seq<IpcFrame>, b: seq<IpcFrame>)
    requires Sent(a) && Sent(b)
    ensures Sent(a + b) && Encodings(a + b) == Encodings(a) + Encodings(b)
  {
    if a == [] {
      assert a + b == b;
    } else {
      EncodingsSplit(a[1..], b);
      EncodingsCons(a[0], a[1..] + b);
      assert a + b == [a[0]] + (a[1..] + b);
      Associative(Encoding(a[0]), Encodings(a[1..]), Encodings(b));
    }
  }

  lemma PartOfNext(frames: seq<IpcFrame>, n: nat, buffer: bytes)
    requires Sent(frames) && n < |frames| && buffer <= Encoding(frames[n]) && buffer != Encoding(frames[n])
    ensures |buffer| < |Encodings(frames[n..])|
  {
    assert frames[n..][0] == frames[n];
  }

  lemma EncodingsAt(frames: seq<IpcFrame>, n: nat)
    requires Sent(frames) && n <= |frames|
    ensures |Encodings(frames)| == |Encodings(frames[..n])| + |Encodings(frames[n..])|
  {
    assert frames == frames[..n] + frames[n..];
    EncodingsSplit(frames[..n], frames[n..]);
  }

  /** A parser that has been given everything has taken everything. */
  lemma AllOfThem(frames: seq<IpcFrame>, p: Parser, n: nat)
    requires Sent(frames) && Progress(frames, [], Encodings(frames), p, n)
    ensures n == |frames|
  {
    EncodingsAt(frames, n);
    if n < |frames| {
      PartOfNext(frames, n, p.buffer);
    }
  }

  /** Once the whole stream has arrived, in any chunks, exactly the frames sent have been taken, in order. */
  lemma TakesEveryFrame(frames: seq<IpcFrame>, chunks: seq<bytes>)
    requires Sent(frames) && Concat(chunks) == Encodings(frames)
    ensures FedAll(FRESH, chunks) == Parser(Taken(frames), [], None)
  {
    ChunksDoNotMatter(chunks);
    var n := ParsesPrefix(frames, [], Concat(chunks));
    AllOfThem(frames, FedAll(FRESH, chunks), n);
    assert frames[..|frames|] == frames && [] + Taken(frames) == Taken(frames);
  }
}
