/** The packer both adapters use to put encoded frames into Veilid messages, and the splitter on the other side. */
module Bundling {
  import opened Prelude
  import opened Wire

  /** A group the packer can send: one frame travels bare, several travel as a bundle within the limit. */
  predicate Sendable(group: seq<bytes>) {
    |group| == 1 || (|group| > 1 && BundleSize(group) <= VEILID_MESSAGE_LIMIT)
  }

  ghost predicate AllSendable(groups: seq<seq<bytes>>) {
    forall i | 0 <= i < |groups| :: Sendable(groups[i])
  }

  function Message(group: seq<bytes>): bytes
    requires Sendable(group)
  {
    if |group| == 1 then group[0] else BundleLayout(group)
  }

  /** Whether one more frame still goes into the bundle being filled. */
  predicate Overflows(bundle: seq<bytes>, f: bytes) {
    bundle != [] && BundleSize(bundle) + 4 + |f| > VEILID_MESSAGE_LIMIT
  }

  /** The groups sent for `frames` when `bundle` is already being filled. */
  function Groups(bundle: seq<bytes>, frames: seq<bytes>): seq<seq<bytes>>
    decreases |frames|
  {
    if frames == [] then
      if bundle == [] then [] else [bundle]
    else if Overflows(bundle, frames[0]) then
      [bundle] + Groups([frames[0]], frames[1..])
    else
      Groups(bundle + [frames[0]], frames[1..])
  }

  lemma BundleSizeSnoc(bundle: seq<bytes>, f: bytes)
    ensures BundleSize(bundle + [f]) == BundleSize(bundle) + 4 + |f|
  {
    TotalLengthSnoc(bundle, f);
  }

  /** Nothing is lost, repeated or reordered, and every group is sendable. */
  lemma {:induction false} GroupsPartition(bundle: seq<bytes>, frames: seq<bytes>)
    requires bundle == [] || Sendable(bundle)
    ensures Concat(Groups(bundle, frames)) == bundle + frames
    ensures AllSendable(Groups(bundle, frames))
    decreases |frames|
  {
    if frames == [] {
      assert bundle + frames == bundle;
      ConcatSnoc([], bundle);
      assert [] + [bundle] == [bundle];
    } else {
      var f, rest := frames[0], frames[1..];
      assert frames == [f] + rest;
      BundleSizeSnoc(bundle, f);
      if Overflows(bundle, f) {
        GroupsPartition([f], rest);
        assert ([bundle] + Groups([f], rest))[1..] == Groups([f], rest);
      } else {
        GroupsPartition(bundle + [f], rest);
        assert bundle + [f] + rest == bundle + frames;
      }
    }
  }

  function Messages(groups: seq<seq<bytes>>): seq<bytes>
    requires AllSendable(groups)
  {
    if groups == [] then [] else [Message(groups[0])] + Messages(groups[1..])
  }

  lemma {:induction false} MessagesSnoc(groups: seq<seq<bytes>>, group: seq<bytes>)
    requires AllSendable(groups) && Sendable(group)
    ensures AllSendable(groups + [group])
    ensures Messages(groups + [group]) == Messages(groups) + [Message(group)]
  {
    if groups == [] {
      assert groups + [group] == [group];
      assert [group][1..] == [];
    } else {
      assert (groups + [group])[1..] == groups[1..] + [group];
      MessagesSnoc(groups[1..], group);
    }
  }

  /** `send_bundle`: the payload for one group. Encoding a sendable bundle cannot fail. */
  method SendBundle(group: seq<bytes>) returns (payload: bytes)
    requires Sendable(group)
    ensures payload == Message(group)
  {
    if |group| == 1 {
      payload := group[0];
    } else {
      var r := EncodeBundle(group);
      payload := r.value;
    }
  }

  /** What is sent so far, plus what the rest will send. */
  ghost predicate Underway(sent: seq<seq<bytes>>, bundle: seq<bytes>, rest: seq<bytes>, frames: seq<bytes>) {
    sent + Groups(bundle, rest) == Groups([], frames)
  }

  lemma UnderwayStep(sent: seq<seq<bytes>>, bundle: seq<bytes>, rest: seq<bytes>, frames: seq<bytes>)
    requires Underway(sent, bundle, rest, frames) && rest != []
    ensures Overflows(bundle, rest[0]) ==> Underway(sent + [bundle], [rest[0]], rest[1..], frames)
    ensures !Overflows(bundle, rest[0]) ==> Underway(sent, bundle + [rest[0]], rest[1..], frames)
  {
    if Overflows(bundle, rest[0]) {
      assert sent + ([bundle] + Groups([rest[0]], rest[1..])) == sent + [bundle] + Groups([rest[0]], rest[1..]);
    }
  }

  /** `send_encoded_frames`: fill a bundle while the running byte count stays within the message limit. */
  method SendEncodedFrames(frames: seq<bytes>) returns (messages: seq<bytes>)
    ensures AllSendable(Groups([], frames)) && messages == Messages(Groups([], frames))
  {
    GroupsPartition([], frames);
    messages := [];
    var bundle: seq<bytes> := [];
    var encodedBytes := BUNDLE_HEADER_LEN;
    ghost var sent: seq<seq<bytes>> := [];
    var rest := frames;
    while rest != []
      invariant encodedBytes == BundleSize(bundle) && (bundle == [] || Sendable(bundle))
      invariant AllSendable(sent) && messages == Messages(sent)
      invariant Underway(sent, bundle, rest, frames)
      decreases |rest|
    {
      var frame := rest[0];
      UnderwayStep(sent, bundle, rest, frames);
      BundleSizeSnoc(bundle, frame);
      BundleSizeSnoc([], frame);
      assert [] + [frame] == [frame];
      var projected := encodedBytes + 4 + |frame|;
      if bundle != [] && projected > VEILID_MESSAGE_LIMIT {
        var payload := SendBundle(bundle);
        MessagesSnoc(sent, bundle);
        sent := sent + [bundle];
        messages := messages + [payload];
        bundle := [];
        encodedBytes := BUNDLE_HEADER_LEN;
        assert bundle + [frame] == [frame];
      }
      encodedBytes := encodedBytes + 4 + |frame|;
      bundle := bundle + [frame];
      rest := rest[1..];
    }
    if bundle != [] {
      var payload := SendBundle(bundle);
      MessagesSnoc(sent, bundle);
      messages := messages + [payload];
    } else {
      assert sent + [] == sent;
    }
  }

  /** `split_frames`: a bundle is tried first, then a single frame. */
  function SplitFrames(mc: MetadataCodec, payload: bytes): Result<seq<bytes>, WireError> {
    match BundleDecoding(mc, payload)
    case Ok(frames) => Ok(frames)
    case Err(_) =>
      match Decode(mc, payload)
      case Err(e) => Err(e)
      case Ok(_) => Ok([payload])
  }

  function SplitAll(mc: MetadataCodec, messages: seq<bytes>): Result<seq<bytes>, WireError> {
    if messages == [] then
      Ok([])
    else
      match SplitFrames(mc, messages[0])
      case Err(e) => Err(e)
      case Ok(frames) => Prefixed(frames, SplitAll(mc, messages[1..]))
  }

  lemma SplitMessage(mc: MetadataCodec, group: seq<bytes>)
    requires Sendable(group) && AllValid(mc, group)
    ensures SplitFrames(mc, Message(group)) == Ok(group)
    ensures |Message(group)| <= VEILID_MESSAGE_LIMIT
  {
    if |group| == 1 {
      FrameIsNotBundle(mc, group[0]);
      assert group == [group[0]];
    } else {
      DecodeEncodeBundle(mc, group);
      TotalLengthBounds(group);
    }
  }

  lemma {:induction false} SplitMessages(mc: MetadataCodec, groups: seq<seq<bytes>>)
    requires AllSendable(groups) && AllValid(mc, Concat(groups))
    ensures SplitAll(mc, Messages(groups)) == Ok(Concat(groups))
    ensures forall i | 0 <= i < |Messages(groups)| :: |Messages(groups)[i]| <= VEILID_MESSAGE_LIMIT
    ensures |Messages(groups)| == |groups|
  {
    if groups != [] {
      var g, rest := groups[0], groups[1..];
      assert forall i | 0 <= i < |g| :: g[i] == Concat(groups)[i];
      assert forall i | 0 <= i < |Concat(rest)| :: Concat(rest)[i] == Concat(groups)[|g| + i];
      SplitMessage(mc, g);
      SplitMessages(mc, rest);
      assert Messages(groups)[1..] == Messages(rest);
    }
  }

  /** Packing any list of valid frames and splitting the messages gives the same list; every message fits. */
  lemma PackThenSplit(mc: MetadataCodec, frames: seq<bytes>)
    requires AllValid(mc, frames)
    ensures AllSendable(Groups([], frames))
    ensures var messages := Messages(Groups([], frames));
            && SplitAll(mc, messages) == Ok(frames)
            && forall i | 0 <= i < |messages| :: |messages[i]| <= VEILID_MESSAGE_LIMIT
  {
    GroupsPartition([], frames);
    assert [] + frames == frames;
    SplitMessages(mc, Groups([], frames));
  }

  // ---- The packer never sends more messages than any other order-preserving grouping ----

  lemma {:induction false} TotalLengthAppend(a: seq<bytes>, b: seq<bytes>)
    ensures TotalLength(a + b) == TotalLength(a) + TotalLength(b)
  {
    if a == [] {
      assert a + b == b;
    } else {
      assert (a + b)[1..] == a[1..] + b;
      TotalLengthAppend(a[1..], b);
    }
  }

  lemma SuffixOverflows(dropped: seq<bytes>, kept: seq<bytes>, f: bytes)
    requires Overflows(kept, f)
    ensures Overflows(dropped + kept, f)
  {
    TotalLengthAppend(dropped, kept);
  }

  /** Starting with less in the bundle never needs more messages, and at most one fewer. */
  lemma {:induction false} LessInTheBundle(dropped: seq<bytes>, kept: seq<bytes>, frames: seq<bytes>)
    ensures |Groups(kept, frames)| <= |Groups(dropped + kept, frames)| <= 1 + |Groups(kept, frames)|
    decreases |frames|
  {
    if frames != [] {
      var f, rest := frames[0], frames[1..];
      if Overflows(kept, f) {
        SuffixOverflows(dropped, kept, f);
      } else if Overflows(dropped + kept, f) {
        LessInTheBundle(kept, [f], rest);
      } else {
        assert dropped + kept + [f] == dropped + (kept + [f]);
        LessInTheBundle(dropped, kept + [f], rest);
      }
    }
  }

  lemma {:induction false} FillSendable(bundle: seq<bytes>, more: seq<bytes>, rest: seq<bytes>)
    requires Sendable(bundle + more)
    ensures Groups(bundle, more + rest) == Groups(bundle + more, rest)
    decreases |more|
  {
    if more == [] {
      assert more + rest == rest && bundle + more == bundle;
    } else {
      var f := more[0];
      assert (more + rest)[0] == f && (more + rest)[1..] == more[1..] + rest;
      assert bundle + [f] + more[1..] == bundle + more;
      BundleSizeSnoc(bundle, f);
      TotalLengthAppend(bundle + [f], more[1..]);
      FillSendable(bundle + [f], more[1..], rest);
    }
  }

  lemma {:induction false} FewestMessages(frames: seq<bytes>, other: seq<seq<bytes>>)
    requires AllSendable(other) && Concat(other) == frames
    ensures |Groups([], frames)| <= |other|
    decreases |other|
  {
    if other != [] {
      var first, rest := other[0], Concat(other[1..]);
      assert [] + first == first && first + [] == first;
      FillSendable([], first, rest);
      LessInTheBundle(first, [], rest);
      FewestMessages(rest, other[1..]);
    }
  }
}
