/** Framed message streams. Serialisation is a parameter: a payload is what the serialiser gives, and
    reading a payload back is a function of the caller. */
module Messages {
  import opened Results
  import opened Hashes

  datatype MessageError = Serialization | Deserialization | NotFound(sender: nat) | InvalidFrame

  const HEADER := 5
  const LENGTH_BYTES := 4
  const MAX_PAYLOAD := 0xFFFF_FFFF

  datatype Frame = Frame(tag: bv8, payload: Bytes)

  predicate Framed(f: Frame) {
    |f.payload| <= MAX_PAYLOAD
  }

  function FrameBytes(f: Frame): (s: Bytes)
    ensures |s| == HEADER + |f.payload|
  {
    [f.tag] + ToBe(|f.payload|, LENGTH_BYTES) + f.payload
  }

  method EncodeFrame(f: Frame) returns (r: Result<Bytes, MessageError>)
    ensures r == if Framed(f) then Ok(FrameBytes(f)) else Err(Serialization)
  {
    if |f.payload| > MAX_PAYLOAD {
      return Err(Serialization);
    }
    var buffer: Bytes := [f.tag];
    buffer := buffer + ToBe(|f.payload|, LENGTH_BYTES);
    buffer := buffer + f.payload;
    r := Ok(buffer);
  }

  /** The outcome of a search: the payload of the first frame with the tag, or why there is none. */
  datatype Found = Payload(payload: Bytes) | Nothing | Truncated

  predicate HeaderCut(s: Bytes) {
    |s| < HEADER
  }

  function LengthOf(s: Bytes): nat
    requires !HeaderCut(s)
  {
    FromBe(s[1..HEADER])
  }

  /** A nonempty rest that does not begin with a whole frame. */
  predicate IllFormed(s: Bytes) {
    |s| > 0 && (HeaderCut(s) || HEADER + LengthOf(s) > |s|)
  }

  function Search(s: Bytes, tag: bv8): Found {
    if |s| == 0 then Nothing
    else if IllFormed(s) then Truncated
    else if s[0] == tag then Payload(s[HEADER..HEADER + LengthOf(s)])
    else Search(s[HEADER + LengthOf(s)..], tag)
  }

  /** The message in what was found; a missing one is reported with the sender. */
  function Decoded<T>(found: Found, sender: nat, parse: Bytes -> Option<T>): Result<T, MessageError> {
    match found
    case Nothing => Err(NotFound(sender))
    case Truncated => Err(InvalidFrame)
    case Payload(p) => match parse(p) case None => Err(Deserialization) case Some(v) => Ok(v)
  }

  /** The search advances an offset through the stream and stays within it. */
  method FindInStream<T>(stream: Bytes, tag: bv8, parse: Bytes -> Option<T>) returns (r: Result<T, MessageError>)
    ensures r == Decoded(Search(stream, tag), 0, parse)
  {
    var offset := 0;
    while offset < |stream|
      invariant offset <= |stream|
      invariant Search(stream[offset..], tag) == Search(stream, tag)
    {
      ghost var rest := stream[offset..];
      if offset + HEADER > |stream| {
        return Err(InvalidFrame);
      }
      var found := stream[offset];
      var len := FromBe(stream[offset + 1..offset + HEADER]);
      assert rest[1..HEADER] == stream[offset + 1..offset + HEADER];
      offset := offset + HEADER;
      if offset + len > |stream| {
        return Err(InvalidFrame);
      }
      if found == tag {
        assert rest[HEADER..HEADER + len] == stream[offset..offset + len];
        match parse(stream[offset..offset + len]) {
          case None => return Err(Deserialization);
          case Some(v) => return Ok(v);
        }
      }
      assert rest[HEADER + len..] == stream[offset + len..];
      offset := offset + len;
    }
    r := Err(NotFound(0));
  }

  // Streams of frames

  function Stream(fs: seq<Frame>): Bytes {
    if |fs| == 0 then [] else FrameBytes(fs[0]) + Stream(fs[1..])
  }

  predicate AllFramed(fs: seq<Frame>) {
    forall i :: 0 <= i < |fs| ==> Framed(fs[i])
  }

  predicate NoneTagged(fs: seq<Frame>, tag: bv8) {
    forall i :: 0 <= i < |fs| ==> fs[i].tag != tag
  }

  /** The payload of the first frame with the tag. */
  function First(fs: seq<Frame>, tag: bv8): Found {
    if |fs| == 0 then Nothing
    else if fs[0].tag == tag then Payload(fs[0].payload)
    else First(fs[1..], tag)
  }

  lemma HeadFrame(f: Frame, rest: Bytes)
    requires Framed(f)
    ensures var s := FrameBytes(f) + rest;
            && !IllFormed(s) && |s| > 0 && s[0] == f.tag && LengthOf(s) == |f.payload|
            && s[HEADER..HEADER + |f.payload|] == f.payload && s[HEADER + |f.payload|..] == rest
  {
    var s := FrameBytes(f) + rest;
    assert s[1..HEADER] == ToBe(|f.payload|, LENGTH_BYTES);
    Pow256Values();
    BeRoundTrip(|f.payload|, LENGTH_BYTES);
  }

  /** Searching past frames with other tags. */
  lemma {:induction false} SearchPast(fs: seq<Frame>, rest: Bytes, tag: bv8)
    requires AllFramed(fs) && NoneTagged(fs, tag)
    ensures Search(Stream(fs) + rest, tag) == Search(rest, tag)
    decreases |fs|
  {
    if |fs| == 0 {
      assert Stream(fs) + rest == rest;
    } else {
      SkipFrame(fs[0], Stream(fs[1..]) + rest, tag);
      assert Stream(fs) + rest == FrameBytes(fs[0]) + (Stream(fs[1..]) + rest);
      SearchPast(fs[1..], rest, tag);
      hide Search, FrameBytes, IllFormed;
    }
  }

  lemma SkipFrame(f: Frame, rest: Bytes, tag: bv8)
    requires Framed(f) && f.tag != tag
    ensures Search(FrameBytes(f) + rest, tag) == Search(rest, tag)
  {
    HeadFrame(f, rest);
    hide FrameBytes, LengthOf;
  }

  /** Round trip: a search in the encodings of a list of frames finds the payload of the first frame
      with the tag, or nothing when there is none. */
  lemma {:induction false} StreamRoundTrip(fs: seq<Frame>, tag: bv8)
    requires AllFramed(fs)
    ensures Search(Stream(fs), tag) == First(fs, tag)
    decreases |fs|
  {
    if |fs| > 0 {
      HeadFrame(fs[0], Stream(fs[1..]));
      if fs[0].tag != tag { StreamRoundTrip(fs[1..], tag); }
    }
  }

  lemma FrameOf(s: Bytes) returns (f: Frame, rest: Bytes)
    requires |s| > 0 && !IllFormed(s)
    ensures Framed(f) && s == FrameBytes(f) + rest && f.tag == s[0] && f.payload == s[HEADER..HEADER + LengthOf(s)]
    ensures rest == s[HEADER + LengthOf(s)..]
  {
    var n := LengthOf(s);
    f, rest := Frame(s[0], s[HEADER..HEADER + n]), s[HEADER + n..];
    BeBound(s[1..HEADER]);
    Pow256Values();
    BytesRoundTrip(s[1..HEADER]);
    assert s == [s[0]] + s[1..HEADER] + s[HEADER..HEADER + n] + s[HEADER + n..];
  }

  /** What precedes the point where the search stops: whole frames with other tags. */
  lemma {:induction false} Stops(s: Bytes, tag: bv8) returns (fs: seq<Frame>, rest: Bytes)
    ensures AllFramed(fs) && NoneTagged(fs, tag) && s == Stream(fs) + rest
    ensures rest == [] || IllFormed(rest) || rest[0] == tag
    decreases |s|
  {
    if |s| == 0 || IllFormed(s) || s[0] == tag {
      fs, rest := [], s;
      assert Stream(fs) + rest == s;
    } else {
      var f, after := FrameOf(s);
      var gs;
      gs, rest := Stops(after, tag);
      fs := [f] + gs;
      assert fs[1..] == gs;
      assert Stream(fs) + rest == FrameBytes(f) + (Stream(gs) + rest);
    }
  }

  ghost predicate CutAfter(s: Bytes, tag: bv8, fs: seq<Frame>, rest: Bytes) {
    AllFramed(fs) && NoneTagged(fs, tag) && s == Stream(fs) + rest && IllFormed(rest)
  }

  /** On arbitrary bytes truncation is reported exactly for an ill-formed frame before the first match. */
  lemma TruncationExact(s: Bytes, tag: bv8)
    ensures Search(s, tag) == Truncated <==> exists fs: seq<Frame>, rest: Bytes :: CutAfter(s, tag, fs, rest)
  {
    var fs, rest := Stops(s, tag);
    SearchPast(fs, rest, tag);
    if Search(s, tag) == Truncated {
      assert CutAfter(s, tag, fs, rest);
    }
    if fs': seq<Frame>, rest': Bytes :| CutAfter(s, tag, fs', rest') {
      SearchPast(fs', rest', tag);
    }
  }

  // Outgoing and incoming messages of a phase

  function Entry(p2p: map<nat, Bytes>, receiver: nat): Bytes {
    if receiver in p2p then p2p[receiver] else []
  }

  class PhaseOutput {
    var broadcasts: seq<Bytes>
    var p2p: map<nat, Bytes>

    constructor ()
      ensures broadcasts == [] && p2p == map[]
    {
      broadcasts, p2p := [], map[];
    }

    method AddBroadcast(f: Frame) returns (r: Result<(), MessageError>)
      modifies this
      ensures p2p == old(p2p)
      ensures Framed(f) ==> r == Ok(()) && broadcasts == old(broadcasts) + [FrameBytes(f)]
      ensures !Framed(f) ==> r == Err(Serialization) && broadcasts == old(broadcasts)
    {
      var frame := EncodeFrame(f);
      if frame.Err? {
        return Err(frame.error);
      }
      broadcasts := broadcasts + [frame.value];
      r := Ok(());
    }

    /** The entry of the receiver is created before the message is encoded, so it is there, empty, even
        when encoding fails. */
    method AddP2p(receiver: nat, f: Frame) returns (r: Result<(), MessageError>)
      modifies this
      ensures broadcasts == old(broadcasts)
      ensures p2p == AddedP2p(old(p2p), receiver, f)
      ensures r == if Framed(f) then Ok(()) else Err(Serialization)
    {
      p2p := p2p[receiver := Entry(p2p, receiver)];
      var frame := EncodeFrame(f);
      if frame.Err? {
        assert Entry(old(p2p), receiver) + [] == Entry(old(p2p), receiver);
        return Err(frame.error);
      }
      p2p := p2p[receiver := p2p[receiver] + frame.value];
      r := Ok(());
    }
  }

  function AddedP2p(p2p: map<nat, Bytes>, receiver: nat, f: Frame): map<nat, Bytes> {
    p2p[receiver := Entry(p2p, receiver) + if Framed(f) then FrameBytes(f) else []]
  }

  /** A list of additions, in order. */
  function AddedAll(adds: seq<(nat, Frame)>): map<nat, Bytes> {
    if |adds| == 0 then map[]
    else AddedP2p(AddedAll(adds[..|adds| - 1]), adds[|adds| - 1].0, adds[|adds| - 1].1)
  }

  /** The frames that were added for one receiver. */
  function FramesFor(adds: seq<(nat, Frame)>, receiver: nat): seq<Frame> {
    if |adds| == 0 then []
    else FramesFor(adds[..|adds| - 1], receiver) + FrameFor(adds[|adds| - 1].0, adds[|adds| - 1].1, receiver)
  }

  lemma {:induction false} StreamAppend(fs: seq<Frame>, f: Frame)
    ensures Stream(fs + [f]) == Stream(fs) + FrameBytes(f)
    decreases |fs|
  {
    if |fs| == 0 {
      assert fs + [f] == [f];
    } else {
      StreamAppend(fs[1..], f);
      assert (fs + [f])[1..] == fs[1..] + [f];
    }
  }

  lemma AddedEntry(p2p: map<nat, Bytes>, to: nat, f: Frame, receiver: nat)
    ensures Entry(AddedP2p(p2p, to, f), receiver)
         == if to == receiver && Framed(f) then Entry(p2p, receiver) + FrameBytes(f) else Entry(p2p, receiver)
  {
    hide FrameBytes;
    assert Entry(p2p, receiver) + [] == Entry(p2p, receiver);
  }

  /** The frames that one addition puts into the stream of a receiver. */
  function FrameFor(to: nat, f: Frame, receiver: nat): seq<Frame> {
    if to == receiver && Framed(f) then [f] else []
  }

  lemma StreamStep(fs: seq<Frame>, to: nat, f: Frame, receiver: nat)
    requires AllFramed(fs)
    ensures Stream(fs + FrameFor(to, f, receiver))
         == if to == receiver && Framed(f) then Stream(fs) + FrameBytes(f) else Stream(fs)
    ensures AllFramed(fs + FrameFor(to, f, receiver))
  {
    hide Stream, FrameBytes;
    StreamAppend(fs, f);
    assert fs + [] == fs;
  }

  lemma EmptyEntry(receiver: nat)
    ensures Entry(map[], receiver) == Stream([]) && AllFramed([])
  {}

  lemma {:induction false} EntryIsStream(adds: seq<(nat, Frame)>, receiver: nat)
    ensures Entry(AddedAll(adds), receiver) == Stream(FramesFor(adds, receiver)) && AllFramed(FramesFor(adds, receiver))
    decreases |adds|
  {
    hide Stream, FrameBytes, AddedP2p, Entry, AllFramed, FrameFor;
    if |adds| == 0 {
      EmptyEntry(receiver);
    } else {
      var n := |adds| - 1;
      EntryIsStream(adds[..n], receiver);
      StreamStep(FramesFor(adds[..n], receiver), adds[n].0, adds[n].1, receiver);
      AddedEntry(AddedAll(adds[..n]), adds[n].0, adds[n].1, receiver);
    }
  }

  function Lookup<T>(streams: map<nat, Bytes>, sender: nat, tag: bv8, parse: Bytes -> Option<T>): Result<T, MessageError> {
    if sender !in streams then Err(NotFound(sender)) else Decoded(Search(streams[sender], tag), sender, parse)
  }

  /** `get_broadcast` and `get_p2p`: the sender is put into a not-found error. */
  method Get<T>(streams: map<nat, Bytes>, sender: nat, tag: bv8, parse: Bytes -> Option<T>) returns (r: Result<T, MessageError>)
    ensures r == Lookup(streams, sender, tag, parse)
  {
    if sender !in streams {
      return Err(NotFound(sender));
    }
    r := FindInStream(streams[sender], tag, parse);
    if r.Err? && r.error.NotFound? {
      r := Err(NotFound(sender));
    }
  }

  /** Delivery: what a sender adds for a receiver, in any mixture with other messages, the receiver finds
      under the sender: the first message of the requested type, or not-found when none was added. */
  lemma Delivery<T>(adds: seq<(nat, Frame)>, receiver: nat, sender: nat, tag: bv8, parse: Bytes -> Option<T>)
    ensures var streams := map[sender := Entry(AddedAll(adds), receiver)];
            First(FramesFor(adds, receiver), tag) != Truncated
            && Lookup(streams, sender, tag, parse) == Decoded(First(FramesFor(adds, receiver), tag), sender, parse)
  {
    EntryIsStream(adds, receiver);
    StreamRoundTrip(FramesFor(adds, receiver), tag);
    FirstFound(FramesFor(adds, receiver), tag);
    hide Search, First, AddedAll, FramesFor;
  }

  lemma {:induction false} FirstFound(fs: seq<Frame>, tag: bv8)
    ensures First(fs, tag) != Truncated
  {
    if |fs| > 0 { FirstFound(fs[1..], tag); }
  }
}
