/** The length-prefixed image stream: the client's messages, and the server's reassembly
    of them from whatever chunks the socket hands over. */
module ImageStream {
  import opened Outcomes
  import Text

  type Byte = b: int | 0 <= b < 256

  const WORD := 0x1_0000_0000

  /** `struct.pack('!I', n)`. */
  function Be32(n: nat): (word: seq<Byte>)
    requires n < WORD
    ensures |word| == 4
  {
    [n / 256 / 256 / 256, n / 256 / 256 % 256, n / 256 % 256, n % 256]
  }

  /** `struct.unpack('!I', word)`. */
  function FromBe32(word: seq<Byte>): (n: nat)
    requires |word| == 4
    ensures n < WORD
  {
    ((word[0] as int * 256 + word[1] as int) * 256 + word[2] as int) * 256 + word[3] as int
  }

  lemma PackUnpack(n: nat)
    requires n < WORD
    ensures FromBe32(Be32(n)) == n
  {
  }

  lemma UnpackPack(word: seq<Byte>)
    requires |word| == 4
    ensures Be32(FromBe32(word)) == word
  {
    var a, b, c, d := word[0] as int, word[1] as int, word[2] as int, word[3] as int;
    var n := FromBe32(word);
    assert n / 256 == (a * 256 + b) * 256 + c && n % 256 == d;
    assert n / 256 / 256 == a * 256 + b && n / 256 % 256 == c;
    assert n / 256 / 256 / 256 == a && n / 256 / 256 % 256 == b;
  }

  // ---------------------------------------------------------------------
  // Messages
  // ---------------------------------------------------------------------

  datatype Image = Image(width: nat, height: nat, mode: seq<Byte>, pixels: seq<Byte>)

  /** The client's message, or nothing where packing a field raises. */
  function EncodeImage(image: Image): Option<seq<Byte>> {
    if image.width >= WORD || image.height >= WORD || |image.mode| >= WORD then
      None
    else
      var data := Be32(image.width) + Be32(image.height) + Be32(|image.mode|) + image.mode + image.pixels;
      if |data| >= WORD then None else Some(data)
  }

  /** The server's reading of a message, or nothing where unpacking raises. */
  function DecodeImage(data: seq<Byte>): Option<Image> {
    if |data| < 12 then
      None
    else
      var modeLen := FromBe32(data[8..12]);
      var modeEnd := if 12 + modeLen <= |data| then 12 + modeLen else |data|;
      Some(Image(FromBe32(data[..4]), FromBe32(data[4..8]), data[12..modeEnd], data[modeEnd..]))
  }

  lemma ImageRoundTrip(image: Image)
    requires EncodeImage(image).Some?
    ensures |EncodeImage(image).value| >= 12
    ensures DecodeImage(EncodeImage(image).value) == Some(image)
  {
    var data := EncodeImage(image).value;
    var w, h, m := Be32(image.width), Be32(image.height), Be32(|image.mode|);
    assert data[..4] == w && data[4..8] == h && data[8..12] == m;
    PackUnpack(image.width);
    PackUnpack(image.height);
    PackUnpack(|image.mode|);
    var end := 12 + |image.mode|;
    assert data[12..end] == image.mode;
    assert data[end..] == image.pixels;
  }

  /** Four bytes as a number, the most significant first. */
  function Number(bytes: seq<Byte>, i: nat): int
    requires i + 4 <= |bytes|
  {
    bytes[i] as int * 16777216 + bytes[i + 1] as int * 65536 + bytes[i + 2] as int * 256 + bytes[i + 3] as int
  }

  lemma WordIsNumber(bytes: seq<Byte>, i: nat)
    requires i + 4 <= |bytes|
    ensures FromBe32(bytes[i..i + 4]) == Number(bytes, i)
  {
  }

  /** The message byte by byte: width, height and the length of the mode, four bytes each and
      most significant first, then the mode and the pixels. It exists if and only if the
      three numbers and its own length fit four bytes. */
  lemma MessageLayout(image: Image)
    ensures EncodeImage(image).Some? <==>
            image.width < 4294967296 && image.height < 4294967296 && 12 + |image.mode| + |image.pixels| < 4294967296
    ensures EncodeImage(image).Some? ==>
              var data, end := EncodeImage(image).value, 12 + |image.mode|;
              && |data| == end + |image.pixels|
              && Number(data, 0) == image.width && Number(data, 4) == image.height && Number(data, 8) == |image.mode|
              && data[12..end] == image.mode && data[end..] == image.pixels
  {
    if EncodeImage(image).Some? {
      var data := EncodeImage(image).value;
      ImageRoundTrip(image);
      WordIsNumber(data, 0);
      WordIsNumber(data, 4);
      WordIsNumber(data, 8);
      assert data[8..12] == Be32(|image.mode|);
      PackUnpack(|image.mode|);
    }
  }

  /** What the server reads in any message: nothing below twelve bytes, and otherwise the
      same layout, the mode cut off where the message ends. */
  lemma ReadingLayout(data: seq<Byte>)
    ensures DecodeImage(data).Some? <==> |data| >= 12
    ensures |data| >= 12 ==>
              var image := DecodeImage(data).value;
              && image.width == Number(data, 0) && image.height == Number(data, 4)
              && image.mode + image.pixels == data[12..]
              && |image.mode| == if 12 + Number(data, 8) <= |data| then Number(data, 8) else |data| - 12
  {
    if |data| >= 12 {
      WordIsNumber(data, 0);
      WordIsNumber(data, 4);
      WordIsNumber(data, 8);
    }
  }

  // ---------------------------------------------------------------------
  // Frames
  // ---------------------------------------------------------------------

  /** A payload whose size fits the header. */
  type Payload = p: seq<Byte> | |p| < WORD

  function Encode(payloads: seq<Payload>): seq<Byte> {
    if payloads == [] then []
    else Be32(|payloads[0]|) + payloads[0] + Encode(payloads[1..])
  }

  /** The frames that are complete in a stream of bytes, in order. */
  function Complete(stream: seq<Byte>): seq<Payload> {
    if |stream| < 4 then
      []
    else
      var size := FromBe32(stream[..4]);
      if |stream| < 4 + size then []
      else [stream[4..4 + size]] + Complete(stream[4 + size..])
  }

  lemma {:induction false} EncodeConcat(a: seq<Payload>, b: seq<Payload>)
    ensures Encode(a + b) == Encode(a) + Encode(b)
  {
    if a == [] {
      assert a + b == b;
    } else {
      assert (a + b)[1..] == a[1..] + b;
      EncodeConcat(a[1..], b);
    }
  }

  lemma CompleteCons(payload: Payload, rest: seq<Byte>)
    ensures Complete(Be32(|payload|) + payload + rest) == [payload] + Complete(rest)
  {
    var stream := Be32(|payload|) + payload + rest;
    PackUnpack(|payload|);
    assert stream[..4] == Be32(|payload|);
    assert stream[4..4 + |payload|] == payload;
    assert stream[4 + |payload|..] == rest;
  }

  lemma Nest<T>(a: seq<T>, b: seq<T>, c: seq<T>, d: seq<T>)
    ensures a + b + c + d == a + b + (c + d) == a + (b + (c + d))
    ensures b + c + d == b + (c + d)
  {
  }

  /** A frame is its payload's length, four bytes and most significant first, and the
      payload. */
  lemma FrameLayout(payload: Payload)
    ensures |Encode([payload])| == 4 + |payload|
    ensures Number(Encode([payload]), 0) == |payload| && Encode([payload])[4..] == payload
  {
    var one: seq<Payload> := [payload];
    assert Encode(one[1..]) == [];
    var frame := Encode(one);
    assert frame == Be32(|payload|) + payload;
    assert frame[0..4] == Be32(|payload|);
    PackUnpack(|payload|);
    WordIsNumber(frame, 0);
  }

  /** Reading frames undoes writing them, whatever bytes follow. */
  lemma {:induction false} CompleteEncode(payloads: seq<Payload>, rest: seq<Byte>)
    ensures Complete(Encode(payloads) + rest) == payloads + Complete(rest)
  {
    if payloads == [] {
      assert Encode(payloads) + rest == rest;
    } else {
      var first, others := payloads[0], payloads[1..];
      CompleteEncode(others, rest);
      CompleteCons(first, Encode(others) + rest);
      Nest(Be32(|first|), first, Encode(others), rest);
      assert payloads == [first] + others;
      Nest([], [first], others, Complete(rest));
    }
  }

  // ---------------------------------------------------------------------
  // Reassembly
  // ---------------------------------------------------------------------

  /** The carry between chunks; a size of zero means that no header has been read. */
  datatype Carry = Carry(buffer: seq<Byte>, expectedSize: nat)

  predicate Sized(carry: Carry) {
    carry.expectedSize < WORD
  }

  /** The original's inner loop: the payloads it handles, and what it carries over. */
  function Drain(carry: Carry): (r: (Carry, seq<Payload>))
    requires Sized(carry)
    ensures Sized(r.0)
    decreases |carry.buffer|
  {
    if |carry.buffer| < 4 then
      (carry, [])
    else
      var opening := carry.expectedSize == 0;
      var size := if opening then FromBe32(carry.buffer[..4]) else carry.expectedSize;
      var buffer := if opening then carry.buffer[4..] else carry.buffer;
      if |buffer| >= size then
        var (after, payloads) := Drain(Carry(buffer[size..], 0));
        (after, [buffer[..size]] + payloads)
      else
        (Carry(buffer, size), [])
  }

  function Feed(carry: Carry, chunk: seq<Byte>): (r: (Carry, seq<Payload>))
    requires Sized(carry)
    ensures Sized(r.0)
  {
    Drain(carry.(buffer := carry.buffer + chunk))
  }

  const START := Carry([], 0)

  function FeedAll(chunks: seq<seq<Byte>>): (r: (Carry, seq<Payload>))
    ensures Sized(r.0)
    decreases |chunks|
  {
    if chunks == [] then
      (START, [])
    else
      var (carry, delivered) := FeedAll(chunks[..|chunks| - 1]);
      var (after, more) := Feed(carry, chunks[|chunks| - 1]);
      (after, delivered + more)
  }

  function Received(chunks: seq<seq<Byte>>): seq<Byte>
    decreases |chunks|
  {
    if chunks == [] then [] else Received(chunks[..|chunks| - 1]) + chunks[|chunks| - 1]
  }

  /** One turn of the loop. */
  lemma DrainStep(carry: Carry, buffer: seq<Byte>, size: nat)
    requires Sized(carry) && |carry.buffer| >= 4
    requires carry.expectedSize == 0 ==> size == FromBe32(carry.buffer[..4]) && buffer == carry.buffer[4..]
    requires carry.expectedSize != 0 ==> size == carry.expectedSize && buffer == carry.buffer
    ensures |buffer| >= size ==>
              Drain(carry) == (Drain(Carry(buffer[size..], 0)).0, [buffer[..size]] + Drain(Carry(buffer[size..], 0)).1)
    ensures |buffer| < size ==> Drain(carry) == (Carry(buffer, size), [])
  {
  }

  /** The server's receiving end. */
  class Receiver {
    var buffer: seq<Byte>
    var expectedSize: nat

    predicate Valid()
      reads this
    {
      expectedSize < WORD
    }

    function State(): Carry
      reads this
    {
      Carry(buffer, expectedSize)
    }

    constructor ()
      ensures Valid() && State() == START
    {
      buffer := [];
      expectedSize := 0;
    }

    /** One chunk from the socket; `handled` are the messages it completes. */
    method OnData(data: seq<Byte>) returns (handled: seq<Payload>)
      requires Valid()
      modifies this
      ensures Valid()
      ensures (State(), handled) == Feed(old(State()), data)
    {
      buffer := buffer + data;
      handled := [];
      ghost var total := Drain(State());
      assert total == Feed(old(State()), data);
      assert [] + total.1 == total.1;
      while |buffer| >= 4
        invariant Valid()
        invariant total == (Drain(State()).0, handled + Drain(State()).1)
        decreases |buffer|
      {
        ghost var before := State();
        if expectedSize == 0 {
          expectedSize := FromBe32(buffer[..4]);
          buffer := buffer[4..];
        }
        DrainStep(before, buffer, expectedSize);
        if |buffer| >= expectedSize {
          ghost var earlier, payload := handled, buffer[..expectedSize];
          handled := handled + [buffer[..expectedSize]];
          buffer := buffer[expectedSize..];
          expectedSize := 0;
          Text.Regroup([], earlier, [payload], Drain(State()).1);
        } else {
          break;
        }
      }
      assert handled + [] == handled;
    }
  }

  // ---------------------------------------------------------------------
  // What every chunking keeps
  // ---------------------------------------------------------------------

  /** The bytes of the stream a carry stands for. */
  function Held(carry: Carry): seq<Byte>
    requires Sized(carry)
  {
    (if carry.expectedSize == 0 then [] else Be32(carry.expectedSize)) + carry.buffer
  }

  /** The inner loop loses and invents nothing. */
  lemma {:induction false} DrainConserves(carry: Carry)
    requires Sized(carry)
    ensures Held(carry) == Encode(Drain(carry).1) + Held(Drain(carry).0)
    decreases |carry.buffer|
  {
    if |carry.buffer| >= 4 {
      var opening := carry.expectedSize == 0;
      var size := if opening then FromBe32(carry.buffer[..4]) else carry.expectedSize;
      var buffer := if opening then carry.buffer[4..] else carry.buffer;
      assert Held(carry) == Be32(size) + buffer by {
        if opening {
          UnpackPack(carry.buffer[..4]);
          assert carry.buffer == carry.buffer[..4] + buffer;
        }
      }
      if |buffer| >= size {
        DrainConserves(Carry(buffer[size..], 0));
        DeliverOne(buffer, size, Drain(Carry(buffer[size..], 0)).1, Held(Drain(Carry(buffer[size..], 0)).0));
      }
    }
  }

  lemma DeliverOne(buffer: seq<Byte>, size: nat, payloads: seq<Payload>, held: seq<Byte>)
    requires size <= |buffer| && size < WORD
    requires [] + buffer[size..] == Encode(payloads) + held
    ensures Be32(size) + buffer == Encode([buffer[..size]] + payloads) + held
  {
    var first: Payload := buffer[..size];
    assert buffer == first + buffer[size..];
    assert ([first] + payloads)[1..] == payloads;
    Text.Regroup([], Be32(size) + first, Encode(payloads), held);
    Text.Regroup([], Be32(size), first, buffer[size..]);
    assert [] + buffer[size..] == buffer[size..];
  }

  /** The loop stops only where it cannot go on. */
  lemma {:induction false} DrainStops(carry: Carry)
    requires Sized(carry)
    ensures var after := Drain(carry).0; |after.buffer| < 4 || |after.buffer| < after.expectedSize
    decreases |carry.buffer|
  {
    if |carry.buffer| >= 4 {
      var opening := carry.expectedSize == 0;
      var size := if opening then FromBe32(carry.buffer[..4]) else carry.expectedSize;
      var buffer := if opening then carry.buffer[4..] else carry.buffer;
      if |buffer| >= size {
        DrainStops(Carry(buffer[size..], 0));
      }
    }
  }

  /** For every stream of bytes and every way it is cut into chunks: what was delivered,
      written as frames and followed by what is carried, is what was received. */
  lemma {:induction false} ChunksConserve(chunks: seq<seq<Byte>>)
    ensures Received(chunks) == Encode(FeedAll(chunks).1) + Held(FeedAll(chunks).0)
    ensures var carry := FeedAll(chunks).0; |carry.buffer| < 4 || |carry.buffer| < carry.expectedSize
    decreases |chunks|
  {
    if chunks != [] {
      var before, chunk := chunks[..|chunks| - 1], chunks[|chunks| - 1];
      ChunksConserve(before);
      var (carry, delivered) := FeedAll(before);
      var grown := carry.(buffer := carry.buffer + chunk);
      var (after, more) := Drain(grown);
      DrainConserves(grown);
      DrainStops(grown);
      GrownHolds(carry, chunk);
      EncodeConcat(delivered, more);
      Text.Regroup([], Encode(delivered), Held(carry), chunk);
      Text.Regroup([], Encode(delivered), Encode(more), Held(after));
    }
  }

  lemma GrownHolds(carry: Carry, chunk: seq<Byte>)
    requires Sized(carry)
    ensures Held(carry.(buffer := carry.buffer + chunk)) == Held(carry) + chunk
  {
    var header: seq<Byte> := if carry.expectedSize == 0 then [] else Be32(carry.expectedSize);
    Text.Regroup([], header, carry.buffer, chunk);
  }

  /** A frame that is complete but not delivered yet: its payload is one to three bytes
      long, its header has been read, and the loop will not look at so short a buffer. */
  function Waiting(carry: Carry): seq<Payload>
    requires Sized(carry)
  {
    if 0 < carry.expectedSize <= |carry.buffer| then [carry.buffer[..carry.expectedSize]] else []
  }

  lemma CompleteHeld(carry: Carry)
    requires Sized(carry) && (|carry.buffer| < 4 || |carry.buffer| < carry.expectedSize)
    ensures Complete(Held(carry)) == Waiting(carry)
  {
    var size, buffer := carry.expectedSize, carry.buffer;
    if size != 0 {
      PackUnpack(size);
      assert Held(carry)[..4] == Be32(size);
      if size <= |buffer| {
        CompleteCons(buffer[..size], buffer[size..]);
        Text.Regroup([], Be32(size), buffer[..size], buffer[size..]);
        assert buffer[..size] + buffer[size..] == buffer;
      }
    }
  }

  /** Chunking independence, on every stream of bytes. After any chunks, the payloads
      delivered and the at most one that is waiting are exactly the complete frames of the
      bytes received so far, in order, no matter where the chunks were cut. */
  lemma DeliveredAreTheCompleteFrames(chunks: seq<seq<Byte>>)
    ensures FeedAll(chunks).1 + Waiting(FeedAll(chunks).0) == Complete(Received(chunks))
  {
    var (carry, delivered) := FeedAll(chunks);
    ChunksConserve(chunks);
    CompleteEncode(delivered, Held(carry));
    CompleteHeld(carry);
  }

  /** Nothing lags where every complete frame has at least four bytes or none. */
  lemma NoShortFrameNoLag(chunks: seq<seq<Byte>>)
    requires forall i | 0 <= i < |Complete(Received(chunks))| :: !(0 < |Complete(Received(chunks))[i]| < 4)
    ensures FeedAll(chunks).1 == Complete(Received(chunks))
  {
    DeliveredAreTheCompleteFrames(chunks);
    WaitingIsShort(chunks);
  }

  lemma WaitingIsShort(chunks: seq<seq<Byte>>)
    ensures Waiting(FeedAll(chunks).0) != [] ==>
              var k := |FeedAll(chunks).1|; k < |Complete(Received(chunks))| && 0 < |Complete(Received(chunks))[k]| < 4
  {
    var (carry, delivered) := FeedAll(chunks);
    DeliveredAreTheCompleteFrames(chunks);
    ChunksConserve(chunks);
    if Waiting(carry) != [] {
      assert Complete(Received(chunks))[|delivered|] == Waiting(carry)[0];
    }
  }

  lemma {:induction false} CompleteGrows(stream: seq<Byte>, more: seq<Byte>)
    ensures Complete(stream) <= Complete(stream + more)
    decreases |stream|
  {
    if |stream| >= 4 {
      var size := FromBe32(stream[..4]);
      assert (stream + more)[..4] == stream[..4];
      if |stream| >= 4 + size {
        assert (stream + more)[4..4 + size] == stream[4..4 + size];
        assert (stream + more)[4 + size..] == stream[4 + size..] + more;
        CompleteGrows(stream[4 + size..], more);
      }
    }
  }

  /** At any point of a stream of frames, what has been delivered is a beginning of what
      was sent. */
  lemma DeliveredIsPrefix(payloads: seq<Payload>, chunks: seq<seq<Byte>>)
    requires Received(chunks) <= Encode(payloads)
    ensures FeedAll(chunks).1 <= payloads
  {
    var received := Received(chunks);
    var more := Encode(payloads)[|received|..];
    assert Encode(payloads) == received + more;
    DeliveredAreTheCompleteFrames(chunks);
    CompleteGrows(received, more);
    CompleteEncode(payloads, []);
    assert Encode(payloads) + [] == Encode(payloads);
    assert payloads + Complete([]) == payloads;
  }

  // ---------------------------------------------------------------------
  // When delivery lags
  // ---------------------------------------------------------------------

  /** The guard, on the bytes and the cuts alone: the last complete frame has a payload
      of one to three bytes, fewer than four bytes have come since its header, and a cut
      between two chunks stands after its header and before its payload's end. */
  predicate CutBehindHeader(chunks: seq<seq<Byte>>) {
    var frames := Complete(Received(chunks));
    && frames != []
    && var k := |frames| - 1;
      var start := |Encode(frames[..k])|;
      && 0 < |frames[k]| < 4
      && |Received(chunks)| < start + 8
      && exists i | 0 <= i < |chunks| :: start + 4 <= |Received(chunks[..i])| < start + 4 + |frames[k]|
  }

  /** A size that is carried over from the loop's first turn on was read there. */
  lemma {:induction false} SizeIsNew(carry: Carry)
    requires Sized(carry) && |carry.buffer| >= 4
    ensures Drain(carry).0.expectedSize != 0 ==> |Drain(carry).0.buffer| < Drain(carry).0.expectedSize
    decreases |carry.buffer|
  {
    var opening := carry.expectedSize == 0;
    var size := if opening then FromBe32(carry.buffer[..4]) else carry.expectedSize;
    var buffer := if opening then carry.buffer[4..] else carry.buffer;
    DrainStep(carry, buffer, size);
    if |buffer| >= size + 4 {
      SizeIsNew(Carry(buffer[size..], 0));
    }
  }

  /** A header that has been read was read at the end of some chunk before its payload
      was there. */
  lemma {:induction false} HeaderCut(chunks: seq<seq<Byte>>) returns (i: nat)
    requires FeedAll(chunks).0.expectedSize != 0
    ensures i <= |chunks|
    ensures var (carry, delivered) := FeedAll(chunks);
            |Encode(delivered)| + 4 <= |Received(chunks[..i])| < |Encode(delivered)| + 4 + carry.expectedSize
    decreases |chunks|
  {
    var (carry, delivered) := FeedAll(chunks);
    ChunksConserve(chunks);
    if |carry.buffer| < carry.expectedSize {
      i := |chunks|;
      assert chunks[..i] == chunks;
    } else {
      var before, chunk := chunks[..|chunks| - 1], chunks[|chunks| - 1];
      var grown := FeedAll(before).0.(buffer := FeedAll(before).0.buffer + chunk);
      if |grown.buffer| >= 4 {
        SizeIsNew(grown);
        assert false;
      }
      assert FeedAll(before).1 + [] == FeedAll(before).1;
      i := HeaderCut(before);
      assert before[..i] == chunks[..i];
    }
  }

  lemma {:induction false} ReceivedGrows(chunks: seq<seq<Byte>>, i: nat)
    requires i <= |chunks|
    ensures Received(chunks[..i]) <= Received(chunks)
    decreases |chunks|
  {
    if i == |chunks| {
      assert chunks[..i] == chunks;
    } else {
      var before := chunks[..|chunks| - 1];
      ReceivedGrows(before, i);
      assert before[..i] == chunks[..i];
    }
  }

  /** With a header read, nothing moves until four bytes are there. */
  lemma {:induction false} StuckUntilFour(chunks: seq<seq<Byte>>, i: nat)
    requires i <= |chunks| && FeedAll(chunks[..i]).0.expectedSize != 0
    requires |Received(chunks)| < |Encode(FeedAll(chunks[..i]).1)| + 8
    ensures FeedAll(chunks).0.expectedSize == FeedAll(chunks[..i]).0.expectedSize
    ensures FeedAll(chunks).1 == FeedAll(chunks[..i]).1
    decreases |chunks|
  {
    if i == |chunks| {
      assert chunks[..i] == chunks;
    } else {
      var before, chunk := chunks[..|chunks| - 1], chunks[|chunks| - 1];
      assert before[..i] == chunks[..i];
      StuckUntilFour(before, i);
      ChunksConserve(before);
      var (carry, delivered) := FeedAll(before);
      assert |Received(chunks)| == |Encode(delivered)| + 4 + |carry.buffer| + |chunk|;
      assert delivered + [] == delivered;
    }
  }

  lemma SplitFrame(stream: seq<Byte>) returns (payload: Payload, rest: seq<Byte>)
    requires Complete(stream) != []
    ensures |rest| < |stream| && stream == Be32(|payload|) + payload + rest
    ensures Complete(stream) == [payload] + Complete(rest)
  {
    var size := FromBe32(stream[..4]);
    payload, rest := stream[4..4 + size], stream[4 + size..];
    UnpackPack(stream[..4]);
    assert stream == stream[..4] + payload + rest;
  }

  /** The complete frames of a stream are its beginning. */
  lemma {:induction false} EncodeComplete(stream: seq<Byte>)
    ensures Encode(Complete(stream)) <= stream
    decreases |stream|
  {
    if Complete(stream) != [] {
      var payload, rest := SplitFrame(stream);
      EncodeComplete(rest);
      assert ([payload] + Complete(rest))[1..] == Complete(rest);
    }
  }

  /** What a stream holds behind all but its last complete frame. */
  lemma LastFrame(stream: seq<Byte>, init: seq<Payload>, last: Payload)
    requires Complete(stream) == init + [last]
    ensures |stream| >= |Encode(init)| + 4 + |last|
    ensures Encode(init) <= stream && stream[|Encode(init)|..][..4] == Be32(|last|)
  {
    EncodeComplete(stream);
    EncodeConcat(init, [last]);
    EncodeOne(last);
    assert stream[|Encode(init)|..][..4] == (Be32(|last|) + last)[..4];
  }

  /** A carry that holds a header and part of its payload has read the header. */
  lemma PartIsRead(carry: Carry, size: nat)
    requires Sized(carry) && (|carry.buffer| < 4 || |carry.buffer| < carry.expectedSize)
    requires 4 <= |Held(carry)| < 4 + size && size < WORD && Held(carry)[..4] == Be32(size)
    ensures carry.expectedSize == size
  {
    assert carry.expectedSize != 0;
    assert Held(carry)[..4] == Be32(carry.expectedSize);
    PackUnpack(size);
    PackUnpack(carry.expectedSize);
  }

  /** A stream cut inside a payload: the frames before it are delivered and its header
      has been read, even when the frame before it was short too. */
  lemma CutState(chunks: seq<seq<Byte>>, init: seq<Payload>, size: nat)
    requires size < WORD && Encode(init) <= Received(chunks)
    requires 4 <= |Received(chunks)| - |Encode(init)| < 4 + size
    requires Received(chunks)[|Encode(init)|..][..4] == Be32(size)
    ensures FeedAll(chunks).1 == init && FeedAll(chunks).0.expectedSize == size
  {
    var (carry, delivered) := FeedAll(chunks);
    var part := Received(chunks)[|Encode(init)|..];
    assert Received(chunks) == Encode(init) + part;
    PackUnpack(size);
    CompleteEncode(init, part);
    assert Complete(part) == [];
    assert init + [] == init;
    DeliveredAreTheCompleteFrames(chunks);
    ChunksConserve(chunks);
    NoneWaits(carry, delivered, init, part);
    assert Held(carry) == part;
    PartIsRead(carry, size);
  }

  lemma WaitingLength(carry: Carry)
    requires Sized(carry)
    ensures |Encode(Waiting(carry))| == if Waiting(carry) == [] then 0 else 4 + carry.expectedSize
  {
    if Waiting(carry) != [] {
      EncodeOne(Waiting(carry)[0]);
    }
  }

  lemma NoneWaits(carry: Carry, delivered: seq<Payload>, init: seq<Payload>, part: seq<Byte>)
    requires Sized(carry) && (|carry.buffer| < 4 || |carry.buffer| < carry.expectedSize)
    requires delivered + Waiting(carry) == init && |part| >= 4
    requires Encode(delivered) + Held(carry) == Encode(init) + part
    ensures delivered == init
  {
    EncodeConcat(delivered, Waiting(carry));
    assert |Held(carry)| == |Encode(Waiting(carry))| + |part|;
    WaitingLength(carry);
    assert Waiting(carry) == [];
    assert delivered + [] == delivered;
  }

  /** Delivery lags behind the complete frames if and only if the chunks were cut behind
      the last frame's header and its short payload has not been followed up. */
  lemma LagIff(chunks: seq<seq<Byte>>)
    ensures FeedAll(chunks).1 != Complete(Received(chunks)) <==> CutBehindHeader(chunks)
  {
    DeliveredAreTheCompleteFrames(chunks);
    if FeedAll(chunks).1 != Complete(Received(chunks)) {
      LagIsCut(chunks);
    }
    if CutBehindHeader(chunks) {
      CutLags(chunks);
    }
  }

  lemma LagIsCut(chunks: seq<seq<Byte>>)
    requires Waiting(FeedAll(chunks).0) != []
    ensures CutBehindHeader(chunks)
  {
    var (carry, delivered) := FeedAll(chunks);
    var frames := Complete(Received(chunks));
    DeliveredAreTheCompleteFrames(chunks);
    ChunksConserve(chunks);
    var k := |frames| - 1;
    assert frames[..k] == delivered && frames[k] == Waiting(carry)[0];
    var i := HeaderCut(chunks);
    assert chunks[..|chunks|] == chunks;
    assert i < |chunks|;
  }

  lemma CutLags(chunks: seq<seq<Byte>>)
    requires CutBehindHeader(chunks)
    ensures FeedAll(chunks).1 != Complete(Received(chunks))
  {
    var frames, received := Complete(Received(chunks)), Received(chunks);
    var k := |frames| - 1;
    var init, start := frames[..k], |Encode(frames[..k])|;
    var i :| 0 <= i < |chunks| && start + 4 <= |Received(chunks[..i])| < start + 4 + |frames[k]|;
    var part := Received(chunks[..i]);
    assert frames == init + [frames[k]];
    LastFrame(received, init, frames[k]);
    ReceivedGrows(chunks, i);
    assert part[start..][..4] == received[start..][..4];
    CutState(chunks[..i], init, |frames[k]|);
    StuckUntilFour(chunks, i);
  }

  lemma FeedOne(before: seq<seq<Byte>>, chunk: seq<Byte>)
    ensures var (carry, delivered) := FeedAll(before);
            FeedAll(before + [chunk]) == (Feed(carry, chunk).0, delivered + Feed(carry, chunk).1)
    ensures Received(before + [chunk]) == Received(before) + chunk
  {
    assert (before + [chunk])[..|before|] == before;
  }

  /** A stream of one payload of one to three bytes that is not delivered when its header
      arrives in a chunk of its own. */
  lemma ShortPayloadWaits(payload: Payload)
    requires 0 < |payload| < 4
    ensures Received([] + [Be32(|payload|)] + [payload]) == Encode([payload])
    ensures FeedAll([] + [Be32(|payload|)] + [payload]).1 == []
  {
    var header := Be32(|payload|);
    FeedOne([], header);
    FeedOne([] + [header], payload);
    FeedHeader(header, |payload|);
    FeedShort(payload);
    EncodeOne(payload);
    assert [] + header == header;
  }

  lemma FeedHeader(header: seq<Byte>, size: nat)
    requires 0 < size < WORD && header == Be32(size)
    ensures Feed(START, header) == (Carry([], size), [])
  {
    PackUnpack(size);
    assert [] + header == header && header[..4] == header && header[4..] == [];
  }

  lemma FeedShort(payload: Payload)
    requires 0 < |payload| < 4
    ensures Feed(Carry([], |payload|), payload).1 == []
  {
    assert [] + payload == payload;
  }

  lemma EncodeOne(payload: Payload)
    ensures Encode([payload]) == Be32(|payload|) + payload
  {
    assert [payload][1..] == [] && Encode([]) == [];
  }

  // ---------------------------------------------------------------------
  // From the client's images to the server's
  // ---------------------------------------------------------------------

  predicate AllPack(images: seq<Image>) {
    forall i | 0 <= i < |images| :: EncodeImage(images[i]).Some?
  }

  function Messages(images: seq<Image>): (messages: seq<Payload>)
    requires AllPack(images)
    ensures |messages| == |images|
    ensures forall i | 0 <= i < |images| :: messages[i] == EncodeImage(images[i]).value
  {
    if images == [] then [] else [EncodeImage(images[0]).value] + Messages(images[1..])
  }

  /** End to end: whatever the chunks, once the bytes of a series of images have arrived
      the server has handled exactly those images, in order, and carries nothing over. */
  lemma ImagesArrive(images: seq<Image>, chunks: seq<seq<Byte>>)
    requires AllPack(images) && Received(chunks) == Encode(Messages(images))
    ensures var (carry, handled) := FeedAll(chunks);
            && carry == START && |handled| == |images|
            && forall i | 0 <= i < |images| :: DecodeImage(handled[i]) == Some(images[i])
  {
    var messages := Messages(images);
    CompleteEncode(messages, []);
    assert Encode(messages) + [] == Encode(messages);
    assert Complete(Received(chunks)) == messages;
    forall i | 0 <= i < |images| ensures |messages[i]| >= 12 && DecodeImage(messages[i]) == Some(images[i]) {
      ImageRoundTrip(images[i]);
    }
    NoShortFrameNoLag(chunks);
    ChunksConserve(chunks);
    NothingHeld(FeedAll(chunks).0, Encode(messages));
  }

  lemma NothingHeld(carry: Carry, written: seq<Byte>)
    requires Sized(carry) && written == written + Held(carry)
    ensures carry == START
  {
    assert |Held(carry)| == 0;
  }
}
