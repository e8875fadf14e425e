/** Length-prefixed messages over a byte stream (plugins/common/uv_msg_framing.c). */
module MessageFraming {
  import opened Common

  const INT_MAX: nat := 0x7fff_ffff

  /** The largest payload whose frame length still fits in an int. */
  const MAX_PAYLOAD: nat := INT_MAX - 4

  predicate Sendable(msg: seq<Byte>) {
    1 <= |msg| <= MAX_PAYLOAD
  }

  /** htonl of a non-negative int. */
  function Header(n: nat): (h: seq<Byte>)
    requires n <= INT_MAX
    ensures |h| == 4
  {
    [n / 0x100_0000, n / 0x1_0000 % 256, n / 0x100 % 256, n % 256]
  }

  /** ntohl of the first four bytes, as a signed int. */
  function PayloadSize(s: seq<Byte>): int
    requires |s| >= 4
  {
    var b3: nat, b2: nat, b1: nat, b0: nat := s[0], s[1], s[2], s[3];
    var u := ((b3 * 256 + b2) * 256 + b1) * 256 + b0;
    if u > INT_MAX then u - 0x1_0000_0000 else u
  }

  function Frame(msg: seq<Byte>): (f: seq<Byte>)
    requires Sendable(msg)
    ensures |f| == |msg| + 4
  {
    Header(|msg|) + msg
  }

  function Frames(msgs: seq<seq<Byte>>): seq<Byte>
    requires forall i :: 0 <= i < |msgs| ==> Sendable(msgs[i])
  {
    if msgs == [] then [] else Frame(msgs[0]) + Frames(msgs[1..])
  }

  predicate Complete(s: seq<Byte>) {
    |s| >= 4 && PayloadSize(s) >= 0 && |s| >= PayloadSize(s) + 4
  }

  datatype Parsed = Parsed(msgs: seq<seq<Byte>>, rest: seq<Byte>)

  /** The messages a stream holds, and the unfinished frame at its end. */
  function Parse(s: seq<Byte>): Parsed
    decreases |s|
  {
    if Complete(s) then
      var n := PayloadSize(s);
      var p := Parse(s[n + 4..]);
      Parsed([s[4..n + 4]] + p.msgs, p.rest)
    else Parsed([], s)
  }

  /** Every length in the stream is one that a sender can write. */
  predicate Sound(s: seq<Byte>)
    decreases |s|
  {
    |s| >= 4 ==>
      1 <= PayloadSize(s) <= MAX_PAYLOAD
      && (|s| >= PayloadSize(s) + 4 ==> Sound(s[PayloadSize(s) + 4..]))
  }

  // ---- laws of the stream ----

  lemma HeaderIsRead(n: nat, s: seq<Byte>)
    requires n <= INT_MAX && |s| >= 4 && s[..4] == Header(n)
    ensures PayloadSize(s) == n
  {
    assert s[0] == s[..4][0] && s[1] == s[..4][1] && s[2] == s[..4][2] && s[3] == s[..4][3];
    assert n / 0x100 == n / 0x1_0000 * 256 + n / 0x100 % 256;
    assert n / 0x1_0000 == n / 0x100_0000 * 256 + n / 0x1_0000 % 256;
  }

  /** A frame is the length of the payload in four bytes, the most significant first, and
      the payload. */
  lemma FrameIs(msg: seq<Byte>)
    requires Sendable(msg)
    ensures var f := Frame(msg);
            ((f[0] as int * 256 + f[1]) * 256 + f[2]) * 256 + f[3] == |msg| && f[4..] == msg
  {
    assert Frame(msg)[..4] == Header(|msg|);
    HeaderIsRead(|msg|, Frame(msg));
  }

  /** The receiver's reading of a stream of frames. */
  lemma {:induction false} ParseFrames(msgs: seq<seq<Byte>>)
    requires forall i :: 0 <= i < |msgs| ==> Sendable(msgs[i])
    ensures Sound(Frames(msgs)) && Parse(Frames(msgs)) == Parsed(msgs, [])
    decreases |msgs|
  {
    if msgs != [] {
      var s, n := Frames(msgs), |msgs[0]|;
      assert s[..4] == Header(n);
      HeaderIsRead(n, s);
      assert s[n + 4..] == Frames(msgs[1..]) && s[4..n + 4] == msgs[0];
      ParseFrames(msgs[1..]);
      assert [msgs[0]] + msgs[1..] == msgs;
    }
  }

  lemma SamePayloadSize(a: seq<Byte>, b: seq<Byte>)
    requires |a| >= 4
    ensures PayloadSize(a + b) == PayloadSize(a)
  {
  }

  lemma {:induction false} SoundPrefix(a: seq<Byte>, b: seq<Byte>)
    requires Sound(a + b)
    ensures Sound(a)
    decreases |a|
  {
    if |a| >= 4 {
      SamePayloadSize(a, b);
      var k := PayloadSize(a) + 4;
      if |a| >= k {
        assert (a + b)[k..] == a[k..] + b;
        SoundPrefix(a[k..], b);
      }
    }
  }

  /** A complete frame at the front of a stream. */
  lemma FrontFrame(s: seq<Byte>, msg: seq<Byte>, tail: seq<Byte>)
    requires Complete(s) && s[4..PayloadSize(s) + 4] == msg && s[PayloadSize(s) + 4..] == tail
    ensures Parse(s).msgs == [msg] + Parse(tail).msgs && Parse(s).rest == Parse(tail).rest
    ensures Sound(s) ==> Sound(tail)
  {
  }

  lemma Reassociate<T>(x: seq<T>, y: seq<T>, z: seq<T>)
    ensures x + (y + z) == x + y + z
  {
  }

  /** Parsing can stop anywhere and go on with the unfinished rest. */
  lemma {:induction false} ParseResumes(a: seq<Byte>, b: seq<Byte>)
    requires Sound(a + b)
    ensures Sound(Parse(a).rest + b)
    ensures Parse(a + b).msgs == Parse(a).msgs + Parse(Parse(a).rest + b).msgs
    ensures Parse(a + b).rest == Parse(Parse(a).rest + b).rest
    decreases |a|
  {
    if Complete(a) {
      SamePayloadSize(a, b);
      var k := PayloadSize(a) + 4;
      var msg, tail := a[4..k], a[k..];
      assert (a + b)[k..] == tail + b && (a + b)[4..k] == msg;
      FrontFrame(a, msg, tail);
      FrontFrame(a + b, msg, tail + b);
      ParseResumes(tail, b);
      Reassociate([msg], Parse(tail).msgs, Parse(Parse(tail).rest + b).msgs);
    } else {
      assert Parse(a) == Parsed([], a);
    }
  }

  predicate Unfinished(s: seq<Byte>) {
    |s| >= 4 ==> 1 <= PayloadSize(s) <= MAX_PAYLOAD && |s| < PayloadSize(s) + 4
  }

  lemma {:induction false} RestIsUnfinished(s: seq<Byte>)
    requires Sound(s)
    ensures Unfinished(Parse(s).rest)
    decreases |s|
  {
    if Complete(s) {
      RestIsUnfinished(s[PayloadSize(s) + 4..]);
    }
  }

  function Concat(chunks: seq<seq<Byte>>): seq<Byte> {
    if chunks == [] then [] else chunks[0] + Concat(chunks[1..])
  }

  /** What is delivered when the stream comes in chunks. */
  function Feed(pending: seq<Byte>, chunks: seq<seq<Byte>>): Parsed
    decreases |chunks|
  {
    if chunks == [] then Parsed([], pending)
    else
      var p := Parse(pending + chunks[0]);
      var q := Feed(p.rest, chunks[1..]);
      Parsed(p.msgs + q.msgs, q.rest)
  }

  lemma {:induction false} FeedIsParse(pending: seq<Byte>, chunks: seq<seq<Byte>>)
    requires Unfinished(pending) && Sound(pending + Concat(chunks))
    ensures Feed(pending, chunks) == Parse(pending + Concat(chunks))
    decreases |chunks|
  {
    if chunks == [] {
      assert pending + Concat(chunks) == pending;
    } else {
      var head, tail := pending + chunks[0], Concat(chunks[1..]);
      assert pending + Concat(chunks) == head + tail;
      SoundPrefix(head, tail);
      ParseResumes(head, tail);
      RestIsUnfinished(head);
      FeedIsParse(Parse(head).rest, chunks[1..]);
    }
  }

  /** Chunk independence: however the bytes of valid frames are cut into reads,
      exactly the payloads are delivered, in order, and nothing is left. */
  lemma ChunkIndependence(msgs: seq<seq<Byte>>, chunks: seq<seq<Byte>>)
    requires forall i :: 0 <= i < |msgs| ==> Sendable(msgs[i])
    requires Concat(chunks) == Frames(msgs)
    ensures Feed([], chunks) == Parsed(msgs, [])
  {
    ParseFrames(msgs);
    assert [] + Concat(chunks) == Frames(msgs);
    FeedIsParse([], chunks);
  }

  /** After any part of the stream: the frames that are complete were delivered, and
      what is kept is exactly the unfinished start of the next one. */
  lemma PartOfStream(done: seq<seq<Byte>>, msg: seq<Byte>, k: nat, chunks: seq<seq<Byte>>)
    requires Sendable(msg) && forall i :: 0 <= i < |done| ==> Sendable(done[i])
    requires k < |Frame(msg)| && Concat(chunks) == Frames(done) + Frame(msg)[..k]
    ensures Feed([], chunks) == Parsed(done, Frame(msg)[..k])
  {
    var part := Frame(msg)[..k];
    assert [] + Concat(chunks) == Frames(done) + part;
    ParseFrames(done);
    PartUnfinished(msg, k);
    SoundConcat(Frames(done), part);
    ParseResumes(Frames(done), part);
    assert [] + part == part;
    FeedIsParse([], chunks);
  }

  lemma SoundWhileUnfinished(s: seq<Byte>)
    requires Unfinished(s)
    ensures Sound(s) && Parse(s) == Parsed([], s)
  {
  }

  lemma PartUnfinished(msg: seq<Byte>, k: nat)
    requires Sendable(msg) && k < |Frame(msg)|
    ensures Sound(Frame(msg)[..k]) && Parse(Frame(msg)[..k]) == Parsed([], Frame(msg)[..k])
  {
    var part := Frame(msg)[..k];
    if k >= 4 {
      assert part[..4] == Header(|msg|);
      HeaderIsRead(|msg|, part);
    }
    SoundWhileUnfinished(part);
  }

  lemma SoundFront(s: seq<Byte>, tail: seq<Byte>)
    requires Complete(s) && 1 <= PayloadSize(s) <= MAX_PAYLOAD && s[PayloadSize(s) + 4..] == tail && Sound(tail)
    ensures Sound(s)
  {
  }

  lemma FrontStays(a: seq<Byte>, b: seq<Byte>)
    requires Complete(a)
    ensures Complete(a + b) && PayloadSize(a + b) == PayloadSize(a)
    ensures (a + b)[PayloadSize(a) + 4..] == a[PayloadSize(a) + 4..] + b
  {
    SamePayloadSize(a, b);
  }

  lemma FrontIsSound(s: seq<Byte>)
    requires Sound(s) && |s| >= 4
    ensures 1 <= PayloadSize(s) <= MAX_PAYLOAD
    ensures |s| >= PayloadSize(s) + 4 ==> Sound(s[PayloadSize(s) + 4..])
  {
  }

  lemma SoundStep(a: seq<Byte>, b: seq<Byte>, tail: seq<Byte>)
    requires Sound(a) && Complete(a) && a[PayloadSize(a) + 4..] == tail && Sound(tail + b)
    ensures Sound(a + b)
  {
    FrontIsSound(a);
    FrontStays(a, b);
    SoundFront(a + b, tail + b);
  }

  lemma {:induction false} SoundConcat(a: seq<Byte>, b: seq<Byte>)
    requires Sound(a) && Parse(a).rest == [] && Sound(b)
    ensures Sound(a + b)
    decreases |a|
  {
    if Complete(a) {
      var k := PayloadSize(a) + 4;
      FrontFrame(a, a[4..k], a[k..]);
      SoundConcat(a[k..], b);
      SoundStep(a, b, a[k..]);
    } else {
      assert a == [] && [] + b == b;
    }
  }

  // ---- the receiver ----

  /** The messages so far, and those of the rest, are those of the whole. */
  predicate Continues(s: seq<Byte>, msgs: seq<seq<Byte>>, rest: seq<Byte>) {
    Sound(rest) && Parse(s) == Parsed(msgs + Parse(rest).msgs, Parse(rest).rest)
  }

  lemma ContinuesAfter(s: seq<Byte>, msgs: seq<seq<Byte>>, rest: seq<Byte>, msg: seq<Byte>, tail: seq<Byte>)
    requires Continues(s, msgs, rest) && Complete(rest)
    requires rest[4..PayloadSize(rest) + 4] == msg && rest[PayloadSize(rest) + 4..] == tail
    ensures Continues(s, msgs + [msg], tail)
  {
    FrontFrame(rest, msg, tail);
    Reassociate(msgs, [msg], Parse(tail).msgs);
  }

  lemma ContinuesToEnd(s: seq<Byte>, msgs: seq<seq<Byte>>, rest: seq<Byte>)
    requires Continues(s, msgs, rest) && !Complete(rest)
    ensures Parse(s) == Parsed(msgs, rest)
  {
    assert msgs + [] == msgs;
  }

  lemma SameSlice(a: array<Byte>, i: nat, j: nat)
    requires i <= j <= a.Length
    ensures a[i..j] == a[..][i..j]
  {
  }

  lemma SliceOfSlice(s: seq<Byte>, at: nat, len: nat, i: nat, j: nat)
    requires at + len <= |s| && i <= j <= len
    ensures s[at..at + len][i..j] == s[at + i..at + j]
  {
    var inner, outer := s[at..at + len][i..j], s[at + i..at + j];
    assert |inner| == |outer| == j - i;
    forall k | 0 <= k < j - i ensures inner[k] == outer[k] {
      assert inner[k] == s[at..at + len][i + k];
    }
    assert inner == outer;
  }

  lemma HeaderOfSlice(s: seq<Byte>, at: nat, len: nat)
    requires at + len <= |s| && len >= 4
    ensures PayloadSize(s[at..at + len]) == PayloadSize(s[at..at + 4])
  {
    assert s[at..at + len] == s[at..at + 4] + s[at + 4..at + len];
    SamePayloadSize(s[at..at + 4], s[at + 4..at + len]);
  }

  /** The part of the buffer offered for the next read. */
  datatype Region = Region(start: nat, len: nat)

  /** uv_msg_t. `delivered` records the calls of msg_read_cb; `alloc_size` is the
      length of `buf`. */
  class Receiver {
    var buf: array?<Byte>
    var filled: nat
    var delivered: seq<seq<Byte>>

    predicate Valid()
      reads this, buf
    {
      (if buf == null then filled == 0 else filled <= buf.Length <= INT_MAX) && Unfinished(Pending())
    }

    function Pending(): seq<Byte>
      reads this, buf
    {
      if buf != null && filled <= buf.Length then buf[..filled] else []
    }

    constructor ()
      ensures Valid() && buf == null && Pending() == [] && delivered == []
    {
      buf, filled, delivered := null, 0, [];
    }

    /** uv_stream_msg_realloc; `len` is the length the allocator returns, if any. */
    method Realloc(size: nat, len: Option<nat>) returns (ok: bool)
      requires Valid() && buf != null && size >= filled
      requires len.Some? ==> len.value <= INT_MAX
      modifies this`buf
      ensures Valid() && Pending() == old(Pending()) && buf != null
      ensures ok <==> len.Some? && len.value >= size
      ensures if ok then buf.Length == len.value && fresh(buf) else buf == old(buf)
    {
      if len.None? || len.value < size {
        return false;
      }
      var bigger := new Byte[len.value];
      forall k | 0 <= k < filled {
        bigger[k] := buf[k];
      }
      assert bigger[..filled] == buf[..filled];
      buf := bigger;
      ok := true;
    }

    /** The bytes the buffer must have room for before the next read. */
    function Needed(): (n: nat)
      requires Valid()
      reads this, buf
      ensures n > filled
    {
      if filled >= 4 then PayloadSize(Pending()) + 4 else 4
    }

    /** uv_stream_msg_alloc; `first` and `again` are the lengths the allocator returns
        when it is asked for a first and for a larger buffer. */
    method Alloc(first: Option<nat>, again: Option<nat>) returns (region: Option<Region>)
      requires Valid()
      requires (first.Some? ==> first.value <= INT_MAX) && (again.Some? ==> again.value <= INT_MAX)
      modifies this`buf
      ensures Valid() && Pending() == old(Pending()) && (buf == old(buf) || fresh(buf))
      ensures region.Some? ==>
                buf != null && region.value.start == filled && region.value.len > 0
                && Needed() <= buf.Length
                && region.value.start + region.value.len == (if filled >= 4 then Needed() else buf.Length)
      ensures old(buf) == null && first.Some? && first.value >= 4 ==> buf != null && buf.Length == first.value
      ensures var size := if old(buf) != null then Some(old(buf).Length) else first;
              var more := if filled >= 4 then Needed() else 64 * 1024;
              region.None? <==> size.None? || (size.value < Needed() && (again.None? || again.value < more))
    {
      if buf == null {
        if first.None? {
          return None;
        }
        buf := new Byte[first.value];
        assert buf[..0] == [];
      }
      if filled >= 4 {
        var entire := PayloadSize(buf[..filled]) + 4;
        if buf.Length < entire {
          var ok := Realloc(entire, again);
          if !ok {
            return None;
          }
        }
        return Some(Region(filled, entire - filled));
      }
      if buf.Length < 4 {
        var ok := Realloc(64 * 1024, again);
        if !ok {
          return None;
        }
      }
      return Some(Region(filled, buf.Length - filled));
    }

    /** uv_stream_msg_read once `chunk` has been read into the offered region. */
    method Read(chunk: seq<Byte>)
      requires Valid() && buf != null && filled + |chunk| <= buf.Length
      requires Sound(Pending() + chunk)
      modifies this, buf
      ensures Valid()
      ensures delivered == old(delivered) + Parse(old(Pending()) + chunk).msgs
      ensures Pending() == Parse(old(Pending()) + chunk).rest
      ensures buf == old(buf) || buf == null
    {
      ghost var s := Pending() + chunk;
      RestIsUnfinished(s);
      if |chunk| == 0 {
        assert s == Pending() && !Complete(s);
        return;
      }
      Receive(chunk);
      var ptr := Consume(s);
      Compact(ptr, Parse(s).rest);
    }

    /** What the stream does before the callback: the bytes follow the pending ones. */
    method Receive(chunk: seq<Byte>)
      requires buf != null && filled + |chunk| <= buf.Length
      modifies this`filled, buf
      ensures filled == old(filled) + |chunk| && buf[..filled] == old(buf[..filled]) + chunk
    {
      forall k | 0 <= k < |chunk| {
        buf[filled + k] := chunk[k];
      }
      filled := filled + |chunk|;
    }

    /** The unfinished frame moves to the front; an empty buffer is released. */
    method Compact(ptr: nat, ghost rest: seq<Byte>)
      requires buf != null && ptr + filled <= buf.Length && buf[ptr..ptr + filled] == rest
      modifies this`buf, buf
      ensures if rest == [] then buf == null else buf == old(buf) && filled <= buf.Length && buf[..filled] == rest
    {
      if ptr > 0 && filled > 0 {
        forall k | 0 <= k < filled {
          buf[k] := buf[ptr + k];
        }
      } else if filled == 0 {
        buf := null;
      }
    }

    /** The consuming loop; the last frame of an exactly filled buffer leaves `ptr`
        where it is. */
    method Consume(ghost s: seq<Byte>) returns (ptr: nat)
      requires buf != null && filled <= buf.Length && buf[..filled] == s && Sound(s)
      modifies this`filled, this`delivered
      ensures ptr + filled <= buf.Length
      ensures delivered == old(delivered) + Parse(s).msgs
      ensures buf[ptr..ptr + filled] == Parse(s).rest
    {
      ptr := 0;
      ghost var rest, msgs: seq<seq<Byte>> := s, [];
      var more := filled >= 4;
      if !more {
        ContinuesToEnd(s, msgs, rest);
      }
      while more
        invariant ptr + filled <= buf.Length && buf[ptr..ptr + filled] == rest
        invariant delivered == old(delivered) + msgs
        invariant if more then filled >= 4 && Continues(s, msgs, rest) else Parse(s) == Parsed(msgs, rest)
        decreases more, filled
      {
        more, ptr, msgs, rest := ConsumeFrame(ptr, s, old(delivered), msgs, rest);
      }
    }

    /** One round of it, and whether there is another. */
    method ConsumeFrame(ptr: nat, ghost s: seq<Byte>, ghost sent: seq<seq<Byte>>, ghost msgs: seq<seq<Byte>>,
                        ghost rest: seq<Byte>)
      returns (more: bool, next: nat, ghost now: seq<seq<Byte>>, ghost tail: seq<Byte>)
      requires buf != null && ptr + filled <= buf.Length && filled >= 4 && buf[ptr..ptr + filled] == rest
      requires delivered == sent + msgs && Continues(s, msgs, rest)
      modifies this`filled, this`delivered
      ensures next + filled <= buf.Length && buf[next..next + filled] == tail && delivered == sent + now
      ensures more ==> filled < old(filled)
      ensures if more then filled >= 4 && Continues(s, now, tail) else Parse(s) == Parsed(now, tail)
    {
      FrontIsSound(rest);
      var taken;
      taken, next, tail := TakeFrame(ptr, rest);
      now := msgs;
      if taken {
        ghost var msg := rest[4..PayloadSize(rest) + 4];
        ContinuesAfter(s, msgs, rest, msg, tail);
        Reassociate(sent, msgs, [msg]);
        now := msgs + [msg];
      }
      more := taken && filled >= 4;
      if !more {
        ContinuesToEnd(s, now, tail);
      }
    }

    /** One round of the consuming loop: deliver the frame at `ptr` if it is complete. */
    method TakeFrame(ptr: nat, ghost rest: seq<Byte>) returns (taken: bool, next: nat, ghost tail: seq<Byte>)
      requires buf != null && ptr + filled <= buf.Length && filled >= 4 && rest == buf[ptr..ptr + filled]
      requires PayloadSize(rest) >= 0
      modifies this`filled, this`delivered
      ensures taken <==> Complete(rest)
      ensures next + filled <= buf.Length && tail == buf[next..next + filled]
      ensures if taken then
                delivered == old(delivered) + [rest[4..PayloadSize(rest) + 4]] && tail == rest[PayloadSize(rest) + 4..]
              else
                delivered == old(delivered) && next == ptr && tail == rest
    {
      ghost var all := buf[..];
      SameSlice(buf, ptr, ptr + filled);
      SameSlice(buf, ptr, ptr + 4);
      HeaderOfSlice(all, ptr, filled);
      var size := PayloadSize(buf[ptr..ptr + 4]);
      var entire := size + 4;
      if filled < entire {
        return false, ptr, rest;
      }
      tail := rest[entire..];
      SameSlice(buf, ptr + 4, ptr + entire);
      SameSlice(buf, ptr + entire, ptr + filled);
      SliceOfSlice(all, ptr, filled, 4, entire);
      SliceOfSlice(all, ptr, filled, entire, filled);
      var msg := buf[ptr + 4..ptr + entire];
      delivered := delivered + [msg];
      next := if filled > entire then ptr + entire else ptr;
      filled := filled - entire;
      taken := true;
    }

    /** uv_stream_msg_read after a read error: the buffer is released, but `filled`
        keeps its value, so the receiver is usable again exactly if no frame was
        unfinished. */
    method ReadError()
      requires Valid()
      modifies this`buf
      ensures buf == null && (Valid() <==> old(Pending()) == [])
    {
      buf := null;
    }
  }

  /** Parsing goes on after what has been parsed, as far as the stream has come. */
  lemma GoesOn(read: seq<Byte>, chunk: seq<Byte>, left: seq<Byte>, sent: seq<seq<Byte>>, kept: seq<Byte>)
    requires Sound(read + chunk + left) && Parse(read) == Parsed(sent, kept)
    ensures var now := Parse(kept + chunk); Parse(read + chunk) == Parsed(sent + now.msgs, now.rest)
  {
    SoundPrefix(read + chunk, left);
    ParseResumes(read, chunk);
  }

  lemma StillSound(read: seq<Byte>, there: seq<Byte>)
    requires Sound(read + there)
    ensures Sound(Parse(read).rest + there)
  {
    ParseResumes(read, there);
  }

  lemma SoundChunk(kept: seq<Byte>, chunk: seq<Byte>, left: seq<Byte>)
    requires Sound(kept + (chunk + left))
    ensures Sound(kept + chunk)
  {
    Reassociate(kept, chunk, left);
    SoundPrefix(kept + chunk, left);
  }

  /** The stack asks for a region and hands over what it could read into it, of the
      bytes that are `there`. The allocator gives what it is asked for. */
  method ReadOnce(r: Receiver, there: seq<Byte>, size: nat) returns (chunk: seq<Byte>, left: seq<Byte>)
    requires r.Valid() && there != [] && Sound(r.Pending() + there)
    modifies r, r.buf
    ensures chunk != [] && chunk + left == there
    ensures r.Valid() && (r.buf == old(r.buf) || r.buf == null || fresh(r.buf))
    ensures r.delivered == old(r.delivered) + Parse(old(r.Pending()) + chunk).msgs
    ensures r.Pending() == Parse(old(r.Pending()) + chunk).rest
  {
    var room := if r.Needed() > 0x1_0000 then r.Needed() else 0x1_0000;
    var region := r.Alloc(Some(0x1_0000), Some(room));
    var n := if size < 1 then 1 else size;
    n := if n > region.value.len then region.value.len else n;
    n := if n > |there| then |there| else n;
    chunk, left := there[..n], there[n..];
    assert chunk + left == there;
    SoundChunk(r.Pending(), chunk, left);
    r.Read(chunk);
  }

  /** The next read of a connection. */
  method Advance(r: Receiver, ghost read: seq<Byte>, there: seq<Byte>, size: nat, ghost sent: seq<seq<Byte>>)
    returns (chunk: seq<Byte>, left: seq<Byte>, ghost more: seq<seq<Byte>>)
    requires r.Valid() && there != [] && Sound(read + there) && Parse(read) == Parsed(sent, r.Pending())
    modifies r, r.buf
    ensures chunk != [] && chunk + left == there
    ensures r.Valid() && (r.buf == old(r.buf) || r.buf == null || fresh(r.buf))
    ensures Parse(read + chunk) == Parsed(sent + more, r.Pending()) && r.delivered == old(r.delivered) + more
  {
    StillSound(read, there);
    chunk, left := ReadOnce(r, there, size);
    Reassociate(read, chunk, left);
    GoesOn(read, chunk, left, sent, old(r.Pending()));
    more := Parse(old(r.Pending()) + chunk).msgs;
  }

  /** What a connection delivers while the bytes of `stream` come; `sizes` says how many of
      them happen to be there at each read. */
  method Receive(r: Receiver, stream: seq<Byte>, sizes: nat -> nat)
    requires r.Valid() && r.Pending() == [] && Sound(stream)
    modifies r, r.buf
    ensures r.Valid() && (r.buf == old(r.buf) || r.buf == null || fresh(r.buf))
    ensures r.Pending() == Parse(stream).rest && r.delivered == old(r.delivered) + Parse(stream).msgs
  {
    ghost var sent: seq<seq<Byte>>, read: seq<Byte> := [], [];
    var there := stream;
    assert read + there == stream;
    while there != []
      invariant read + there == stream && Sound(stream)
      invariant r.Valid() && (r.buf == old(r.buf) || r.buf == null || fresh(r.buf))
      invariant Parse(read) == Parsed(sent, r.Pending()) && r.delivered == old(r.delivered) + sent
      decreases |there|
    {
      var chunk, left;
      ghost var more;
      chunk, left, more := Advance(r, read, there, sizes(|there|), sent);
      Reassociate(old(r.delivered), sent, more);
      Reassociate(read, chunk, left);
      sent, read, there := sent + more, read + chunk, left;
    }
    assert read + [] == read;
  }

  /** One connection, until all frames have come. Exactly the payloads are delivered, in
      order, whatever the sizes are. */
  method Session(r: Receiver, stream: seq<Byte>, sizes: nat -> nat, ghost msgs: seq<seq<Byte>>)
    requires r.Valid() && r.Pending() == []
    requires forall i :: 0 <= i < |msgs| ==> Sendable(msgs[i])
    requires stream == Frames(msgs)
    modifies r, r.buf
    ensures r.Valid() && r.Pending() == [] && r.delivered == old(r.delivered) + msgs
  {
    ParseFrames(msgs);
    Receive(r, stream, sizes);
  }

  /** A connection that ends with an error after some part of a stream has come can be used
      again if and only if no frame was unfinished, however the part was cut. */
  method ErrorAfter(s: seq<Byte>, sizes: nat -> nat) returns (usable: bool)
    requires Sound(s)
    ensures usable <==> Parse(s).rest == []
  {
    var r := new Receiver();
    Receive(r, s, sizes);
    r.ReadError();
    usable := r.filled == 0;
  }

  /** After a part of one frame, of any length, it can be used again only if nothing had come. */
  method ErrorInFrame(msg: seq<Byte>, k: nat, sizes: nat -> nat) returns (usable: bool)
    requires Sendable(msg) && k < |Frame(msg)|
    ensures usable <==> k == 0
  {
    PartUnfinished(msg, k);
    usable := ErrorAfter(Frame(msg)[..k], sizes);
  }
}
