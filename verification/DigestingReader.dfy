/** A reader that checks the digest of what passes through it (image/copy/digesting_reader.go). */
module DigestingReader {
  import opened Common
  import opened Compression

  /** How one call of Read ends. */
  datatype End = More | Eof | Broken

  datatype Chunk = Chunk(data: Bytes, end: End)

  /** All bytes the source yields before it first ends. */
  function Text(chunks: seq<Chunk>): Bytes {
    if chunks == [] then []
    else if chunks[0].end != More then chunks[0].data
    else chunks[0].data + Text(chunks[1..])
  }

  /** How the source first ends; a source with nothing left is at its end. */
  function Ending(chunks: seq<Chunk>): End {
    if chunks == [] then Eof
    else if chunks[0].end != More then chunks[0].end
    else Ending(chunks[1..])
  }

  /** What a reader of the whole stream gets: the bytes of a chunk that fails the check are held back. */
  function Delivered(chunks: seq<Chunk>, good: bool): Bytes {
    if chunks == [] then []
    else if chunks[0].end == More then chunks[0].data + Delivered(chunks[1..], good)
    else if chunks[0].end == Eof && !good then []
    else chunks[0].data
  }

  /** The stream ends properly and has the digest. */
  predicate Verified(c: Codec, expected: string, chunks: seq<Chunk>) {
    Ending(chunks) == Eof && c.matches(expected, Text(chunks))
  }

  lemma {:induction false} GoodIsDelivered(chunks: seq<Chunk>)
    ensures Delivered(chunks, true) == Text(chunks)
  {
    if chunks != [] && chunks[0].end == More {
      GoodIsDelivered(chunks[1..]);
    }
  }

  /** What is left of a source after one more call; at its end, a source stays there. */
  function AfterRead(source: seq<Chunk>): seq<Chunk> {
    if source == [] then [] else if source[0].end == More then source[1..] else [Chunk([], source[0].end)]
  }

  /** Of the stream `all`, the bytes `hashed` were hashed and `data` delivered, and `source` is still to come. */
  ghost predicate Underway(all: seq<Chunk>, good: bool, source: seq<Chunk>, hashed: Bytes, data: Bytes) {
    hashed + Text(source) == Text(all) && Ending(source) == Ending(all) && data + Delivered(source, good) == Delivered(all, good)
  }

  lemma UnderwayNext(all: seq<Chunk>, good: bool, source: seq<Chunk>, hashed: Bytes, data: Bytes)
    requires Underway(all, good, source, hashed, data) && source != [] && source[0].end == More
    ensures Underway(all, good, source[1..], hashed + source[0].data, data + source[0].data)
  {
    Regroup(hashed, source[0].data, Text(source[1..]));
    Regroup(data, source[0].data, Delivered(source[1..], good));
  }

  lemma UnderwayLast(all: seq<Chunk>, good: bool, source: seq<Chunk>, hashed: Bytes, data: Bytes)
    requires Underway(all, good, source, hashed, data) && (source == [] || source[0].end != More)
    ensures var chunk := if source == [] then Chunk([], Eof) else source[0];
      var more := if chunk.end == Eof && !good then [] else chunk.data;
      && hashed + chunk.data == Text(all) && chunk.end == Ending(all) && data + more == Delivered(all, good)
      && Underway(all, good, AfterRead(source), hashed + chunk.data, data + more)
  {
  }

  class DigestingReader {
    const codec: Codec
    const expected: string
    /** The whole stream, and what of it was passed on. */
    ghost const all: seq<Chunk>
    ghost var delivered: Bytes
    /** What the source will answer, call by call. */
    var source: seq<Chunk>
    /** What the hash has been fed. */
    var hashed: Bytes
    var validationFailed: bool
    var validationSucceeded: bool

    ghost predicate Good() {
      codec.matches(expected, Text(all))
    }

    /** The stream as its reader sees it. */
    ghost function Whole(): Bytes {
      Delivered(all, Good())
    }

    ghost predicate IsVerified() {
      Verified(codec, expected, all)
    }

    ghost predicate Valid()
      reads this
    {
      && Underway(all, Good(), source, hashed, delivered)
      && (validationFailed ==> Ending(all) == Eof && !Good()) && (validationSucceeded ==> IsVerified())
    }

    /** The end was reached and the verdict is in. */
    ghost predicate Judged()
      reads this
    {
      && delivered == Whole()
      && (validationSucceeded <==> IsVerified()) && (validationFailed <==> Ending(all) == Eof && !Good())
    }

    constructor (codec: Codec, expected: string, source: seq<Chunk>)
      ensures this.codec == codec && this.expected == expected && all == source
      ensures Valid() && delivered == [] && !validationFailed && !validationSucceeded
    {
      this.codec, this.expected, this.all, this.source := codec, expected, source, source;
      hashed, delivered, validationFailed, validationSucceeded := [], [], false, false;
    }

    method Read() returns (data: Bytes, end: End)
      requires Valid()
      modifies this
      ensures Valid() && delivered == old(delivered) + data
      ensures end == More ==> |source| < |old(source)|
      ensures end != More ==> Judged() && (end == Eof <==> IsVerified())
    {
      var chunk := if source == [] then Chunk([], Eof) else source[0];
      if chunk.end == More {
        UnderwayNext(all, Good(), source, hashed, delivered);
      } else {
        UnderwayLast(all, Good(), source, hashed, delivered);
      }
      source := AfterRead(source);
      if |chunk.data| > 0 {
        hashed := hashed + chunk.data;
      }
      assert hashed == old(hashed) + chunk.data;
      if chunk.end == Eof {
        if !codec.matches(expected, hashed) {
          validationFailed := true;
          return [], Broken;
        }
        validationSucceeded := true;
      }
      data, end := chunk.data, chunk.end;
      delivered := delivered + data;
    }

    /** Reads until the stream ends: however the source cuts it, the whole text is judged, and only at its end. */
    method ReadAll() returns (data: Bytes, ok: bool)
      requires Valid()
      modifies this
      ensures Valid() && Judged()
      ensures old(delivered) + data == Whole() && (ok <==> IsVerified())
      ensures ok ==> Whole() == Text(all)
    {
      data, ok := [], false;
      while true
        invariant Valid() && delivered == old(delivered) + data
        decreases |source|
      {
        var more, end := Read();
        Regroup(old(delivered), data, more);
        data := data + more;
        if end != More {
          ok := end == Eof;
          break;
        }
      }
      GoodIsDelivered(all);
    }

    /** Reads at least `n` bytes, or all there are; fails if the stream breaks before. */
    method ReadAtLeast(n: nat) returns (data: Bytes, ok: bool)
      requires Valid()
      modifies this
      ensures Valid() && delivered == old(delivered) + data
      ensures ok ==> |data| >= n || delivered == Whole()
      ensures !ok ==> !IsVerified()
    {
      data, ok := [], true;
      while |data| < n
        invariant Valid() && delivered == old(delivered) + data && ok
        decreases |source|
      {
        var more, end := Read();
        Regroup(old(delivered), data, more);
        data := data + more;
        if end != More {
          ok := end == Eof || |data| >= n;
          return;
        }
      }
    }
  }
}
