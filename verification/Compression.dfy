/** Compression formats of blobs and what is assumed of the compressors and of digests (image/pkg/compression). */
module Compression {
  import opened Common

  type Bytes = seq<bv8>

  datatype Algorithm = Gzip | Bzip2 | Xz | Zstd | ZstdChunked

  function Name(a: Algorithm): string {
    match a
    case Gzip => "gzip"
    case Bzip2 => "bzip2"
    case Xz => "Xz"
    case Zstd => "zstd"
    case ZstdChunked => "zstd:chunked"
  }

  lemma NamesDiffer(a: Algorithm, b: Algorithm)
    ensures Name(a) == Name(b) ==> a == b
  {
    assert |Name(Gzip)| == 4 && |Name(Bzip2)| == 5 && |Name(Xz)| == 2 && |Name(Zstd)| == 4 && |Name(ZstdChunked)| == 12;
    assert Name(Gzip)[0] != Name(Zstd)[0];
  }

  /** The format every stream of `a` also has. */
  function Base(a: Algorithm): Algorithm {
    if a == ZstdChunked then Zstd else a
  }

  /** The first bytes of a stream; nothing for a format that is not detected. */
  function Prefix(a: Algorithm): Bytes {
    match a
    case Gzip => [0x1F, 0x8B, 0x08]
    case Bzip2 => [0x42, 0x5A, 0x68]
    case Xz => [0xFD, 0x37, 0x7A, 0x58, 0x5A, 0x00]
    case Zstd => [0x28, 0xB5, 0x2F, 0xFD]
    case ZstdChunked => []
  }

  predicate Marked(x: Bytes, a: Algorithm) {
    |Prefix(a)| > 0 && Prefix(a) <= x
  }

  lemma OnlyOneMark(x: Bytes, a: Algorithm, b: Algorithm)
    requires Marked(x, a) && Marked(x, b)
    ensures a == b
  {
    assert Prefix(a)[0] == x[0] == Prefix(b)[0];
  }

  /** The format `x` looks like, if any. */
  function Detect(x: Bytes): (r: Option<Algorithm>)
    ensures r.Some? ==> Marked(x, r.value)
    ensures forall a :: Marked(x, a) ==> r == Some(a)
  {
    if exists a :: Marked(x, a) then
      var a :| Marked(x, a);
      assert forall b :: Marked(x, b) ==> a == b by {
        forall b | Marked(x, b)
          ensures a == b
        {
          OnlyOneMark(x, a, b);
        }
      }
      Some(a)
    else
      None
  }

  const PEEK := 8

  /** Looks at the first bytes; the formats are tried in whatever order the map yields them. */
  method DetectCompressionFormat(x: Bytes) returns (format: Option<Algorithm>)
    ensures format == Detect(x)
  {
    var buffer := if |x| < PEEK then x else x[..PEEK];
    var todo := {Gzip, Bzip2, Xz, Zstd, ZstdChunked};
    format := None;
    while todo != {}
      invariant forall a :: a !in todo ==> !Marked(x, a)
    {
      var a :| a in todo;
      assert Marked(buffer, a) <==> Marked(x, a);
      if |Prefix(a)| > 0 && Prefix(a) <= buffer {
        return Some(a);
      }
      todo := todo - {a};
    }
  }

  datatype Toc = NoToc | Toc(digest: string) | BadToc

  /** The foreign functions: compressors, decompressors, the annotations a compressor leaves, and digests. */
  datatype Codec = Codec(
    compress: (Algorithm, Bytes) -> Option<Bytes>,
    metadata: (Algorithm, Bytes) -> map<string, string>,
    decompress: (Algorithm, Bytes) -> Option<Bytes>,
    matches: (string, Bytes) -> bool,
    wellFormed: string -> bool,
    toc: map<string, string> -> Toc)

  /** Compressing is undone by decompressing, its output can be told by its first bytes, and digests do not collide. */
  ghost predicate Lawful(c: Codec) {
    && (forall a, x :: c.compress(a, x).Some? ==>
          Marked(c.compress(a, x).value, Base(a)) && c.decompress(Base(a), c.compress(a, x).value) == Some(x))
    && (forall d, x, y :: c.matches(d, x) && c.matches(d, y) ==> x == y)
    && !c.wellFormed("")
  }

  /** What `x` holds once the compression it shows is taken off. */
  function Content(c: Codec, x: Bytes): Option<Bytes> {
    match Detect(x)
    case Some(a) => c.decompress(a, x)
    case None => Some(x)
  }

  /** Below its compression `x` is compressed again. */
  predicate DoublyCompressed(c: Codec, x: Bytes) {
    Detect(x).Some? && Content(c, x).Some? && Detect(Content(c, x).value).Some?
  }
}
