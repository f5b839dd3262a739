/**
 * How the compression of a blob is detected and changed on its way, what is then reported about it, and what is
 * recorded in the blob info cache (image/copy/compression.go). Nothing is encrypted or decrypted.
 */
module CompressionSteps {
  import opened Common
  import opened Compression
  import opened DigestingReader

  datatype LayerCompression = PreserveOriginal | Decompress | Compress

  datatype BlobInfo = BlobInfo(
    digest: string, mediaType: string, annotations: map<string, string>,
    operation: LayerCompression, algorithm: Option<Algorithm>)

  /** What the caller and the destination ask for. */
  datatype Settings = Settings(
    isConfig: bool, cannotModify: bool, changeable: string -> bool, desired: LayerCompression, format: Option<Algorithm>,
    copiesOriginal: bool)

  datatype Operation =
    | PreserveOpaque | PreserveCompressed | PreserveUncompressed | CompressUncompressed | RecompressCompressed | DecompressCompressed

  const UNCOMPRESSED := "uncompressed"
  const UNKNOWN := "unknown"

  datatype StepData = StepData(
    operation: Operation, uploadedOperation: LayerCompression, uploadedAlgorithm: Option<Algorithm>,
    uploadedAnnotations: map<string, string>, srcName: string, uploadedName: string, uploadedSpecificName: string)

  datatype Failure = InvalidDigest | ReadingFailed | BadAnnotations | WritingFailed | DigestChanged

  datatype Result<+T> = Ok(value: T) | Err(error: Failure)

  const ENCRYPTED := "+encrypted"

  predicate IsEncrypted(mediaType: string) {
    |ENCRYPTED| <= |mediaType| && mediaType[|mediaType| - |ENCRYPTED|..] == ENCRYPTED
  }

  const CHUNKED_ANNOTATIONS := {
    "io.github.containers.zstd-chunked.manifest-checksum", "io.github.containers.zstd-chunked.manifest-position",
    "io.github.containers.zstd-chunked.tarsplit-position", "io.github.containers.zstd-chunked.tarsplit-checksum",
    "containerd.io/snapshot/stargz/toc.digest"}

  /** Annotations about the compressed bytes go when these change; the others stay. */
  function AnnotationsAfterChange(original: map<string, string>): (kept: map<string, string>)
    ensures forall k :: k in kept <==> k in original && k !in CHUNKED_ANNOTATIONS
    ensures forall k :: k in kept ==> kept[k] == original[k]
  {
    original - CHUNKED_ANNOTATIONS
  }

  // ---- What is true of blobs

  /** The name the cache uses for the format of `x`. */
  function FormatName(x: Bytes): string {
    match Detect(x)
    case Some(a) => Name(a)
    case None => UNCOMPRESSED
  }

  lemma FormatsAreKnown(x: Bytes)
    ensures FormatName(x) != UNKNOWN
  {
    assert |UNKNOWN| == 7 && |Name(Gzip)| == 4 && |Name(Bzip2)| == 5 && |Name(Xz)| == 2 && |Name(Zstd)| == 4 && |Name(ZstdChunked)| == 12;
    assert |UNCOMPRESSED| == 12;
  }

  /** Some blob with digest `any` holds, uncompressed, a blob with digest `plain`. */
  ghost predicate TruePair(c: Codec, any: string, plain: string) {
    exists x, y :: c.matches(any, x) && c.matches(plain, y) && Content(c, x) == Some(y)
  }

  /** Some blob with digest `d` has the recorded format. */
  ghost predicate TrueName(c: Codec, d: string, base: string, specific: string) {
    exists x :: c.matches(d, x) && FormatName(x) == base && TrueVariant(c, x, specific)
  }

  ghost predicate TrueVariant(c: Codec, x: Bytes, specific: string) {
    specific == UNKNOWN || exists a :: Name(a) == specific && MadeBy(c, x, a)
  }

  /** `x` is what compressing something with `a` gives. */
  ghost predicate MadeBy(c: Codec, x: Bytes, a: Algorithm) {
    exists y :: c.compress(a, y) == Some(x)
  }

  /** Compressing some blob with digest `plain` gives a table of contents with digest `toc`. */
  ghost predicate TrueToc(c: Codec, toc: string, plain: string) {
    exists a, y :: c.matches(plain, y) && c.toc(c.metadata(a, y)) == Toc(toc)
  }

  /** What the cache knows: digests of blobs and of what they hold, tables of contents, and formats. */
  datatype Facts = Facts(pairs: set<(string, string)>, tocs: set<(string, string)>, names: set<(string, string, string)>) {
    function Plus(more: Facts): Facts {
      Facts(pairs + more.pairs, tocs + more.tocs, names + more.names)
    }
  }

  class BlobInfoCache {
    const codec: Codec
    var pairs: set<(string, string)>
    var tocs: set<(string, string)>
    var names: set<(string, string, string)>

    ghost function View(): Facts
      reads this
    {
      Facts(pairs, tocs, names)
    }

    ghost predicate True()
      reads this
    {
      AllTrue(codec, View())
    }
  }

  ghost predicate AllTrue(c: Codec, f: Facts) {
    && (forall any, plain :: (any, plain) in f.pairs ==> TruePair(c, any, plain))
    && (forall toc, plain :: (toc, plain) in f.tocs ==> TrueToc(c, toc, plain))
    && (forall d, base, specific :: (d, base, specific) in f.names ==> TrueName(c, d, base, specific))
  }

  lemma TrueTogether(c: Codec, f: Facts, g: Facts)
    ensures AllTrue(c, f.Plus(g)) <==> AllTrue(c, f) && AllTrue(c, g)
  {
    if AllTrue(c, f.Plus(g)) {
      forall p | p in f.pairs || p in g.pairs
        ensures TruePair(c, p.0, p.1)
      {
        assert p in f.Plus(g).pairs;
      }
      forall p | p in f.tocs || p in g.tocs
        ensures TrueToc(c, p.0, p.1)
      {
        assert p in f.Plus(g).tocs;
      }
      forall p | p in f.names || p in g.names
        ensures TrueName(c, p.0, p.1, p.2)
      {
        assert p in f.Plus(g).names;
      }
    }
  }

  // ---- The stream on its way

  /** A decompressor or a compressor that the stream goes through. */
  datatype Stage = Unpack(a: Algorithm) | Pack(a: Algorithm)

  /** What comes out at the end, and what the compressor noted about it. */
  datatype Output = Output(bytes: Bytes, annotations: map<string, string>)

  function Run(c: Codec, stages: seq<Stage>, x: Bytes): Option<Output> {
    if stages == [] then Some(Output(x, map[]))
    else
      match stages[0]
      case Unpack(a) =>
        var plain := c.decompress(a, x);
        if plain.Some? then Run(c, stages[1..], plain.value) else None
      case Pack(a) =>
        var packed := c.compress(a, x);
        if packed.None? then None
        else
          var rest := Run(c, stages[1..], packed.value);
          if rest.Some? then Some(rest.value.(annotations := c.metadata(a, x) + rest.value.annotations)) else None
  }

  /** What is still unread at the source, what was looked at already, and what all of it goes through. */
  class SourceStream {
    const reader: DigestingReader
    var peeked: Bytes
    var stages: seq<Stage>
    var info: BlobInfo

    /** What was looked at is all that was read. */
    ghost predicate Valid()
      reads this, reader
    {
      reader.Valid() && peeked == reader.delivered
    }

    constructor (reader: DigestingReader, info: BlobInfo)
      requires reader.Valid() && reader.delivered == []
      ensures this.reader == reader && this.info == info && stages == [] && peeked == [] && Valid()
    {
      this.reader, this.info, stages, peeked := reader, info, [], [];
    }

    /** Looks at the beginning without taking it away. */
    method Peek() returns (ok: bool)
      requires Valid() && peeked == []
      modifies this`peeked, reader
      ensures Valid() && (ok ==> |peeked| >= PEEK || peeked == reader.Whole()) && (!ok ==> !reader.IsVerified())
    {
      peeked, ok := reader.ReadAtLeast(PEEK);
      assert reader.delivered == [] + peeked;
    }

    /** Reads the stream to its end, which reads the source to its end. */
    method ReadAll() returns (r: Option<Output>)
      requires Valid()
      modifies reader
      ensures reader.Valid() && reader.Judged()
      ensures r == if reader.IsVerified() then Run(reader.codec, stages, Text(reader.all)) else None
    {
      var data, ok := reader.ReadAll();
      if !ok {
        return None;
      }
      r := Run(reader.codec, stages, peeked + data);
    }
  }

  // ---- Detecting

  /** The detected format, and the name of it to record. */
  datatype Detected = Detected(format: Option<Algorithm>, srcName: string)

  /** The format of `x`; a zstd blob with the annotations of a chunked one counts as chunked. */
  function FormatOf(c: Codec, annotations: map<string, string>, x: Bytes): Option<Algorithm> {
    if Detect(x) == Some(Zstd) && c.toc(annotations).Toc? then Some(ZstdChunked) else Detect(x)
  }

  lemma BeginningTells(beginning: Bytes, x: Bytes)
    requires beginning <= x && (|beginning| >= PEEK || beginning == x)
    ensures Detect(beginning) == Detect(x)
  {
    forall a
      ensures Marked(beginning, a) <==> Marked(x, a)
    {
      assert |Prefix(a)| <= PEEK;
    }
  }

  method DetectCompressionStep(stream: SourceStream) returns (r: Result<Detected>)
    requires stream.Valid() && stream.peeked == []
    modifies stream`peeked, stream.reader
    ensures stream.Valid()
    ensures r.Ok? ==>
      r.value == Detected(FormatOf(stream.reader.codec, stream.info.annotations, stream.reader.Whole()), FormatName(stream.reader.Whole()))
    ensures stream.reader.IsVerified() ==>
      (r.Err? <==> Detect(stream.reader.Whole()) == Some(Zstd) && stream.reader.codec.toc(stream.info.annotations).BadToc?)
  {
    var ok := stream.Peek();
    if !ok {
      return Err(ReadingFailed);
    }
    assert stream.peeked <= stream.reader.Whole();
    BeginningTells(stream.peeked, stream.reader.Whole());
    var format := DetectCompressionFormat(stream.peeked);
    if format == Some(Zstd) {
      match stream.reader.codec.toc(stream.info.annotations)
      case BadToc => return Err(BadAnnotations);
      case Toc(_) => format := Some(ZstdChunked);
      case NoToc =>
    }
    r := Ok(Detected(format, if format.Some? then Name(Base(format.value)) else UNCOMPRESSED));
  }

  // ---- Changing

  /** What is known of a stream once its compression was changed. */
  function Changed(info: BlobInfo): BlobInfo {
    BlobInfo("", "", AnnotationsAfterChange(info.annotations), PreserveOriginal, None)
  }

  predicate Modifiable(s: Settings, mediaType: string) {
    !s.isConfig && !s.cannotModify && s.changeable(mediaType) && !IsEncrypted(mediaType)
  }

  /** A blob that could be changed but for its encryption; nothing is said about its format. */
  predicate Opaque(s: Settings, mediaType: string) {
    !s.isConfig && !s.cannotModify && s.changeable(mediaType) && IsEncrypted(mediaType)
  }

  /** A blob of this media type that stays as it is gets its format reported. */
  predicate Labelled(s: Settings, mediaType: string) {
    s.changeable(mediaType) && (s.isConfig || s.cannotModify || !IsEncrypted(mediaType))
  }

  /** The blob is compressed, but not as requested. */
  predicate OtherFormat(s: Settings, format: Option<Algorithm>) {
    && s.desired == Compress && format.Some? && s.format.Some?
    && Name(s.format.value) != Name(format.value) && Name(s.format.value) != Name(Base(format.value))
  }

  /** A blob of this format would be changed. */
  predicate Changes(s: Settings, mediaType: string, format: Option<Algorithm>) {
    && Modifiable(s, mediaType)
    && ((s.desired == Compress && format == None) || OtherFormat(s, format) || (s.desired == Decompress && format.Some?))
  }

  /** The blob has the format that was asked for, or a variant of it. */
  predicate HasFormat(format: Option<Algorithm>, wanted: Option<Algorithm>) {
    format.Some? && (wanted.None? || wanted == format || wanted == Some(Base(format.value)))
  }

  /** Exactly when a blob is changed: it may be, and it is not what was asked for. */
  lemma ChangesWhenNeeded(s: Settings, mediaType: string, format: Option<Algorithm>)
    ensures Changes(s, mediaType, format) <==>
      && !s.isConfig && !s.cannotModify && s.changeable(mediaType) && !IsEncrypted(mediaType)
      && ((s.desired == Compress && !HasFormat(format, s.format)) || (s.desired == Decompress && format.Some?))
  {
    if format.Some? && s.format.Some? {
      NamesDiffer(s.format.value, format.value);
      NamesDiffer(s.format.value, Base(format.value));
    }
  }

  /** The format to compress with: the one asked for, or gzip. */
  function RequestedFormat(s: Settings): (a: Algorithm)
    ensures s.format.Some? ==> a == s.format.value
    ensures s.format.None? ==> a == Gzip
  {
    if s.format.Some? then s.format.value else Gzip
  }

  /** The blob becomes what the destination asked for. */
  predicate Wanted(s: Settings, operation: LayerCompression, algorithm: Option<Algorithm>) {
    match s.desired
    case Compress => algorithm.Some? && (s.format.Some? ==> algorithm == s.format || Base(algorithm.value) == s.format.value)
    case Decompress => operation == Decompress && algorithm == None
    case PreserveOriginal => true
  }

  predicate Preserves(o: Operation) {
    o.PreserveOpaque? || o.PreserveCompressed? || o.PreserveUncompressed?
  }

  function SpecificName(a: Algorithm): string {
    if Name(a) == Name(Base(a)) then UNKNOWN else Name(a)
  }

  /** What step `d` says it does to a blob `src` of format `format` is what `stages` do. */
  ghost predicate Planned(d: StepData, format: Option<Algorithm>, src: Bytes, stages: seq<Stage>) {
    && d.srcName in {FormatName(src), UNKNOWN} && d.uploadedAnnotations == map[]
    && match d.operation
       case PreserveOpaque =>
         && stages == [] && d.uploadedOperation == PreserveOriginal && d.uploadedAlgorithm == None
         && d.uploadedName == d.srcName && d.uploadedSpecificName == UNKNOWN
       case PreserveCompressed =>
         && stages == [] && d.uploadedOperation == PreserveOriginal && format.Some? && d.uploadedAlgorithm == format
         && d.uploadedName == FormatName(src) && d.uploadedSpecificName == UNKNOWN
       case PreserveUncompressed =>
         && stages == [] && d.uploadedOperation == Decompress && format == None && d.uploadedAlgorithm == None
         && d.uploadedName == UNCOMPRESSED && d.uploadedSpecificName == UNKNOWN
       case CompressUncompressed =>
         d.uploadedOperation == Compress && format == None && Packs(d) && stages == [Pack(d.uploadedAlgorithm.value)]
       case RecompressCompressed =>
         && d.uploadedOperation == PreserveOriginal && format.Some? && Packs(d)
         && stages == [Unpack(Base(format.value)), Pack(d.uploadedAlgorithm.value)]
       case DecompressCompressed =>
         && d.uploadedOperation == Decompress && format.Some? && d.uploadedAlgorithm == None
         && stages == [Unpack(Base(format.value))] && d.uploadedName == UNCOMPRESSED && d.uploadedSpecificName == UNKNOWN
  }

  ghost predicate Packs(d: StepData) {
    && d.uploadedAlgorithm.Some?
    && d.uploadedName == Name(Base(d.uploadedAlgorithm.value)) && d.uploadedSpecificName == SpecificName(d.uploadedAlgorithm.value)
  }

  method CompressUncompressedStep(s: Settings, stream: SourceStream, detected: Detected, ghost src: Bytes) returns (r: Option<StepData>)
    requires stream.stages == [] && detected.srcName == FormatName(src)
    modifies stream`stages, stream`info
    ensures r.Some? <==> s.desired == Compress && detected.format == None
    ensures r.None? ==> unchanged(stream)
    ensures r.Some? ==>
      && r.value.operation == CompressUncompressed && r.value.uploadedAlgorithm == Some(RequestedFormat(s))
      && r.value.srcName == detected.srcName
      && stream.info == Changed(old(stream.info)) && Planned(r.value, detected.format, src, stream.stages)
  {
    if !(s.desired == Compress && detected.format == None) {
      return None;
    }
    var a := if s.format.Some? then s.format.value else Gzip;
    stream.stages, stream.info := stream.stages + [Pack(a)], Changed(stream.info);
    r := Some(StepData(CompressUncompressed, Compress, Some(a), map[], detected.srcName, Name(Base(a)), SpecificName(a)));
  }

  method RecompressCompressedStep(s: Settings, stream: SourceStream, detected: Detected, ghost src: Bytes) returns (r: Option<StepData>)
    requires stream.stages == [] && detected.srcName == FormatName(src)
    modifies stream`stages, stream`info
    ensures r.Some? <==> OtherFormat(s, detected.format)
    ensures r.None? ==> unchanged(stream)
    ensures r.Some? ==>
      && r.value.operation == RecompressCompressed && r.value.uploadedAlgorithm == s.format && r.value.srcName == detected.srcName
      && stream.info == Changed(old(stream.info)) && Planned(r.value, detected.format, src, stream.stages)
  {
    if !OtherFormat(s, detected.format) {
      return None;
    }
    var a := s.format.value;
    stream.stages := stream.stages + [Unpack(Base(detected.format.value))];
    stream.stages, stream.info := stream.stages + [Pack(a)], Changed(stream.info);
    r := Some(StepData(RecompressCompressed, PreserveOriginal, Some(a), map[], detected.srcName, Name(Base(a)), SpecificName(a)));
  }

  method DecompressCompressedStep(s: Settings, stream: SourceStream, detected: Detected, ghost src: Bytes) returns (r: Option<StepData>)
    requires stream.stages == [] && detected.srcName == FormatName(src)
    modifies stream`stages, stream`info
    ensures r.Some? <==> s.desired == Decompress && detected.format.Some?
    ensures r.None? ==> unchanged(stream)
    ensures r.Some? ==>
      && r.value.operation == DecompressCompressed && r.value.srcName == detected.srcName
      && stream.info == Changed(old(stream.info)) && Planned(r.value, detected.format, src, stream.stages)
  {
    if !(s.desired == Decompress && detected.format.Some?) {
      return None;
    }
    stream.stages, stream.info := stream.stages + [Unpack(Base(detected.format.value))], Changed(stream.info);
    r := Some(StepData(DecompressCompressed, Decompress, None, map[], detected.srcName, UNCOMPRESSED, UNKNOWN));
  }

  function PreserveOriginalStep(detected: Detected, changeable: bool): StepData {
    var operation := if !changeable then PreserveOpaque else if detected.format.Some? then PreserveCompressed else PreserveUncompressed;
    StepData(operation, if operation.PreserveUncompressed? then Decompress else PreserveOriginal,
             if operation.PreserveCompressed? then detected.format else None, map[],
             detected.srcName, detected.srcName, UNKNOWN)
  }

  /** Step `d` is the one that the settings call for. */
  ghost predicate CalledFor(s: Settings, mediaType: string, format: Option<Algorithm>, d: StepData) {
    && (Preserves(d.operation) <==> !Changes(s, mediaType, format))
    && (d.operation.DecompressCompressed? <==> Modifiable(s, mediaType) && s.desired == Decompress && format.Some?)
    && (d.operation.CompressUncompressed? <==> Modifiable(s, mediaType) && s.desired == Compress && format == None)
    && (d.operation.PreserveCompressed? <==> !Changes(s, mediaType, format) && Labelled(s, mediaType) && format.Some?)
    && (d.operation.PreserveUncompressed? <==> !Changes(s, mediaType, format) && Labelled(s, mediaType) && format == None)
    && (d.srcName == UNKNOWN <==> Opaque(s, mediaType))
    && (d.operation.CompressUncompressed? || d.operation.RecompressCompressed? ==> d.uploadedAlgorithm == Some(RequestedFormat(s)))
    && (Modifiable(s, mediaType) ==> Wanted(s, d.uploadedOperation, d.uploadedAlgorithm))
  }

  /** The compression step: it does what the settings call for, and what it returns describes what the stream now goes through. */
  method CompressionStep(s: Settings, stream: SourceStream, detected: Detected, ghost src: Bytes) returns (d: StepData)
    requires stream.stages == [] && detected.srcName == FormatName(src) && (detected.format.Some? <==> Detect(src).Some?)
    modifies stream`stages, stream`info
    ensures CalledFor(s, old(stream.info).mediaType, detected.format, d)
    ensures Planned(d, detected.format, src, stream.stages)
    ensures stream.info == if Preserves(d.operation) then old(stream.info) else Changed(old(stream.info))
  {
    FormatsAreKnown(src);
    if detected.format.Some? && s.format.Some? {
      NamesDiffer(s.format.value, detected.format.value);
      NamesDiffer(s.format.value, Base(detected.format.value));
    }
    var changeable := s.changeable(stream.info.mediaType);
    if !s.isConfig && !s.cannotModify && changeable {
      if IsEncrypted(stream.info.mediaType) {
        return StepData(PreserveOpaque, PreserveOriginal, None, map[], UNKNOWN, UNKNOWN, UNKNOWN);
      }
      var compressed := CompressUncompressedStep(s, stream, detected, src);
      if compressed.Some? {
        return compressed.value;
      }
      var recompressed := RecompressCompressedStep(s, stream, detected, src);
      if recompressed.Some? {
        return recompressed.value;
      }
      var decompressed := DecompressCompressedStep(s, stream, detected, src);
      if decompressed.Some? {
        return decompressed.value;
      }
    }
    d := PreserveOriginalStep(detected, changeable);
  }

  // ---- What has then become of the blob

  /** What step `d` made of `src`, and that what it says about the two is right. */
  ghost predicate Made(c: Codec, d: StepData, src: Bytes, bytes: Bytes) {
    && d.srcName in {FormatName(src), UNKNOWN}
    && match d.operation
       case PreserveOpaque =>
         && bytes == src && d.uploadedOperation == PreserveOriginal && d.uploadedAlgorithm == None && d.uploadedAnnotations == map[]
         && d.uploadedName == d.srcName && d.uploadedSpecificName == UNKNOWN
       case PreserveCompressed =>
         && bytes == src && d.uploadedOperation == PreserveOriginal && d.uploadedAlgorithm.Some?
         && Detect(src) == Some(Base(d.uploadedAlgorithm.value)) && d.uploadedAnnotations == map[]
         && d.uploadedName == FormatName(src) && d.uploadedSpecificName == UNKNOWN
       case PreserveUncompressed =>
         && bytes == src && d.uploadedOperation == Decompress && d.uploadedAlgorithm == None
         && Detect(src) == None && d.uploadedAnnotations == map[]
         && d.uploadedName == UNCOMPRESSED && d.uploadedSpecificName == UNKNOWN
       case CompressUncompressed =>
         d.uploadedOperation == Compress && Detect(src) == None && Packed(c, d, src, bytes)
       case RecompressCompressed =>
         d.uploadedOperation == PreserveOriginal && Content(c, src).Some? && Packed(c, d, Content(c, src).value, bytes)
       case DecompressCompressed =>
         && Content(c, src) == Some(bytes) && d.uploadedOperation == Decompress && d.uploadedAlgorithm == None
         && Detect(src).Some? && d.uploadedAnnotations == map[]
         && d.uploadedName == UNCOMPRESSED && d.uploadedSpecificName == UNKNOWN
  }

  /** `bytes` is `plain`, compressed as `d` says. */
  ghost predicate Packed(c: Codec, d: StepData, plain: Bytes, bytes: Bytes) {
    && Packs(d)
    && c.compress(d.uploadedAlgorithm.value, plain) == Some(bytes)
    && d.uploadedAnnotations == c.metadata(d.uploadedAlgorithm.value, plain)
  }

  /** What the compressor noted is known once the stream was read. */
  function Noted(d: StepData, annotations: map<string, string>): StepData {
    d.(uploadedAnnotations := annotations)
  }

  lemma RunOne(c: Codec, stage: Stage, x: Bytes)
    ensures var y := if stage.Unpack? then c.decompress(stage.a, x) else c.compress(stage.a, x);
      Run(c, [stage], x) == if y.None? then None else Some(Output(y.value, if stage.Pack? then c.metadata(stage.a, x) else map[]))
  {
    assert [stage][1..] == [];
    assert stage.Pack? ==> c.metadata(stage.a, x) + map[] == c.metadata(stage.a, x);
  }

  lemma RunTwo(c: Codec, a: Algorithm, b: Algorithm, x: Bytes)
    ensures Run(c, [Unpack(a), Pack(b)], x) == if c.decompress(a, x).Some? then Run(c, [Pack(b)], c.decompress(a, x).value) else None
  {
    assert [Unpack(a), Pack(b)][1..] == [Pack(b)];
  }

  /** The bases of reported and real format agree. */
  lemma BaseOfFormat(c: Codec, annotations: map<string, string>, x: Bytes)
    ensures var format := FormatOf(c, annotations, x);
      (format.Some? <==> Detect(x).Some?) && (format.Some? ==> Detect(x) == Some(Base(format.value)))
  {
  }

  /** Once the stages have run, the step has made what it says. */
  lemma PlannedIsMade(c: Codec, d: StepData, annotations: map<string, string>, src: Bytes, stages: seq<Stage>, o: Output)
    requires Planned(d, FormatOf(c, annotations, src), src, stages) && Run(c, stages, src) == Some(o)
    ensures Made(c, Noted(d, o.annotations), src, o.bytes)
  {
    BaseOfFormat(c, annotations, src);
    match d.operation
    case CompressUncompressed => RunOne(c, stages[0], src);
    case RecompressCompressed =>
      var a, b := stages[0].a, stages[1].a;
      RunTwo(c, a, b, src);
      RunOne(c, Pack(b), c.decompress(a, src).value);
    case DecompressCompressed => RunOne(c, stages[0], src);
    case _ =>
  }

  /** The compressor this blob needs, if any, works on it, and so does the decompressor. */
  predicate Doable(c: Codec, s: Settings, mediaType: string, annotations: map<string, string>, src: Bytes) {
    var format := FormatOf(c, annotations, src);
    if !Changes(s, mediaType, format) then true
    else if format == None then c.compress(RequestedFormat(s), src).Some?
    else Content(c, src).Some? && (s.desired == Compress ==> c.compress(RequestedFormat(s), Content(c, src).value).Some?)
  }

  lemma DoableRuns(c: Codec, s: Settings, mediaType: string, annotations: map<string, string>, src: Bytes, d: StepData, stages: seq<Stage>)
    requires var format := FormatOf(c, annotations, src); CalledFor(s, mediaType, format, d) && Planned(d, format, src, stages)
    ensures Run(c, stages, src).Some? <==> Doable(c, s, mediaType, annotations, src)
  {
    BaseOfFormat(c, annotations, src);
    match d.operation
    case CompressUncompressed => RunOne(c, stages[0], src);
    case RecompressCompressed =>
      var a, b := stages[0].a, stages[1].a;
      RunTwo(c, a, b, src);
      if c.decompress(a, src).Some? {
        RunOne(c, Pack(b), c.decompress(a, src).value);
      }
    case DecompressCompressed => RunOne(c, stages[0], src);
    case _ =>
  }

  // ---- What is recorded

  /** The one thing the cache can be told that is not so: that what came out of a decompressor is not compressed. */
  ghost predicate Misnamed(d: StepData, bytes: Bytes) {
    d.operation == DecompressCompressed && Detect(bytes).Some?
  }

  lemma UploadedNameIsTrue(c: Codec, d: StepData, src: Bytes, bytes: Bytes)
    requires Lawful(c) && Made(c, d, src, bytes) && d.uploadedName != UNKNOWN && !Misnamed(d, bytes)
    ensures FormatName(bytes) == d.uploadedName && TrueVariant(c, bytes, d.uploadedSpecificName)
  {
    if d.uploadedSpecificName != UNKNOWN {
      assert MadeBy(c, bytes, d.uploadedAlgorithm.value);
    }
  }

  /** With a blob compressed twice, what is recorded about the decompressed blob is wrong. */
  lemma TwiceCompressedIsMisnamed(c: Codec, src: Bytes, digest: string)
    requires Lawful(c) && DoublyCompressed(c, src) && c.matches(digest, Content(c, src).value)
    ensures !TrueName(c, digest, UNCOMPRESSED, UNKNOWN)
  {
  }

  /** The digest pair that goes into the cache is true. */
  lemma PairIsTrue(c: Codec, d: StepData, src: Bytes, bytes: Bytes, srcDigest: string, digest: string)
    requires Lawful(c) && Made(c, d, src, bytes) && c.matches(srcDigest, src) && c.matches(digest, bytes)
    ensures d.operation == CompressUncompressed ==> TruePair(c, digest, srcDigest)
    ensures d.operation == DecompressCompressed ==> TruePair(c, srcDigest, digest)
    ensures d.operation == PreserveUncompressed ==> TruePair(c, srcDigest, srcDigest)
  {
    if d.operation == CompressUncompressed {
      assert Content(c, bytes) == Some(src);
    }
  }

  /** The compressor's own annotations cannot be read. */
  predicate Unreadable(c: Codec, d: StepData) {
    d.operation == CompressUncompressed && c.toc(d.uploadedAnnotations).BadToc?
  }

  /** The digest pair that step `d` has shown. */
  function StepPairs(d: StepData, srcDigest: string, digest: string): set<(string, string)> {
    match d.operation
    case CompressUncompressed => {(digest, srcDigest)}
    case DecompressCompressed => {(srcDigest, digest)}
    case PreserveUncompressed => {(srcDigest, srcDigest)}
    case _ => {}
  }

  /** The table of contents it has made. */
  function StepTocs(c: Codec, d: StepData, srcDigest: string): set<(string, string)> {
    var toc := c.toc(d.uploadedAnnotations);
    if d.operation == CompressUncompressed && toc.Toc? then {(toc.digest, srcDigest)} else {}
  }

  /** The formats it has seen and made. */
  function StepNames(d: StepData, srcDigest: string, digest: string): set<(string, string, string)> {
    (if d.uploadedName != UNKNOWN then {(digest, d.uploadedName, d.uploadedSpecificName)} else {})
    + if srcDigest != "" && srcDigest != digest && d.srcName != UNKNOWN then {(srcDigest, d.srcName, UNKNOWN)} else {}
  }

  function StepFacts(c: Codec, d: StepData, srcDigest: string, digest: string): Facts {
    Facts(StepPairs(d, srcDigest, digest), StepTocs(c, d, srcDigest), StepNames(d, srcDigest, digest))
  }

  /** Records everything the step has shown, and nothing else; unreadable annotations end it after the digest pair. */
  method RecordValidatedDigestData(cache: BlobInfoCache, d: StepData, srcDigest: string, digest: string,
                                   ghost src: Bytes, ghost bytes: Bytes)
    returns (ok: bool)
    requires Lawful(cache.codec) && Made(cache.codec, d, src, bytes)
    requires cache.codec.matches(srcDigest, src) && cache.codec.matches(digest, bytes)
    modifies cache
    ensures cache.View() ==
      old(cache.View()).Plus(if ok then StepFacts(cache.codec, d, srcDigest, digest) else Facts(StepPairs(d, srcDigest, digest), {}, {}))
    ensures old(cache.True()) ==> (cache.True() <==> !Misnamed(d, bytes))
    ensures ok <==> !Unreadable(cache.codec, d)
  {
    ok := RecordFacts(cache, d, srcDigest, digest);
    FactsAreTrue(cache.codec, d, src, bytes, srcDigest, digest);
    TrueTogether(cache.codec, old(cache.View()), StepFacts(cache.codec, d, srcDigest, digest));
    TrueTogether(cache.codec, old(cache.View()), Facts(StepPairs(d, srcDigest, digest), {}, {}));
  }

  method RecordFacts(cache: BlobInfoCache, d: StepData, srcDigest: string, digest: string) returns (ok: bool)
    modifies cache
    ensures ok <==> !Unreadable(cache.codec, d)
    ensures cache.View() ==
      old(cache.View()).Plus(if ok then StepFacts(cache.codec, d, srcDigest, digest) else Facts(StepPairs(d, srcDigest, digest), {}, {}))
  {
    ok := RecordPairs(cache, d, srcDigest, digest);
    if !ok {
      return;
    }
    ghost var names := cache.names;
    if d.uploadedName != UNKNOWN {
      cache.names := cache.names + {(digest, d.uploadedName, d.uploadedSpecificName)};
    }
    if srcDigest != "" && srcDigest != digest && d.srcName != UNKNOWN {
      cache.names := cache.names + {(srcDigest, d.srcName, UNKNOWN)};
    }
    assert cache.names == names + StepNames(d, srcDigest, digest);
  }

  method RecordPairs(cache: BlobInfoCache, d: StepData, srcDigest: string, digest: string) returns (ok: bool)
    modifies cache`pairs, cache`tocs
    ensures ok <==> !Unreadable(cache.codec, d)
    ensures cache.View() == old(cache.View()).Plus(Facts(StepPairs(d, srcDigest, digest), StepTocs(cache.codec, d, srcDigest), {}))
  {
    ok := true;
    match d.operation {
      case CompressUncompressed =>
        cache.pairs := cache.pairs + {(digest, srcDigest)};
        match cache.codec.toc(d.uploadedAnnotations) {
          case BadToc => ok := false;
          case NoToc =>
          case Toc(toc) => cache.tocs := cache.tocs + {(toc, srcDigest)};
        }
      case DecompressCompressed =>
        cache.pairs := cache.pairs + {(srcDigest, digest)};
      case PreserveUncompressed =>
        cache.pairs := cache.pairs + {(srcDigest, srcDigest)};
      case _ =>
    }
  }

  lemma NamesAreTrue(c: Codec, d: StepData, src: Bytes, bytes: Bytes, srcDigest: string, digest: string)
    requires Lawful(c) && Made(c, d, src, bytes) && c.matches(srcDigest, src) && c.matches(digest, bytes)
    ensures AllTrue(c, Facts({}, {}, StepNames(d, srcDigest, digest))) <==> !Misnamed(d, bytes)
  {
    if Misnamed(d, bytes) {
      TwiceCompressedIsMisnamed(c, src, digest);
      assert (digest, UNCOMPRESSED, UNKNOWN) in Facts({}, {}, StepNames(d, srcDigest, digest)).names;
    } else if d.uploadedName != UNKNOWN {
      UploadedNameIsTrue(c, d, src, bytes);
    }
  }

  lemma PairsAreTrue(c: Codec, d: StepData, src: Bytes, bytes: Bytes, srcDigest: string, digest: string)
    requires Lawful(c) && Made(c, d, src, bytes) && c.matches(srcDigest, src) && c.matches(digest, bytes)
    ensures AllTrue(c, Facts(StepPairs(d, srcDigest, digest), {}, {}))
    ensures AllTrue(c, Facts(StepPairs(d, srcDigest, digest), StepTocs(c, d, srcDigest), {}))
  {
    PairIsTrue(c, d, src, bytes, srcDigest, digest);
  }

  /** Everything a step has shown is so, except the format of what came out of a decompressor compressed. */
  lemma FactsAreTrue(c: Codec, d: StepData, src: Bytes, bytes: Bytes, srcDigest: string, digest: string)
    requires Lawful(c) && Made(c, d, src, bytes) && c.matches(srcDigest, src) && c.matches(digest, bytes)
    ensures AllTrue(c, StepFacts(c, d, srcDigest, digest)) <==> !Misnamed(d, bytes)
    ensures AllTrue(c, Facts(StepPairs(d, srcDigest, digest), {}, {}))
  {
    PairsAreTrue(c, d, src, bytes, srcDigest, digest);
    NamesAreTrue(c, d, src, bytes, srcDigest, digest);
    var f, g := Facts(StepPairs(d, srcDigest, digest), StepTocs(c, d, srcDigest), {}), Facts({}, {}, StepNames(d, srcDigest, digest));
    TrueTogether(c, f, g);
    assert f.Plus(g) == StepFacts(c, d, srcDigest, digest);
  }

  /** What a copy teaches about the blob and the one it was made from, as the settings and the source have it. */
  ghost function Learns(c: Codec, s: Settings, srcInfo: BlobInfo, src: Bytes, digest: string): Facts {
    var format, mediaType := FormatOf(c, srcInfo.annotations, src), srcInfo.mediaType;
    var packs := Changes(s, mediaType, format) && s.desired == Compress;
    var unpacks := Changes(s, mediaType, format) && s.desired == Decompress;
    var a := if s.format.Some? then s.format.value else Gzip;
    var toc := c.toc(c.metadata(a, src));
    Facts(
      if packs && format == None then {(digest, srcInfo.digest)}
      else if unpacks then {(srcInfo.digest, digest)}
      else if !packs && Labelled(s, mediaType) && format == None then {(srcInfo.digest, srcInfo.digest)}
      else {},
      if packs && format == None && toc.Toc? then {(toc.digest, srcInfo.digest)} else {},
      if Opaque(s, mediaType) then {}
      else
        (if packs then {(digest, Name(Base(a)), SpecificName(a))}
         else {(digest, if unpacks then UNCOMPRESSED else FormatName(src), UNKNOWN)})
        + if srcInfo.digest != digest then {(srcInfo.digest, FormatName(src), UNKNOWN)} else {})
  }

  /** The step that is called for shows just that. */
  lemma StepTeaches(c: Codec, s: Settings, srcInfo: BlobInfo, src: Bytes, d: StepData, bytes: Bytes, digest: string)
    requires CalledFor(s, srcInfo.mediaType, FormatOf(c, srcInfo.annotations, src), d) && Made(c, d, src, bytes) && srcInfo.digest != ""
    ensures StepFacts(c, d, srcInfo.digest, digest) == Learns(c, s, srcInfo, src, digest)
  {
    BaseOfFormat(c, srcInfo.annotations, src);
    FormatsAreKnown(src);
  }

  // ---- What is reported

  function Report(d: StepData, stream: BlobInfo, digest: string): BlobInfo {
    BlobInfo(digest, stream.mediaType, stream.annotations + d.uploadedAnnotations, d.uploadedOperation, d.uploadedAlgorithm)
  }

  /** What `u` holds, read as `info` says it is, is what `src` held. */
  ghost predicate Faithful(c: Codec, src: Bytes, u: Bytes, info: BlobInfo) {
    match info.algorithm
    case Some(a) => c.decompress(Base(a), u) == Content(c, src)
    case None => if info.operation == Decompress then Some(u) == Content(c, src) else u == src
  }

  /** `u` has the format that `info` says, and is of the variant that it says. */
  ghost predicate Describes(c: Codec, info: BlobInfo, u: Bytes) {
    match info.algorithm
    case Some(a) => Detect(u) == Some(Base(a)) && (a != Base(a) ==> MadeBy(c, u, a))
    case None => info.operation == Decompress ==> Detect(u) == None
  }

  /** Annotations that describe compressed bytes describe these bytes: the blob is as it was, or they are its compressor's. */
  ghost predicate Annotated(c: Codec, srcInfo: BlobInfo, src: Bytes, u: Bytes, info: BlobInfo) {
    || (u == src && info.annotations == srcInfo.annotations)
    || (exists added :: info.annotations == AnnotationsAfterChange(srcInfo.annotations) + added
          && (added == map[] || exists a, plain :: added == c.metadata(a, plain) && c.compress(a, plain) == Some(u)))
  }

  /** The blob is unpacked once, and that is not enough. */
  predicate UnpackedTooLittle(c: Codec, s: Settings, srcInfo: BlobInfo, src: Bytes) {
    Modifiable(s, srcInfo.mediaType) && s.desired == Decompress && DoublyCompressed(c, src)
  }

  /** The blob is kept, and called chunked because of its annotations although no such compressor made it. */
  ghost predicate CalledChunked(c: Codec, s: Settings, srcInfo: BlobInfo, src: Bytes) {
    var format := FormatOf(c, srcInfo.annotations, src);
    && format == Some(ZstdChunked) && !MadeBy(c, src, ZstdChunked)
    && !Changes(s, srcInfo.mediaType, format) && Labelled(s, srcInfo.mediaType)
  }

  lemma ReportIsFaithful(c: Codec, d: StepData, src: Bytes, u: Bytes, stream: BlobInfo, digest: string)
    requires Lawful(c) && Made(c, d, src, u)
    ensures Faithful(c, src, u, Report(d, stream, digest))
  {
  }

  lemma MisnamedMeansTooLittle(c: Codec, s: Settings, srcInfo: BlobInfo, src: Bytes, d: StepData, u: Bytes)
    requires CalledFor(s, srcInfo.mediaType, FormatOf(c, srcInfo.annotations, src), d) && Made(c, d, src, u)
    ensures Misnamed(d, u) <==> UnpackedTooLittle(c, s, srcInfo, src)
  {
    BaseOfFormat(c, srcInfo.annotations, src);
  }

  /** When the reported format is the real one. */
  lemma ReportIsTrue(c: Codec, s: Settings, srcInfo: BlobInfo, src: Bytes, d: StepData, u: Bytes, stream: BlobInfo, digest: string)
    requires Lawful(c) && Made(c, d, src, u)
    requires var format := FormatOf(c, srcInfo.annotations, src);
      CalledFor(s, srcInfo.mediaType, format, d) && (d.operation == PreserveCompressed ==> d.uploadedAlgorithm == format)
    ensures Describes(c, Report(d, stream, digest), u) <==>
      !UnpackedTooLittle(c, s, srcInfo, src) && !CalledChunked(c, s, srcInfo, src)
  {
    MisnamedMeansTooLittle(c, s, srcInfo, src, d, u);
    if d.operation == CompressUncompressed || d.operation == RecompressCompressed {
      assert MadeBy(c, u, d.uploadedAlgorithm.value);
    }
  }

  lemma AnnotationsAreTrue(c: Codec, d: StepData, srcInfo: BlobInfo, src: Bytes, u: Bytes, stream: BlobInfo, digest: string)
    requires Made(c, d, src, u)
    requires stream == if Preserves(d.operation) then srcInfo else Changed(srcInfo)
    ensures Annotated(c, srcInfo, src, u, Report(d, stream, digest))
  {
    if Preserves(d.operation) {
      assert srcInfo.annotations + map[] == srcInfo.annotations;
    } else {
      assert Report(d, stream, digest).annotations == AnnotationsAfterChange(srcInfo.annotations) + d.uploadedAnnotations;
    }
  }

  /** A plain zstd blob with the annotations of a chunked one, copied as it is, is reported as chunked. */
  lemma AnnotatedZstdIsCalledChunked(c: Codec, s: Settings, srcInfo: BlobInfo, src: Bytes, stream: BlobInfo, digest: string)
    requires Detect(src) == Some(Zstd) && c.toc(srcInfo.annotations).Toc? && !MadeBy(c, src, ZstdChunked)
    requires s.changeable(srcInfo.mediaType) && s.cannotModify
    ensures CalledChunked(c, s, srcInfo, src)
    ensures var d := PreserveOriginalStep(Detected(Some(ZstdChunked), FormatName(src)), true);
      && CalledFor(s, srcInfo.mediaType, Some(ZstdChunked), d) && Made(c, d, src, src)
      && Report(d, stream, digest).algorithm == Some(ZstdChunked) && !Describes(c, Report(d, stream, digest), src)
  {
  }
}
