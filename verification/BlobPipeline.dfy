/**
 * Copying one blob: the stream is checked against its digest, its compression is detected and perhaps changed, the
 * result is stored at the destination, and what was learned is recorded and reported (image/copy/blob.go).
 */
module BlobPipeline {
  import opened Common
  import opened Compression
  import opened DigestingReader
  import opened CompressionSteps

  /** Whether the destination takes the blob, takes it unless it has it already, or fails. */
  datatype Choice = Accept | Reuse | Refuse

  /** What the destination answers; `output` is what it read, if it read the stream. */
  datatype Uploaded = Uploaded(digest: string, output: Option<Output>)

  class Destination {
    const codec: Codec
    /** The digest of a blob, of the same kind as the digest it should have, if that is known. */
    const digestOf: (string, Bytes) -> string
    var blobs: map<string, Bytes>

    ghost predicate Valid()
      reads this
    {
      && (forall known, x :: codec.matches(digestOf(known, x), x))
      && forall d :: d in blobs ==> codec.matches(d, blobs[d])
    }

    /** Stores what reading the stream gives, if it can be read to its end. */
    method PutBlob(stream: SourceStream, choice: Choice) returns (r: Result<Uploaded>)
      requires Valid() && stream.Valid()
      modifies this, stream.reader
      ensures Valid() && stream.reader.Valid()
      ensures var reused := choice == Reuse && stream.info.digest != "" && stream.info.digest in old(blobs);
        var output := if stream.reader.IsVerified() then Run(stream.reader.codec, stream.stages, Text(stream.reader.all)) else None;
        && (r.Ok? <==> reused || (choice != Refuse && output.Some?))
        && (r.Ok? && reused ==> r.value == Uploaded(stream.info.digest, None) && unchanged(this) && unchanged(stream.reader))
        && (r.Ok? && !reused ==>
              && stream.reader.Judged() && r.value == Uploaded(digestOf(stream.info.digest, output.value.bytes), output)
              && blobs == old(blobs)[r.value.digest := output.value.bytes])
        && (r.Err? ==> unchanged(this))
    {
      if choice == Reuse && stream.info.digest != "" && stream.info.digest in blobs {
        return Ok(Uploaded(stream.info.digest, None));
      }
      if choice == Refuse {
        return Err(WritingFailed);
      }
      var output := stream.ReadAll();
      if output.None? {
        return Err(WritingFailed);
      }
      var digest := digestOf(stream.info.digest, output.value.bytes);
      blobs := blobs[digest := output.value.bytes];
      r := Ok(Uploaded(digest, output));
    }
  }

  /** The blob at the destination has the content of the source and annotations that fit, and is described as it is, except in two cases. */
  ghost predicate Arrived(c: Codec, s: Settings, srcInfo: BlobInfo, src: Bytes, u: Bytes, info: BlobInfo) {
    && info == Described(c, s, srcInfo, src, info.digest) && Faithful(c, src, u, info) && Annotated(c, srcInfo, src, u, info)
    && (Describes(c, info, u) <==> !UnpackedTooLittle(c, s, srcInfo, src) && !CalledChunked(c, s, srcInfo, src))
  }

  /** The stream as the compression step leaves it. */
  ghost predicate Prepared(c: Codec, s: Settings, srcInfo: BlobInfo, d: StepData, stream: SourceStream)
    reads stream, stream.reader
  {
    var src := stream.reader.Whole();
    var format := FormatOf(c, srcInfo.annotations, src);
    && stream.Valid() && stream.reader.codec == c && stream.reader.expected == srcInfo.digest != ""
    && CalledFor(s, srcInfo.mediaType, format, d) && Planned(d, format, src, stream.stages)
    && stream.info == After(d, srcInfo)
  }

  /** The blob is the wanted one already, or the destination finds that it has the digest it should have. */
  predicate Fits(c: Codec, s: Settings, srcInfo: BlobInfo, src: Bytes, blobs: map<string, Bytes>, digestOf: (string, Bytes) -> string,
                 choice: Choice) {
    || Changes(s, srcInfo.mediaType, FormatOf(c, srcInfo.annotations, src))
    || (choice == Reuse && srcInfo.digest in blobs)
    || digestOf(srcInfo.digest, src) == srcInfo.digest
  }

  /** What is reported about the blob, as the settings and the source have it. */
  ghost function Described(c: Codec, s: Settings, srcInfo: BlobInfo, src: Bytes, digest: string): BlobInfo {
    var format, mediaType := FormatOf(c, srcInfo.annotations, src), srcInfo.mediaType;
    var a := if s.format.Some? then s.format.value else Gzip;
    var plain := if Content(c, src).Some? then Content(c, src).value else src;
    if !Changes(s, mediaType, format) then
      BlobInfo(digest, mediaType, srcInfo.annotations,
               if Labelled(s, mediaType) && format == None then Decompress else PreserveOriginal,
               if Labelled(s, mediaType) then format else None)
    else if s.desired == Compress then
      BlobInfo(digest, "", AnnotationsAfterChange(srcInfo.annotations) + c.metadata(a, plain),
               if format == None then Compress else PreserveOriginal, Some(a))
    else
      BlobInfo(digest, "", AnnotationsAfterChange(srcInfo.annotations), Decompress, None)
  }

  lemma ReportIsAsDescribed(c: Codec, s: Settings, srcInfo: BlobInfo, src: Bytes, d: StepData, u: Bytes, digest: string)
    requires Made(c, d, src, u)
    requires var format := FormatOf(c, srcInfo.annotations, src);
      CalledFor(s, srcInfo.mediaType, format, d) && (d.operation == PreserveCompressed ==> d.uploadedAlgorithm == format)
    ensures Report(d, After(d, srcInfo), digest) == Described(c, s, srcInfo, src, digest)
  {
    BaseOfFormat(c, srcInfo.annotations, src);
    assert srcInfo.annotations + map[] == srcInfo.annotations;
    assert AnnotationsAfterChange(srcInfo.annotations) + map[] == AnnotationsAfterChange(srcInfo.annotations);
  }

  /** A blob that has the requested format already is kept. */
  ghost predicate KeptIfFitting(c: Codec, s: Settings, srcInfo: BlobInfo, src: Bytes, digest: string) {
    s.desired == Compress && HasFormat(FormatOf(c, srcInfo.annotations, src), s.format) ==> digest == srcInfo.digest
  }

  /** The destination has the blob, it stays as it is, and nobody else reads the source to its end. */
  predicate Reused(c: Codec, s: Settings, srcInfo: BlobInfo, src: Bytes, blobs: map<string, Bytes>, choice: Choice) {
    && choice == Reuse && srcInfo.digest in blobs && !s.copiesOriginal
    && !Changes(s, srcInfo.mediaType, FormatOf(c, srcInfo.annotations, src))
  }

  /** The compressor leaves annotations that can be read. */
  predicate NotesReadable(c: Codec, s: Settings, srcInfo: BlobInfo, src: Bytes) {
    Changes(s, srcInfo.mediaType, None) && Detect(src) == None && s.desired == Compress ==> !c.toc(c.metadata(RequestedFormat(s), src)).BadToc?
  }

  /** Step `d` is called for and planned, and its stages make `o` of `src`. */
  ghost predicate Makes(c: Codec, s: Settings, srcInfo: BlobInfo, src: Bytes, d: StepData, stages: seq<Stage>, o: Output) {
    var format := FormatOf(c, srcInfo.annotations, src);
    CalledFor(s, srcInfo.mediaType, format, d) && Planned(d, format, src, stages) && Run(c, stages, src) == Some(o)
  }

  /** What the compression step leaves of the description of the source. */
  function After(d: StepData, srcInfo: BlobInfo): BlobInfo {
    if Preserves(d.operation) then srcInfo else Changed(srcInfo)
  }

  /** What the stream was made into is what is reported of it. */
  lemma MadeIsReported(c: Codec, s: Settings, srcInfo: BlobInfo, src: Bytes, d: StepData, stages: seq<Stage>, o: Output, digest: string)
    requires Lawful(c) && Makes(c, s, srcInfo, src, d, stages, o)
    ensures var noted := Noted(d, o.annotations);
      Made(c, noted, src, o.bytes) && Arrived(c, s, srcInfo, src, o.bytes, Report(noted, After(d, srcInfo), digest))
    ensures Preserves(d.operation) ==> o == Output(src, map[])
  {
    var noted, stream := Noted(d, o.annotations), After(d, srcInfo);
    PlannedIsMade(c, d, srcInfo.annotations, src, stages, o);
    ReportIsFaithful(c, noted, src, o.bytes, stream, digest);
    ReportIsTrue(c, s, srcInfo, src, noted, o.bytes, stream, digest);
    AnnotationsAreTrue(c, noted, srcInfo, src, o.bytes, stream, digest);
    ReportIsAsDescribed(c, s, srcInfo, src, noted, o.bytes, digest);
  }

  /** The step data once the destination has answered. */
  function Learned(d: StepData, put: Uploaded): StepData {
    if put.output.Some? then Noted(d, put.output.value.annotations) else d
  }

  /** The same when the destination had the blob already: it is the source's, since digests do not collide. */
  lemma UploadIsTrue(c: Codec, s: Settings, srcInfo: BlobInfo, src: Bytes, d: StepData, stages: seq<Stage>, o: Output,
                     put: Uploaded, u: Bytes)
    requires Lawful(c) && Makes(c, s, srcInfo, src, d, stages, o) && c.matches(srcInfo.digest, src)
    requires if put.output.None? then Preserves(d.operation) && c.matches(srcInfo.digest, u) else put.output == Some(o) && u == o.bytes
    ensures var noted := Learned(d, put);
      Made(c, noted, src, u) && Arrived(c, s, srcInfo, src, u, Report(noted, After(d, srcInfo), put.digest))
  {
    MadeIsReported(c, s, srcInfo, src, d, stages, o, put.digest);
    if put.output.None? {
      assert u == src && Noted(d, o.annotations) == d;
    }
  }

  lemma PutIsTrue(c: Codec, s: Settings, srcInfo: BlobInfo, src: Bytes, d: StepData, stages: seq<Stage>, put: Uploaded, u: Bytes)
    requires Lawful(c) && c.matches(srcInfo.digest, src)
    requires var format := FormatOf(c, srcInfo.annotations, src); CalledFor(s, srcInfo.mediaType, format, d) && Planned(d, format, src, stages)
    requires if put.output.None? then Preserves(d.operation) && c.matches(srcInfo.digest, u)
             else put.output == Run(c, stages, src) && u == put.output.value.bytes
    ensures var noted := Learned(d, put);
      Made(c, noted, src, u) && Arrived(c, s, srcInfo, src, u, Report(noted, After(d, srcInfo), put.digest))
  {
    UploadIsTrue(c, s, srcInfo, src, d, stages, Run(c, stages, src).value, put, u);
  }

  /** When a stream prepared for the settings can be delivered. */
  lemma DeliverableMeansCopyable(c: Codec, s: Settings, srcInfo: BlobInfo, src: Bytes, d: StepData, stages: seq<Stage>,
                                 blobs: map<string, Bytes>, digestOf: (string, Bytes) -> string, choice: Choice)
    requires srcInfo.digest != "" && NotesReadable(c, s, srcInfo, src)
    requires var format := FormatOf(c, srcInfo.annotations, src); CalledFor(s, srcInfo.mediaType, format, d) && Planned(d, format, src, stages)
    ensures Copyable(c, s, srcInfo, src, blobs, digestOf, choice) <==>
            Deliverable(After(d, srcInfo).digest, Run(c, stages, src), blobs, digestOf, choice)
  {
    DoableRuns(c, s, srcInfo.mediaType, srcInfo.annotations, src, d, stages);
    assert Preserves(d.operation) ==> stages == [];
  }

  /** A stream that would give `output` finds its way to the destination. */
  predicate Deliverable(digest: string, output: Option<Output>, blobs: map<string, Bytes>, digestOf: (string, Bytes) -> string, choice: Choice) {
    || (choice == Reuse && digest != "" && digest in blobs)
    || (choice != Refuse && output.Some? && (digest != "" ==> digestOf(digest, output.value.bytes) == digest))
  }

  lemma UnreadableNotes(c: Codec, s: Settings, srcInfo: BlobInfo, src: Bytes, d: StepData, u: Bytes)
    requires CalledFor(s, srcInfo.mediaType, FormatOf(c, srcInfo.annotations, src), d) && Made(c, d, src, u)
    ensures Unreadable(c, d) <==> !NotesReadable(c, s, srcInfo, src)
  {
    BaseOfFormat(c, srcInfo.annotations, src);
  }

  /** Nothing keeps a blob that has its digest from being copied. */
  predicate Copyable(c: Codec, s: Settings, srcInfo: BlobInfo, src: Bytes, blobs: map<string, Bytes>, digestOf: (string, Bytes) -> string,
                     choice: Choice) {
    && choice != Refuse && Doable(c, s, srcInfo.mediaType, srcInfo.annotations, src)
    && Fits(c, s, srcInfo, src, blobs, digestOf, choice) && NotesReadable(c, s, srcInfo, src)
  }

  /** Records what a validated copy has shown. */
  method Record(cache: BlobInfoCache, s: Settings, srcInfo: BlobInfo, d: StepData, digest: string, ghost src: Bytes, ghost bytes: Bytes)
    returns (ok: bool)
    requires var c := cache.codec;
      && Lawful(c) && Made(c, d, src, bytes) && c.matches(srcInfo.digest, src) && c.matches(digest, bytes)
      && CalledFor(s, srcInfo.mediaType, FormatOf(c, srcInfo.annotations, src), d) && srcInfo.digest != ""
    modifies cache
    ensures old(cache.True()) ==> (cache.True() <==> !UnpackedTooLittle(cache.codec, s, srcInfo, src))
    ensures ok <==> NotesReadable(cache.codec, s, srcInfo, src)
    ensures ok ==> cache.View() == old(cache.View()).Plus(Learns(cache.codec, s, srcInfo, src, digest))
  {
    MisnamedMeansTooLittle(cache.codec, s, srcInfo, src, d, bytes);
    UnreadableNotes(cache.codec, s, srcInfo, src, d, bytes);
    StepTeaches(cache.codec, s, srcInfo, src, d, bytes, digest);
    ok := RecordValidatedDigestData(cache, d, srcInfo.digest, digest, src, bytes);
  }

  /** Records only what was validated. */
  method RecordIf(validated: bool, cache: BlobInfoCache, s: Settings, srcInfo: BlobInfo, d: StepData, digest: string,
                  ghost src: Bytes, ghost bytes: Bytes)
    returns (ok: bool)
    requires validated ==>
      var c := cache.codec;
      && Lawful(c) && Made(c, d, src, bytes) && c.matches(srcInfo.digest, src) && c.matches(digest, bytes)
      && CalledFor(s, srcInfo.mediaType, FormatOf(c, srcInfo.annotations, src), d) && srcInfo.digest != ""
    modifies cache
    ensures validated && old(cache.True()) ==> (cache.True() <==> !UnpackedTooLittle(cache.codec, s, srcInfo, src))
    ensures validated ==> (ok <==> NotesReadable(cache.codec, s, srcInfo, src))
    ensures validated && ok ==> cache.View() == old(cache.View()).Plus(Learns(cache.codec, s, srcInfo, src, digest))
    ensures !validated ==> ok && unchanged(cache)
  {
    ok := true;
    if validated {
      ok := Record(cache, s, srcInfo, d, digest, src, bytes);
    }
  }

  /** Everything that was stored still is. */
  ghost predicate Stays(blobs: map<string, Bytes>, blobs': map<string, Bytes>) {
    forall d :: d in blobs ==> d in blobs' && blobs'[d] == blobs[d]
  }

  /** What the stream gives when it is read to its end. */
  ghost function OutputOf(stream: SourceStream): Option<Output>
    reads stream
  {
    if stream.reader.IsVerified() then Run(stream.reader.codec, stream.stages, Text(stream.reader.all)) else None
  }

  /** Sends the stream to the destination, and reads what is left of the source if someone wants it all. */
  method Deliver(s: Settings, stream: SourceStream, dest: Destination, choice: Choice) returns (r: Result<Uploaded>)
    requires Lawful(dest.codec) && dest.Valid() && stream.Valid()
    modifies dest, stream.reader
    ensures dest.Valid() && stream.reader.Valid()
    ensures !stream.reader.IsVerified() ==> unchanged(dest)
    ensures Stays(old(dest.blobs), dest.blobs)
    ensures r.Ok? ==> r.value.digest in dest.blobs && (stream.info.digest != "" ==> r.value.digest == stream.info.digest)
    ensures r.Ok? ==>
      if r.value.output.None? then
        && choice == Reuse && stream.info.digest != "" && stream.info.digest in old(dest.blobs)
        && (s.copiesOriginal ==> stream.reader.validationSucceeded)
      else r.value.output == OutputOf(stream) && dest.blobs[r.value.digest] == OutputOf(stream).value.bytes && stream.reader.validationSucceeded
    ensures stream.reader.IsVerified() ==>
      (r.Ok? <==> Deliverable(stream.info.digest, OutputOf(stream), old(dest.blobs), dest.digestOf, choice))
  {
    r := dest.PutBlob(stream, choice);
    if r.Err? {
      return;
    }
    if s.copiesOriginal {
      var _, ok := stream.reader.ReadAll();
      if !ok {
        return Err(ReadingFailed);
      }
    }
    if stream.reader.validationFailed || (stream.info.digest != "" && r.value.digest != stream.info.digest) {
      return Err(DigestChanged);
    }
  }

  /** Sends the stream to the destination, and records and reports what became of it. */
  method Upload(s: Settings, srcInfo: BlobInfo, stream: SourceStream, d: StepData, dest: Destination, choice: Choice, cache: BlobInfoCache)
    returns (r: Result<BlobInfo>)
    requires Lawful(dest.codec) && dest.Valid() && cache.codec == dest.codec
    requires Prepared(dest.codec, s, srcInfo, d, stream)
    modifies dest, cache, stream.reader
    ensures dest.Valid()
    ensures r.Ok? ==> r.value.digest in dest.blobs
    ensures r.Ok? && stream.reader.IsVerified() ==>
      Arrived(dest.codec, s, srcInfo, Text(stream.reader.all), dest.blobs[r.value.digest], r.value)
    ensures !stream.reader.IsVerified() ==> unchanged(cache) && unchanged(dest)
    ensures r.Ok? && Preserves(d.operation) ==> r.value.digest == srcInfo.digest
    ensures r.Ok? ==> r.value.operation == d.uploadedOperation && r.value.algorithm == d.uploadedAlgorithm
    ensures stream.reader.IsVerified() ==>
      (r.Ok? <==> Copyable(dest.codec, s, srcInfo, Text(stream.reader.all), old(dest.blobs), dest.digestOf, choice))
    ensures old(cache.True()) && r.Err? ==> cache.True()
    ensures old(cache.True()) && r.Ok? && stream.reader.IsVerified() ==>
      (cache.True() <==> !UnpackedTooLittle(dest.codec, s, srcInfo, Text(stream.reader.all)))
    ensures Stays(old(dest.blobs), dest.blobs)
    ensures r.Ok? && stream.reader.IsVerified() ==>
      || cache.View() == old(cache.View()).Plus(Learns(dest.codec, s, srcInfo, Text(stream.reader.all), r.value.digest))
      || (Reused(dest.codec, s, srcInfo, Text(stream.reader.all), old(dest.blobs), choice) && unchanged(cache))
  {
    ghost var c, src := dest.codec, stream.reader.Whole();
    GoodIsDelivered(stream.reader.all);
    if NotesReadable(c, s, srcInfo, src) {
      DeliverableMeansCopyable(c, s, srcInfo, src, d, stream.stages, dest.blobs, dest.digestOf, choice);
    }
    var put := Deliver(s, stream, dest, choice);
    if put.Err? {
      return Err(put.error);
    }
    var noted := Learned(d, put.value);
    var info := Report(noted, stream.info, put.value.digest);
    if stream.reader.IsVerified() {
      PutIsTrue(c, s, srcInfo, src, d, stream.stages, put.value, dest.blobs[info.digest]);
    }
    var ok := RecordIf(stream.reader.validationSucceeded, cache, s, srcInfo, noted, info.digest, src, dest.blobs[info.digest]);
    r := if ok then Ok(info) else Err(BadAnnotations);
  }

  /**
   * Copies a blob. Whatever the settings and however the source cuts the stream: if the source has the digest it should
   * have, and exactly if nothing keeps it from being copied, the destination ends up with the same content; it is
   * described as it is, and what is recorded is true, except in the cases that the caller can tell. If the source does
   * not have its digest nothing is stored or recorded.
   */
  method CopyBlobFromStream(s: Settings, srcInfo: BlobInfo, source: seq<Chunk>, dest: Destination, choice: Choice, cache: BlobInfoCache)
    returns (r: Result<BlobInfo>)
    requires Lawful(dest.codec) && dest.Valid() && cache.codec == dest.codec
    modifies dest, cache
    ensures dest.Valid()
    ensures r.Ok? ==> r.value.digest in dest.blobs
    ensures r.Ok? && Verified(dest.codec, srcInfo.digest, source) ==>
      Arrived(dest.codec, s, srcInfo, Text(source), dest.blobs[r.value.digest], r.value)
    ensures !Verified(dest.codec, srcInfo.digest, source) ==> unchanged(cache) && unchanged(dest)
    ensures Verified(dest.codec, srcInfo.digest, source) ==>
      (r.Ok? <==>
        && dest.codec.wellFormed(srcInfo.digest)
        && !(Detect(Text(source)) == Some(Zstd) && dest.codec.toc(srcInfo.annotations).BadToc?)
        && Copyable(dest.codec, s, srcInfo, Text(source), old(dest.blobs), dest.digestOf, choice))
    ensures r.Ok? && Modifiable(s, srcInfo.mediaType) ==> Wanted(s, r.value.operation, r.value.algorithm)
    ensures r.Ok? && Verified(dest.codec, srcInfo.digest, source) ==> KeptIfFitting(dest.codec, s, srcInfo, Text(source), r.value.digest)
    ensures r.Ok? && (!Modifiable(s, srcInfo.mediaType) || s.desired == PreserveOriginal) ==> r.value.digest == srcInfo.digest
    ensures old(cache.True()) && r.Err? ==> cache.True()
    ensures old(cache.True()) && r.Ok? && Verified(dest.codec, srcInfo.digest, source) ==>
      (cache.True() <==> !UnpackedTooLittle(dest.codec, s, srcInfo, Text(source)))
    ensures Stays(old(dest.blobs), dest.blobs)
    ensures r.Ok? && Verified(dest.codec, srcInfo.digest, source) ==>
      || cache.View() == old(cache.View()).Plus(Learns(dest.codec, s, srcInfo, Text(source), r.value.digest))
      || (Reused(dest.codec, s, srcInfo, Text(source), old(dest.blobs), choice) && unchanged(cache))
  {
    if !dest.codec.wellFormed(srcInfo.digest) {
      return Err(InvalidDigest);
    }
    var reader := new DigestingReader(dest.codec, srcInfo.digest, source);
    var stream := new SourceStream(reader, srcInfo);
    GoodIsDelivered(source);
    var detected := DetectCompressionStep(stream);
    if detected.Err? {
      return Err(detected.error);
    }
    BaseOfFormat(dest.codec, srcInfo.annotations, reader.Whole());
    ChangesWhenNeeded(s, srcInfo.mediaType, FormatOf(dest.codec, srcInfo.annotations, reader.Whole()));
    var d := CompressionStep(s, stream, detected.value, reader.Whole());
    r := Upload(s, srcInfo, stream, d, dest, choice, cache);
  }
}
