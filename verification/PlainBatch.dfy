/**
  * One grouped ordinary-UDP transmit: how it is cut into datagrams, what a kernel report of sent
  * lengths accepts of it, and the owned suffix that is left to send.
  */
module PlainBatch {
  import opened Core

  const MAX_PLAIN_BATCH_DATAGRAMS: nat := 128
  const CLIENT_PLAIN_BATCH_DATAGRAMS: nat := 88
  const SERVER_PLAIN_BATCH_DATAGRAMS: nat := 96
  const MAX_GSO_SEGMENTS: nat := 44

  datatype ErrorKind =
    | WouldBlock
    | Interrupted
    | InvalidInput
    | InvalidData
    | WriteZero
    | TimedOut
    | OutOfMemory
    | BrokenPipe
    | OtherKind(code: int)

  type Datagram = seq<byte>

  // ---------------------------------------------------------------- chunking

  /** The contents cut into pieces of `size` bytes; the last piece may be shorter. */
  function Chunks(contents: seq<byte>, size: nat): (chunks: seq<Datagram>)
    requires size > 0
  {
    if contents == [] then []
    else if |contents| <= size then [contents]
    else [contents[..size]] + Chunks(contents[size..], size)
  }

  /** The total length of the first `count` datagrams. */
  function BytesOf(datagrams: seq<Datagram>, count: nat): nat
    requires count <= |datagrams|
  {
    if count == 0 then 0 else |datagrams[0]| + BytesOf(datagrams[1..], count - 1)
  }

  lemma {:induction false} FirstChunk(contents: seq<byte>, size: nat)
    requires size > 0 && contents != []
    ensures Chunks(contents, size)
         == if |contents| <= size then [contents] else [contents[..size]] + Chunks(contents[size..], size)
  {
  }

  lemma {:induction false} SomeChunks(contents: seq<byte>, size: nat)
    requires size > 0
    ensures Chunks(contents, size) == [] <==> contents == []
  {
  }

  lemma {:induction false} FirstBytes(first: Datagram, rest: seq<Datagram>, count: nat)
    requires 0 < count <= 1 + |rest|
    ensures BytesOf([first] + rest, count) == |first| + BytesOf(rest, count - 1)
  {
    ConcatSplit([first], rest);
  }

  /**
    * Dropping whole leading chunks leaves the other chunks as they were: chunking the suffix that
    * starts on a chunk boundary is the tail of the chunking.
    */
  lemma {:induction false} ChunksOfSuffix(contents: seq<byte>, size: nat, count: nat)
    requires size > 0 && count <= |Chunks(contents, size)|
    ensures BytesOf(Chunks(contents, size), count) <= |contents|
    ensures Chunks(contents[BytesOf(Chunks(contents, size), count)..], size) == Chunks(contents, size)[count..]
    ensures BytesOf(Chunks(contents, size), count) == |contents| <==> count == |Chunks(contents, size)|
  {
    hide Chunks;
    if count == 0 {
      SomeChunks(contents, size);
      TakeAll(contents);
      TakeAll(Chunks(contents, size));
    } else if |contents| > size {
      FirstChunk(contents, size);
      var rest := contents[size..];
      ChunksOfSuffix(rest, size, count - 1);
      var bytes := BytesOf(Chunks(rest, size), count - 1);
      FirstBytes(contents[..size], Chunks(rest, size), count);
      ConcatSplit([contents[..size]], Chunks(rest, size));
      DropDrop(contents, size, bytes);
      DropDrop(Chunks(contents, size), 1, count - 1);
    } else {
      SomeChunks(contents, size);
      FirstChunk(contents, size);
      SomeChunks([], size);
      assert Chunks(contents, size)[1..] == [];
      assert contents[|contents|..] == [];
    }
  }

  /** Contents of at most `m` segments give at most `m` datagrams. */
  lemma {:induction false} ChunkCount(contents: seq<byte>, size: nat, m: nat)
    requires size > 0 && |contents| <= m * size
    ensures |Chunks(contents, size)| <= m
  {
    if |contents| > size {
      assert (m - 1) * size == m * size - size;
      ChunkCount(contents[size..], size, m - 1);
    } else if contents != [] {
      assert m > 0;
    }
  }

  /** Every byte is in exactly one datagram, in order. */
  function Concatenated(datagrams: seq<Datagram>): seq<byte> {
    if datagrams == [] then [] else datagrams[0] + Concatenated(datagrams[1..])
  }

  lemma {:induction false} ChunksCover(contents: seq<byte>, size: nat)
    requires size > 0
    ensures Concatenated(Chunks(contents, size)) == contents
  {
    hide Chunks;
    SomeChunks(contents, size);
    if |contents| > size {
      var rest := Chunks(contents[size..], size);
      FirstChunk(contents, size);
      ChunksCover(contents[size..], size);
      ConcatSplit([contents[..size]], rest);
      assert contents[..size] + contents[size..] == contents;
    } else if contents != [] {
      FirstChunk(contents, size);
      assert [contents][1..] == [];
      ConcatEmpty(contents);
    }
  }

  /** Every datagram but the last has the full size, and none is empty. */
  lemma {:induction false} ChunkSizes(contents: seq<byte>, size: nat, i: nat)
    requires size > 0 && i < |Chunks(contents, size)|
    ensures 0 < |Chunks(contents, size)[i]| <= size
    ensures i < |Chunks(contents, size)| - 1 ==> |Chunks(contents, size)[i]| == size
  {
    if |contents| > size && i > 0 {
      ChunkSizes(contents[size..], size, i - 1);
    }
  }

  /** The contents from one offset to another, as far as they go. */
  function Clipped(contents: seq<byte>, from: nat, to: nat): seq<byte>
    requires from <= to
  {
    if |contents| <= from then [] else if |contents| <= to then contents[from..] else contents[from..to]
  }

  /** Where piece `i` begins. */
  function Offset(i: nat, size: nat): nat {
    if i == 0 then 0 else Offset(i - 1, size) + size
  }

  lemma {:induction false} OffsetIsProduct(i: nat, size: nat)
    ensures Offset(i, size) == i * size
  {
    if i > 0 {
      OffsetIsProduct(i - 1, size);
      OneMoreTime(i - 1, size);
    }
  }

  lemma {:induction false} ChunkAtOffset(contents: seq<byte>, size: nat, i: nat)
    requires size > 0 && i < |Chunks(contents, size)|
    ensures Chunks(contents, size)[i] == Clipped(contents, Offset(i, size), Offset(i, size) + size)
  {
    hide Chunks;
    SomeChunks(contents, size);
    FirstChunk(contents, size);
    if i > 0 {
      ChunkAtOffset(contents[size..], size, i - 1);
      ClippedBehind(contents, size, Offset(i - 1, size), Offset(i, size));
    }
  }

  /** Piece `i` is the one between `i` and `i + 1` sizes. */
  lemma {:induction false} ChunkAt(contents: seq<byte>, size: nat, i: nat)
    requires size > 0 && i < |Chunks(contents, size)|
    ensures i * size <= (i + 1) * size
    ensures Chunks(contents, size)[i] == Clipped(contents, i * size, (i + 1) * size)
  {
    hide Chunks, Clipped, Offset;
    ChunkAtOffset(contents, size, i);
    OffsetIsProduct(i, size);
    OneMoreTime(i, size);
  }

  lemma {:induction false} ClippedBehind(contents: seq<byte>, size: nat, from: nat, to: nat)
    requires size <= |contents| && from <= to
    ensures Clipped(contents[size..], from, to) == Clipped(contents, from + size, to + size)
  {
  }

  /** There are as many pieces as it takes: the quotient rounded up. */
  lemma {:induction false} ChunkTotal(contents: seq<byte>, size: nat)
    requires size > 0
    ensures |Chunks(contents, size)| == (|contents| + size - 1) / size
  {
    if |contents| > size {
      ChunkTotal(contents[size..], size);
      OneMoreSize(|contents| - 1, size);
    } else if contents != [] {
      OneMoreSize(|contents| - 1, size);
    }
  }

  lemma {:induction false} OneMoreSize(x: nat, size: nat)
    requires size > 0
    ensures (x + size) / size == x / size + 1
    ensures x < size ==> x / size == 0
  {
    QuotientGrows(x, size, x / size, x % size);
    if x < size {
      Divides(x, size, 0, x);
    }
  }

  lemma {:induction false} QuotientGrows(x: nat, size: nat, q: nat, r: nat)
    requires r < size && x == q * size + r
    ensures (x + size) / size == q + 1
  {
    OneMoreTime(q, size);
    Divides(x + size, size, q + 1, r);
  }

  // ---------------------------------------------------------------- the borrowed transmit

  datatype PlainTransmit = PlainTransmit(
    destination: int,
    ecn: Option<int>,
    contents: seq<byte>,
    segmentSize: Option<nat>,
    srcIp: Option<int>)
  {
    function NormalizedSegmentSize(): (size: nat)
      ensures size > 0
    {
      var size := if segmentSize.Some? then segmentSize.value else |contents|;
      if size < 1 then 1 else size
    }

    function Datagrams(): seq<Datagram> {
      Chunks(contents, NormalizedSegmentSize())
    }

    /**
      * The datagrams by the transmit's fields alone: with a segment size, a new one begins at each multiple
      * of it, zero counting as one; without, all the contents are one datagram.
      */
    ghost predicate Cuts(datagrams: seq<Datagram>) {
      match segmentSize
      case None => datagrams == if contents == [] then [] else [contents]
      case Some(s) =>
        var size := if s == 0 then 1 else s;
        && |datagrams| == (|contents| + size - 1) / size
        && forall i: nat :: i < |datagrams| ==> IsPiece(datagrams[i], i, size)
    }

    ghost predicate IsPiece(datagram: Datagram, i: nat, size: nat) {
      i * size <= (i + 1) * size && datagram == Clipped(contents, i * size, (i + 1) * size)
    }

    /** The datagrams are cut where the fields say, and there is no other way to cut. */
    lemma {:induction false} DatagramsCut(datagrams: seq<Datagram>)
      ensures Cuts(datagrams) <==> datagrams == Datagrams()
    {
      match segmentSize {
        case None =>
        case Some(s) =>
          var size := NormalizedSegmentSize();
          ChunkTotal(contents, size);
          forall i: nat | i < |Datagrams()| ensures IsPiece(Datagrams()[i], i, size) {
            ChunkAt(contents, size, i);
          }
          assert Cuts(Datagrams());
          if Cuts(datagrams) {
            forall i: nat | i < |datagrams| ensures datagrams[i] == Datagrams()[i] {
              assert IsPiece(datagrams[i], i, size) && IsPiece(Datagrams()[i], i, size);
            }
          }
      }
    }

    /** The same transmit without its first `bytes` bytes. */
    function Drop(bytes: nat): PlainTransmit
      requires bytes <= |contents|
    {
      this.(contents := contents[bytes..])
    }

    /** Taking a transmit for the ordinary path is refused above the sender's capacity. */
    function Borrow(): Result<PlainTransmit, ErrorKind> {
      if |Datagrams()| > MAX_PLAIN_BATCH_DATAGRAMS then Err(InvalidInput) else Ok(this)
    }

    /** The number of leading datagrams sent in full, and whether that is all that was reported. */
    function SentPrefix(sent: seq<nat>): Result<(nat, bool), ErrorKind> {
      if |sent| > |Datagrams()| then Err(InvalidData)
      else
        var full := FullPrefix(sent, Datagrams());
        Ok((full, full == |sent|))
    }

    /** Dropping whole datagrams keeps the boundaries of the others, even where the segment size is implied. */
    lemma {:induction false} DatagramsOfSuffix(count: nat)
      requires count <= |Datagrams()|
      ensures BytesOf(Datagrams(), count) <= |contents|
      ensures Drop(BytesOf(Datagrams(), count)).Datagrams() == Datagrams()[count..]
      ensures BytesOf(Datagrams(), count) == |contents| <==> count == |Datagrams()|
    {
      ChunksOfSuffix(contents, NormalizedSegmentSize(), count);
      if segmentSize.None? {
        if count == 0 {
          TakeAll(contents);
        } else {
          assert Datagrams()[1..] == [];
        }
      }
    }
  }

  /** How many leading datagrams have their full length reported. */
  function FullPrefix(sent: seq<nat>, datagrams: seq<Datagram>): (full: nat)
    requires |sent| <= |datagrams|
    ensures full <= |sent|
  {
    if sent == [] || sent[0] != |datagrams[0]| then 0
    else 1 + FullPrefix(sent[1..], datagrams[1..])
  }

  /** The prefix is the longest one on which the reported lengths are the datagrams' lengths. */
  lemma {:induction false} FullPrefixIsLongest(sent: seq<nat>, datagrams: seq<Datagram>)
    requires |sent| <= |datagrams|
    ensures forall i :: 0 <= i < FullPrefix(sent, datagrams) ==> sent[i] == |datagrams[i]|
    ensures FullPrefix(sent, datagrams) < |sent| ==>
      sent[FullPrefix(sent, datagrams)] != |datagrams[FullPrefix(sent, datagrams)]|
  {
    if sent != [] && sent[0] == |datagrams[0]| {
      FullPrefixIsLongest(sent[1..], datagrams[1..]);
      forall i | 0 <= i < FullPrefix(sent, datagrams) ensures sent[i] == |datagrams[i]| {
        if i > 0 {
          assert sent[1..][i - 1] == |datagrams[1..][i - 1]|;
        }
      }
    }
  }

  // ---------------------------------------------------------------- the owned suffix

  datatype ProgressDecision = Complete | Pending

  class OwnedTransmit {
    const whole: PlainTransmit
    var start: nat

    ghost predicate Valid() reads this {
      start <= |whole.contents|
    }

    function Transmit(): PlainTransmit
      requires Valid()
      reads this
    {
      whole.Drop(start)
    }

    constructor (whole: PlainTransmit)
      ensures Valid() && this.whole == whole && Transmit() == whole
    {
      this.whole := whole;
      start := 0;
    }

    /** Copies what is left after the first `count` datagrams; `reserved` tells whether memory was granted. */
    static method CopySuffix(transmit: PlainTransmit, count: nat, reserved: bool)
      returns (r: Result<OwnedTransmit, ErrorKind>)
      ensures count > |transmit.Datagrams()| ==> r == Err(InvalidData)
      ensures count <= |transmit.Datagrams()| && !reserved ==> r == Err(OutOfMemory)
      ensures count <= |transmit.Datagrams()| && reserved ==>
        && r.Ok? && fresh(r.value) && r.value.Valid()
        && r.value.Transmit().Datagrams() == transmit.Datagrams()[count..]
        && r.value.Transmit().(contents := []) == transmit.(contents := [])
    {
      if count > |transmit.Datagrams()| {
        return Err(InvalidData);
      }
      transmit.DatagramsOfSuffix(count);
      var acceptedBytes := BytesOf(transmit.Datagrams(), count);
      if !reserved {
        return Err(OutOfMemory);
      }
      var owned := new OwnedTransmit(transmit.Drop(acceptedBytes));
      r := Ok(owned);
    }

    method Advance(bytes: nat) returns (r: Result<(), ErrorKind>)
      requires Valid()
      modifies this
      ensures Valid()
      ensures old(start) + bytes <= |whole.contents| ==> r == Ok(()) && start == old(start) + bytes
      ensures old(start) + bytes > |whole.contents| ==> r == Err(InvalidData) && start == old(start)
    {
      if start + bytes > |whole.contents| {
        return Err(InvalidData);
      }
      start := start + bytes;
      r := Ok(());
    }
  }

  class BatchProgress {
    const transmit: OwnedTransmit

    constructor (transmit: OwnedTransmit)
      ensures this.transmit == transmit
    {
      this.transmit := transmit;
    }

    /** The datagrams still owned by the sender. */
    function Remaining(): seq<Datagram>
      requires transmit.Valid()
      reads transmit
    {
      transmit.Transmit().Datagrams()
    }

    method CommitPrefix(count: nat) returns (r: Result<ProgressDecision, ErrorKind>)
      requires transmit.Valid()
      modifies transmit
      ensures transmit.Valid()
      ensures count > |old(Remaining())| ==> r == Err(InvalidData) && Remaining() == old(Remaining())
      ensures count <= |old(Remaining())| ==> Remaining() == old(Remaining())[count..]
      ensures count <= |old(Remaining())| ==>
        r == if Remaining() == [] then Ok(Complete) else if count == 0 then Err(WriteZero) else Ok(Pending)
    {
      var offered := |Remaining()|;
      if count > offered {
        return Err(InvalidData);
      }
      if count == 0 {
        return if offered == 0 then Ok(Complete) else Err(WriteZero);
      }
      var current := transmit.Transmit();
      current.DatagramsOfSuffix(count);
      var acceptedBytes := BytesOf(current.Datagrams(), count);
      var advanced := transmit.Advance(acceptedBytes);
      assert transmit.Transmit() == current.Drop(acceptedBytes);
      if transmit.start == |transmit.whole.contents| {
        return Ok(Complete);
      }
      r := Ok(Pending);
    }

    method RecordSent(sent: seq<nat>) returns (r: Result<ProgressDecision, ErrorKind>)
      requires transmit.Valid()
      modifies transmit
      ensures transmit.Valid()
      ensures |sent| > |old(Remaining())| ==> r == Err(InvalidData) && Remaining() == old(Remaining())
      ensures |sent| <= |old(Remaining())| ==>
        && Remaining() == old(Remaining())[FullPrefix(sent, old(Remaining()))..]
        && (r.Ok? ==> r.value.Complete? == (Remaining() == []))
        && (r.Err? ==> r.error == WriteZero)
        && (r.Ok? <==> FullPrefix(sent, old(Remaining())) == |sent| && (sent != [] || Remaining() == []))
    {
      var prefix := transmit.Transmit().SentPrefix(sent);
      if prefix.Err? {
        return Err(prefix.error);
      }
      var (full, allFull) := prefix.value;
      if !allFull {
        if full > 0 {
          var committed := CommitPrefix(full);
        }
        return Err(WriteZero);
      }
      r := CommitPrefix(full);
    }
  }

  // ---------------------------------------------------------------- capacity

  datatype GsoMode = GsoOff | GsoAuto

  function MaxTransmitSegments(mode: GsoMode, plainBatchSegments: nat): nat {
    match mode
    case GsoOff => plainBatchSegments
    case GsoAuto => if plainBatchSegments > MAX_GSO_SEGMENTS then MAX_GSO_SEGMENTS else plainBatchSegments
  }

  /** The batch size selected by the trimmed environment value. */
  function PlainBatchSegmentsFromValue(value: Option<string>, defaultSegments: nat): nat {
    match value
    case None => defaultSegments
    case Some(text) =>
      if text == "20" then 20
      else if text == "32" then 32
      else if text == "64" then 64
      else if text == "80" then 80
      else if text == "88" then 88
      else if text == "96" then 96
      else if text == "104" then 104
      else if text == "112" then 112
      else if text == "128" then 128
      else defaultSegments
  }

  /** A transmit the endpoint may hand over always fits the sender's fixed arrays. */
  lemma {:induction false} GroupsFit(t: PlainTransmit, mode: GsoMode, value: Option<string>, defaultSegments: nat)
    requires defaultSegments in {CLIENT_PLAIN_BATCH_DATAGRAMS, SERVER_PLAIN_BATCH_DATAGRAMS}
    requires t.segmentSize.Some? ==>
      |t.contents| <= MaxTransmitSegments(mode, PlainBatchSegmentsFromValue(value, defaultSegments))
                      * if t.segmentSize.value == 0 then 1 else t.segmentSize.value
    ensures t.Borrow() == Ok(t)
    ensures mode == GsoAuto ==> |t.Datagrams()| <= 44
  {
    if t.segmentSize.Some? {
      var m := MaxTransmitSegments(mode, PlainBatchSegmentsFromValue(value, defaultSegments));
      ChunkCount(t.contents, t.NormalizedSegmentSize(), m);
    }
  }
}
