/**
 The CFDP additive file checksum (section 4.2 of CCSDS 727.0-B-5).

 The meaning of the checksum is `WeightedSum`: every byte contributes its value times
 the weight its absolute file offset has inside an aligned big-endian 32-bit word.
 The word-by-word loop of the wire module and the chunked loop used by both ends of a
 transfer are proved against it.
 */
module CfdpChecksum {
  import opened Bytes

  /** Weight of the byte at an absolute offset inside its aligned four-byte word. */
  function Weight(offset: nat): nat {
    match offset % 4
    case 0 => 0x100_0000
    case 1 => 0x1_0000
    case 2 => 0x100
    case _ => 1
  }

  /** Sum of all byte contributions of `data`, the first byte lying at `offset`. */
  function WeightedSum(data: seq<byte>, offset: nat): nat {
    if data == [] then 0 else data[0] * Weight(offset) + WeightedSum(data[1..], offset + 1)
  }

  /** The checksum of a byte range that starts at `offset`. */
  function Checksum(data: seq<byte>, offset: nat): nat {
    WeightedSum(data, offset) % U32_MODULUS
  }

  lemma {:induction false} WeightedSumConcat(a: seq<byte>, b: seq<byte>, offset: nat)
    ensures WeightedSum(a + b, offset) == WeightedSum(a, offset) + WeightedSum(b, offset + |a|)
  {
    if a == [] {
      assert a + b == b;
    } else {
      assert (a + b)[1..] == a[1..] + b;
      WeightedSumConcat(a[1..], b, offset + 1);
    }
  }

  lemma {:induction false} WeightedSumAligned(data: seq<byte>, o1: nat, o2: nat)
    requires o1 % 4 == o2 % 4
    ensures WeightedSum(data, o1) == WeightedSum(data, o2)
  {
    if data != [] {
      WeightedSumAligned(data[1..], o1 + 1, o2 + 1);
    }
  }

  lemma WeightedSumSnoc(data: seq<byte>, b: byte, offset: nat)
    ensures WeightedSum(data + [b], offset) == WeightedSum(data, offset) + b * Weight(offset + |data|)
  {
    WeightedSumConcat(data, [b], offset);
    assert [b][1..] == [];
  }

  /** Sum of the checksums of consecutive ranges, each taken at its own absolute offset. */
  function RangeChecksums(parts: seq<seq<byte>>, offset: nat): nat {
    if parts == [] then 0
    else Checksum(parts[0], offset) + RangeChecksums(parts[1..], offset + |parts[0]|)
  }

  /** The checksum is additive over any partition of a file, aligned to words or not. */
  lemma {:induction false} ChecksumAdditive(parts: seq<seq<byte>>, offset: nat)
    ensures Checksum(Flatten(parts), offset) == RangeChecksums(parts, offset) % U32_MODULUS
  {
    if parts != [] {
      var head, tail := WeightedSum(parts[0], offset), WeightedSum(Flatten(parts[1..]), offset + |parts[0]|);
      var rest := RangeChecksums(parts[1..], offset + |parts[0]|);
      WeightedSumConcat(parts[0], Flatten(parts[1..]), offset);
      ChecksumAdditive(parts[1..], offset + |parts[0]|);
      ModAddCongruent(head, tail, rest);
    }
  }

  lemma ModAddCongruent(a: nat, b: nat, c: nat)
    requires b % U32_MODULUS == c % U32_MODULUS
    ensures (a + b) % U32_MODULUS == (a % U32_MODULUS + c) % U32_MODULUS
  {
    ModAdd(a, b);
    ModAdd(a % U32_MODULUS, c);
  }

  lemma ModAdd(a: nat, b: nat)
    ensures (a + b) % U32_MODULUS == (a % U32_MODULUS + b % U32_MODULUS) % U32_MODULUS
    ensures (a % U32_MODULUS + b) % U32_MODULUS == (a + b) % U32_MODULUS
  {
  }

  datatype ChecksumError = OffsetNotU32 | FileSizeTooSmall

  function BigEndian(word: seq<byte>): nat
    requires |word| == 4
  {
    ((word[0] as nat * 256 + word[1]) * 256 + word[2]) * 256 + word[3]
  }

  /** The part of a range that lies below an absolute file position. */
  function Below(data: seq<byte>, offset: nat, position: nat): seq<byte> {
    if position <= offset then [] else if position - offset <= |data| then data[..position - offset] else data
  }

  /** The byte the word buffer holds for an absolute position: zero outside the range. */
  function ByteAt(data: seq<byte>, offset: nat, position: nat): byte {
    if offset <= position < offset + |data| then data[position - offset] else 0
  }

  lemma BelowAll(data: seq<byte>, offset: nat, position: nat)
    requires offset + |data| <= position
    ensures Below(data, offset, position) == data
  {
  }

  lemma BelowStep(data: seq<byte>, offset: nat, position: nat)
    ensures WeightedSum(Below(data, offset, position + 1), offset)
         == WeightedSum(Below(data, offset, position), offset) + ByteAt(data, offset, position) * Weight(position)
  {
    if offset <= position < offset + |data| {
      assert Below(data, offset, position + 1) == Below(data, offset, position) + [data[position - offset]];
      WeightedSumSnoc(Below(data, offset, position), data[position - offset], offset);
    } else {
      assert Below(data, offset, position + 1) == Below(data, offset, position);
    }
  }

  lemma BelowWord(data: seq<byte>, offset: nat, start: nat, word: seq<byte>)
    requires start % 4 == 0 && |word| == 4
    requires forall i :: 0 <= i < 4 ==> word[i] == ByteAt(data, offset, start + i)
    ensures WeightedSum(Below(data, offset, start + 4), offset)
         == WeightedSum(Below(data, offset, start), offset) + BigEndian(word)
  {
    WordWeights(start);
    var s0 := WeightedSum(Below(data, offset, start), offset);
    var s1 := WeightedSum(Below(data, offset, start + 1), offset);
    var s2 := WeightedSum(Below(data, offset, start + 2), offset);
    var s3 := WeightedSum(Below(data, offset, start + 3), offset);
    BelowStep(data, offset, start);
    assert s1 == s0 + word[0] * Weight(start + 0);
    BelowStep(data, offset, start + 1);
    assert s2 == s1 + word[1] * Weight(start + 1);
    BelowStep(data, offset, start + 2);
    assert s3 == s2 + word[2] * Weight(start + 2);
    BelowStep(data, offset, start + 3);
  }

  lemma WordWeights(start: nat)
    requires start % 4 == 0
    ensures Weight(start) == 0x100_0000 && Weight(start + 1) == 0x1_0000
    ensures Weight(start + 2) == 0x100 && Weight(start + 3) == 1
  {
  }

  /** Fills one word buffer with the bytes the range has for it, zeros elsewhere. */
  method BuildWord(data: seq<byte>, offset: nat, wordStart: nat) returns (word: seq<byte>)
    ensures |word| == 4 && forall i :: 0 <= i < 4 ==> word[i] == ByteAt(data, offset, wordStart + i)
  {
    var buffer := new byte[4](_ => 0);
    for index := 0 to 4
      invariant forall i :: 0 <= i < index ==> buffer[i] == ByteAt(data, offset, wordStart + i)
      invariant forall i :: index <= i < 4 ==> buffer[i] == 0
    {
      var sourceIndex := wordStart + index - offset;
      if 0 <= sourceIndex < |data| {
        buffer[index] := data[sourceIndex];
      }
    }
    word := buffer[..];
  }

  method AddWordAt(data: seq<byte>, offset: nat, wordStart: nat, total: nat) returns (sum: nat)
    requires wordStart % 4 == 0 && total == WeightedSum(Below(data, offset, wordStart), offset) % U32_MODULUS
    ensures sum == WeightedSum(Below(data, offset, wordStart + 4), offset) % U32_MODULUS
  {
    var word := BuildWord(data, offset, wordStart);
    BelowWord(data, offset, wordStart, word);
    ModAdd(WeightedSum(Below(data, offset, wordStart), offset), BigEndian(word));
    sum := (total + BigEndian(word)) % U32_MODULUS;
  }

  /** Word-by-word checksum of a file or of a range of it; bytes outside the range read as zero. */
  method ComputeChecksum(data: seq<byte>, offset: nat, declaredSize: Option<nat>)
    returns (r: Result<nat, ChecksumError>)
    ensures r == if offset > U32_MAX then Err(OffsetNotU32)
                 else if declaredSize.Some? && declaredSize.value < offset + |data| then Err(FileSizeTooSmall)
                 else Ok(Checksum(data, offset))
  {
    if offset > U32_MAX {
      return Err(OffsetNotU32);
    }
    var fileSize := if declaredSize.Some? then declaredSize.value else offset + |data|;
    if fileSize < offset + |data| {
      return Err(FileSizeTooSmall);
    }
    var total := 0;
    var wordStart := offset / 4 * 4;
    while wordStart < fileSize
      invariant wordStart % 4 == 0
      invariant total == WeightedSum(Below(data, offset, wordStart), offset) % U32_MODULUS
      decreases fileSize - wordStart
    {
      total := AddWordAt(data, offset, wordStart, total);
      wordStart := wordStart + 4;
    }
    BelowAll(data, offset, wordStart);
    r := Ok(total);
  }

  /** Adds the aligned words of a buffer to a running checksum. */
  method AddWords(words: seq<byte>, start: nat) returns (checksum: nat)
    requires |words| % 4 == 0 && start < U32_MODULUS
    ensures checksum == (start + WeightedSum(words, 0)) % U32_MODULUS
  {
    checksum := start;
    var i := 0;
    while i < |words|
      invariant 0 <= i <= |words| && i % 4 == 0
      invariant checksum == (start + WeightedSum(words[..i], 0)) % U32_MODULUS
    {
      var word := words[i..i + 4];
      assert forall j :: 0 <= j < 4 ==> word[j] == ByteAt(words, 0, i + j);
      BelowWord(words, 0, i, word);
      assert Below(words, 0, i) == words[..i] && Below(words, 0, i + 4) == words[..i + 4];
      ModAdd(start + WeightedSum(words[..i], 0), BigEndian(word));
      checksum := (checksum + BigEndian(word)) % U32_MODULUS;
      i := i + 4;
    }
    assert words[..i] == words;
  }

  lemma PadWord(trailing: seq<byte>, word: seq<byte>)
    requires |trailing| < 4 && |word| == 4
    requires forall i :: 0 <= i < 4 ==> word[i] == if i < |trailing| then trailing[i] else 0
    ensures BigEndian(word) == WeightedSum(trailing, 0)
  {
    assert forall i :: 0 <= i < 4 ==> word[i] == ByteAt(trailing, 0, i);
    BelowWord(trailing, 0, 0, word);
    assert Below(trailing, 0, 4) == trailing && Below(trailing, 0, 0) == [];
  }

  const IO_BUFFER_BYTES: nat := 1024 * 1024

  /** The reads of a buffered stream: full buffers, then the remainder. */
  function Reads(file: seq<byte>, buffer: nat): (chunks: seq<seq<byte>>)
    requires 0 < buffer
    ensures Flatten(chunks) == file
    ensures forall c :: c in chunks ==> c != []
    decreases |file|
  {
    if file == [] then []
    else if |file| <= buffer then
      assert Flatten([file][1..]) == [];
      [file]
    else
      var rest := Reads(file[buffer..], buffer);
      assert ([file[..buffer]] + rest)[1..] == rest;
      [file[..buffer]] + rest
  }

  datatype Integrity = Integrity(size: nat, digest: int, checksum: nat)

  datatype StreamError = BundleTooLarge

  /**
   One streaming pass over a file: size, digest and checksum without holding the file.
   `chunks` are the non-empty reads, of any sizes; `sha256` stands for the hash function.
   */
  method StreamIntegrity(chunks: seq<seq<byte>>, maxBytes: Option<nat>, sha256: seq<byte> -> int)
    returns (r: Result<Integrity, StreamError>)
    requires forall c :: c in chunks ==> c != []
    ensures r == if maxBytes.Some? && |Flatten(chunks)| > maxBytes.value then Err(BundleTooLarge)
                 else Ok(Integrity(|Flatten(chunks)|, sha256(Flatten(chunks)), Checksum(Flatten(chunks), 0)))
  {
    var digested: seq<byte> := [];
    var checksum := 0;
    var size := 0;
    var trailing: seq<byte> := [];
    ghost var body: seq<byte> := [];
    var k := 0;
    while k < |chunks|
      invariant 0 <= k <= |chunks|
      invariant digested == Flatten(chunks[..k]) && size == |digested|
      invariant maxBytes.Some? ==> size <= maxBytes.value
      invariant digested == body + trailing && |body| % 4 == 0 && |trailing| < 4
      invariant checksum == WeightedSum(body, 0) % U32_MODULUS
    {
      var chunk := chunks[k];
      assert chunks[..k + 1] == chunks[..k] + [chunk];
      FlattenSnoc(chunks[..k], chunk);
      size := size + |chunk|;
      if maxBytes.Some? && size > maxBytes.value {
        FlattenPrefixLength(chunks, k + 1);
        return Err(BundleTooLarge);
      }
      digested := digested + chunk;
      ghost var before := trailing;
      checksum, trailing := AbsorbChunk(chunk, trailing, checksum, body);
      body := (body + before + chunk)[..|body + before + chunk| - |trailing|];
      k := k + 1;
    }
    assert chunks[..k] == chunks;
    if trailing != [] {
      checksum := AbsorbTail(trailing, checksum, body);
    } else {
      assert digested == body;
    }
    r := Ok(Integrity(size, sha256(digested), checksum));
  }

  /** Adds the whole words of the carried bytes and one chunk; the rest is carried on. */
  method AbsorbChunk(chunk: seq<byte>, trailing: seq<byte>, checksum: nat, ghost body: seq<byte>)
    returns (sum: nat, rest: seq<byte>)
    requires |body| % 4 == 0
    requires checksum == WeightedSum(body, 0) % U32_MODULUS
    ensures var all := body + trailing + chunk;
      && |rest| < 4 && (|all| - |rest|) % 4 == 0
      && |rest| <= |all| && rest == all[|all| - |rest|..]
      && sum == WeightedSum(all[..|all| - |rest|], 0) % U32_MODULUS
  {
    var words := trailing + chunk;
    var wordBytes := |words| - |words| % 4;
    sum := AbsorbWords(words[..wordBytes], checksum, body);
    rest := words[wordBytes..];
    ghost var all := body + trailing + chunk;
    assert all[..|all| - |rest|] == body + words[..wordBytes];
  }

  method AbsorbWords(words: seq<byte>, checksum: nat, ghost body: seq<byte>) returns (sum: nat)
    requires |words| % 4 == 0 && |body| % 4 == 0
    requires checksum == WeightedSum(body, 0) % U32_MODULUS
    ensures sum == WeightedSum(body + words, 0) % U32_MODULUS
  {
    WordsAfter(body, words);
    ModAdd(WeightedSum(body, 0), WeightedSum(words, 0));
    sum := AddWords(words, checksum);
  }

  /** The last partial word is padded with zero bytes on the right. */
  method AbsorbTail(trailing: seq<byte>, checksum: nat, ghost body: seq<byte>) returns (sum: nat)
    requires 0 < |trailing| < 4 && |body| % 4 == 0
    requires checksum == WeightedSum(body, 0) % U32_MODULUS
    ensures sum == WeightedSum(body + trailing, 0) % U32_MODULUS
  {
    var padded := trailing + seq(4 - |trailing|, _ => 0);
    PadWord(trailing, padded);
    WordsAfter(body, trailing);
    ModAdd(WeightedSum(body, 0), BigEndian(padded));
    sum := (checksum + BigEndian(padded)) % U32_MODULUS;
  }

  lemma WordsAfter(before: seq<byte>, more: seq<byte>)
    requires |before| % 4 == 0
    ensures WeightedSum(before + more, 0) == WeightedSum(before, 0) + WeightedSum(more, 0)
  {
    WeightedSumConcat(before, more, 0);
    WeightedSumAligned(more, |before|, 0);
  }
}
