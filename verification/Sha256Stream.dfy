/**
  The streaming SHA-256 of the native helper (native/linux-ext4-inspector.c): a context with a
  64-byte block that is filled in place, and the object identifier built with it.
 */
module Sha256Stream {
  import opened Bytes
  import opened Sha256

  const TWO64: nat := 0x1_0000_0000_0000_0000

  /** A 64-bit count of bits. */
  function Bits(bytes: nat): nat {
    8 * bytes % TWO64
  }

  lemma BitsOfBlock(bytes: nat)
    ensures (Bits(bytes) + 64 * 8) % TWO64 == Bits(bytes + 64)
  {
  }

  function HashOf(words: seq<word>): Hash
    requires |words| == 8
  {
    Hash(words[0], words[1], words[2], words[3], words[4], words[5], words[6], words[7])
  }

  lemma AddOrder(a: word, b: word, c: word, d: word)
    ensures Add(Add(Add(a, b), c), d) == Add(Add(Add(d, c), b), a)
  {
  }

  /** `sha256_transform`, first part: the message schedule. */
  method FillSchedule(words: array<word>, block: array<byte>)
    requires words.Length == 64 && block.Length == 64
    modifies words
    ensures forall j :: 0 <= j < 64 ==> words[j] == Schedule(block[..], j)
  {
    hide WordOf, SmallSigma0, SmallSigma1, Add;
    ghost var b := block[..];
    for i := 0 to 16
      invariant forall j :: 0 <= j < i ==> words[j] == Schedule(b, j)
    {
      var offset := i * 4;
      words[i] := WordOf(block[offset], block[offset + 1], block[offset + 2], block[offset + 3]);
    }
    for i := 16 to 64
      invariant forall j :: 0 <= j < i ==> words[j] == Schedule(b, j)
    {
      var s0 := SmallSigma0(words[i - 15]);
      var s1 := SmallSigma1(words[i - 2]);
      AddOrder(words[i - 16], s0, words[i - 7], s1);
      words[i] := Add(Add(Add(words[i - 16], s0), words[i - 7]), s1);
    }
  }

  /** `sha256_transform`, second part: one round on the eight working variables. */
  method WorkRound(working: array<word>, k: word, w: word)
    requires working.Length == 8
    modifies working
    ensures HashOf(working[..]) == Round(old(HashOf(working[..])), k, w)
  {
    hide Choose, Majority, BigSigma0, BigSigma1, Add;
    var choose := Choose(working[4], working[5], working[6]);
    var majority := Majority(working[0], working[1], working[2]);
    var first := Add(Add(Add(Add(working[7], BigSigma1(working[4])), choose), k), w);
    var second := Add(BigSigma0(working[0]), majority);
    working[7] := working[6];
    working[6] := working[5];
    working[5] := working[4];
    working[4] := Add(working[3], first);
    working[3] := working[2];
    working[2] := working[1];
    working[1] := working[0];
    working[0] := Add(first, second);
  }

  method PutInitial(state: array<word>)
    requires state.Length == 8
    modifies state
    ensures HashOf(state[..]) == Initial()
  {
    hide InitialWord;
    for i := 0 to 8
      invariant forall j :: 0 <= j < i ==> state[j] == InitialWord(j)
    {
      state[i] := InitialWord(i);
    }
  }

  class Context {
    const block: array<byte>
    const state: array<word>
    var blockLength: nat
    var totalBits: nat
    ghost var message: seq<byte>

    /** Everything but the unfilled rest of the block is a function of the bytes seen so far. */
    ghost predicate Valid()
      reads this, block, state
    {
      && block.Length == 64
      && state.Length == 8
      && blockLength < 64
      && blockLength <= |message|
      && (|message| - blockLength) % 64 == 0
      && block[..blockLength] == message[|message| - blockLength..]
      && HashOf(state[..]) == CompressAll(message[..|message| - blockLength])
      && totalBits == Bits(|message| - blockLength)
    }

    /** Room for a context, as its user declares it. */
    constructor ()
      ensures block.Length == 64 && state.Length == 8 && fresh(block) && fresh(state)
    {
      block := new byte[64];
      state := new word[8];
      blockLength, totalBits, message := 0, 0, [];
    }

    /** `sha256_initialize` */
    method Initialize()
      requires block.Length == 64 && state.Length == 8
      modifies this, state
      ensures Valid() && message == []
    {
      hide Compress, CompressAll, Initial, HashOf, Bits;
      blockLength, totalBits, message := 0, 0, [];
      PutInitial(state);
      NothingHashed();
      assert message[..0] == [];
      assert block[..0] == [];
    }

    /** `sha256_transform` */
    method Transform()
      requires block.Length == 64 && state.Length == 8
      modifies state
      ensures HashOf(state[..]) == Compress(old(HashOf(state[..])), block[..])
    {
      hide Round, RoundConstant, Schedule, Add;
      var words := new word[64];
      var working := new word[8];
      FillSchedule(words, block);
      ghost var b, start := block[..], HashOf(state[..]);
      for i := 0 to 8
        modifies working
        invariant forall j :: 0 <= j < i ==> working[j] == state[j]
      {
        working[i] := state[i];
      }
      assert working[..] == state[..];
      for i := 0 to 64
        modifies working
        invariant HashOf(working[..]) == Rounds(start, b, i)
      {
        WorkRound(working, RoundConstant(i), words[i]);
      }
      ghost var before, r := state[..], working[..];
      for i := 0 to 8
        modifies state
        invariant forall j :: 0 <= j < i ==> state[j] == Add(before[j], r[j])
        invariant forall j :: i <= j < 8 ==> state[j] == before[j]
      {
        state[i] := Add(state[i], working[i]);
      }
    }

    /** One iteration of `sha256_update`. */
    method Absorb(b: byte)
      requires Valid()
      modifies this, block, state
      ensures Valid() && message == old(message) + [b]
    {
      hide CompressAll, HashOf, Bits;
      ghost var full := message[..|message| - blockLength];
      block[blockLength] := b;
      blockLength := blockLength + 1;
      message := message + [b];
      assert message[|full|..] == old(message[|message| - blockLength..]) + [b];
      assert block[..blockLength] == old(block[..blockLength]) + [b];
      assert message[..|full|] == full;
      if blockLength == 64 {
        Flush(full);
      }
    }

    /** The block is full. */
    method Flush(ghost full: seq<byte>)
      requires block.Length == 64 && state.Length == 8 && blockLength == 64
      requires |full| % 64 == 0 && message == full + block[..64] && HashOf(state[..]) == CompressAll(full)
      requires totalBits == Bits(|full|)
      modifies this, state
      ensures Valid() && message == old(message) && blockLength == 0
    {
      hide Compress, HashOf, Bits;
      BitsOfBlock(|full|);
      assert block[..64] == block[..];
      BlockDone(full, block[..], message);
      Transform();
      totalBits := (totalBits + 64 * 8) % TWO64;
      blockLength := 0;
    }

    /** `sha256_update` */
    method Update(input: seq<byte>)
      requires Valid()
      modifies this, block, state
      ensures Valid() && message == old(message) + input
    {
      hide CompressAll, HashOf;
      for i := 0 to |input|
        invariant Valid() && message == old(message) + input[..i]
      {
        Absorb(input[i]);
      }
    }

    /** `block[from..to]` is set to zero by one of the loops of `sha256_finalize`. */
    method ZeroFill(from: nat, to: nat)
      requires block.Length == 64 && from <= to <= 64
      modifies block
      ensures block[..] == old(block[..from]) + Zeros(to - from) + old(block[to..])
    {
      var index := from;
      while index < to
        invariant from <= index <= to
        invariant forall j :: 0 <= j < from || index <= j < 64 ==> block[j] == old(block[j])
        invariant forall j :: from <= j < index ==> block[j] == 0
      {
        block[index] := 0;
        index := index + 1;
      }
    }

    /** The last eight bytes of the block become the message length in bits. */
    method PutLength(bits: nat)
      requires block.Length == 64
      modifies block
      ensures block[..] == old(block[..56]) + LengthBytes(bits)
    {
      hide LengthByte;
      var index := 0;
      while index < 8
        invariant index <= 8
        invariant forall j :: 0 <= j < 64 - index ==> block[j] == old(block[j])
        invariant forall j :: 64 - index <= j < 64 ==> block[j] == LengthByte(bits, 63 - j)
      {
        block[63 - index] := LengthByte(bits, index);
        index := index + 1;
      }
    }

    /** The eight words of the state, most significant byte first. */
    method PutDigest() returns (digest: array<byte>)
      requires state.Length == 8
      ensures fresh(digest) && digest[..] == Digest(HashOf(state[..]))
    {
      hide ByteOf;
      digest := new byte[32];
      var index := 0;
      while index < 8
        modifies digest
        invariant index <= 8
        invariant forall j :: 0 <= j < 4 * index ==> digest[j] == ByteOf(state[j / 4], j % 4)
      {
        digest[index * 4] := ByteOf(state[index], 0);
        digest[index * 4 + 1] := ByteOf(state[index], 1);
        digest[index * 4 + 2] := ByteOf(state[index], 2);
        digest[index * 4 + 3] := ByteOf(state[index], 3);
        index := index + 1;
      }
    }

    /** The state is the hash of whole blocks. */
    ghost predicate Hashed(done: seq<byte>)
      reads state
    {
      state.Length == 8 && |done| % 64 == 0 && HashOf(state[..]) == CompressAll(done)
    }

    ghost function Full(): seq<byte>
      requires blockLength <= |message|
      reads this
    {
      message[..|message| - blockLength]
    }

    ghost function Tail(): (s: seq<byte>)
      requires blockLength <= |message|
      reads this
      ensures |s| == blockLength
    {
      message[|message| - blockLength..]
    }

    /** `sha256_finalize`, first part: the 1 bit, and a block of its own if the length does not fit. */
    method StartPadding() returns (index: nat, ghost done: seq<byte>)
      requires Valid()
      modifies block, state
      ensures index == if blockLength + 1 > 56 then 0 else blockLength + 1
      ensures done == if blockLength + 1 > 56 then Full() + MarkedBlock(Tail()) else Full()
      ensures index > 0 ==> block[..index] == Tail() + [0x80]
      ensures Hashed(done)
    {
      hide Compress, CompressAll, HashOf, Bits;
      done := Full();
      index := blockLength;
      block[index] := 0x80;
      index := index + 1;
      assert block[..index] == Tail() + [0x80];
      if index > 56 {
        ZeroFill(index, 64);
        assert block[..] == MarkedBlock(Tail());
        BlockDone(Full(), block[..], Full() + block[..]);
        done := Full() + block[..];
        Transform();
        index := 0;
      }
    }

    /** `sha256_finalize`, second part: zeros, the length, and the last block. */
    method EndPadding(index: nat, bits: nat, ghost done: seq<byte>)
      requires block.Length == 64 && index <= 56
      requires Hashed(done)
      modifies block, state
      ensures Hashed(done + LastBlock(old(block[..index]), bits))
    {
      hide Compress, CompressAll, HashOf, LengthBytes;
      ghost var start := block[..index];
      ZeroFill(index, 56);
      assert block[..56] == start + Zeros(56 - index);
      PutLength(bits);
      assert block[..] == LastBlock(start, bits);
      BlockDone(done, block[..], done + block[..]);
      Transform();
    }

    /** `sha256_finalize` */
    method Finalize() returns (digest: array<byte>)
      requires Valid() && 8 * |message| < TWO64
      modifies this, block, state
      ensures fresh(digest) && digest[..] == MessageDigest(message) && message == old(message)
    {
      hide Compress, CompressAll, HashOf, Digest, LengthBytes, Pad, Bits;
      var bits := (totalBits + blockLength * 8) % TWO64;
      BitsFit(|message| - blockLength, blockLength);
      var index, done := StartPadding();
      PaddingEnds(message, blockLength, done, block[..index]);
      EndPadding(index, bits, done);
      digest := PutDigest();
    }
  }

  function MarkedBlock(tail: seq<byte>): (s: seq<byte>)
    requires |tail| < 64
    ensures |s| == 64
  {
    tail + [0x80] + Zeros(63 - |tail|)
  }

  function LastBlock(start: seq<byte>, bits: nat): (s: seq<byte>)
    requires |start| <= 56
    ensures |s| == 64
  {
    start + Zeros(56 - |start|) + LengthBytes(bits)
  }

  lemma NothingHashed()
    ensures CompressAll([]) == Initial() && Bits(0) == 0
  {
    hide Compress;
  }

  lemma BlockDone(full: seq<byte>, block: seq<byte>, message: seq<byte>)
    requires |full| % 64 == 0 && |block| == 64 && message == full + block
    ensures |message| % 64 == 0 && CompressAll(message) == Compress(CompressAll(full), block)
    ensures message[..|message|] == message && message[|message|..] == []
  {
    hide Compress;
    assert message[..|message| - 64] == full && message[|message| - 64..] == block;
  }

  /** The two byte counters together hold the message length without wrap-around. */
  lemma BitsFit(full: nat, rest: nat)
    requires 8 * (full + rest) < TWO64
    ensures (Bits(full) + rest * 8) % TWO64 == 8 * (full + rest)
  {
  }

  /** The one or two blocks that `sha256_finalize` builds are the rest of the padded message. */
  lemma PaddingEnds(message: seq<byte>, length: nat, done: seq<byte>, start: seq<byte>)
    requires length < 64 && length <= |message| && (|message| - length) % 64 == 0
    requires var full, tail := message[..|message| - length], message[|message| - length..];
             if length + 1 > 56
             then done == full + MarkedBlock(tail) && start == []
             else done == full && start == tail + [0x80]
    ensures done + LastBlock(start, 8 * |message|) == Pad(message)
  {
    hide LengthBytes;
    assert message == message[..|message| - length] + message[|message| - length..];
    if length + 1 > 56 {
      assert ZeroCount(|message|) == 119 - length;
      assert Zeros(119 - length) == Zeros(63 - length) + Zeros(56);
    } else {
      assert ZeroCount(|message|) == 55 - length;
    }
  }

  // Whole digests

  function Flatten(chunks: seq<seq<byte>>): seq<byte> {
    if chunks == [] then [] else Flatten(chunks[..|chunks| - 1]) + chunks[|chunks| - 1]
  }

  /** However a message is cut into updates, the digest is the one of the whole message. */
  method DigestOf(chunks: seq<seq<byte>>) returns (digest: seq<byte>)
    requires 8 * |Flatten(chunks)| < TWO64
    ensures digest == MessageDigest(Flatten(chunks))
  {
    hide MessageDigest, Context.Valid;
    var context := new Context();
    context.Initialize();
    for i := 0 to |chunks|
      invariant context.Valid() && fresh(context) && fresh(context.block) && fresh(context.state)
      invariant context.message == Flatten(chunks[..i])
    {
      assert chunks[..i + 1][..i] == chunks[..i];
      context.Update(chunks[i]);
    }
    assert chunks[..|chunks|] == chunks;
    var d := context.Finalize();
    digest := d[..];
  }

  // The object identifier

  const DOMAIN: string := "linux-ext4-file-handle-sha256-v1"

  function DomainBytes(): (s: seq<byte>)
    ensures |s| == 33
  {
    seq(32, i requires 0 <= i < 32 => CharByte(DOMAIN[i])) + [0]
  }

  function CharByte(c: char): byte {
    if (c as int) < 256 then c as int else 0
  }

  /** A word, most significant byte first. */
  function WordBytes(handleType: word): seq<byte> {
    [ByteOf(handleType, 0), ByteOf(handleType, 1), ByteOf(handleType, 2), ByteOf(handleType, 3)]
  }

  function Preimage(uuid: seq<byte>, handleType: word, handle: seq<byte>): seq<byte> {
    DomainBytes() + uuid + WordBytes(handleType) + handle
  }

  lemma BytesDetermineWord(x: word)
    ensures WordOf(ByteOf(x, 0), ByteOf(x, 1), ByteOf(x, 2), ByteOf(x, 3)) == x
  {
    assert Pow256(1) == 256 && Pow256(2) == 0x1_0000 && Pow256(3) == 0x100_0000;
    assert x / 0x1_0000 == x / 0x100 / 0x100 && x / 0x100_0000 == x / 0x1_0000 / 0x100;
  }

  /** Two files get the same hash input only if filesystem, handle type and handle are the same. */
  lemma PreimageIsInjective(uuid: seq<byte>, handleType: word, handle: seq<byte>,
                            uuid': seq<byte>, handleType': word, handle': seq<byte>)
    requires |uuid| == 16 && |uuid'| == 16
    requires Preimage(uuid, handleType, handle) == Preimage(uuid', handleType', handle')
    ensures uuid == uuid' && handleType == handleType' && handle == handle'
  {
    hide DomainBytes, ByteOf, WordOf;
    var p := Preimage(uuid, handleType, handle);
    assert p[33..49] == uuid && p[49..53] == WordBytes(handleType) && p[53..] == handle;
    assert p[33..49] == uuid' && p[49..53] == WordBytes(handleType') && p[53..] == handle';
    BytesDetermineWord(handleType);
    BytesDetermineWord(handleType');
    assert forall k :: 0 <= k < 4 ==> WordBytes(handleType)[k] == WordBytes(handleType')[k];
  }

  function Hex(bytes: seq<byte>): string {
    seq(2 * |bytes|, i requires 0 <= i < 2 * |bytes| =>
          if i % 2 == 0 then HexDigit(bytes[i / 2] / 16) else HexDigit(bytes[i / 2] % 16))
  }

  /** `build_object_id`: four updates, one digest, in hexadecimal. */
  method BuildObjectId(uuid: seq<byte>, handleType: word, handle: seq<byte>) returns (id: string)
    requires |uuid| == 16 && |handle| <= 128
    ensures id == "ext4fh1:" + Hex(MessageDigest(Preimage(uuid, handleType, handle)))
  {
    hide MessageDigest, Preimage;
    var digest := HashPreimage(uuid, handleType, handle);
    id := "ext4fh1:";
    for i := 0 to |digest|
      invariant |id| == 8 + 2 * i && id[..8] == "ext4fh1:"
      invariant forall j :: 0 <= j < 2 * i ==>
                  id[8 + j] == if j % 2 == 0 then HexDigit(digest[j / 2] / 16) else HexDigit(digest[j / 2] % 16)
    {
      id := id + [HexDigit(digest[i] / 16), HexDigit(digest[i] % 16)];
    }
    assert id == id[..8] + id[8..];
    assert id[8..] == Hex(digest);
  }

  method HashPreimage(uuid: seq<byte>, handleType: word, handle: seq<byte>) returns (digest: seq<byte>)
    requires |uuid| == 16 && |handle| <= 128
    ensures digest == MessageDigest(Preimage(uuid, handleType, handle))
  {
    hide MessageDigest, DomainBytes, WordBytes;
    var chunks := [DomainBytes(), uuid, WordBytes(handleType), handle];
    assert Flatten(chunks) == Preimage(uuid, handleType, handle) by {
      FlattenFour(chunks[0], chunks[1], chunks[2], chunks[3]);
    }
    assert |Preimage(uuid, handleType, handle)| == 53 + |handle| by {
      WordLength(handleType);
    }
    digest := DigestOf(chunks);
  }

  lemma WordLength(handleType: word)
    ensures |WordBytes(handleType)| == 4
  {
  }

  lemma FlattenFour(a: seq<byte>, b: seq<byte>, c: seq<byte>, d: seq<byte>)
    ensures Flatten([a, b, c, d]) == a + b + c + d
  {
    assert [a, b, c, d][..3] == [a, b, c];
    assert [a, b, c][..2] == [a, b];
    assert [a, b][..1] == [a];
    assert [a][..0] == [];
    assert Flatten([a]) == a;
    assert Flatten([a, b]) == a + b;
    assert Flatten([a, b, c]) == a + b + c;
  }
}
