/**
  The digest of the message "abc", the first example that is published with SHA-256. All the
  functions and constants of module Sha256 and the order of all its words take part in it. The
  schedule and the rounds are followed number by number.
 */
module Sha256Example {
  import opened Bytes
  import opened Sha256
  import opened WordLaws
  import opened BitVectors
  import opened MachineWords
  import Sha256Stream

  // The message

  function Abc(): seq<byte> { [0x61, 0x62, 0x63] }

  /** The padded message, one block. */
  function AbcBlock(): (s: seq<byte>)
    ensures |s| == 64
  {
    Abc() + [0x80] + Zeros(59) + [24]
  }

  /** The working variables after `t` rounds. */
  predicate At(t: int, s: Hash) {
    0 <= t <= 64 && Rounds(Initial(), AbcBlock(), t) == s
  }

  /** Word `t` of the schedule. */
  predicate Planned(t: int, w: word) {
    0 <= t < 64 && Schedule(AbcBlock(), t) == w
  }

  /** The next round, from vectors that hold the working variables and the carries of its sums. */
  lemma NextRound(t: nat, s: Hash, k: word, w: word, a: Bits, b: Bits, c: Bits, e: Bits, f: Bits, g: Bits,
                  s0: word, most: word, s1: word, choice: word, cx: nat, x: word, cy: nat, y: word)
    requires t < 64 && At(t, s)
    requires RoundConstant(t) == k && Planned(t, w)
    requires Holds(a, s.a) && Holds(b, s.b) && Holds(c, s.c) && Holds(e, s.e) && Holds(f, s.f) && Holds(g, s.g)
    requires Value(Big0(a)) == s0 && Value(Most(a, b, c)) == most
    requires Value(Big1(e)) == s1 && Value(Choice(e, f, g)) == choice
    requires s.h + s1 + choice + k + w + s0 + most == x + cx * TWO32
    requires s.d + s.h + s1 + choice + k + w == y + cy * TWO32
    ensures At(t + 1, Hash(x, s.a, s.b, s.c, y, s.e, s.f, s.g))
  {
    hide BigSigma0, BigSigma1, Choose, Majority, Round, Value, Holds, Big0, Big1, Choice, Most;
    hide Initial, Schedule, RoundConstant, AbcBlock;
    BigsHeld(a, e, s.a, s.e, s0, s1);
    ChoiceHeld(e, f, g, s.e, s.f, s.g, choice);
    MostHeld(a, b, c, s.a, s.b, s.c, most);
    RoundOf(s, k, w, s0, most, s1, choice, cx, x, cy, y);
  }

  /** The next word of the schedule, from the vectors that hold words `t - 15` and `t - 2`. */
  lemma NextWord(t: int, w16: word, w15: word, w7: word, w2: word, u: Bits, v: Bits, s0: word, s1: word,
                 carry: nat, w: word)
    requires 16 <= t < 64
    requires Planned(t - 16, w16) && Planned(t - 15, w15) && Planned(t - 7, w7) && Planned(t - 2, w2)
    requires Holds(u, w15) && Holds(v, w2) && Value(Small0(u)) == s0 && Value(Small1(v)) == s1
    requires s1 + w7 + s0 + w16 == w + carry * TWO32
    ensures Planned(t, w)
  {
    hide SmallSigma0, SmallSigma1, Value, Holds, Small0, Small1, AbcBlock, Add, WordOf;
    SmallsHeld(u, v, w15, w2, s0, s1);
    AddFour(s1, w7, s0, w16);
    Carried(s1 + w7 + s0 + w16, carry, w);
  }

  // The schedule

  predicate Words0To7() {
    hide Planned;
    && Planned(0, 0x61626380)
    && Planned(1, 0x00000000)
    && Planned(2, 0x00000000)
    && Planned(3, 0x00000000)
    && Planned(4, 0x00000000)
    && Planned(5, 0x00000000)
    && Planned(6, 0x00000000)
    && Planned(7, 0x00000000)
  }

  predicate Words8To15() {
    hide Planned;
    && Planned(8, 0x00000000)
    && Planned(9, 0x00000000)
    && Planned(10, 0x00000000)
    && Planned(11, 0x00000000)
    && Planned(12, 0x00000000)
    && Planned(13, 0x00000000)
    && Planned(14, 0x00000000)
    && Planned(15, 0x00000018)
  }

  predicate Words16To23() {
    hide Planned;
    && Planned(16, 0x61626380)
    && Planned(17, 0x000f0000)
    && Planned(18, 0x7da86405)
    && Planned(19, 0x600003c6)
    && Planned(20, 0x3e9d7b78)
    && Planned(21, 0x0183fc00)
    && Planned(22, 0x12dcbfdb)
    && Planned(23, 0xe2e2c38e)
  }

  predicate Words24To31() {
    hide Planned;
    && Planned(24, 0xc8215c1a)
    && Planned(25, 0xb73679a2)
    && Planned(26, 0xe5bc3909)
    && Planned(27, 0x32663c5b)
    && Planned(28, 0x9d209d67)
    && Planned(29, 0xec8726cb)
    && Planned(30, 0x702138a4)
    && Planned(31, 0xd3b7973b)
  }

  predicate Words32To39() {
    hide Planned;
    && Planned(32, 0x93f5997f)
    && Planned(33, 0x3b68ba73)
    && Planned(34, 0xaff4ffc1)
    && Planned(35, 0xf10a5c62)
    && Planned(36, 0x0a8b3996)
    && Planned(37, 0x72af830a)
    && Planned(38, 0x9409e33e)
    && Planned(39, 0x24641522)
  }

  predicate Words40To47() {
    hide Planned;
    && Planned(40, 0x9f47bf94)
    && Planned(41, 0xf0a64f5a)
    && Planned(42, 0x3e246a79)
    && Planned(43, 0x27333ba3)
    && Planned(44, 0x0c4763f2)
    && Planned(45, 0x840abf27)
    && Planned(46, 0x7a290d5d)
    && Planned(47, 0x065c43da)
  }

  predicate Words48To55() {
    hide Planned;
    && Planned(48, 0xfb3e89cb)
    && Planned(49, 0xcc7617db)
    && Planned(50, 0xb9e66c34)
    && Planned(51, 0xa9993667)
    && Planned(52, 0x84badedd)
    && Planned(53, 0xc21462bc)
    && Planned(54, 0x1487472c)
    && Planned(55, 0xb20f7a99)
  }

  predicate Words56To63() {
    hide Planned;
    && Planned(56, 0xef57b9cd)
    && Planned(57, 0xebe6b238)
    && Planned(58, 0x9fe3095e)
    && Planned(59, 0x78bc8d4b)
    && Planned(60, 0xa43fcf15)
    && Planned(61, 0x668b2ff8)
    && Planned(62, 0xeeaba2cc)
    && Planned(63, 0x12b1edeb)
  }

  lemma BlockBytes()
    ensures AbcBlock()[0] == 0x61 && AbcBlock()[1] == 0x62 && AbcBlock()[2] == 0x63 && AbcBlock()[3] == 0x80
    ensures forall i :: 4 <= i < 63 ==> AbcBlock()[i] == 0
    ensures AbcBlock()[63] == 24
  {
  }

  lemma BlockWord(t: int, b0: byte, b1: byte, b2: byte, b3: byte)
    requires 0 <= t < 16
    requires AbcBlock()[4 * t] == b0 && AbcBlock()[4 * t + 1] == b1
    requires AbcBlock()[4 * t + 2] == b2 && AbcBlock()[4 * t + 3] == b3
    ensures Planned(t, WordOf(b0, b1, b2, b3))
  {
    hide AbcBlock, WordOf;
  }

  lemma ZeroWord(t: int)
    requires 1 <= t < 15
    ensures Planned(t, 0)
  {
    BlockBytes();
    hide AbcBlock, Planned;
    BlockWord(t, 0, 0, 0, 0);
  }

  lemma FirstWords()
    ensures Words0To7() && Words8To15()
  {
    BlockBytes();
    hide AbcBlock, Planned;
    BlockWord(0, 0x61, 0x62, 0x63, 0x80);
    BlockWord(15, 0, 0, 0, 24);
    ZeroWord(1);
    ZeroWord(2);
    ZeroWord(3);
    ZeroWord(4);
    ZeroWord(5);
    ZeroWord(6);
    ZeroWord(7);
    ZeroWord(8);
    ZeroWord(9);
    ZeroWord(10);
    ZeroWord(11);
    ZeroWord(12);
    ZeroWord(13);
    ZeroWord(14);
  }

  lemma Plan16To23()
    ensures Words16To23()
  {
    hide Planned;
    FirstWords();
    assert Planned(16, 0x61626380) by {
      NextWord(16, 0x61626380, 0x00000000, 0x00000000, 0x00000000,
               0x00000000, 0x00000000, 0x00000000, 0x00000000, 0, 0x61626380);
    }
    assert Planned(17, 0x000f0000) by {
      NextWord(17, 0x00000000, 0x00000000, 0x00000000, 0x00000018,
               0x00000000, 0x00000018, 0x00000000, 0x000f0000, 0, 0x000f0000);
    }
    assert Planned(18, 0x7da86405) by {
      NextWord(18, 0x00000000, 0x00000000, 0x00000000, 0x61626380,
               0x00000000, 0x61626380, 0x00000000, 0x7da86405, 0, 0x7da86405);
    }
    assert Planned(19, 0x600003c6) by {
      NextWord(19, 0x00000000, 0x00000000, 0x00000000, 0x000f0000,
               0x00000000, 0x000f0000, 0x00000000, 0x600003c6, 0, 0x600003c6);
    }
    assert Planned(20, 0x3e9d7b78) by {
      NextWord(20, 0x00000000, 0x00000000, 0x00000000, 0x7da86405,
               0x00000000, 0x7da86405, 0x00000000, 0x3e9d7b78, 0, 0x3e9d7b78);
    }
    assert Planned(21, 0x0183fc00) by {
      NextWord(21, 0x00000000, 0x00000000, 0x00000000, 0x600003c6,
               0x00000000, 0x600003c6, 0x00000000, 0x0183fc00, 0, 0x0183fc00);
    }
    assert Planned(22, 0x12dcbfdb) by {
      NextWord(22, 0x00000000, 0x00000000, 0x00000018, 0x3e9d7b78,
               0x00000000, 0x3e9d7b78, 0x00000000, 0x12dcbfc3, 0, 0x12dcbfdb);
    }
    assert Planned(23, 0xe2e2c38e) by {
      NextWord(23, 0x00000000, 0x00000000, 0x61626380, 0x0183fc00,
               0x00000000, 0x0183fc00, 0x00000000, 0x8180600e, 0, 0xe2e2c38e);
    }
  }

  lemma Plan24To31()
    ensures Words24To31()
  {
    hide Planned;
    FirstWords();
    Plan16To23();
    assert Planned(24, 0xc8215c1a) by {
      NextWord(24, 0x00000000, 0x00000000, 0x000f0000, 0x12dcbfdb,
               0x00000000, 0x12dcbfdb, 0x00000000, 0xc8125c1a, 0, 0xc8215c1a);
    }
    assert Planned(25, 0xb73679a2) by {
      NextWord(25, 0x00000000, 0x00000000, 0x7da86405, 0xe2e2c38e,
               0x00000000, 0xe2e2c38e, 0x00000000, 0x398e159d, 0, 0xb73679a2);
    }
    assert Planned(26, 0xe5bc3909) by {
      NextWord(26, 0x00000000, 0x00000000, 0x600003c6, 0xc8215c1a,
               0x00000000, 0xc8215c1a, 0x00000000, 0x85bc3543, 0, 0xe5bc3909);
    }
    assert Planned(27, 0x32663c5b) by {
      NextWord(27, 0x00000000, 0x00000000, 0x3e9d7b78, 0xb73679a2,
               0x00000000, 0xb73679a2, 0x00000000, 0xf3c8c0e3, 1, 0x32663c5b);
    }
    assert Planned(28, 0x9d209d67) by {
      NextWord(28, 0x00000000, 0x00000000, 0x0183fc00, 0xe5bc3909,
               0x00000000, 0xe5bc3909, 0x00000000, 0x9b9ca167, 0, 0x9d209d67);
    }
    assert Planned(29, 0xec8726cb) by {
      NextWord(29, 0x00000000, 0x00000000, 0x12dcbfdb, 0x32663c5b,
               0x00000000, 0x32663c5b, 0x00000000, 0xd9aa66f0, 0, 0xec8726cb);
    }
    assert Planned(30, 0x702138a4) by {
      NextWord(30, 0x00000000, 0x00000018, 0xe2e2c38e, 0x9d209d67,
               0x00000018, 0x9d209d67, 0x30060003, 0x5d387513, 1, 0x702138a4);
    }
    assert Planned(31, 0xd3b7973b) by {
      NextWord(31, 0x00000018, 0x61626380, 0xc8215c1a, 0xec8726cb,
               0x61626380, 0xec8726cb, 0x940e90ef, 0x7787aa1a, 1, 0xd3b7973b);
    }
  }

  lemma Plan32To39()
    ensures Words32To39()
  {
    hide Planned;
    Plan16To23();
    Plan24To31();
    assert Planned(32, 0x93f5997f) by {
      NextWord(32, 0x61626380, 0x000f0000, 0xb73679a2, 0x702138a4,
               0x000f0000, 0x702138a4, 0xc001fe03, 0xbb5abe5a, 2, 0x93f5997f);
    }
    assert Planned(33, 0x3b68ba73) by {
      NextWord(33, 0x000f0000, 0x7da86405, 0xe5bc3909, 0xd3b7973b,
               0x7da86405, 0xd3b7973b, 0x1c4f0322, 0x394e7e48, 1, 0x3b68ba73);
    }
    assert Planned(34, 0xaff4ffc1) by {
      NextWord(34, 0x7da86405, 0x600003c6, 0x32663c5b, 0x93f5997f,
               0x600003c6, 0x93f5997f, 0x8031987f, 0x7fb4c6e2, 1, 0xaff4ffc1);
    }
    assert Planned(35, 0xf10a5c62) by {
      NextWord(35, 0x600003c6, 0x3e9d7b78, 0x9d209d67, 0x3b68ba73,
               0x3e9d7b78, 0x3b68ba73, 0xa9709a3e, 0x4a7920f7, 1, 0xf10a5c62);
    }
    assert Planned(36, 0x0a8b3996) by {
      NextWord(36, 0x3e9d7b78, 0x0183fc00, 0xec8726cb, 0xaff4ffc1,
               0x0183fc00, 0xaff4ffc1, 0xff337818, 0xe0331f3b, 3, 0x0a8b3996);
    }
    assert Planned(37, 0x72af830a) by {
      NextWord(37, 0x0183fc00, 0x12dcbfdb, 0x702138a4, 0xf10a5c62,
               0x12dcbfdb, 0xf10a5c62, 0x9b88ea33, 0x65816433, 1, 0x72af830a);
    }
    assert Planned(38, 0x9409e33e) by {
      NextWord(38, 0x12dcbfdb, 0xe2e2c38e, 0xd3b7973b, 0x0a8b3996,
               0xe2e2c38e, 0x0a8b3996, 0xb17a254e, 0xfbfb66da, 2, 0x9409e33e);
    }
    assert Planned(39, 0x24641522) by {
      NextWord(39, 0xe2e2c38e, 0xc8215c1a, 0x93f5997f, 0x72af830a,
               0xc8215c1a, 0x72af830a, 0x7b92db33, 0x31f8dce2, 2, 0x24641522);
    }
  }

  lemma Plan40To47()
    ensures Words40To47()
  {
    hide Planned;
    Plan24To31();
    Plan32To39();
    assert Planned(40, 0x9f47bf94) by {
      NextWord(40, 0xc8215c1a, 0xb73679a2, 0x3b68ba73, 0x9409e33e,
               0xb73679a2, 0x9409e33e, 0xcde00e0a, 0xcddd9afd, 2, 0x9f47bf94);
    }
    assert Planned(41, 0xf0a64f5a) by {
      NextWord(41, 0xb73679a2, 0xe5bc3909, 0xaff4ffc1, 0x24641522,
               0xe5bc3909, 0x24641522, 0x013e863c, 0x883c4fbb, 1, 0xf0a64f5a);
    }
    assert Planned(42, 0x3e246a79) by {
      NextWord(42, 0xe5bc3909, 0x32663c5b, 0xf10a5c62, 0x9f47bf94,
               0x32663c5b, 0x9f47bf94, 0x3f3ec76a, 0x281f0da4, 2, 0x3e246a79);
    }
    assert Planned(43, 0x27333ba3) by {
      NextWord(43, 0x32663c5b, 0x9d209d67, 0x0a8b3996, 0xf0a64f5a,
               0x9d209d67, 0xf0a64f5a, 0xfbc7b5de, 0xee7a0fd4, 2, 0x27333ba3);
    }
    assert Planned(44, 0x0c4763f2) by {
      NextWord(44, 0x9d209d67, 0xec8726cb, 0x72af830a, 0x3e246a79,
               0xec8726cb, 0x3e246a79, 0x43fb11b5, 0xb87c31cc, 2, 0x0c4763f2);
    }
    assert Planned(45, 0x840abf27) by {
      NextWord(45, 0xec8726cb, 0x702138a4, 0x9409e33e, 0x27333ba3,
               0x702138a4, 0x27333ba3, 0x08cd796d, 0xfaac3bb1, 2, 0x840abf27);
    }
    assert Planned(46, 0x7a290d5d) by {
      NextWord(46, 0x702138a4, 0xd3b7973b, 0x24641522, 0x0c4763f2,
               0xd3b7973b, 0x0c4763f2, 0x881f6924, 0x5d845673, 1, 0x7a290d5d);
    }
    assert Planned(47, 0x065c43da) by {
      NextWord(47, 0xd3b7973b, 0x93f5997f, 0x9f47bf94, 0x840abf27,
               0x93f5997f, 0x840abf27, 0x8b06bce0, 0x0856302b, 2, 0x065c43da);
    }
  }

  lemma Plan48To55()
    ensures Words48To55()
  {
    hide Planned;
    Plan32To39();
    Plan40To47();
    assert Planned(48, 0xfb3e89cb) by {
      NextWord(48, 0x93f5997f, 0x3b68ba73, 0xf0a64f5a, 0x7a290d5d,
               0x3b68ba73, 0x7a290d5d, 0xcf8708e0, 0xa71b9812, 2, 0xfb3e89cb);
    }
    assert Planned(49, 0xcc7617db) by {
      NextWord(49, 0x3b68ba73, 0xaff4ffc1, 0x3e246a79, 0x065c43da,
               0xaff4ffc1, 0x065c43da, 0xa9511dfa, 0xa997d4f5, 1, 0xcc7617db);
    }
    assert Planned(50, 0xb9e66c34) by {
      NextWord(50, 0xaff4ffc1, 0xf10a5c62, 0x27333ba3, 0xfb3e89cb,
               0xf10a5c62, 0xfb3e89cb, 0x4cdbe376, 0x95e24d5a, 1, 0xb9e66c34);
    }
    assert Planned(51, 0xa9993667) by {
      NextWord(51, 0xf10a5c62, 0x0a8b3996, 0x0c4763f2, 0xcc7617db,
               0x0a8b3996, 0xcc7617db, 0xe321f3e3, 0xc9258230, 2, 0xa9993667);
    }
    assert Planned(52, 0x84badedd) by {
      NextWord(52, 0x0a8b3996, 0x72af830a, 0x840abf27, 0xb9e66c34,
               0x72af830a, 0xb9e66c34, 0xfa7233cc, 0xfbb2b254, 2, 0x84badedd);
    }
    assert Planned(53, 0xc21462bc) by {
      NextWord(53, 0x72af830a, 0x9409e33e, 0x7a290d5d, 0xa9993667,
               0x9409e33e, 0xa9993667, 0x17668aa3, 0xbdd547b2, 1, 0xc21462bc);
    }
    assert Planned(54, 0x1487472c) by {
      NextWord(54, 0x9409e33e, 0x24641522, 0x065c43da, 0x84badedd,
               0x24641522, 0x84badedd, 0x458cc397, 0x34945c7d, 1, 0x1487472c);
    }
    assert Planned(55, 0xb20f7a99) by {
      NextWord(55, 0x24641522, 0x9f47bf94, 0xfb3e89cb, 0xc21462bc,
               0x9f47bf94, 0xc21462bc, 0xd5335f5c, 0xbd397c50, 2, 0xb20f7a99);
    }
  }

  lemma Plan56To63()
    ensures Words56To63()
  {
    hide Planned;
    Plan40To47();
    Plan48To55();
    assert Planned(56, 0xef57b9cd) by {
      NextWord(56, 0x9f47bf94, 0xf0a64f5a, 0xcc7617db, 0x1487472c,
               0xf0a64f5a, 0x1487472c, 0x3823395c, 0x4b76a902, 1, 0xef57b9cd);
    }
    assert Planned(57, 0xebe6b238) by {
      NextWord(57, 0xf0a64f5a, 0x3e246a79, 0xb9e66c34, 0xb20f7a99,
               0x3e246a79, 0xb20f7a99, 0xef268a12, 0x52336c98, 2, 0xebe6b238);
    }
    assert Planned(58, 0x9fe3095e) by {
      NextWord(58, 0x3e246a79, 0x27333ba3, 0xa9993667, 0xef57b9cd,
               0x27333ba3, 0xef57b9cd, 0x8c40c8cf, 0x2be49faf, 1, 0x9fe3095e);
    }
    assert Planned(59, 0x78bc8d4b) by {
      NextWord(59, 0x27333ba3, 0x0c4763f2, 0x84badedd, 0xebe6b238,
               0x0c4763f2, 0xebe6b238, 0x3d6ce1a8, 0x8f619123, 1, 0x78bc8d4b);
    }
    assert Planned(60, 0xa43fcf15) by {
      NextWord(60, 0x0c4763f2, 0x840abf27, 0xc21462bc, 0x9fe3095e,
               0x840abf27, 0x9fe3095e, 0xf040a398, 0xe5a364cf, 2, 0xa43fcf15);
    }
    assert Planned(61, 0x668b2ff8) by {
      NextWord(61, 0x840abf27, 0x7a290d5d, 0x1487472c, 0x78bc8d4b,
               0x7a290d5d, 0x78bc8d4b, 0xf6e62d3b, 0xd712fc6a, 2, 0x668b2ff8);
    }
    assert Planned(62, 0xeeaba2cc) by {
      NextWord(62, 0x7a290d5d, 0x065c43da, 0xb20f7a99, 0xa43fcf15,
               0x065c43da, 0xa43fcf15, 0xa431b16b, 0x1e41696b, 1, 0xeeaba2cc);
    }
    assert Planned(63, 0x12b1edeb) by {
      NextWord(63, 0x065c43da, 0xfb3e89cb, 0xef57b9cd, 0x668b2ff8,
               0xfb3e89cb, 0x668b2ff8, 0x2ae352e5, 0xf21a9d5f, 2, 0x12b1edeb);
    }
  }

  // The rounds

  lemma NoRound()
    ensures StateAt0()
  {
    hide AbcBlock;
  }

  predicate StateAt0() {
    hide At;
    At(0, Hash(0x6a09e667, 0xbb67ae85, 0x3c6ef372, 0xa54ff53a, 0x510e527f, 0x9b05688c, 0x1f83d9ab, 0x5be0cd19))
  }

  lemma RoundsTo4()
    ensures StateAt4()
  {
    hide Planned, At;
    NoRound();
    FirstWords();
    assert At(1, Hash(0x5d6aebcd, 0x6a09e667, 0xbb67ae85, 0x3c6ef372,
                      0xfa2a4622, 0x510e527f, 0x9b05688c, 0x1f83d9ab)) by {
      NextRound(0, Hash(0x6a09e667, 0xbb67ae85, 0x3c6ef372, 0xa54ff53a,
                         0x510e527f, 0x9b05688c, 0x1f83d9ab, 0x5be0cd19),
                0x428a2f98, 0x61626380, 0x6a09e667, 0xbb67ae85, 0x3c6ef372,
                0x510e527f, 0x9b05688c, 0x1f83d9ab, 0xce20b47e, 0x3a6fe667, 0x3587272b, 0x1f85c98c,
                2, 0x5d6aebcd, 1, 0xfa2a4622);
    }
    assert At(2, Hash(0x5a6ad9ad, 0x5d6aebcd, 0x6a09e667, 0xbb67ae85,
                      0x78ce7989, 0xfa2a4622, 0x510e527f, 0x9b05688c)) by {
      NextRound(1, Hash(0x5d6aebcd, 0x6a09e667, 0xbb67ae85, 0x3c6ef372,
                         0xfa2a4622, 0x510e527f, 0x9b05688c, 0x1f83d9ab),
                0x71374491, 0x00000000, 0x5d6aebcd, 0x6a09e667, 0xbb67ae85,
                0xfa2a4622, 0x510e527f, 0x9b05688c, 0xa29f64d1, 0x7b6beec5, 0x5a94fd2d, 0x510f6aae,
                2, 0x5a6ad9ad, 1, 0x78ce7989);
    }
    assert At(3, Hash(0xc8c347a7, 0x5a6ad9ad, 0x5d6aebcd, 0x6a09e667,
                      0xf92939eb, 0x78ce7989, 0xfa2a4622, 0x510e527f)) by {
      NextRound(2, Hash(0x5a6ad9ad, 0x5d6aebcd, 0x6a09e667, 0xbb67ae85,
                         0x78ce7989, 0xfa2a4622, 0x510e527f, 0x9b05688c),
                0xb5c0fbcf, 0x00000000, 0x5a6ad9ad, 0x5d6aebcd, 0x6a09e667,
                0x78ce7989, 0xfa2a4622, 0x510e527f, 0x3096d054, 0x5a6aebed, 0x73f0e495, 0x790a4276,
                2, 0xc8c347a7, 2, 0xf92939eb);
    }
    assert At(4, Hash(0xd550f666, 0xc8c347a7, 0x5a6ad9ad, 0x5d6aebcd,
                      0x24e00850, 0xf92939eb, 0x78ce7989, 0xfa2a4622)) by {
      NextRound(3, Hash(0xc8c347a7, 0x5a6ad9ad, 0x5d6aebcd, 0x6a09e667,
                         0xf92939eb, 0x78ce7989, 0xfa2a4622, 0x510e527f),
                0xe9b5dba5, 0x00000000, 0xc8c347a7, 0x5a6ad9ad, 0x5d6aebcd,
                0xf92939eb, 0x78ce7989, 0xfa2a4622, 0xc21008d0, 0x586acbad, 0x0607743c, 0x7a0a7f89,
                2, 0xd550f666, 2, 0x24e00850);
    }
  }

  predicate StateAt4() {
    hide At;
    At(4, Hash(0xd550f666, 0xc8c347a7, 0x5a6ad9ad, 0x5d6aebcd, 0x24e00850, 0xf92939eb, 0x78ce7989, 0xfa2a4622))
  }

  lemma RoundsTo8()
    ensures StateAt8()
  {
    hide Planned, At;
    RoundsTo4();
    FirstWords();
    assert At(5, Hash(0x04409a6a, 0xd550f666, 0xc8c347a7, 0x5a6ad9ad,
                      0x43ada245, 0x24e00850, 0xf92939eb, 0x78ce7989)) by {
      NextRound(4, Hash(0xd550f666, 0xc8c347a7, 0x5a6ad9ad, 0x5d6aebcd,
                         0x24e00850, 0xf92939eb, 0x78ce7989, 0xfa2a4622),
                0x3956c25b, 0x00000000, 0xd550f666, 0xc8c347a7, 0x5a6ad9ad,
                0x24e00850, 0xf92939eb, 0x78ce7989, 0x45bb0c4b, 0xd842d7a7, 0x3a933432, 0x782e79c9,
                3, 0x04409a6a, 2, 0x43ada245);
    }
    assert At(6, Hash(0x2b4209f5, 0x04409a6a, 0xd550f666, 0xc8c347a7,
                      0x714260ad, 0x43ada245, 0x24e00850, 0xf92939eb)) by {
      NextRound(5, Hash(0x04409a6a, 0xd550f666, 0xc8c347a7, 0x5a6ad9ad,
                         0x43ada245, 0x24e00850, 0xf92939eb, 0x78ce7989),
                0x59f111f1, 0x00000000, 0x04409a6a, 0xd550f666, 0xc8c347a7,
                0x43ada245, 0x24e00850, 0xf92939eb, 0x5029ac8f, 0xc440d666, 0x8b77e19c, 0xb8a019ea,
                3, 0x2b4209f5, 2, 0x714260ad);
    }
    assert At(7, Hash(0xe5030380, 0x2b4209f5, 0x04409a6a, 0xd550f666,
                      0x9b27a401, 0x714260ad, 0x43ada245, 0x24e00850)) by {
      NextRound(6, Hash(0x2b4209f5, 0x04409a6a, 0xd550f666, 0xc8c347a7,
                         0x714260ad, 0x43ada245, 0x24e00850, 0xf92939eb),
                0x923f82a4, 0x00000000, 0x2b4209f5, 0x04409a6a, 0xd550f666,
                0x714260ad, 0x43ada245, 0x24e00850, 0x0d5e0cc0, 0x05409a66, 0x015b7776, 0x45a02855,
                1, 0xe5030380, 2, 0x9b27a401);
    }
    assert At(8, Hash(0x85a07b5f, 0xe5030380, 0x2b4209f5, 0x04409a6a,
                      0x0c657a79, 0x9b27a401, 0x714260ad, 0x43ada245)) by {
      NextRound(7, Hash(0xe5030380, 0x2b4209f5, 0x04409a6a, 0xd550f666,
                         0x9b27a401, 0x714260ad, 0x43ada245, 0x24e00850),
                0xab1c5ed5, 0x00000000, 0xe5030380, 0x2b4209f5, 0x04409a6a,
                0x9b27a401, 0x714260ad, 0x43ada245, 0x2949eb6c, 0x25420be0, 0x158dfaa9, 0x518a2245,
                1, 0x85a07b5f, 2, 0x0c657a79);
    }
  }

  predicate StateAt8() {
    hide At;
    At(8, Hash(0x85a07b5f, 0xe5030380, 0x2b4209f5, 0x04409a6a, 0x0c657a79, 0x9b27a401, 0x714260ad, 0x43ada245))
  }

  lemma RoundsTo12()
    ensures StateAt12()
  {
    hide Planned, At;
    RoundsTo8();
    FirstWords();
    assert At(9, Hash(0x8e04ecb9, 0x85a07b5f, 0xe5030380, 0x2b4209f5,
                      0x32ca2d8c, 0x0c657a79, 0x9b27a401, 0x714260ad)) by {
      NextRound(8, Hash(0x85a07b5f, 0xe5030380, 0x2b4209f5, 0x04409a6a,
                         0x0c657a79, 0x9b27a401, 0x714260ad, 0x43ada245),
                0xd807aa98, 0x00000000, 0x85a07b5f, 0xe5030380, 0x2b4209f5,
                0x0c657a79, 0x9b27a401, 0x714260ad, 0xba794dc2, 0xa5020bd5, 0x99ad25c0, 0x79272085,
                3, 0x8e04ecb9, 2, 0x32ca2d8c);
    }
    assert At(10, Hash(0x8c87346b, 0x8e04ecb9, 0x85a07b5f, 0xe5030380,
                      0x1cc92596, 0x32ca2d8c, 0x0c657a79, 0x9b27a401)) by {
      NextRound(9, Hash(0x8e04ecb9, 0x85a07b5f, 0xe5030380, 0x2b4209f5,
                         0x32ca2d8c, 0x0c657a79, 0x9b27a401, 0x714260ad),
                0x12835b01, 0x00000000, 0x8e04ecb9, 0x85a07b5f, 0xe5030380,
                0x32ca2d8c, 0x0c657a79, 0x9b27a401, 0x15ffad31, 0x85006b99, 0xe45bb7ea, 0x8965a809,
                2, 0x8c87346b, 2, 0x1cc92596);
    }
    assert At(11, Hash(0x4798a3f4, 0x8c87346b, 0x8e04ecb9, 0x85a07b5f,
                      0x436b23e8, 0x1cc92596, 0x32ca2d8c, 0x0c657a79)) by {
      NextRound(10, Hash(0x8c87346b, 0x8e04ecb9, 0x85a07b5f, 0xe5030380,
                         0x1cc92596, 0x32ca2d8c, 0x0c657a79, 0x9b27a401),
                0x243185be, 0x00000000, 0x8c87346b, 0x8e04ecb9, 0x85a07b5f,
                0x1cc92596, 0x32ca2d8c, 0x0c657a79, 0x5cac0711, 0x8c847c7b, 0x8e2276bc, 0x10ec7fed,
                2, 0x4798a3f4, 2, 0x436b23e8);
    }
    assert At(12, Hash(0xf71fc5a9, 0x4798a3f4, 0x8c87346b, 0x8e04ecb9,
                      0x816fd6e9, 0x436b23e8, 0x1cc92596, 0x32ca2d8c)) by {
      NextRound(11, Hash(0x4798a3f4, 0x8c87346b, 0x8e04ecb9, 0x85a07b5f,
                         0x436b23e8, 0x1cc92596, 0x32ca2d8c, 0x0c657a79),
                0x550c7dc3, 0x00000000, 0x4798a3f4, 0x8c87346b, 0x8e04ecb9,
                0x436b23e8, 0x1cc92596, 0x32ca2d8c, 0x6ccbc526, 0x8e84a4f9, 0x699435ca, 0x30c92d84,
                1, 0xf71fc5a9, 1, 0x816fd6e9);
    }
  }

  predicate StateAt12() {
    hide At;
    At(12, Hash(0xf71fc5a9, 0x4798a3f4, 0x8c87346b, 0x8e04ecb9, 0x816fd6e9, 0x436b23e8, 0x1cc92596, 0x32ca2d8c))
  }

  lemma RoundsTo16()
    ensures StateAt16()
  {
    hide Planned, At;
    RoundsTo12();
    FirstWords();
    assert At(13, Hash(0x87912990, 0xf71fc5a9, 0x4798a3f4, 0x8c87346b,
                      0x1e578218, 0x816fd6e9, 0x436b23e8, 0x1cc92596)) by {
      NextRound(12, Hash(0xf71fc5a9, 0x4798a3f4, 0x8c87346b, 0x8e04ecb9,
                         0x816fd6e9, 0x436b23e8, 0x1cc92596, 0x32ca2d8c),
                0x72be5d74, 0x00000000, 0xf71fc5a9, 0x4798a3f4, 0x8c87346b,
                0x816fd6e9, 0x436b23e8, 0x1cc92596, 0x2f9eee48, 0xc79fa5e9, 0xccdee661, 0x1deb23fe,
                2, 0x87912990, 2, 0x1e578218);
    }
    assert At(14, Hash(0xd932eb16, 0x87912990, 0xf71fc5a9, 0x4798a3f4,
                      0x745a48de, 0x1e578218, 0x816fd6e9, 0x436b23e8)) by {
      NextRound(13, Hash(0x87912990, 0xf71fc5a9, 0x4798a3f4, 0x8c87346b,
                         0x1e578218, 0x816fd6e9, 0x436b23e8, 0x1cc92596),
                0x80deb1fe, 0x00000000, 0x87912990, 0xf71fc5a9, 0x4798a3f4,
                0x1e578218, 0x816fd6e9, 0x436b23e8, 0x29c634f3, 0xc799a1b0, 0x08bb98f7, 0x416fa3e8,
                1, 0xd932eb16, 1, 0x745a48de);
    }
    assert At(15, Hash(0xc0645fde, 0xd932eb16, 0x87912990, 0xf71fc5a9,
                      0x0b92f20c, 0x745a48de, 0x1e578218, 0x816fd6e9)) by {
      NextRound(14, Hash(0xd932eb16, 0x87912990, 0xf71fc5a9, 0x4798a3f4,
                         0x745a48de, 0x1e578218, 0x816fd6e9, 0x436b23e8),
                0x9bdc06a7, 0x00000000, 0xd932eb16, 0x87912990, 0xf71fc5a9,
                0x745a48de, 0x1e578218, 0x816fd6e9, 0x25562836, 0xd713e990, 0x4f3b8d50, 0x95779639,
                2, 0xc0645fde, 2, 0x0b92f20c);
    }
    assert At(16, Hash(0xb0fa238e, 0xc0645fde, 0xd932eb16, 0x87912990,
                      0x07590dcd, 0x0b92f20c, 0x745a48de, 0x1e578218)) by {
      NextRound(15, Hash(0xc0645fde, 0xd932eb16, 0x87912990, 0xf71fc5a9,
                         0x0b92f20c, 0x745a48de, 0x1e578218, 0x816fd6e9),
                0xc19bf174, 0x00000018, 0xc0645fde, 0xd932eb16, 0x87912990,
                0x0b92f20c, 0x745a48de, 0x1e578218, 0xdf906fd4, 0xc1306b96, 0xb8d63f93, 0x1457401c,
                3, 0xb0fa238e, 3, 0x07590dcd);
    }
  }

  predicate StateAt16() {
    hide At;
    At(16, Hash(0xb0fa238e, 0xc0645fde, 0xd932eb16, 0x87912990, 0x07590dcd, 0x0b92f20c, 0x745a48de, 0x1e578218))
  }

  lemma RoundsTo20()
    ensures StateAt20()
  {
    hide Planned, At;
    RoundsTo16();
    Plan16To23();
    assert At(17, Hash(0x21da9a9b, 0xb0fa238e, 0xc0645fde, 0xd932eb16,
                      0x8034229c, 0x07590dcd, 0x0b92f20c, 0x745a48de)) by {
      NextRound(16, Hash(0xb0fa238e, 0xc0645fde, 0xd932eb16, 0x87912990,
                         0x07590dcd, 0x0b92f20c, 0x745a48de, 0x1e578218),
                0xe49b69c1, 0x61626380, 0xb0fa238e, 0xc0645fde, 0xd932eb16,
                0x07590dcd, 0x0b92f20c, 0x745a48de, 0x58c535f1, 0xd0726b9e, 0x213b6995, 0x7312401e,
                3, 0x21da9a9b, 2, 0x8034229c);
    }
    assert At(18, Hash(0xc2fbd9d1, 0x21da9a9b, 0xb0fa238e, 0xc0645fde,
                      0x846ee454, 0x8034229c, 0x07590dcd, 0x0b92f20c)) by {
      NextRound(17, Hash(0x21da9a9b, 0xb0fa238e, 0xc0645fde, 0xd932eb16,
                         0x8034229c, 0x07590dcd, 0x0b92f20c, 0x745a48de),
                0xefbe4786, 0x000f0000, 0x21da9a9b, 0xb0fa238e, 0xc0645fde,
                0x8034229c, 0x07590dcd, 0x0b92f20c, 0x76c5c4f5, 0xa0fa1b9e, 0x3b81984e, 0x0b92d08c,
                2, 0xc2fbd9d1, 2, 0x846ee454);
    }
    assert At(19, Hash(0xfe777bbf, 0xc2fbd9d1, 0x21da9a9b, 0xb0fa238e,
                      0xcc899961, 0x846ee454, 0x8034229c, 0x07590dcd)) by {
      NextRound(18, Hash(0xc2fbd9d1, 0x21da9a9b, 0xb0fa238e, 0xc0645fde,
                         0x846ee454, 0x8034229c, 0x07590dcd, 0x0b92f20c),
                0x0fc19dc6, 0x7da86405, 0xc2fbd9d1, 0x21da9a9b, 0xb0fa238e,
                0x846ee454, 0x8034229c, 0x07590dcd, 0x5157a6a1, 0xa0fa9b9b, 0xeff31c0f, 0x8335299d,
                2, 0xfe777bbf, 2, 0xcc899961);
    }
    assert At(20, Hash(0xe1f20c33, 0xfe777bbf, 0xc2fbd9d1, 0x21da9a9b,
                      0xb0638179, 0xcc899961, 0x846ee454, 0x8034229c)) by {
      NextRound(19, Hash(0xfe777bbf, 0xc2fbd9d1, 0x21da9a9b, 0xb0fa238e,
                         0xcc899961, 0x846ee454, 0x8034229c, 0x07590dcd),
                0x240ca1cc, 0x600003c6, 0xfe777bbf, 0xc2fbd9d1, 0x21da9a9b,
                0xcc899961, 0x846ee454, 0x8034229c, 0xff8cd2ad, 0xe2fbdb9b, 0xefc707b0, 0x843ca2dc,
                3, 0xe1f20c33, 2, 0xb0638179);
    }
  }

  predicate StateAt20() {
    hide At;
    At(20, Hash(0xe1f20c33, 0xfe777bbf, 0xc2fbd9d1, 0x21da9a9b, 0xb0638179, 0xcc899961, 0x846ee454, 0x8034229c))
  }

  lemma RoundsTo24()
    ensures StateAt24()
  {
    hide Planned, At;
    RoundsTo20();
    Plan16To23();
    assert At(21, Hash(0x9dc68b63, 0xe1f20c33, 0xfe777bbf, 0xc2fbd9d1,
                      0x8ada8930, 0xb0638179, 0xcc899961, 0x846ee454)) by {
      NextRound(20, Hash(0xe1f20c33, 0xfe777bbf, 0xc2fbd9d1, 0x21da9a9b,
                         0xb0638179, 0xcc899961, 0x846ee454, 0x8034229c),
                0x2de92c6f, 0x3e9d7b78, 0xe1f20c33, 0xfe777bbf, 0xc2fbd9d1,
                0xb0638179, 0xcc899961, 0x846ee454, 0x51d3431b, 0xe2f359b3, 0xf8373ead, 0x840de565,
                3, 0x9dc68b63, 2, 0x8ada8930);
    }
    assert At(22, Hash(0xc2606d6d, 0x9dc68b63, 0xe1f20c33, 0xfe777bbf,
                      0xe1257970, 0x8ada8930, 0xb0638179, 0xcc899961)) by {
      NextRound(21, Hash(0x9dc68b63, 0xe1f20c33, 0xfe777bbf, 0xc2fbd9d1,
                         0x8ada8930, 0xb0638179, 0xcc899961, 0x846ee454),
                0x4a7484aa, 0x0183fc00, 0x9dc68b63, 0xe1f20c33, 0xfe777bbf,
                0x8ada8930, 0xb0638179, 0xcc899961, 0xa640c29b, 0xfdf60b33, 0x897ea930, 0xc4439171,
                3, 0xc2606d6d, 2, 0xe1257970);
    }
    assert At(23, Hash(0xa7a3623f, 0xc2606d6d, 0x9dc68b63, 0xe1f20c33,
                      0x49f5114a, 0xe1257970, 0x8ada8930, 0xb0638179)) by {
      NextRound(22, Hash(0xc2606d6d, 0x9dc68b63, 0xe1f20c33, 0xfe777bbf,
                         0xe1257970, 0x8ada8930, 0xb0638179, 0xcc899961),
                0x5cb0a9dc, 0x12dcbfdb, 0xc2606d6d, 0x9dc68b63, 0xe1f20c33,
                0xe1257970, 0x8ada8930, 0xb0638179, 0x9a43bf51, 0xc1e20d63, 0x7f24093a, 0x90428939,
                3, 0xa7a3623f, 3, 0x49f5114a);
    }
    assert At(24, Hash(0xc5d53d8d, 0xa7a3623f, 0xc2606d6d, 0x9dc68b63,
                      0xaa47c347, 0x49f5114a, 0xe1257970, 0x8ada8930)) by {
      NextRound(23, Hash(0xa7a3623f, 0xc2606d6d, 0x9dc68b63, 0xe1f20c33,
                         0x49f5114a, 0xe1257970, 0x8ada8930, 0xb0638179),
                0x76f988da, 0xe2e2c38e, 0xa7a3623f, 0xc2606d6d, 0x9dc68b63,
                0x49f5114a, 0xe1257970, 0x8ada8930, 0x759d1b0a, 0x87e26b6f, 0xfae64fc3, 0xc32f9970,
                4, 0xc5d53d8d, 4, 0xaa47c347);
    }
  }

  predicate StateAt24() {
    hide At;
    At(24, Hash(0xc5d53d8d, 0xa7a3623f, 0xc2606d6d, 0x9dc68b63, 0xaa47c347, 0x49f5114a, 0xe1257970, 0x8ada8930))
  }

  lemma RoundsTo28()
    ensures StateAt28()
  {
    hide Planned, At;
    RoundsTo24();
    Plan24To31();
    assert At(25, Hash(0x1c2c2838, 0xc5d53d8d, 0xa7a3623f, 0xc2606d6d,
                      0x2823ef91, 0xaa47c347, 0x49f5114a, 0xe1257970)) by {
      NextRound(24, Hash(0xc5d53d8d, 0xa7a3623f, 0xc2606d6d, 0x9dc68b63,
                         0xaa47c347, 0x49f5114a, 0xe1257970, 0x8ada8930),
                0x983e5152, 0xc8215c1a, 0xc5d53d8d, 0xa7a3623f, 0xc2606d6d,
                0xaa47c347, 0x49f5114a, 0xe1257970, 0xc9ed56dd, 0xc7e16d2d, 0x55bdf420, 0x49653972,
                4, 0x1c2c2838, 3, 0x2823ef91);
    }
    assert At(26, Hash(0xcde8037d, 0x1c2c2838, 0xc5d53d8d, 0xa7a3623f,
                      0x14383d8e, 0x2823ef91, 0xaa47c347, 0x49f5114a)) by {
      NextRound(25, Hash(0x1c2c2838, 0xc5d53d8d, 0xa7a3623f, 0xc2606d6d,
                         0x2823ef91, 0xaa47c347, 0x49f5114a, 0xe1257970),
                0xa831c66d, 0xb73679a2, 0x1c2c2838, 0xc5d53d8d, 0xa7a3623f,
                0x2823ef91, 0xaa47c347, 0x49f5114a, 0xf66b0b1f, 0x85a5283d, 0xa7724357, 0x69d7d34b,
                4, 0xcde8037d, 4, 0x14383d8e);
    }
    assert At(27, Hash(0xb62ec4bc, 0xcde8037d, 0x1c2c2838, 0xc5d53d8d,
                      0xc74c6516, 0x14383d8e, 0x2823ef91, 0xaa47c347)) by {
      NextRound(26, Hash(0xcde8037d, 0x1c2c2838, 0xc5d53d8d, 0xa7a3623f,
                         0x14383d8e, 0x2823ef91, 0xaa47c347, 0x49f5114a),
                0xb00327c8, 0xe5bc3909, 0xcde8037d, 0x1c2c2838, 0xc5d53d8d,
                0x14383d8e, 0x2823ef91, 0xaa47c347, 0xc89998a8, 0xcdec293d, 0x958ca0fb, 0xaa67efc1,
                4, 0xb62ec4bc, 3, 0xc74c6516);
    }
    assert At(28, Hash(0x77d37528, 0xb62ec4bc, 0xcde8037d, 0x1c2c2838,
                      0xedffbff8, 0xc74c6516, 0x14383d8e, 0x2823ef91)) by {
      NextRound(27, Hash(0xb62ec4bc, 0xcde8037d, 0x1c2c2838, 0xc5d53d8d,
                         0xc74c6516, 0x14383d8e, 0x2823ef91, 0xaa47c347),
                0xbf597fc7, 0x32663c5b, 0xb62ec4bc, 0xcde8037d, 0x1c2c2838,
                0xc74c6516, 0x14383d8e, 0x2823ef91, 0xb37cf281, 0x9c2c003c, 0x5ff7537b, 0x2c2baf87,
                3, 0x77d37528, 2, 0xedffbff8);
    }
  }

  predicate StateAt28() {
    hide At;
    At(28, Hash(0x77d37528, 0xb62ec4bc, 0xcde8037d, 0x1c2c2838, 0xedffbff8, 0xc74c6516, 0x14383d8e, 0x2823ef91))
  }

  lemma RoundsTo32()
    ensures StateAt32()
  {
    hide Planned, At;
    RoundsTo28();
    Plan24To31();
    assert At(29, Hash(0x363482c9, 0x77d37528, 0xb62ec4bc, 0xcde8037d,
                      0x6112a3b7, 0xedffbff8, 0xc74c6516, 0x14383d8e)) by {
      NextRound(28, Hash(0x77d37528, 0xb62ec4bc, 0xcde8037d, 0x1c2c2838,
                         0xedffbff8, 0xc74c6516, 0x14383d8e, 0x2823ef91),
                0xc6e00bf3, 0x9d209d67, 0x77d37528, 0xb62ec4bc, 0xcde8037d,
                0xedffbff8, 0xc74c6516, 0x14383d8e, 0xf963c20e, 0xf7ea453c, 0xe375bd7e, 0xd54c2516,
                5, 0x363482c9, 3, 0x6112a3b7);
    }
    assert At(30, Hash(0xa0060b30, 0x363482c9, 0x77d37528, 0xb62ec4bc,
                      0xade79437, 0x6112a3b7, 0xedffbff8, 0xc74c6516)) by {
      NextRound(29, Hash(0x363482c9, 0x77d37528, 0xb62ec4bc, 0xcde8037d,
                         0x6112a3b7, 0xedffbff8, 0xc74c6516, 0x14383d8e),
                0xd5a79147, 0xec8726cb, 0x363482c9, 0x77d37528, 0xb62ec4bc,
                0x6112a3b7, 0xedffbff8, 0xc74c6516, 0x89cfb5ce, 0x3636c4a8, 0x2239b36a, 0xe75ee7b0,
                3, 0xa0060b30, 3, 0xade79437);
    }
    assert At(31, Hash(0xea992a22, 0xa0060b30, 0x363482c9, 0x77d37528,
                      0x0109ab3a, 0xade79437, 0x6112a3b7, 0xedffbff8)) by {
      NextRound(30, Hash(0xa0060b30, 0x363482c9, 0x77d37528, 0xb62ec4bc,
                         0xade79437, 0x6112a3b7, 0xedffbff8, 0xc74c6516),
                0x06ca6351, 0x702138a4, 0xa0060b30, 0x363482c9, 0x77d37528,
                0xade79437, 0x6112a3b7, 0xedffbff8, 0x69a8407c, 0x36160328, 0xab883974, 0x611aabff,
                2, 0xea992a22, 3, 0x0109ab3a);
    }
    assert At(32, Hash(0x73b33bf5, 0xea992a22, 0xa0060b30, 0x363482c9,
                      0xba591112, 0x0109ab3a, 0xade79437, 0x6112a3b7)) by {
      NextRound(31, Hash(0xea992a22, 0xa0060b30, 0x363482c9, 0x77d37528,
                         0x0109ab3a, 0xade79437, 0x6112a3b7, 0xedffbff8),
                0x14292967, 0xd3b7973b, 0xea992a22, 0xa0060b30, 0x363482c9,
                0x0109ab3a, 0xade79437, 0x6112a3b7, 0x8f1995eb, 0xa2140a20, 0x0b919a99, 0x611380b7,
                3, 0x73b33bf5, 2, 0xba591112);
    }
  }

  predicate StateAt32() {
    hide At;
    At(32, Hash(0x73b33bf5, 0xea992a22, 0xa0060b30, 0x363482c9, 0xba591112, 0x0109ab3a, 0xade79437, 0x6112a3b7))
  }

  lemma RoundsTo36()
    ensures StateAt36()
  {
    hide Planned, At;
    RoundsTo32();
    Plan32To39();
    assert At(33, Hash(0x98e12507, 0x73b33bf5, 0xea992a22, 0xa0060b30,
                      0x9cd9f5f6, 0xba591112, 0x0109ab3a, 0xade79437)) by {
      NextRound(32, Hash(0x73b33bf5, 0xea992a22, 0xa0060b30, 0x363482c9,
                         0xba591112, 0x0109ab3a, 0xade79437, 0x6112a3b7),
                0x27b70a85, 0x93f5997f, 0x73b33bf5, 0xea992a22, 0xa0060b30,
                0xba591112, 0x0109ab3a, 0xade79437, 0x4fa886aa, 0xe2932b30, 0x4436a63b, 0x05af8537,
                2, 0x98e12507, 1, 0x9cd9f5f6);
    }
    assert At(34, Hash(0xfe604df5, 0x98e12507, 0x73b33bf5, 0xea992a22,
                      0x59249dd3, 0x9cd9f5f6, 0xba591112, 0x0109ab3a)) by {
      NextRound(33, Hash(0x98e12507, 0x73b33bf5, 0xea992a22, 0xa0060b30,
                         0x9cd9f5f6, 0xba591112, 0x0109ab3a, 0xade79437),
                0x2e1b2138, 0x3b68ba73, 0x98e12507, 0x73b33bf5, 0xea992a22,
                0x9cd9f5f6, 0xba591112, 0x0109ab3a, 0x4a90902b, 0xfab12b27, 0x085a07a7, 0x99591b1a,
                2, 0xfe604df5, 2, 0x59249dd3);
    }
    assert At(35, Hash(0xa9a7738c, 0xfe604df5, 0x98e12507, 0x73b33bf5,
                      0x085f3833, 0x59249dd3, 0x9cd9f5f6, 0xba591112)) by {
      NextRound(34, Hash(0xfe604df5, 0x98e12507, 0x73b33bf5, 0xea992a22,
                         0x59249dd3, 0x9cd9f5f6, 0xba591112, 0x0109ab3a),
                0x4d2c6dfc, 0xaff4ffc1, 0xfe604df5, 0x98e12507, 0x73b33bf5,
                0x59249dd3, 0x9cd9f5f6, 0xba591112, 0x91003786, 0xfae12df5, 0x65415f48, 0xba5995d2,
                3, 0xa9a7738c, 3, 0x085f3833);
    }
    assert At(36, Hash(0x65a0cfe4, 0xa9a7738c, 0xfe604df5, 0x98e12507,
                      0xf4b002d6, 0x085f3833, 0x59249dd3, 0x9cd9f5f6)) by {
      NextRound(35, Hash(0xa9a7738c, 0xfe604df5, 0x98e12507, 0x73b33bf5,
                         0x085f3833, 0x59249dd3, 0x9cd9f5f6, 0xba591112),
                0x53380d13, 0xf10a5c62, 0xa9a7738c, 0xfe604df5, 0x98e12507,
                0x085f3833, 0x59249dd3, 0x9cd9f5f6, 0x2bc2a37e, 0xb8e16585, 0xe5dc6e83, 0x9c84ddd7,
                4, 0x65a0cfe4, 3, 0xf4b002d6);
    }
  }

  predicate StateAt36() {
    hide At;
    At(36, Hash(0x65a0cfe4, 0xa9a7738c, 0xfe604df5, 0x98e12507, 0xf4b002d6, 0x085f3833, 0x59249dd3, 0x9cd9f5f6))
  }

  lemma RoundsTo40()
    ensures StateAt40()
  {
    hide Planned, At;
    RoundsTo36();
    Plan32To39();
    assert At(37, Hash(0x41a65cb1, 0x65a0cfe4, 0xa9a7738c, 0xfe604df5,
                      0x0772a26b, 0xf4b002d6, 0x085f3833, 0x59249dd3)) by {
      NextRound(36, Hash(0x65a0cfe4, 0xa9a7738c, 0xfe604df5, 0x98e12507,
                         0xf4b002d6, 0x085f3833, 0x59249dd3, 0x9cd9f5f6),
                0x650a7354, 0x0a8b3996, 0x65a0cfe4, 0xa9a7738c, 0xfe604df5,
                0xf4b002d6, 0x085f3833, 0x59249dd3, 0xe5748f69, 0xeda04fe4, 0x590d3d71, 0x09149d13,
                3, 0x41a65cb1, 2, 0x0772a26b);
    }
    assert At(38, Hash(0x34df1604, 0x41a65cb1, 0x65a0cfe4, 0xa9a7738c,
                      0xa507a53d, 0x0772a26b, 0xf4b002d6, 0x085f3833)) by {
      NextRound(37, Hash(0x41a65cb1, 0x65a0cfe4, 0xa9a7738c, 0xfe604df5,
                         0x0772a26b, 0xf4b002d6, 0x085f3833, 0x59249dd3),
                0x766a0abb, 0x72af830a, 0x41a65cb1, 0x65a0cfe4, 0xa9a7738c,
                0x0772a26b, 0xf4b002d6, 0x085f3833, 0x2c915f18, 0x61a65fa4, 0x582c115e, 0x0c3d1a52,
                2, 0x34df1604, 2, 0xa507a53d);
    }
    assert At(39, Hash(0x6dc57a8a, 0x34df1604, 0x41a65cb1, 0x65a0cfe4,
                      0xf0781bc8, 0xa507a53d, 0x0772a26b, 0xf4b002d6)) by {
      NextRound(38, Hash(0x34df1604, 0x41a65cb1, 0x65a0cfe4, 0xa9a7738c,
                         0xa507a53d, 0x0772a26b, 0xf4b002d6, 0x085f3833),
                0x81c2c92e, 0x9409e33e, 0x34df1604, 0x41a65cb1, 0x65a0cfe4,
                0xa507a53d, 0x0772a26b, 0xf4b002d6, 0xc14e73aa, 0x65a65ea4, 0xd2f220b2, 0x55b2a2eb,
                3, 0x6dc57a8a, 2, 0xf0781bc8);
    }
    assert At(40, Hash(0x79ea687a, 0x6dc57a8a, 0x34df1604, 0x41a65cb1,
                      0x1efbc0a0, 0xf0781bc8, 0xa507a53d, 0x0772a26b)) by {
      NextRound(39, Hash(0x6dc57a8a, 0x34df1604, 0x41a65cb1, 0x65a0cfe4,
                         0xf0781bc8, 0xa507a53d, 0x0772a26b, 0xf4b002d6),
                0x92722c85, 0x24641522, 0x6dc57a8a, 0x34df1604, 0x41a65cb1,
                0xf0781bc8, 0xa507a53d, 0x0772a26b, 0x5ac8193e, 0x65c75e80, 0x66d20b14, 0xa702a12b,
                3, 0x79ea687a, 3, 0x1efbc0a0);
    }
  }

  predicate StateAt40() {
    hide At;
    At(40, Hash(0x79ea687a, 0x6dc57a8a, 0x34df1604, 0x41a65cb1, 0x1efbc0a0, 0xf0781bc8, 0xa507a53d, 0x0772a26b))
  }

  lemma RoundsTo44()
    ensures StateAt44()
  {
    hide Planned, At;
    RoundsTo40();
    Plan40To47();
    assert At(41, Hash(0xd6670766, 0x79ea687a, 0x6dc57a8a, 0x34df1604,
                      0x26352d63, 0x1efbc0a0, 0xf0781bc8, 0xa507a53d)) by {
      NextRound(40, Hash(0x79ea687a, 0x6dc57a8a, 0x34df1604, 0x41a65cb1,
                         0x1efbc0a0, 0xf0781bc8, 0xa507a53d, 0x0772a26b),
                0xa2bfe8a1, 0x9f47bf94, 0x79ea687a, 0x6dc57a8a, 0x34df1604,
                0x1efbc0a0, 0xf0781bc8, 0xa507a53d, 0x7408bcaa, 0x7dcf7a0a, 0xe9986075, 0xb17c259d,
                3, 0xd6670766, 3, 0x26352d63);
    }
    assert At(42, Hash(0xdf46652f, 0xd6670766, 0x79ea687a, 0x6dc57a8a,
                      0x838b2711, 0x26352d63, 0x1efbc0a0, 0xf0781bc8)) by {
      NextRound(41, Hash(0xd6670766, 0x79ea687a, 0x6dc57a8a, 0x34df1604,
                         0x26352d63, 0x1efbc0a0, 0xf0781bc8, 0xa507a53d),
                0xa81a664b, 0xf0a64f5a, 0xd6670766, 0x79ea687a, 0x6dc57a8a,
                0x26352d63, 0x1efbc0a0, 0xf0781bc8, 0x12b2e9b8, 0x7de76a6a, 0x3a6aa383, 0xd67912a8,
                3, 0xdf46652f, 3, 0x838b2711);
    }
    assert At(43, Hash(0x17aa0dfe, 0xdf46652f, 0xd6670766, 0x79ea687a,
                      0xdecd4715, 0x838b2711, 0x26352d63, 0x1efbc0a0)) by {
      NextRound(42, Hash(0xdf46652f, 0xd6670766, 0x79ea687a, 0x6dc57a8a,
                         0x838b2711, 0x26352d63, 0x1efbc0a0, 0xf0781bc8),
                0xc24b8b70, 0x3e246a79, 0xdf46652f, 0xd6670766, 0x79ea687a,
                0x838b2711, 0x26352d63, 0x1efbc0a0, 0xc73bdc05, 0xdf66656e, 0x61add539, 0x1e71e5a1,
                4, 0x17aa0dfe, 2, 0xdecd4715);
    }
    assert At(44, Hash(0x9d4baf93, 0x17aa0dfe, 0xdf46652f, 0xd6670766,
                      0xfda24c2e, 0xdecd4715, 0x838b2711, 0x26352d63)) by {
      NextRound(43, Hash(0x17aa0dfe, 0xdf46652f, 0xd6670766, 0x79ea687a,
                         0xdecd4715, 0x838b2711, 0x26352d63, 0x1efbc0a0),
                0xc76c51a3, 0x27333ba3, 0x17aa0dfe, 0xdf46652f, 0xd6670766,
                0xdecd4715, 0x838b2711, 0x26352d63, 0x422dc671, 0xd766056e, 0xd363665b, 0xa2b92f73,
                3, 0x9d4baf93, 2, 0xfda24c2e);
    }
  }

  predicate StateAt44() {
    hide At;
    At(44, Hash(0x9d4baf93, 0x17aa0dfe, 0xdf46652f, 0xd6670766, 0xfda24c2e, 0xdecd4715, 0x838b2711, 0x26352d63))
  }

  lemma RoundsTo48()
    ensures StateAt48()
  {
    hide Planned, At;
    RoundsTo44();
    Plan40To47();
    assert At(45, Hash(0x26628815, 0x9d4baf93, 0x17aa0dfe, 0xdf46652f,
                      0xa80f11f0, 0xfda24c2e, 0xdecd4715, 0x838b2711)) by {
      NextRound(44, Hash(0x9d4baf93, 0x17aa0dfe, 0xdf46652f, 0xd6670766,
                         0xfda24c2e, 0xdecd4715, 0x838b2711, 0x26352d63),
                0xd192e819, 0x0c4763f2, 0x9d4baf93, 0x17aa0dfe, 0xdf46652f,
                0xfda24c2e, 0xdecd4715, 0x838b2711, 0xb5704fcc, 0x9f4a2dbf, 0xef0f2a07, 0xde896715,
                4, 0x26628815, 3, 0xa80f11f0);
    }
    assert At(46, Hash(0x72ab4b91, 0x26628815, 0x9d4baf93, 0x17aa0dfe,
                      0xb7755da1, 0xa80f11f0, 0xfda24c2e, 0xdecd4715)) by {
      NextRound(45, Hash(0x26628815, 0x9d4baf93, 0x17aa0dfe, 0xdf46652f,
                         0xa80f11f0, 0xfda24c2e, 0xdecd4715, 0x838b2711),
                0xd6990624, 0x840abf27, 0x26628815, 0x9d4baf93, 0x17aa0dfe,
                0xa80f11f0, 0xfda24c2e, 0xdecd4715, 0x8311c588, 0x176a8d97, 0xfb3dc5f1, 0xfec24625,
                4, 0x72ab4b91, 4, 0xb7755da1);
    }
    assert At(47, Hash(0xa14c14b0, 0x72ab4b91, 0x26628815, 0x9d4baf93,
                      0xd57b94a9, 0xb7755da1, 0xa80f11f0, 0xfda24c2e)) by {
      NextRound(46, Hash(0x72ab4b91, 0x26628815, 0x9d4baf93, 0x17aa0dfe,
                         0xb7755da1, 0xa80f11f0, 0xfda24c2e, 0xdecd4715),
                0xf40e3585, 0x7a290d5d, 0x72ab4b91, 0x26628815, 0x9d4baf93,
                0xb7755da1, 0xa80f11f0, 0xfda24c2e, 0xad0f0274, 0x366b8b91, 0x8845eb06, 0xe88711ae,
                4, 0xa14c14b0, 3, 0xd57b94a9);
    }
    assert At(48, Hash(0x4172328d, 0xa14c14b0, 0x72ab4b91, 0x26628815,
                      0xfecf0bc6, 0xd57b94a9, 0xb7755da1, 0xa80f11f0)) by {
      NextRound(47, Hash(0xa14c14b0, 0x72ab4b91, 0x26628815, 0x9d4baf93,
                         0xd57b94a9, 0xb7755da1, 0xa80f11f0, 0xfda24c2e),
                0x106aa070, 0x065c43da, 0xa14c14b0, 0x72ab4b91, 0x26628815,
                0xd57b94a9, 0xb7755da1, 0xa80f11f0, 0xbd84cdc9, 0x226a0891, 0x8fa515ca, 0xbd7515f1,
                3, 0x4172328d, 2, 0xfecf0bc6);
    }
  }

  predicate StateAt48() {
    hide At;
    At(48, Hash(0x4172328d, 0xa14c14b0, 0x72ab4b91, 0x26628815, 0xfecf0bc6, 0xd57b94a9, 0xb7755da1, 0xa80f11f0))
  }

  lemma RoundsTo52()
    ensures StateAt52()
  {
    hide Planned, At;
    RoundsTo48();
    Plan48To55();
    assert At(49, Hash(0x05757ceb, 0x4172328d, 0xa14c14b0, 0x72ab4b91,
                      0xbd714038, 0xfecf0bc6, 0xd57b94a9, 0xb7755da1)) by {
      NextRound(48, Hash(0x4172328d, 0xa14c14b0, 0x72ab4b91, 0x26628815,
                         0xfecf0bc6, 0xd57b94a9, 0xb7755da1, 0xa80f11f0),
                0x19a4c116, 0xfb3e89cb, 0x4172328d, 0xa14c14b0, 0x72ab4b91,
                0xfecf0bc6, 0xd57b94a9, 0xb7755da1, 0x0cfcb237, 0x616a1291, 0x04a106b1, 0xd57b54a1,
                3, 0x05757ceb, 2, 0xbd714038);
    }
    assert At(50, Hash(0xf11bfaa8, 0x05757ceb, 0x4172328d, 0xa14c14b0,
                      0x6e5c390c, 0xbd714038, 0xfecf0bc6, 0xd57b94a9)) by {
      NextRound(49, Hash(0x05757ceb, 0x4172328d, 0xa14c14b0, 0x72ab4b91,
                         0xbd714038, 0xfecf0bc6, 0xd57b94a9, 0xb7755da1),
                0x1e376c08, 0xcc7617db, 0x05757ceb, 0x4172328d, 0xa14c14b0,
                0xbd714038, 0xfecf0bc6, 0xd57b94a9, 0xf3f6d884, 0x017434a9, 0x5d427776, 0xfc4b9481,
                3, 0xf11bfaa8, 3, 0x6e5c390c);
    }
    assert At(51, Hash(0x7a0508a1, 0xf11bfaa8, 0x05757ceb, 0x4172328d,
                      0x52f1ccf7, 0x6e5c390c, 0xbd714038, 0xfecf0bc6)) by {
      NextRound(50, Hash(0xf11bfaa8, 0x05757ceb, 0x4172328d, 0xa14c14b0,
                         0x6e5c390c, 0xbd714038, 0xfecf0bc6, 0xd57b94a9),
                0x2748774c, 0xb9e66c34, 0xf11bfaa8, 0x05757ceb, 0x4172328d,
                0x6e5c390c, 0xbd714038, 0xfecf0bc6, 0x86ebd5b1, 0x41737aa9, 0x3e283d54, 0xbcd302ca,
                3, 0x7a0508a1, 3, 0x52f1ccf7);
    }
    assert At(52, Hash(0x886e7a22, 0x7a0508a1, 0xf11bfaa8, 0x05757ceb,
                      0x49231c1e, 0x52f1ccf7, 0x6e5c390c, 0xbd714038)) by {
      NextRound(51, Hash(0x7a0508a1, 0xf11bfaa8, 0x05757ceb, 0x4172328d,
                         0x52f1ccf7, 0x6e5c390c, 0xbd714038, 0xfecf0bc6),
                0x34b0bcb5, 0xa9993667, 0x7a0508a1, 0xf11bfaa8, 0x05757ceb,
                0x52f1ccf7, 0x6e5c390c, 0xbd714038, 0x0fa817e8, 0x711578a9, 0x3b47e2a3, 0xef50080c,
                3, 0x886e7a22, 3, 0x49231c1e);
    }
  }

  predicate StateAt52() {
    hide At;
    At(52, Hash(0x886e7a22, 0x7a0508a1, 0xf11bfaa8, 0x05757ceb, 0x49231c1e, 0x52f1ccf7, 0x6e5c390c, 0xbd714038))
  }

  lemma RoundsTo56()
    ensures StateAt56()
  {
    hide Planned, At;
    RoundsTo52();
    Plan48To55();
    assert At(53, Hash(0x101fd28f, 0x886e7a22, 0x7a0508a1, 0xf11bfaa8,
                      0x529e7d00, 0x49231c1e, 0x52f1ccf7, 0x6e5c390c)) by {
      NextRound(52, Hash(0x886e7a22, 0x7a0508a1, 0xf11bfaa8, 0x05757ceb,
                         0x49231c1e, 0x52f1ccf7, 0x6e5c390c, 0xbd714038),
                0x391c0cb3, 0x84badedd, 0x886e7a22, 0x7a0508a1, 0xf11bfaa8,
                0x49231c1e, 0x52f1ccf7, 0x6e5c390c, 0xcae757da, 0xf80f7aa0, 0x6b63a737, 0x667d2d16,
                4, 0x101fd28f, 2, 0x529e7d00);
    }
    assert At(54, Hash(0xf5702fdb, 0x101fd28f, 0x886e7a22, 0x7a0508a1,
                      0x9f4787c3, 0x529e7d00, 0x49231c1e, 0x52f1ccf7)) by {
      NextRound(53, Hash(0x101fd28f, 0x886e7a22, 0x7a0508a1, 0xf11bfaa8,
                         0x529e7d00, 0x49231c1e, 0x52f1ccf7, 0x6e5c390c),
                0x4ed8aa4a, 0xc21462bc, 0x101fd28f, 0x886e7a22, 0x7a0508a1,
                0x529e7d00, 0x49231c1e, 0x52f1ccf7, 0x2f35481d, 0x180f5aa3, 0xee7eaa12, 0x40639cf7,
                2, 0xf5702fdb, 3, 0x9f4787c3);
    }
    assert At(55, Hash(0x3ec45cdb, 0xf5702fdb, 0x101fd28f, 0x886e7a22,
                      0xe50e1b4f, 0x9f4787c3, 0x529e7d00, 0x49231c1e)) by {
      NextRound(54, Hash(0xf5702fdb, 0x101fd28f, 0x886e7a22, 0x7a0508a1,
                         0x9f4787c3, 0x529e7d00, 0x49231c1e, 0x52f1ccf7),
                0x5b9cca4f, 0x1487472c, 0xf5702fdb, 0x101fd28f, 0x886e7a22,
                0x9f4787c3, 0x529e7d00, 0x49231c1e, 0x433ccfa2, 0x907e7a8b, 0x55cd1720, 0x52261d1c,
                2, 0x3ec45cdb, 1, 0xe50e1b4f);
    }
    assert At(56, Hash(0x38cc9913, 0x3ec45cdb, 0xf5702fdb, 0x101fd28f,
                      0x54cb266b, 0xe50e1b4f, 0x9f4787c3, 0x529e7d00)) by {
      NextRound(55, Hash(0x3ec45cdb, 0xf5702fdb, 0x101fd28f, 0x886e7a22,
                         0xe50e1b4f, 0x9f4787c3, 0x529e7d00, 0x49231c1e),
                0x682e6ff3, 0xb20f7a99, 0x3ec45cdb, 0xf5702fdb, 0x101fd28f,
                0xe50e1b4f, 0x9f4787c3, 0x529e7d00, 0x381b8def, 0x34545edb, 0xd1653e5c, 0x97966743,
                3, 0x38cc9913, 3, 0x54cb266b);
    }
  }

  predicate StateAt56() {
    hide At;
    At(56, Hash(0x38cc9913, 0x3ec45cdb, 0xf5702fdb, 0x101fd28f, 0x54cb266b, 0xe50e1b4f, 0x9f4787c3, 0x529e7d00))
  }

  lemma RoundsTo60()
    ensures StateAt60()
  {
    hide Planned, At;
    RoundsTo56();
    Plan56To63();
    assert At(57, Hash(0xfcd1887b, 0x38cc9913, 0x3ec45cdb, 0xf5702fdb,
                      0x9b5e906c, 0x54cb266b, 0xe50e1b4f, 0x9f4787c3)) by {
      NextRound(56, Hash(0x38cc9913, 0x3ec45cdb, 0xf5702fdb, 0x101fd28f,
                         0x54cb266b, 0xe50e1b4f, 0x9f4787c3, 0x529e7d00),
                0x748f82ee, 0xef57b9cd, 0x38cc9913, 0x3ec45cdb, 0xf5702fdb,
                0x54cb266b, 0xe50e1b4f, 0x9f4787c3, 0x34ceacc3, 0x3cc41ddb, 0x05aa8057, 0xcf0e83cb,
                2, 0xfcd1887b, 2, 0x9b5e906c);
    }
    assert At(58, Hash(0xc062d46f, 0xfcd1887b, 0x38cc9913, 0x3ec45cdb,
                      0x7e44008e, 0x9b5e906c, 0x54cb266b, 0xe50e1b4f)) by {
      NextRound(57, Hash(0xfcd1887b, 0x38cc9913, 0x3ec45cdb, 0xf5702fdb,
                         0x9b5e906c, 0x54cb266b, 0xe50e1b4f, 0x9f4787c3),
                0x78a5636f, 0xebe6b238, 0xfcd1887b, 0x38cc9913, 0x3ec45cdb,
                0x9b5e906c, 0x54cb266b, 0xe50e1b4f, 0xfaca6b61, 0x3cc4985b, 0x10b627de, 0x744a0b6b,
                3, 0xc062d46f, 3, 0x7e44008e);
    }
    assert At(59, Hash(0xffb70472, 0xc062d46f, 0xfcd1887b, 0x38cc9913,
                      0x6d83bfc6, 0x7e44008e, 0x9b5e906c, 0x54cb266b)) by {
      NextRound(58, Hash(0xc062d46f, 0xfcd1887b, 0x38cc9913, 0x3ec45cdb,
                         0x7e44008e, 0x9b5e906c, 0x54cb266b, 0xe50e1b4f),
                0x84c87814, 0x9fe3095e, 0xc062d46f, 0xfcd1887b, 0x38cc9913,
                0x7e44008e, 0x9b5e906c, 0x54cb266b, 0xd837090c, 0xf8c0987b, 0x0a369fbd, 0x1acf266d,
                3, 0xffb70472, 2, 0x6d83bfc6);
    }
    assert At(60, Hash(0xb6ae8fff, 0xffb70472, 0xc062d46f, 0xfcd1887b,
                      0xb21bad3d, 0x6d83bfc6, 0x7e44008e, 0x9b5e906c)) by {
      NextRound(59, Hash(0xffb70472, 0xc062d46f, 0xfcd1887b, 0x38cc9913,
                         0x6d83bfc6, 0x7e44008e, 0x9b5e906c, 0x54cb266b),
                0x8cc70208, 0x78bc8d4b, 0xffb70472, 0xc062d46f, 0xfcd1887b,
                0x6d83bfc6, 0x7e44008e, 0x9b5e906c, 0x406bf75a, 0xfcf3847b, 0x20a45dbe, 0xfe5c00ae,
                3, 0xb6ae8fff, 2, 0xb21bad3d);
    }
  }

  predicate StateAt60() {
    hide At;
    At(60, Hash(0xb6ae8fff, 0xffb70472, 0xc062d46f, 0xfcd1887b, 0xb21bad3d, 0x6d83bfc6, 0x7e44008e, 0x9b5e906c))
  }

  lemma RoundsTo64()
    ensures StateAt64()
  {
    hide Planned, At;
    RoundsTo60();
    Plan56To63();
    assert At(61, Hash(0xb85e2ce9, 0xb6ae8fff, 0xffb70472, 0xc062d46f,
                      0x961f4894, 0xb21bad3d, 0x6d83bfc6, 0x7e44008e)) by {
      NextRound(60, Hash(0xb6ae8fff, 0xffb70472, 0xc062d46f, 0xfcd1887b,
                         0xb21bad3d, 0x6d83bfc6, 0x7e44008e, 0x9b5e906c),
                0x90befffa, 0xa43fcf15, 0xb6ae8fff, 0xffb70472, 0xc062d46f,
                0xb21bad3d, 0x6d83bfc6, 0x7e44008e, 0x2869e851, 0xf6a6847f, 0x5ca8b318, 0x6c47ad86,
                3, 0xb85e2ce9, 3, 0x961f4894);
    }
    assert At(62, Hash(0x04d24d6c, 0xb85e2ce9, 0xb6ae8fff, 0xffb70472,
                      0x948d25b6, 0x961f4894, 0xb21bad3d, 0x6d83bfc6)) by {
      NextRound(61, Hash(0xb85e2ce9, 0xb6ae8fff, 0xffb70472, 0xc062d46f,
                         0x961f4894, 0xb21bad3d, 0x6d83bfc6, 0x7e44008e),
                0xa4506ceb, 0x668b2ff8, 0xb85e2ce9, 0xb6ae8fff, 0xffb70472,
                0x961f4894, 0xb21bad3d, 0x6d83bfc6, 0x71e9ef2a, 0xbebe0cfb, 0x4f6ef480, 0xfb9bbf56,
                4, 0x04d24d6c, 3, 0x948d25b6);
    }
    assert At(63, Hash(0xd39a2165, 0x04d24d6c, 0xb85e2ce9, 0xb6ae8fff,
                      0xfb121210, 0x948d25b6, 0x961f4894, 0xb21bad3d)) by {
      NextRound(62, Hash(0x04d24d6c, 0xb85e2ce9, 0xb6ae8fff, 0xffb70472,
                         0x948d25b6, 0x961f4894, 0xb21bad3d, 0x6d83bfc6),
                0xbef9a3f7, 0xeeaba2cc, 0x04d24d6c, 0xb85e2ce9, 0xb6ae8fff,
                0x948d25b6, 0x961f4894, 0xb21bad3d, 0x236105da, 0xb4de0ded, 0x2a127e78, 0xb61f889d,
                3, 0xd39a2165, 3, 0xfb121210);
    }
    assert At(64, Hash(0x506e3058, 0xd39a2165, 0x04d24d6c, 0xb85e2ce9,
                      0x5ef50f24, 0xfb121210, 0x948d25b6, 0x961f4894)) by {
      NextRound(63, Hash(0xd39a2165, 0x04d24d6c, 0xb85e2ce9, 0xb6ae8fff,
                         0xfb121210, 0x948d25b6, 0x961f4894, 0xb21bad3d),
                0xc67178f2, 0x12b1edeb, 0xd39a2165, 0x04d24d6c, 0xb85e2ce9,
                0xfb121210, 0x948d25b6, 0x961f4894, 0x174d83c6, 0x90da2d6d, 0x88fa2277, 0x940d4894,
                3, 0x506e3058, 3, 0x5ef50f24);
    }
  }

  predicate StateAt64() {
    hide At;
    At(64, Hash(0x506e3058, 0xd39a2165, 0x04d24d6c, 0xb85e2ce9, 0x5ef50f24, 0xfb121210, 0x948d25b6, 0x961f4894))
  }

  // The digest

  function AbcHash(): Hash {
    Hash(0xba7816bf, 0x8f01cfea, 0x414140de, 0x5dae2223, 0xb00361a3, 0x96177a9c, 0xb410ff61, 0xf20015ad)
  }

  function AbcDigest(): seq<byte> {
    [0xba, 0x78, 0x16, 0xbf] + [0x8f, 0x01, 0xcf, 0xea] + [0x41, 0x41, 0x40, 0xde] + [0x5d, 0xae, 0x22, 0x23]
    + [0xb0, 0x03, 0x61, 0xa3] + [0x96, 0x17, 0x7a, 0x9c] + [0xb4, 0x10, 0xff, 0x61] + [0xf2, 0x00, 0x15, 0xad]
  }

  lemma CompressedBlock()
    ensures Compress(Initial(), AbcBlock()) == AbcHash()
  {
    RoundsTo64();
    hide Rounds, AbcBlock;
  }

  lemma PowersOf256()
    ensures Pow256(0) == 1 && Pow256(1) == 0x100 && Pow256(2) == 0x1_0000 && Pow256(3) == 0x100_0000
  {
  }

  lemma LengthOf24(k: nat)
    requires k < 8
    ensures LengthByte(24, k) == if k == 0 then 24 else 0
  {
    if k > 0 {
      assert Pow256(k) == 256 * Pow256(k - 1);
      var p := Pow256(k);
      hide Pow256;
      QuotientIs(24, p, 0, 24);
    }
  }

  lemma PaddedMessage()
    ensures Pad(Abc()) == AbcBlock()
  {
    hide LengthByte;
    assert |Abc()| == 3 && ZeroCount(3) == 52;
    forall k: nat | k < 8
      ensures LengthByte(24, k) == if k == 0 then 24 else 0
    {
      LengthOf24(k);
    }
    hide Abc;
    assert LengthBytes(24) == Zeros(7) + [24];
    assert Zeros(52) + Zeros(7) == Zeros(59);
  }

  lemma TopBytes(b0: byte, b1: byte, b2: byte, b3: byte)
    ensures WordOf(b0, b1, b2, b3) / 0x100_0000 == b0 && WordOf(b0, b1, b2, b3) / 0x1_0000 == 0x100 * b0 + b1
    ensures WordOf(b0, b1, b2, b3) / 0x100 == 0x1_0000 * b0 + 0x100 * b1 + b2
  {
  }

  lemma BytesOfWord(b0: byte, b1: byte, b2: byte, b3: byte)
    ensures ByteOf(WordOf(b0, b1, b2, b3), 0) == b0 && ByteOf(WordOf(b0, b1, b2, b3), 1) == b1
    ensures ByteOf(WordOf(b0, b1, b2, b3), 2) == b2 && ByteOf(WordOf(b0, b1, b2, b3), 3) == b3
  {
    PowersOf256();
    TopBytes(b0, b1, b2, b3);
    hide Pow256;
    assert WordOf(b0, b1, b2, b3) % 0x100 == b3;
  }

  function BytesOf(w: word): (s: seq<byte>)
    ensures |s| == 4
  {
    [ByteOf(w, 0), ByteOf(w, 1), ByteOf(w, 2), ByteOf(w, 3)]
  }

  lemma DigestParts(s: Hash)
    ensures Digest(s) == BytesOf(s.a) + BytesOf(s.b) + BytesOf(s.c) + BytesOf(s.d)
                         + BytesOf(s.e) + BytesOf(s.f) + BytesOf(s.g) + BytesOf(s.h)
  {
    hide ByteOf;
  }

  lemma QuadIs(w: word, b0: byte, b1: byte, b2: byte, b3: byte)
    requires w == WordOf(b0, b1, b2, b3)
    ensures BytesOf(w) == [b0, b1, b2, b3]
  {
    BytesOfWord(b0, b1, b2, b3);
    hide ByteOf;
  }

  lemma DigestBytes()
    ensures Digest(AbcHash()) == AbcDigest()
  {
    DigestParts(AbcHash());
    hide Digest, BytesOf;
    QuadIs(0xba7816bf, 0xba, 0x78, 0x16, 0xbf);
    QuadIs(0x8f01cfea, 0x8f, 0x01, 0xcf, 0xea);
    QuadIs(0x414140de, 0x41, 0x41, 0x40, 0xde);
    QuadIs(0x5dae2223, 0x5d, 0xae, 0x22, 0x23);
    QuadIs(0xb00361a3, 0xb0, 0x03, 0x61, 0xa3);
    QuadIs(0x96177a9c, 0x96, 0x17, 0x7a, 0x9c);
    QuadIs(0xb410ff61, 0xb4, 0x10, 0xff, 0x61);
    QuadIs(0xf20015ad, 0xf2, 0x00, 0x15, 0xad);
  }

  /** FIPS 180 gives this digest for the message "abc". */
  lemma DigestOfAbc()
    ensures MessageDigest(Abc()) == AbcDigest()
  {
    PaddedMessage();
    CompressedBlock();
    DigestBytes();
    hide Compress, Pad, Digest, AbcBlock, AbcHash, AbcDigest, Initial;
    Sha256Stream.NothingHashed();
    Sha256Stream.BlockDone([], AbcBlock(), AbcBlock());
  }
}
