/** Known answers of the MD5 message digest, worked out operation by operation from the definitions of
    RFC 1321, so that its tables, shifts and functions are the published ones. */
module Md5Answers {
  import opened Rfc1321

  lemma NothingLeft(s: State)
    ensures CompressAll(s, []) == s
  {
  }

  lemma WholeBlock(s: State, block: seq<Byte>)
    requires |block| == 64
    ensures CompressAll(s, block) == Compress(s, block)
  {
    hide Compress;
    assert block[..64] == block && block[64..] == [];
    NothingLeft(Compress(s, block));
  }

  lemma NoneYet(s: State, x: seq<Word>)
    requires |x| == 16
    ensures Operations(s, x, 0) == s
  {
  }

  lemma OneMore(s: State, x: seq<Word>, n: nat)
    requires |x| == 16
    ensures Operations(s, x, n + 1) == Operation(Operations(s, x, n), x, n)
  {
  }

  lemma LengthIs(bytes: nat)
    requires bytes < 0x1_0000
    ensures LengthBytes(bytes) == NatBytes(8 * bytes) + NatBytes(0)
  {
    hide NatBytes;
    assert 8 * bytes % 0x1_0000_0000_0000_0000 == 8 * bytes;
    assert 8 * bytes % 0x1_0000_0000 == 8 * bytes && 8 * bytes / 0x1_0000_0000 == 0;
  }

  lemma SmallBytes()
    ensures NatBytes(0) == [0, 0, 0, 0]
    ensures NatBytes(24) == [0x18, 0, 0, 0]
  {
  }

  lemma LoadedWords()
    ensures ToWord(0, 0, 0, 0) == 0 && ToWord(0x80, 0, 0, 0) == 0x80
    ensures ToWord(0x61, 0x62, 0x63, 0x80) == 0x80636261 && ToWord(0x18, 0, 0, 0) == 0x18
  {
  }

  /** Section 3.3: the words of the buffer in hexadecimal, low-order bytes first. */
  lemma InitialBytes()
    ensures StateBytes(INITIAL) == [
      0x01, 0x23, 0x45, 0x67, 0x89, 0xab, 0xcd, 0xef, 0xfe, 0xdc, 0xba, 0x98, 0x76, 0x54, 0x32, 0x10
    ]
  {
  }

  // ---- what operations 4n to 4n + 3 use ----

  lemma Table0()
    ensures Index(0) == 0 && Shift(0) == 7 && Sine(0) == 0xd76aa478
    ensures Index(1) == 1 && Shift(1) == 12 && Sine(1) == 0xe8c7b756
    ensures Index(2) == 2 && Shift(2) == 17 && Sine(2) == 0x242070db
    ensures Index(3) == 3 && Shift(3) == 22 && Sine(3) == 0xc1bdceee
  {
  }

  lemma Table4()
    ensures Index(4) == 4 && Shift(4) == 7 && Sine(4) == 0xf57c0faf
    ensures Index(5) == 5 && Shift(5) == 12 && Sine(5) == 0x4787c62a
    ensures Index(6) == 6 && Shift(6) == 17 && Sine(6) == 0xa8304613
    ensures Index(7) == 7 && Shift(7) == 22 && Sine(7) == 0xfd469501
  {
  }

  lemma Table8()
    ensures Index(8) == 8 && Shift(8) == 7 && Sine(8) == 0x698098d8
    ensures Index(9) == 9 && Shift(9) == 12 && Sine(9) == 0x8b44f7af
    ensures Index(10) == 10 && Shift(10) == 17 && Sine(10) == 0xffff5bb1
    ensures Index(11) == 11 && Shift(11) == 22 && Sine(11) == 0x895cd7be
  {
  }

  lemma Table12()
    ensures Index(12) == 12 && Shift(12) == 7 && Sine(12) == 0x6b901122
    ensures Index(13) == 13 && Shift(13) == 12 && Sine(13) == 0xfd987193
    ensures Index(14) == 14 && Shift(14) == 17 && Sine(14) == 0xa679438e
    ensures Index(15) == 15 && Shift(15) == 22 && Sine(15) == 0x49b40821
  {
  }

  lemma Table16()
    ensures Index(16) == 1 && Shift(16) == 5 && Sine(16) == 0xf61e2562
    ensures Index(17) == 6 && Shift(17) == 9 && Sine(17) == 0xc040b340
    ensures Index(18) == 11 && Shift(18) == 14 && Sine(18) == 0x265e5a51
    ensures Index(19) == 0 && Shift(19) == 20 && Sine(19) == 0xe9b6c7aa
  {
  }

  lemma Table20()
    ensures Index(20) == 5 && Shift(20) == 5 && Sine(20) == 0xd62f105d
    ensures Index(21) == 10 && Shift(21) == 9 && Sine(21) == 0x02441453
    ensures Index(22) == 15 && Shift(22) == 14 && Sine(22) == 0xd8a1e681
    ensures Index(23) == 4 && Shift(23) == 20 && Sine(23) == 0xe7d3fbc8
  {
  }

  lemma Table24()
    ensures Index(24) == 9 && Shift(24) == 5 && Sine(24) == 0x21e1cde6
    ensures Index(25) == 14 && Shift(25) == 9 && Sine(25) == 0xc33707d6
    ensures Index(26) == 3 && Shift(26) == 14 && Sine(26) == 0xf4d50d87
    ensures Index(27) == 8 && Shift(27) == 20 && Sine(27) == 0x455a14ed
  {
  }

  lemma Table28()
    ensures Index(28) == 13 && Shift(28) == 5 && Sine(28) == 0xa9e3e905
    ensures Index(29) == 2 && Shift(29) == 9 && Sine(29) == 0xfcefa3f8
    ensures Index(30) == 7 && Shift(30) == 14 && Sine(30) == 0x676f02d9
    ensures Index(31) == 12 && Shift(31) == 20 && Sine(31) == 0x8d2a4c8a
  {
  }

  lemma Table32()
    ensures Index(32) == 5 && Shift(32) == 4 && Sine(32) == 0xfffa3942
    ensures Index(33) == 8 && Shift(33) == 11 && Sine(33) == 0x8771f681
    ensures Index(34) == 11 && Shift(34) == 16 && Sine(34) == 0x6d9d6122
    ensures Index(35) == 14 && Shift(35) == 23 && Sine(35) == 0xfde5380c
  {
  }

  lemma Table36()
    ensures Index(36) == 1 && Shift(36) == 4 && Sine(36) == 0xa4beea44
    ensures Index(37) == 4 && Shift(37) == 11 && Sine(37) == 0x4bdecfa9
    ensures Index(38) == 7 && Shift(38) == 16 && Sine(38) == 0xf6bb4b60
    ensures Index(39) == 10 && Shift(39) == 23 && Sine(39) == 0xbebfbc70
  {
  }

  lemma Table40()
    ensures Index(40) == 13 && Shift(40) == 4 && Sine(40) == 0x289b7ec6
    ensures Index(41) == 0 && Shift(41) == 11 && Sine(41) == 0xeaa127fa
    ensures Index(42) == 3 && Shift(42) == 16 && Sine(42) == 0xd4ef3085
    ensures Index(43) == 6 && Shift(43) == 23 && Sine(43) == 0x04881d05
  {
  }

  lemma Table44()
    ensures Index(44) == 9 && Shift(44) == 4 && Sine(44) == 0xd9d4d039
    ensures Index(45) == 12 && Shift(45) == 11 && Sine(45) == 0xe6db99e5
    ensures Index(46) == 15 && Shift(46) == 16 && Sine(46) == 0x1fa27cf8
    ensures Index(47) == 2 && Shift(47) == 23 && Sine(47) == 0xc4ac5665
  {
  }

  lemma Table48()
    ensures Index(48) == 0 && Shift(48) == 6 && Sine(48) == 0xf4292244
    ensures Index(49) == 7 && Shift(49) == 10 && Sine(49) == 0x432aff97
    ensures Index(50) == 14 && Shift(50) == 15 && Sine(50) == 0xab9423a7
    ensures Index(51) == 5 && Shift(51) == 21 && Sine(51) == 0xfc93a039
  {
  }

  lemma Table52()
    ensures Index(52) == 12 && Shift(52) == 6 && Sine(52) == 0x655b59c3
    ensures Index(53) == 3 && Shift(53) == 10 && Sine(53) == 0x8f0ccc92
    ensures Index(54) == 10 && Shift(54) == 15 && Sine(54) == 0xffeff47d
    ensures Index(55) == 1 && Shift(55) == 21 && Sine(55) == 0x85845dd1
  {
  }

  lemma Table56()
    ensures Index(56) == 8 && Shift(56) == 6 && Sine(56) == 0x6fa87e4f
    ensures Index(57) == 15 && Shift(57) == 10 && Sine(57) == 0xfe2ce6e0
    ensures Index(58) == 6 && Shift(58) == 15 && Sine(58) == 0xa3014314
    ensures Index(59) == 13 && Shift(59) == 21 && Sine(59) == 0x4e0811a1
  {
  }

  lemma Table60()
    ensures Index(60) == 4 && Shift(60) == 6 && Sine(60) == 0xf7537e82
    ensures Index(61) == 11 && Shift(61) == 10 && Sine(61) == 0xbd3af235
    ensures Index(62) == 2 && Shift(62) == 15 && Sine(62) == 0x2ad7d2bb
    ensures Index(63) == 9 && Shift(63) == 21 && Sine(63) == 0xeb86d391
  {
  }

  // ---- the empty message ----

  const EMPTY: seq<Byte> := []

  /** The one block of the padded message. */
  const EMPTY_WORDS: seq<Word> := [
    0x00000080, 0x00000000, 0x00000000, 0x00000000, 0x00000000, 0x00000000, 0x00000000, 0x00000000,
    0x00000000, 0x00000000, 0x00000000, 0x00000000, 0x00000000, 0x00000000, 0x00000000, 0x00000000
  ]

  lemma EmptyFacts0()
    ensures Aux(0, 0xefcdab89, 0x98badcfe, 0x10325476) == 0x98badcfe
    ensures Total(0x67452301, 0x98badcfe, 0x00000080, 0xd76aa478) == 0xd76aa4f7
    ensures RotateLeft(0xd76aa4f7, 7) == 0xb5527beb && Plus(0xefcdab89, 0xb5527beb) == 0xa5202774
    ensures Aux(1, 0xa5202774, 0xefcdab89, 0x98badcfe) == 0xbd9afb8a
    ensures Total(0x10325476, 0xbd9afb8a, 0x00000000, 0xe8c7b756) == 0xb6950756
    ensures RotateLeft(0xb6950756, 12) == 0x50756b69 && Plus(0xa5202774, 0x50756b69) == 0xf59592dd
    ensures Aux(2, 0xf59592dd, 0xa5202774, 0xefcdab89) == 0xaf482b54
    ensures Total(0x98badcfe, 0xaf482b54, 0x00000000, 0x242070db) == 0x6c23792d
    ensures RotateLeft(0x6c23792d, 17) == 0xf25ad846 && Plus(0xf59592dd, 0xf25ad846) == 0xe7f06b23
    ensures Aux(3, 0xe7f06b23, 0xf59592dd, 0xa5202774) == 0xe5900655
    ensures Total(0xefcdab89, 0xe5900655, 0x00000000, 0xc1bdceee) == 0x971b80cc
    ensures RotateLeft(0x971b80cc, 22) == 0x3325c6e0 && Plus(0xe7f06b23, 0x3325c6e0) == 0x1b163203
  {
  }

  lemma EmptyAfter4()
    ensures Operations(INITIAL, EMPTY_WORDS, 4) == State(0xa5202774, 0x1b163203, 0xe7f06b23, 0xf59592dd)
  {
    hide Operations, Aux, Total, RotateLeft, Plus, Index, Shift, Sine;
    Table0();
    EmptyFacts0();
    NoneYet(INITIAL, EMPTY_WORDS);
    OneMore(INITIAL, EMPTY_WORDS, 0);
    assert Operations(INITIAL, EMPTY_WORDS, 1) == State(0x10325476, 0xa5202774, 0xefcdab89, 0x98badcfe);
    OneMore(INITIAL, EMPTY_WORDS, 1);
    assert Operations(INITIAL, EMPTY_WORDS, 2) == State(0x98badcfe, 0xf59592dd, 0xa5202774, 0xefcdab89);
    OneMore(INITIAL, EMPTY_WORDS, 2);
    assert Operations(INITIAL, EMPTY_WORDS, 3) == State(0xefcdab89, 0xe7f06b23, 0xf59592dd, 0xa5202774);
    OneMore(INITIAL, EMPTY_WORDS, 3);
  }

  lemma EmptyFacts4()
    ensures Aux(4, 0x1b163203, 0xe7f06b23, 0xf59592dd) == 0xe791a2df
    ensures Total(0xa5202774, 0xe791a2df, 0x00000000, 0xf57c0faf) == 0x822dda02
    ensures RotateLeft(0x822dda02, 7) == 0x16ed0141 && Plus(0x1b163203, 0x16ed0141) == 0x32033344
    ensures Aux(5, 0x32033344, 0x1b163203, 0xe7f06b23) == 0xd7f27a23
    ensures Total(0xf59592dd, 0xd7f27a23, 0x00000000, 0x4787c62a) == 0x150fd32a
    ensures RotateLeft(0x150fd32a, 12) == 0xfd32a150 && Plus(0x32033344, 0xfd32a150) == 0x2f35d494
    ensures Aux(6, 0x2f35d494, 0x32033344, 0x1b163203) == 0x32033207
    ensures Total(0xe7f06b23, 0x32033207, 0x00000000, 0xa8304613) == 0xc223e33d
    ensures RotateLeft(0xc223e33d, 17) == 0xc67b8447 && Plus(0x2f35d494, 0xc67b8447) == 0xf5b158db
    ensures Aux(7, 0xf5b158db, 0x2f35d494, 0x32033344) == 0x27337394
    ensures Total(0x1b163203, 0x27337394, 0x00000000, 0xfd469501) == 0x3f903a98
    ensures RotateLeft(0x3f903a98, 22) == 0xa60fe40e && Plus(0xf5b158db, 0xa60fe40e) == 0x9bc13ce9
  {
  }

  lemma EmptyAfter8()
    ensures Operations(INITIAL, EMPTY_WORDS, 8) == State(0x32033344, 0x9bc13ce9, 0xf5b158db, 0x2f35d494)
  {
    hide Operations, Aux, Total, RotateLeft, Plus, Index, Shift, Sine;
    EmptyAfter4();
    Table4();
    EmptyFacts4();
    OneMore(INITIAL, EMPTY_WORDS, 4);
    assert Operations(INITIAL, EMPTY_WORDS, 5) == State(0xf59592dd, 0x32033344, 0x1b163203, 0xe7f06b23);
    OneMore(INITIAL, EMPTY_WORDS, 5);
    assert Operations(INITIAL, EMPTY_WORDS, 6) == State(0xe7f06b23, 0x2f35d494, 0x32033344, 0x1b163203);
    OneMore(INITIAL, EMPTY_WORDS, 6);
    assert Operations(INITIAL, EMPTY_WORDS, 7) == State(0x1b163203, 0xf5b158db, 0x2f35d494, 0x32033344);
    OneMore(INITIAL, EMPTY_WORDS, 7);
  }

  lemma EmptyFacts8()
    ensures Aux(8, 0x9bc13ce9, 0xf5b158db, 0x2f35d494) == 0xb5b5d8dd
    ensures Total(0x32033344, 0xb5b5d8dd, 0x00000000, 0x698098d8) == 0x5139a4f9
    ensures RotateLeft(0x5139a4f9, 7) == 0x9cd27ca8 && Plus(0x9bc13ce9, 0x9cd27ca8) == 0x3893b991
    ensures Aux(9, 0x3893b991, 0x9bc13ce9, 0xf5b158db) == 0xdda178cb
    ensures Total(0x2f35d494, 0xdda178cb, 0x00000000, 0x8b44f7af) == 0x981c450e
    ensures RotateLeft(0x981c450e, 12) == 0xc450e981 && Plus(0x3893b991, 0xc450e981) == 0xfce4a312
    ensures Aux(10, 0xfce4a312, 0x3893b991, 0x9bc13ce9) == 0x3b81bdf9
    ensures Total(0xf5b158db, 0x3b81bdf9, 0x00000000, 0xffff5bb1) == 0x31327285
    ensures RotateLeft(0x31327285, 17) == 0xe50a6264 && Plus(0xfce4a312, 0xe50a6264) == 0xe1ef0576
    ensures Aux(11, 0xe1ef0576, 0xfce4a312, 0x3893b991) == 0xf8f4b993
    ensures Total(0x9bc13ce9, 0xf8f4b993, 0x00000000, 0x895cd7be) == 0x1e12ce3a
    ensures RotateLeft(0x1e12ce3a, 22) == 0x8e8784b3 && Plus(0xe1ef0576, 0x8e8784b3) == 0x70768a29
  {
  }

  lemma EmptyAfter12()
    ensures Operations(INITIAL, EMPTY_WORDS, 12) == State(0x3893b991, 0x70768a29, 0xe1ef0576, 0xfce4a312)
  {
    hide Operations, Aux, Total, RotateLeft, Plus, Index, Shift, Sine;
    EmptyAfter8();
    Table8();
    EmptyFacts8();
    OneMore(INITIAL, EMPTY_WORDS, 8);
    assert Operations(INITIAL, EMPTY_WORDS, 9) == State(0x2f35d494, 0x3893b991, 0x9bc13ce9, 0xf5b158db);
    OneMore(INITIAL, EMPTY_WORDS, 9);
    assert Operations(INITIAL, EMPTY_WORDS, 10) == State(0xf5b158db, 0xfce4a312, 0x3893b991, 0x9bc13ce9);
    OneMore(INITIAL, EMPTY_WORDS, 10);
    assert Operations(INITIAL, EMPTY_WORDS, 11) == State(0x9bc13ce9, 0xe1ef0576, 0xfce4a312, 0x3893b991);
    OneMore(INITIAL, EMPTY_WORDS, 11);
  }

  lemma EmptyFacts12()
    ensures Aux(12, 0x70768a29, 0xe1ef0576, 0xfce4a312) == 0xece62132
    ensures Total(0x3893b991, 0xece62132, 0x00000000, 0x6b901122) == 0x9109ebe5
    ensures RotateLeft(0x9109ebe5, 7) == 0x84f5f2c8 && Plus(0x70768a29, 0x84f5f2c8) == 0xf56c7cf1
    ensures Aux(13, 0xf56c7cf1, 0x70768a29, 0xe1ef0576) == 0x70e70927
    ensures Total(0xfce4a312, 0x70e70927, 0x00000000, 0xfd987193) == 0x6b641dcc
    ensures RotateLeft(0x6b641dcc, 12) == 0x41dcc6b6 && Plus(0xf56c7cf1, 0x41dcc6b6) == 0x374943a7
    ensures Aux(14, 0x374943a7, 0xf56c7cf1, 0x70768a29) == 0x757ec8a9
    ensures Total(0xe1ef0576, 0x757ec8a9, 0x00000000, 0xa679438e) == 0xfde711ad
    ensures RotateLeft(0xfde711ad, 17) == 0x235bfbce && Plus(0x374943a7, 0x235bfbce) == 0x5aa53f75
    ensures Aux(15, 0x5aa53f75, 0x374943a7, 0xf56c7cf1) == 0xb74943a5
    ensures Total(0x70768a29, 0xb74943a5, 0x00000000, 0x49b40821) == 0x7173d5ef
    ensures RotateLeft(0x7173d5ef, 22) == 0x7bdc5cf5 && Plus(0x5aa53f75, 0x7bdc5cf5) == 0xd6819c6a
  {
  }

  lemma EmptyAfter16()
    ensures Operations(INITIAL, EMPTY_WORDS, 16) == State(0xf56c7cf1, 0xd6819c6a, 0x5aa53f75, 0x374943a7)
  {
    hide Operations, Aux, Total, RotateLeft, Plus, Index, Shift, Sine;
    EmptyAfter12();
    Table12();
    EmptyFacts12();
    OneMore(INITIAL, EMPTY_WORDS, 12);
    assert Operations(INITIAL, EMPTY_WORDS, 13) == State(0xfce4a312, 0xf56c7cf1, 0x70768a29, 0xe1ef0576);
    OneMore(INITIAL, EMPTY_WORDS, 13);
    assert Operations(INITIAL, EMPTY_WORDS, 14) == State(0xe1ef0576, 0x374943a7, 0xf56c7cf1, 0x70768a29);
    OneMore(INITIAL, EMPTY_WORDS, 14);
    assert Operations(INITIAL, EMPTY_WORDS, 15) == State(0x70768a29, 0x5aa53f75, 0x374943a7, 0xf56c7cf1);
    OneMore(INITIAL, EMPTY_WORDS, 15);
  }

  lemma EmptyFacts16()
    ensures Aux(16, 0xd6819c6a, 0x5aa53f75, 0x374943a7) == 0x5ea53c72
    ensures Total(0xf56c7cf1, 0x5ea53c72, 0x00000000, 0xf61e2562) == 0x4a2fdec5
    ensures RotateLeft(0x4a2fdec5, 5) == 0x45fbd8a9 && Plus(0xd6819c6a, 0x45fbd8a9) == 0x1c7d7513
    ensures Aux(17, 0x1c7d7513, 0xd6819c6a, 0x5aa53f75) == 0x9c25b51b
    ensures Total(0x374943a7, 0x9c25b51b, 0x00000000, 0xc040b340) == 0x93afac02
    ensures RotateLeft(0x93afac02, 9) == 0x5f580527 && Plus(0x1c7d7513, 0x5f580527) == 0x7bd57a3a
    ensures Aux(18, 0x7bd57a3a, 0x1c7d7513, 0xd6819c6a) == 0x5afd793b
    ensures Total(0x5aa53f75, 0x5afd793b, 0x00000000, 0x265e5a51) == 0xdc011301
    ensures RotateLeft(0xdc011301, 14) == 0x44c07700 && Plus(0x7bd57a3a, 0x44c07700) == 0xc095f13a
    ensures Aux(19, 0xc095f13a, 0x7bd57a3a, 0x1c7d7513) == 0x63957b3a
    ensures Total(0xd6819c6a, 0x63957b3a, 0x00000080, 0xe9b6c7aa) == 0x23cddfce
    ensures RotateLeft(0x23cddfce, 20) == 0xfce23cdd && Plus(0xc095f13a, 0xfce23cdd) == 0xbd782e17
  {
  }

  lemma EmptyAfter20()
    ensures Operations(INITIAL, EMPTY_WORDS, 20) == State(0x1c7d7513, 0xbd782e17, 0xc095f13a, 0x7bd57a3a)
  {
    hide Operations, Aux, Total, RotateLeft, Plus, Index, Shift, Sine;
    EmptyAfter16();
    Table16();
    EmptyFacts16();
    OneMore(INITIAL, EMPTY_WORDS, 16);
    assert Operations(INITIAL, EMPTY_WORDS, 17) == State(0x374943a7, 0x1c7d7513, 0xd6819c6a, 0x5aa53f75);
    OneMore(INITIAL, EMPTY_WORDS, 17);
    assert Operations(INITIAL, EMPTY_WORDS, 18) == State(0x5aa53f75, 0x7bd57a3a, 0x1c7d7513, 0xd6819c6a);
    OneMore(INITIAL, EMPTY_WORDS, 18);
    assert Operations(INITIAL, EMPTY_WORDS, 19) == State(0xd6819c6a, 0xc095f13a, 0x7bd57a3a, 0x1c7d7513);
    OneMore(INITIAL, EMPTY_WORDS, 19);
  }

  lemma EmptyFacts20()
    ensures Aux(20, 0xbd782e17, 0xc095f13a, 0x7bd57a3a) == 0xb950ab12
    ensures Total(0x1c7d7513, 0xb950ab12, 0x00000000, 0xd62f105d) == 0xabfd3082
    ensures RotateLeft(0xabfd3082, 5) == 0x7fa61055 && Plus(0xbd782e17, 0x7fa61055) == 0x3d1e3e6c
    ensures Aux(21, 0x3d1e3e6c, 0xbd782e17, 0xc095f13a) == 0x3d7c3e2d
    ensures Total(0x7bd57a3a, 0x3d7c3e2d, 0x00000000, 0x02441453) == 0xbb95ccba
    ensures RotateLeft(0xbb95ccba, 9) == 0x2b997577 && Plus(0x3d1e3e6c, 0x2b997577) == 0x68b7b3e3
    ensures Aux(22, 0x68b7b3e3, 0x3d1e3e6c, 0xbd782e17) == 0x2836326b
    ensures Total(0xc095f13a, 0x2836326b, 0x00000000, 0xd8a1e681) == 0xc16e0a26
    ensures RotateLeft(0xc16e0a26, 14) == 0x8289b05b && Plus(0x68b7b3e3, 0x8289b05b) == 0xeb41643e
    ensures Aux(23, 0xeb41643e, 0x68b7b3e3, 0x3d1e3e6c) == 0x69a1a5af
    ensures Total(0xbd782e17, 0x69a1a5af, 0x00000000, 0xe7d3fbc8) == 0x0eedcf8e
    ensures RotateLeft(0x0eedcf8e, 20) == 0xf8e0eedc && Plus(0xeb41643e, 0xf8e0eedc) == 0xe422531a
  {
  }

  lemma EmptyAfter24()
    ensures Operations(INITIAL, EMPTY_WORDS, 24) == State(0x3d1e3e6c, 0xe422531a, 0xeb41643e, 0x68b7b3e3)
  {
    hide Operations, Aux, Total, RotateLeft, Plus, Index, Shift, Sine;
    EmptyAfter20();
    Table20();
    EmptyFacts20();
    OneMore(INITIAL, EMPTY_WORDS, 20);
    assert Operations(INITIAL, EMPTY_WORDS, 21) == State(0x7bd57a3a, 0x3d1e3e6c, 0xbd782e17, 0xc095f13a);
    OneMore(INITIAL, EMPTY_WORDS, 21);
    assert Operations(INITIAL, EMPTY_WORDS, 22) == State(0xc095f13a, 0x68b7b3e3, 0x3d1e3e6c, 0xbd782e17);
    OneMore(INITIAL, EMPTY_WORDS, 22);
    assert Operations(INITIAL, EMPTY_WORDS, 23) == State(0xbd782e17, 0xeb41643e, 0x68b7b3e3, 0x3d1e3e6c);
    OneMore(INITIAL, EMPTY_WORDS, 23);
  }

  lemma EmptyFacts24()
    ensures Aux(24, 0xe422531a, 0xeb41643e, 0x68b7b3e3) == 0xe362571e
    ensures Total(0x3d1e3e6c, 0xe362571e, 0x00000000, 0x21e1cde6) == 0x42626370
    ensures RotateLeft(0x42626370, 5) == 0x4c4c6e08 && Plus(0xe422531a, 0x4c4c6e08) == 0x306ec122
    ensures Aux(25, 0x306ec122, 0xe422531a, 0xeb41643e) == 0x24625322
    ensures Total(0x68b7b3e3, 0x24625322, 0x00000000, 0xc33707d6) == 0x50510edb
    ensures RotateLeft(0x50510edb, 9) == 0xa21db6a0 && Plus(0x306ec122, 0xa21db6a0) == 0xd28c77c2
    ensures Aux(26, 0xd28c77c2, 0x306ec122, 0xe422531a) == 0xd04cd322
    ensures Total(0xeb41643e, 0xd04cd322, 0x00000000, 0xf4d50d87) == 0xb06344e7
    ensures RotateLeft(0xb06344e7, 14) == 0xd139ec18 && Plus(0xd28c77c2, 0xd139ec18) == 0xa3c663da
    ensures Aux(27, 0xa3c663da, 0xd28c77c2, 0x306ec122) == 0xe2c677c2
    ensures Total(0xe422531a, 0xe2c677c2, 0x00000000, 0x455a14ed) == 0x0c42dfc9
    ensures RotateLeft(0x0c42dfc9, 20) == 0xfc90c42d && Plus(0xa3c663da, 0xfc90c42d) == 0xa0572807
  {
  }

  lemma EmptyAfter28()
    ensures Operations(INITIAL, EMPTY_WORDS, 28) == State(0x306ec122, 0xa0572807, 0xa3c663da, 0xd28c77c2)
  {
    hide Operations, Aux, Total, RotateLeft, Plus, Index, Shift, Sine;
    EmptyAfter24();
    Table24();
    EmptyFacts24();
    OneMore(INITIAL, EMPTY_WORDS, 24);
    assert Operations(INITIAL, EMPTY_WORDS, 25) == State(0x68b7b3e3, 0x306ec122, 0xe422531a, 0xeb41643e);
    OneMore(INITIAL, EMPTY_WORDS, 25);
    assert Operations(INITIAL, EMPTY_WORDS, 26) == State(0xeb41643e, 0xd28c77c2, 0x306ec122, 0xe422531a);
    OneMore(INITIAL, EMPTY_WORDS, 26);
    assert Operations(INITIAL, EMPTY_WORDS, 27) == State(0xe422531a, 0xa3c663da, 0xd28c77c2, 0x306ec122);
    OneMore(INITIAL, EMPTY_WORDS, 27);
  }

  lemma EmptyFacts28()
    ensures Aux(28, 0xa0572807, 0xa3c663da, 0xd28c77c2) == 0xa146201a
    ensures Total(0x306ec122, 0xa146201a, 0x00000000, 0xa9e3e905) == 0x7b98ca41
    ensures RotateLeft(0x7b98ca41, 5) == 0x7319482f && Plus(0xa0572807, 0x7319482f) == 0x13707036
    ensures Aux(29, 0x13707036, 0xa0572807, 0xa3c663da) == 0x03516817
    ensures Total(0xd28c77c2, 0x03516817, 0x00000000, 0xfcefa3f8) == 0xd2cd83d1
    ensures RotateLeft(0xd2cd83d1, 9) == 0x9b07a3a5 && Plus(0x13707036, 0x9b07a3a5) == 0xae7813db
    ensures Aux(30, 0xae7813db, 0x13707036, 0xa0572807) == 0xb3705033
    ensures Total(0xa3c663da, 0xb3705033, 0x00000000, 0x676f02d9) == 0xbea5b6e6
    ensures RotateLeft(0xbea5b6e6, 14) == 0x6db9afa9 && Plus(0xae7813db, 0x6db9afa9) == 0x1c31c384
    ensures Aux(31, 0x1c31c384, 0xae7813db, 0x13707036) == 0xbc3843cd
    ensures Total(0xa0572807, 0xbc3843cd, 0x00000000, 0x8d2a4c8a) == 0xe9b9b85e
    ensures RotateLeft(0xe9b9b85e, 20) == 0x85ee9b9b && Plus(0x1c31c384, 0x85ee9b9b) == 0xa2205f1f
  {
  }

  lemma EmptyAfter32()
    ensures Operations(INITIAL, EMPTY_WORDS, 32) == State(0x13707036, 0xa2205f1f, 0x1c31c384, 0xae7813db)
  {
    hide Operations, Aux, Total, RotateLeft, Plus, Index, Shift, Sine;
    EmptyAfter28();
    Table28();
    EmptyFacts28();
    OneMore(INITIAL, EMPTY_WORDS, 28);
    assert Operations(INITIAL, EMPTY_WORDS, 29) == State(0xd28c77c2, 0x13707036, 0xa0572807, 0xa3c663da);
    OneMore(INITIAL, EMPTY_WORDS, 29);
    assert Operations(INITIAL, EMPTY_WORDS, 30) == State(0xa3c663da, 0xae7813db, 0x13707036, 0xa0572807);
    OneMore(INITIAL, EMPTY_WORDS, 30);
    assert Operations(INITIAL, EMPTY_WORDS, 31) == State(0xa0572807, 0x1c31c384, 0xae7813db, 0x13707036);
    OneMore(INITIAL, EMPTY_WORDS, 31);
  }

  lemma EmptyFacts32()
    ensures Aux(32, 0xa2205f1f, 0x1c31c384, 0xae7813db) == 0x10698f40
    ensures Total(0x13707036, 0x10698f40, 0x00000000, 0xfffa3942) == 0x23d438b8
    ensures RotateLeft(0x23d438b8, 4) == 0x3d438b82 && Plus(0xa2205f1f, 0x3d438b82) == 0xdf63eaa1
    ensures Aux(33, 0xdf63eaa1, 0xa2205f1f, 0x1c31c384) == 0x6172763a
    ensures Total(0xae7813db, 0x6172763a, 0x00000000, 0x8771f681) == 0x975c8096
    ensures RotateLeft(0x975c8096, 11) == 0xe404b4ba && Plus(0xdf63eaa1, 0xe404b4ba) == 0xc3689f5b
    ensures Aux(34, 0xc3689f5b, 0xdf63eaa1, 0xa2205f1f) == 0xbe2b2ae5
    ensures Total(0x1c31c384, 0xbe2b2ae5, 0x00000000, 0x6d9d6122) == 0x47fa4f8b
    ensures RotateLeft(0x47fa4f8b, 16) == 0x4f8b47fa && Plus(0xc3689f5b, 0x4f8b47fa) == 0x12f3e755
    ensures Aux(35, 0x12f3e755, 0xc3689f5b, 0xdf63eaa1) == 0x0ef892af
    ensures Total(0xa2205f1f, 0x0ef892af, 0x00000000, 0xfde5380c) == 0xaefe29da
    ensures RotateLeft(0xaefe29da, 23) == 0xed577f14 && Plus(0x12f3e755, 0xed577f14) == 0x004b6669
  {
  }

  lemma EmptyAfter36()
    ensures Operations(INITIAL, EMPTY_WORDS, 36) == State(0xdf63eaa1, 0x004b6669, 0x12f3e755, 0xc3689f5b)
  {
    hide Operations, Aux, Total, RotateLeft, Plus, Index, Shift, Sine;
    EmptyAfter32();
    Table32();
    EmptyFacts32();
    OneMore(INITIAL, EMPTY_WORDS, 32);
    assert Operations(INITIAL, EMPTY_WORDS, 33) == State(0xae7813db, 0xdf63eaa1, 0xa2205f1f, 0x1c31c384);
    OneMore(INITIAL, EMPTY_WORDS, 33);
    assert Operations(INITIAL, EMPTY_WORDS, 34) == State(0x1c31c384, 0xc3689f5b, 0xdf63eaa1, 0xa2205f1f);
    OneMore(INITIAL, EMPTY_WORDS, 34);
    assert Operations(INITIAL, EMPTY_WORDS, 35) == State(0xa2205f1f, 0x12f3e755, 0xc3689f5b, 0xdf63eaa1);
    OneMore(INITIAL, EMPTY_WORDS, 35);
  }

  lemma EmptyFacts36()
    ensures Aux(36, 0x004b6669, 0x12f3e755, 0xc3689f5b) == 0xd1d01e67
    ensures Total(0xdf63eaa1, 0xd1d01e67, 0x00000000, 0xa4beea44) == 0x55f2f34c
    ensures RotateLeft(0x55f2f34c, 4) == 0x5f2f34c5 && Plus(0x004b6669, 0x5f2f34c5) == 0x5f7a9b2e
    ensures Aux(37, 0x5f7a9b2e, 0x004b6669, 0x12f3e755) == 0x4dc21a12
    ensures Total(0xc3689f5b, 0x4dc21a12, 0x00000000, 0x4bdecfa9) == 0x5d098916
    ensures RotateLeft(0x5d098916, 11) == 0x4c48b2e8 && Plus(0x5f7a9b2e, 0x4c48b2e8) == 0xabc34e16
    ensures Aux(38, 0xabc34e16, 0x5f7a9b2e, 0x004b6669) == 0xf4f2b351
    ensures Total(0x12f3e755, 0xf4f2b351, 0x00000000, 0xf6bb4b60) == 0xfea1e606
    ensures RotateLeft(0xfea1e606, 16) == 0xe606fea1 && Plus(0xabc34e16, 0xe606fea1) == 0x91ca4cb7
    ensures Aux(39, 0x91ca4cb7, 0xabc34e16, 0x5f7a9b2e) == 0x6573998f
    ensures Total(0x004b6669, 0x6573998f, 0x00000000, 0xbebfbc70) == 0x247ebc68
    ensures RotateLeft(0x247ebc68, 23) == 0x34123f5e && Plus(0x91ca4cb7, 0x34123f5e) == 0xc5dc8c15
  {
  }

  lemma EmptyAfter40()
    ensures Operations(INITIAL, EMPTY_WORDS, 40) == State(0x5f7a9b2e, 0xc5dc8c15, 0x91ca4cb7, 0xabc34e16)
  {
    hide Operations, Aux, Total, RotateLeft, Plus, Index, Shift, Sine;
    EmptyAfter36();
    Table36();
    EmptyFacts36();
    OneMore(INITIAL, EMPTY_WORDS, 36);
    assert Operations(INITIAL, EMPTY_WORDS, 37) == State(0xc3689f5b, 0x5f7a9b2e, 0x004b6669, 0x12f3e755);
    OneMore(INITIAL, EMPTY_WORDS, 37);
    assert Operations(INITIAL, EMPTY_WORDS, 38) == State(0x12f3e755, 0xabc34e16, 0x5f7a9b2e, 0x004b6669);
    OneMore(INITIAL, EMPTY_WORDS, 38);
    assert Operations(INITIAL, EMPTY_WORDS, 39) == State(0x004b6669, 0x91ca4cb7, 0xabc34e16, 0x5f7a9b2e);
    OneMore(INITIAL, EMPTY_WORDS, 39);
  }

  lemma EmptyFacts40()
    ensures Aux(40, 0xc5dc8c15, 0x91ca4cb7, 0xabc34e16) == 0xffd58eb4
    ensures Total(0x5f7a9b2e, 0xffd58eb4, 0x00000000, 0x289b7ec6) == 0x87eba8a8
    ensures RotateLeft(0x87eba8a8, 4) == 0x7eba8a88 && Plus(0xc5dc8c15, 0x7eba8a88) == 0x4497169d
    ensures Aux(41, 0x4497169d, 0xc5dc8c15, 0x91ca4cb7) == 0x1081d63f
    ensures Total(0xabc34e16, 0x1081d63f, 0x00000080, 0xeaa127fa) == 0xa6e64ccf
    ensures RotateLeft(0xa6e64ccf, 11) == 0x32667d37 && Plus(0x4497169d, 0x32667d37) == 0x76fd93d4
    ensures Aux(42, 0x76fd93d4, 0x4497169d, 0xc5dc8c15) == 0xf7b6095c
    ensures Total(0x91ca4cb7, 0xf7b6095c, 0x00000000, 0xd4ef3085) == 0x5e6f8698
    ensures RotateLeft(0x5e6f8698, 16) == 0x86985e6f && Plus(0x76fd93d4, 0x86985e6f) == 0xfd95f243
    ensures Aux(43, 0xfd95f243, 0x76fd93d4, 0x4497169d) == 0xcfff770a
    ensures Total(0xc5dc8c15, 0xcfff770a, 0x00000000, 0x04881d05) == 0x9a642024
    ensures RotateLeft(0x9a642024, 23) == 0x124d3210 && Plus(0xfd95f243, 0x124d3210) == 0x0fe32453
  {
  }

  lemma EmptyAfter44()
    ensures Operations(INITIAL, EMPTY_WORDS, 44) == State(0x4497169d, 0x0fe32453, 0xfd95f243, 0x76fd93d4)
  {
    hide Operations, Aux, Total, RotateLeft, Plus, Index, Shift, Sine;
    EmptyAfter40();
    Table40();
    EmptyFacts40();
    OneMore(INITIAL, EMPTY_WORDS, 40);
    assert Operations(INITIAL, EMPTY_WORDS, 41) == State(0xabc34e16, 0x4497169d, 0xc5dc8c15, 0x91ca4cb7);
    OneMore(INITIAL, EMPTY_WORDS, 41);
    assert Operations(INITIAL, EMPTY_WORDS, 42) == State(0x91ca4cb7, 0x76fd93d4, 0x4497169d, 0xc5dc8c15);
    OneMore(INITIAL, EMPTY_WORDS, 42);
    assert Operations(INITIAL, EMPTY_WORDS, 43) == State(0xc5dc8c15, 0xfd95f243, 0x76fd93d4, 0x4497169d);
    OneMore(INITIAL, EMPTY_WORDS, 43);
  }

  lemma EmptyFacts44()
    ensures Aux(44, 0x0fe32453, 0xfd95f243, 0x76fd93d4) == 0x848b45c4
    ensures Total(0x4497169d, 0x848b45c4, 0x00000000, 0xd9d4d039) == 0xa2f72c9a
    ensures RotateLeft(0xa2f72c9a, 4) == 0x2f72c9aa && Plus(0x0fe32453, 0x2f72c9aa) == 0x3f55edfd
    ensures Aux(45, 0x3f55edfd, 0x0fe32453, 0xfd95f243) == 0xcd233bed
    ensures Total(0x76fd93d4, 0xcd233bed, 0x00000000, 0xe6db99e5) == 0x2afc69a6
    ensures RotateLeft(0x2afc69a6, 11) == 0xe34d3157 && Plus(0x3f55edfd, 0xe34d3157) == 0x22a31f54
    ensures Aux(46, 0x22a31f54, 0x3f55edfd, 0x0fe32453) == 0x1215d6fa
    ensures Total(0xfd95f243, 0x1215d6fa, 0x00000000, 0x1fa27cf8) == 0x2f4e4635
    ensures RotateLeft(0x2f4e4635, 16) == 0x46352f4e && Plus(0x22a31f54, 0x46352f4e) == 0x68d84ea2
    ensures Aux(47, 0x68d84ea2, 0x22a31f54, 0x3f55edfd) == 0x752ebc0b
    ensures Total(0x0fe32453, 0x752ebc0b, 0x00000000, 0xc4ac5665) == 0x49be36c3
    ensures RotateLeft(0x49be36c3, 23) == 0x61a4df1b && Plus(0x68d84ea2, 0x61a4df1b) == 0xca7d2dbd
  {
  }

  lemma EmptyAfter48()
    ensures Operations(INITIAL, EMPTY_WORDS, 48) == State(0x3f55edfd, 0xca7d2dbd, 0x68d84ea2, 0x22a31f54)
  {
    hide Operations, Aux, Total, RotateLeft, Plus, Index, Shift, Sine;
    EmptyAfter44();
    Table44();
    EmptyFacts44();
    OneMore(INITIAL, EMPTY_WORDS, 44);
    assert Operations(INITIAL, EMPTY_WORDS, 45) == State(0x76fd93d4, 0x3f55edfd, 0x0fe32453, 0xfd95f243);
    OneMore(INITIAL, EMPTY_WORDS, 45);
    assert Operations(INITIAL, EMPTY_WORDS, 46) == State(0xfd95f243, 0x22a31f54, 0x3f55edfd, 0x0fe32453);
    OneMore(INITIAL, EMPTY_WORDS, 46);
    assert Operations(INITIAL, EMPTY_WORDS, 47) == State(0x0fe32453, 0x68d84ea2, 0x22a31f54, 0x3f55edfd);
    OneMore(INITIAL, EMPTY_WORDS, 47);
  }

  lemma EmptyFacts48()
    ensures Aux(48, 0xca7d2dbd, 0x68d84ea2, 0x22a31f54) == 0xb7a5a31d
    ensures Total(0x3f55edfd, 0xb7a5a31d, 0x00000080, 0xf4292244) == 0xeb24b3de
    ensures RotateLeft(0xeb24b3de, 6) == 0xc92cf7ba && Plus(0xca7d2dbd, 0xc92cf7ba) == 0x93aa2577
    ensures Aux(49, 0x93aa2577, 0xca7d2dbd, 0x68d84ea2) == 0x5dd298c2
    ensures Total(0x22a31f54, 0x5dd298c2, 0x00000000, 0x432aff97) == 0xc3a0b7ad
    ensures RotateLeft(0xc3a0b7ad, 10) == 0x82deb70e && Plus(0x93aa2577, 0x82deb70e) == 0x1688dc85
    ensures Aux(50, 0x1688dc85, 0x93aa2577, 0xca7d2dbd) == 0xa420fbb0
    ensures Total(0x68d84ea2, 0xa420fbb0, 0x00000000, 0xab9423a7) == 0xb88d6df9
    ensures RotateLeft(0xb88d6df9, 15) == 0xb6fcdc46 && Plus(0x1688dc85, 0xb6fcdc46) == 0xcd85b8cb
    ensures Aux(51, 0xcd85b8cb, 0x1688dc85, 0x93aa2577) == 0xfb5d264e
    ensures Total(0xca7d2dbd, 0xfb5d264e, 0x00000000, 0xfc93a039) == 0xc26df444
    ensures RotateLeft(0xc26df444, 21) == 0x88984dbe && Plus(0xcd85b8cb, 0x88984dbe) == 0x561e0689
  {
  }

  lemma EmptyAfter52()
    ensures Operations(INITIAL, EMPTY_WORDS, 52) == State(0x93aa2577, 0x561e0689, 0xcd85b8cb, 0x1688dc85)
  {
    hide Operations, Aux, Total, RotateLeft, Plus, Index, Shift, Sine;
    EmptyAfter48();
    Table48();
    EmptyFacts48();
    OneMore(INITIAL, EMPTY_WORDS, 48);
    assert Operations(INITIAL, EMPTY_WORDS, 49) == State(0x22a31f54, 0x93aa2577, 0xca7d2dbd, 0x68d84ea2);
    OneMore(INITIAL, EMPTY_WORDS, 49);
    assert Operations(INITIAL, EMPTY_WORDS, 50) == State(0x68d84ea2, 0x1688dc85, 0x93aa2577, 0xca7d2dbd);
    OneMore(INITIAL, EMPTY_WORDS, 50);
    assert Operations(INITIAL, EMPTY_WORDS, 51) == State(0xca7d2dbd, 0xcd85b8cb, 0x1688dc85, 0x93aa2577);
    OneMore(INITIAL, EMPTY_WORDS, 51);
  }

  lemma EmptyFacts52()
    ensures Aux(52, 0x561e0689, 0xcd85b8cb, 0x1688dc85) == 0x32fa9f30
    ensures Total(0x93aa2577, 0x32fa9f30, 0x00000000, 0x655b59c3) == 0x2c001e6a
    ensures RotateLeft(0x2c001e6a, 6) == 0x00079a8b && Plus(0x561e0689, 0x00079a8b) == 0x5625a114
    ensures Aux(53, 0x5625a114, 0x561e0689, 0xcd85b8cb) == 0x2061e1bd
    ensures Total(0x1688dc85, 0x2061e1bd, 0x00000000, 0x8f0ccc92) == 0xc5f78ad4
    ensures RotateLeft(0xc5f78ad4, 10) == 0xde2b5317 && Plus(0x5625a114, 0xde2b5317) == 0x3450f42b
    ensures Aux(54, 0x3450f42b, 0x5625a114, 0x561e0689) == 0xebd45c6b
    ensures Total(0xcd85b8cb, 0xebd45c6b, 0x00000000, 0xffeff47d) == 0xb94a09b3
    ensures RotateLeft(0xb94a09b3, 15) == 0x04d9dca5 && Plus(0x3450f42b, 0x04d9dca5) == 0x392ad0d0
    ensures Aux(55, 0x392ad0d0, 0x3450f42b, 0x5625a114) == 0x8daa2ad0
    ensures Total(0x561e0689, 0x8daa2ad0, 0x00000000, 0x85845dd1) == 0x694c8f2a
    ensures RotateLeft(0x694c8f2a, 21) == 0xe54d2991 && Plus(0x392ad0d0, 0xe54d2991) == 0x1e77fa61
  {
  }

  lemma EmptyAfter56()
    ensures Operations(INITIAL, EMPTY_WORDS, 56) == State(0x5625a114, 0x1e77fa61, 0x392ad0d0, 0x3450f42b)
  {
    hide Operations, Aux, Total, RotateLeft, Plus, Index, Shift, Sine;
    EmptyAfter52();
    Table52();
    EmptyFacts52();
    OneMore(INITIAL, EMPTY_WORDS, 52);
    assert Operations(INITIAL, EMPTY_WORDS, 53) == State(0x1688dc85, 0x5625a114, 0x561e0689, 0xcd85b8cb);
    OneMore(INITIAL, EMPTY_WORDS, 53);
    assert Operations(INITIAL, EMPTY_WORDS, 54) == State(0xcd85b8cb, 0x3450f42b, 0x5625a114, 0x561e0689);
    OneMore(INITIAL, EMPTY_WORDS, 54);
    assert Operations(INITIAL, EMPTY_WORDS, 55) == State(0x561e0689, 0x392ad0d0, 0x3450f42b, 0x5625a114);
    OneMore(INITIAL, EMPTY_WORDS, 55);
  }

  lemma EmptyFacts56()
    ensures Aux(56, 0x1e77fa61, 0x392ad0d0, 0x3450f42b) == 0xe6d52b25
    ensures Total(0x5625a114, 0xe6d52b25, 0x00000000, 0x6fa87e4f) == 0xaca34a88
    ensures RotateLeft(0xaca34a88, 6) == 0x28d2a22b && Plus(0x1e77fa61, 0x28d2a22b) == 0x474a9c8c
    ensures Aux(57, 0x474a9c8c, 0x1e77fa61, 0x392ad0d0) == 0xd9a845ce
    ensures Total(0x3450f42b, 0xd9a845ce, 0x00000000, 0xfe2ce6e0) == 0x0c2620d9
    ensures RotateLeft(0x0c2620d9, 10) == 0x98836430 && Plus(0x474a9c8c, 0x98836430) == 0xdfce00bc
    ensures Aux(58, 0xdfce00bc, 0x474a9c8c, 0x1e77fa61) == 0xb8849932
    ensures Total(0x392ad0d0, 0xb8849932, 0x00000000, 0xa3014314) == 0x94b0ad16
    ensures RotateLeft(0x94b0ad16, 15) == 0x568b4a58 && Plus(0xdfce00bc, 0x568b4a58) == 0x36594b14
    ensures Aux(59, 0x36594b14, 0xdfce00bc, 0x474a9c8c) == 0x61336bcb
    ensures Total(0x1e77fa61, 0x61336bcb, 0x00000000, 0x4e0811a1) == 0xcdb377cd
    ensures RotateLeft(0xcdb377cd, 21) == 0xf9b9b66e && Plus(0x36594b14, 0xf9b9b66e) == 0x30130182
  {
  }

  lemma EmptyAfter60()
    ensures Operations(INITIAL, EMPTY_WORDS, 60) == State(0x474a9c8c, 0x30130182, 0x36594b14, 0xdfce00bc)
  {
    hide Operations, Aux, Total, RotateLeft, Plus, Index, Shift, Sine;
    EmptyAfter56();
    Table56();
    EmptyFacts56();
    OneMore(INITIAL, EMPTY_WORDS, 56);
    assert Operations(INITIAL, EMPTY_WORDS, 57) == State(0x3450f42b, 0x474a9c8c, 0x1e77fa61, 0x392ad0d0);
    OneMore(INITIAL, EMPTY_WORDS, 57);
    assert Operations(INITIAL, EMPTY_WORDS, 58) == State(0x392ad0d0, 0xdfce00bc, 0x474a9c8c, 0x1e77fa61);
    OneMore(INITIAL, EMPTY_WORDS, 58);
    assert Operations(INITIAL, EMPTY_WORDS, 59) == State(0x1e77fa61, 0x36594b14, 0xdfce00bc, 0x474a9c8c);
    OneMore(INITIAL, EMPTY_WORDS, 59);
  }

  lemma EmptyFacts60()
    ensures Aux(60, 0x30130182, 0x36594b14, 0xdfce00bc) == 0x066ab4d7
    ensures Total(0x474a9c8c, 0x066ab4d7, 0x00000000, 0xf7537e82) == 0x4508cfe5
    ensures RotateLeft(0x4508cfe5, 6) == 0x4233f951 && Plus(0x30130182, 0x4233f951) == 0x7246fad3
    ensures Aux(61, 0x7246fad3, 0x30130182, 0x36594b14) == 0xcbf5ff79
    ensures Total(0xdfce00bc, 0xcbf5ff79, 0x00000000, 0xbd3af235) == 0x68fef26a
    ensures RotateLeft(0x68fef26a, 10) == 0xfbc9a9a3 && Plus(0x7246fad3, 0xfbc9a9a3) == 0x6e10a476
    ensures Aux(62, 0x6e10a476, 0x7246fad3, 0x30130182) == 0x9dba04ac
    ensures Total(0x36594b14, 0x9dba04ac, 0x00000000, 0x2ad7d2bb) == 0xfeeb227b
    ensures RotateLeft(0xfeeb227b, 15) == 0x913dff75 && Plus(0x6e10a476, 0x913dff75) == 0xff4ea3eb
    ensures Aux(63, 0xff4ea3eb, 0x6e10a476, 0x7246fad3) == 0x91ef0399
    ensures Total(0x30130182, 0x91ef0399, 0x00000000, 0xeb86d391) == 0xad88d8ac
    ensures RotateLeft(0xad88d8ac, 21) == 0x1595b11b && Plus(0xff4ea3eb, 0x1595b11b) == 0x14e45506
  {
  }

  lemma EmptyAfter64()
    ensures Operations(INITIAL, EMPTY_WORDS, 64) == State(0x7246fad3, 0x14e45506, 0xff4ea3eb, 0x6e10a476)
  {
    hide Operations, Aux, Total, RotateLeft, Plus, Index, Shift, Sine;
    EmptyAfter60();
    Table60();
    EmptyFacts60();
    OneMore(INITIAL, EMPTY_WORDS, 60);
    assert Operations(INITIAL, EMPTY_WORDS, 61) == State(0xdfce00bc, 0x7246fad3, 0x30130182, 0x36594b14);
    OneMore(INITIAL, EMPTY_WORDS, 61);
    assert Operations(INITIAL, EMPTY_WORDS, 62) == State(0x36594b14, 0x6e10a476, 0x7246fad3, 0x30130182);
    OneMore(INITIAL, EMPTY_WORDS, 62);
    assert Operations(INITIAL, EMPTY_WORDS, 63) == State(0x30130182, 0xff4ea3eb, 0x6e10a476, 0x7246fad3);
    OneMore(INITIAL, EMPTY_WORDS, 63);
  }

  lemma EmptyLength()
    ensures LengthBytes(0) == [0x00, 0, 0, 0, 0, 0, 0, 0]
  {
    hide LengthBytes, NatBytes;
    LengthIs(0);
    SmallBytes();
  }

  lemma EmptyPadded()
    ensures var p := Pad(EMPTY);
      && |p| == 64 && p[0] == 0x80
      && forall i :: 1 <= i < 64 ==> p[i] == 0
  {
    EmptyLength();
    hide LengthBytes;
  }

  lemma EmptyLoaded()
    ensures Words(Pad(EMPTY)) == EMPTY_WORDS
  {
    hide Pad, ToWord;
    EmptyPadded();
    LoadedWords();
    var p := Pad(EMPTY);
    forall k | 0 <= k < 16
      ensures Words(p)[k] == EMPTY_WORDS[k]
    {
      assert k >= 1 && k != 14 ==> p[4 * k] == 0 && p[4 * k + 1] == 0 && p[4 * k + 2] == 0 && p[4 * k + 3] == 0;
    }
  }

  lemma EmptyAdded()
    ensures Added(State(0x7246fad3, 0x14e45506, 0xff4ea3eb, 0x6e10a476), INITIAL) ==
            State(0xd98c1dd4, 0x04b2008f, 0x980980e9, 0x7e42f8ec)
  {
  }

  lemma EmptyBytes()
    ensures WordBytes(0xd98c1dd4) == [0xd4, 0x1d, 0x8c, 0xd9]
    ensures WordBytes(0x04b2008f) == [0x8f, 0x00, 0xb2, 0x04]
    ensures WordBytes(0x980980e9) == [0xe9, 0x80, 0x09, 0x98]
    ensures WordBytes(0x7e42f8ec) == [0xec, 0xf8, 0x42, 0x7e]
  {
  }

  /** The answer in appendix A.5 of RFC 1321: d41d8cd98f00b204e9800998ecf8427e. */
  lemma EmptyAnswer()
    ensures StateBytes(Digest(EMPTY)) == [
      0xd4, 0x1d, 0x8c, 0xd9, 0x8f, 0x00, 0xb2, 0x04,
      0xe9, 0x80, 0x09, 0x98, 0xec, 0xf8, 0x42, 0x7e
    ]
    ensures Digest(EMPTY).a == 0xd98c1dd4
  {
    hide Pad, Words, Operations, Added, WordBytes;
    EmptyPadded();
    EmptyLoaded();
    EmptyAfter64();
    EmptyAdded();
    EmptyBytes();
    WholeBlock(INITIAL, Pad(EMPTY));
  }

  // ---- "abc" ----

  const ABC: seq<Byte> := [0x61, 0x62, 0x63]

  /** The one block of the padded message. */
  const ABC_WORDS: seq<Word> := [
    0x80636261, 0x00000000, 0x00000000, 0x00000000, 0x00000000, 0x00000000, 0x00000000, 0x00000000,
    0x00000000, 0x00000000, 0x00000000, 0x00000000, 0x00000000, 0x00000000, 0x00000018, 0x00000000
  ]

  lemma AbcFacts0()
    ensures Aux(0, 0xefcdab89, 0x98badcfe, 0x10325476) == 0x98badcfe
    ensures Total(0x67452301, 0x98badcfe, 0x80636261, 0xd76aa478) == 0x57ce06d8
    ensures RotateLeft(0x57ce06d8, 7) == 0xe7036c2b && Plus(0xefcdab89, 0xe7036c2b) == 0xd6d117b4
    ensures Aux(1, 0xd6d117b4, 0xefcdab89, 0x98badcfe) == 0xceebcbca
    ensures Total(0x10325476, 0xceebcbca, 0x00000000, 0xe8c7b756) == 0xc7e5d796
    ensures RotateLeft(0xc7e5d796, 12) == 0x5d796c7e && Plus(0xd6d117b4, 0x5d796c7e) == 0x344a8432
    ensures Aux(2, 0x344a8432, 0xd6d117b4, 0xefcdab89) == 0xdfc52fb9
    ensures Total(0x98badcfe, 0xdfc52fb9, 0x00000000, 0x242070db) == 0x9ca07d92
    ensures RotateLeft(0x9ca07d92, 17) == 0xfb253940 && Plus(0x344a8432, 0xfb253940) == 0x2f6fbd72
    ensures Aux(3, 0x2f6fbd72, 0x344a8432, 0xd6d117b4) == 0xf4da86b6
    ensures Total(0xefcdab89, 0xf4da86b6, 0x00000000, 0xc1bdceee) == 0xa666012d
    ensures RotateLeft(0xa666012d, 22) == 0x4b699980 && Plus(0x2f6fbd72, 0x4b699980) == 0x7ad956f2
  {
  }

  lemma AbcAfter4()
    ensures Operations(INITIAL, ABC_WORDS, 4) == State(0xd6d117b4, 0x7ad956f2, 0x2f6fbd72, 0x344a8432)
  {
    hide Operations, Aux, Total, RotateLeft, Plus, Index, Shift, Sine;
    Table0();
    AbcFacts0();
    NoneYet(INITIAL, ABC_WORDS);
    OneMore(INITIAL, ABC_WORDS, 0);
    assert Operations(INITIAL, ABC_WORDS, 1) == State(0x10325476, 0xd6d117b4, 0xefcdab89, 0x98badcfe);
    OneMore(INITIAL, ABC_WORDS, 1);
    assert Operations(INITIAL, ABC_WORDS, 2) == State(0x98badcfe, 0x344a8432, 0xd6d117b4, 0xefcdab89);
    OneMore(INITIAL, ABC_WORDS, 2);
    assert Operations(INITIAL, ABC_WORDS, 3) == State(0xefcdab89, 0x2f6fbd72, 0x344a8432, 0xd6d117b4);
    OneMore(INITIAL, ABC_WORDS, 3);
  }

  lemma AbcFacts4()
    ensures Aux(4, 0x7ad956f2, 0x2f6fbd72, 0x344a8432) == 0x2e4b9472
    ensures Total(0xd6d117b4, 0x2e4b9472, 0x00000000, 0xf57c0faf) == 0xfa98bbd5
    ensures RotateLeft(0xfa98bbd5, 7) == 0x4c5deafd && Plus(0x7ad956f2, 0x4c5deafd) == 0xc73741ef
    ensures Aux(5, 0xc73741ef, 0x7ad956f2, 0x2f6fbd72) == 0x6a59fcf2
    ensures Total(0x344a8432, 0x6a59fcf2, 0x00000000, 0x4787c62a) == 0xe62c474e
    ensures RotateLeft(0xe62c474e, 12) == 0xc474ee62 && Plus(0xc73741ef, 0xc474ee62) == 0x8bac3051
    ensures Aux(6, 0x8bac3051, 0xc73741ef, 0x7ad956f2) == 0xf37546e3
    ensures Total(0x2f6fbd72, 0xf37546e3, 0x00000000, 0xa8304613) == 0xcb154a68
    ensures RotateLeft(0xcb154a68, 17) == 0x94d1962a && Plus(0x8bac3051, 0x94d1962a) == 0x207dc67b
    ensures Aux(7, 0x207dc67b, 0x8bac3051, 0xc73741ef) == 0xc72e01d5
    ensures Total(0x7ad956f2, 0xc72e01d5, 0x00000000, 0xfd469501) == 0x3f4dedc8
    ensures RotateLeft(0x3f4dedc8, 22) == 0x720fd37b && Plus(0x207dc67b, 0x720fd37b) == 0x928d99f6
  {
  }

  lemma AbcAfter8()
    ensures Operations(INITIAL, ABC_WORDS, 8) == State(0xc73741ef, 0x928d99f6, 0x207dc67b, 0x8bac3051)
  {
    hide Operations, Aux, Total, RotateLeft, Plus, Index, Shift, Sine;
    AbcAfter4();
    Table4();
    AbcFacts4();
    OneMore(INITIAL, ABC_WORDS, 4);
    assert Operations(INITIAL, ABC_WORDS, 5) == State(0x344a8432, 0xc73741ef, 0x7ad956f2, 0x2f6fbd72);
    OneMore(INITIAL, ABC_WORDS, 5);
    assert Operations(INITIAL, ABC_WORDS, 6) == State(0x2f6fbd72, 0x8bac3051, 0xc73741ef, 0x7ad956f2);
    OneMore(INITIAL, ABC_WORDS, 6);
    assert Operations(INITIAL, ABC_WORDS, 7) == State(0x7ad956f2, 0x207dc67b, 0x8bac3051, 0xc73741ef);
    OneMore(INITIAL, ABC_WORDS, 7);
  }

  lemma AbcFacts8()
    ensures Aux(8, 0x928d99f6, 0x207dc67b, 0x8bac3051) == 0x092da073
    ensures Total(0xc73741ef, 0x092da073, 0x00000000, 0x698098d8) == 0x39e57b3a
    ensures RotateLeft(0x39e57b3a, 7) == 0xf2bd9d1c && Plus(0x928d99f6, 0xf2bd9d1c) == 0x854b3712
    ensures Aux(9, 0x854b3712, 0x928d99f6, 0x207dc67b) == 0xa03dd17b
    ensures Total(0x8bac3051, 0xa03dd17b, 0x00000000, 0x8b44f7af) == 0xb72ef97b
    ensures RotateLeft(0xb72ef97b, 12) == 0xef97bb72 && Plus(0x854b3712, 0xef97bb72) == 0x74e2f284
    ensures Aux(10, 0x74e2f284, 0x854b3712, 0x928d99f6) == 0x864f3b72
    ensures Total(0x207dc67b, 0x864f3b72, 0x00000000, 0xffff5bb1) == 0xa6cc5d9e
    ensures RotateLeft(0xa6cc5d9e, 17) == 0xbb3d4d98 && Plus(0x74e2f284, 0xbb3d4d98) == 0x3020401c
    ensures Aux(11, 0x3020401c, 0x74e2f284, 0x854b3712) == 0xb56b7706
    ensures Total(0x928d99f6, 0xb56b7706, 0x00000000, 0x895cd7be) == 0xd155e8ba
    ensures RotateLeft(0xd155e8ba, 22) == 0x2eb4557a && Plus(0x3020401c, 0x2eb4557a) == 0x5ed49596
  {
  }

  lemma AbcAfter12()
    ensures Operations(INITIAL, ABC_WORDS, 12) == State(0x854b3712, 0x5ed49596, 0x3020401c, 0x74e2f284)
  {
    hide Operations, Aux, Total, RotateLeft, Plus, Index, Shift, Sine;
    AbcAfter8();
    Table8();
    AbcFacts8();
    OneMore(INITIAL, ABC_WORDS, 8);
    assert Operations(INITIAL, ABC_WORDS, 9) == State(0x8bac3051, 0x854b3712, 0x928d99f6, 0x207dc67b);
    OneMore(INITIAL, ABC_WORDS, 9);
    assert Operations(INITIAL, ABC_WORDS, 10) == State(0x207dc67b, 0x74e2f284, 0x854b3712, 0x928d99f6);
    OneMore(INITIAL, ABC_WORDS, 10);
    assert Operations(INITIAL, ABC_WORDS, 11) == State(0x928d99f6, 0x3020401c, 0x74e2f284, 0x854b3712);
    OneMore(INITIAL, ABC_WORDS, 11);
  }

  lemma AbcFacts12()
    ensures Aux(12, 0x5ed49596, 0x3020401c, 0x74e2f284) == 0x30226214
    ensures Total(0x854b3712, 0x30226214, 0x00000000, 0x6b901122) == 0x20fdaa48
    ensures RotateLeft(0x20fdaa48, 7) == 0x7ed52410 && Plus(0x5ed49596, 0x7ed52410) == 0xdda9b9a6
    ensures Aux(13, 0xdda9b9a6, 0x5ed49596, 0x3020401c) == 0x7c80d19e
    ensures Total(0x74e2f284, 0x7c80d19e, 0x00000000, 0xfd987193) == 0xeefc35b5
    ensures RotateLeft(0xeefc35b5, 12) == 0xc35b5eef && Plus(0xdda9b9a6, 0xc35b5eef) == 0xa1051895
    ensures Aux(14, 0xa1051895, 0xdda9b9a6, 0x5ed49596) == 0xdfd19d86
    ensures Total(0x3020401c, 0xdfd19d86, 0x00000018, 0xa679438e) == 0xb66b2148
    ensures RotateLeft(0xb66b2148, 17) == 0x42916cd6 && Plus(0xa1051895, 0x42916cd6) == 0xe396856b
    ensures Aux(15, 0xe396856b, 0xa1051895, 0xdda9b9a6) == 0xbd2d3885
    ensures Total(0x5ed49596, 0xbd2d3885, 0x00000000, 0x49b40821) == 0x65b5d63c
    ensures RotateLeft(0x65b5d63c, 22) == 0x8f196d75 && Plus(0xe396856b, 0x8f196d75) == 0x72aff2e0
  {
  }

  lemma AbcAfter16()
    ensures Operations(INITIAL, ABC_WORDS, 16) == State(0xdda9b9a6, 0x72aff2e0, 0xe396856b, 0xa1051895)
  {
    hide Operations, Aux, Total, RotateLeft, Plus, Index, Shift, Sine;
    AbcAfter12();
    Table12();
    AbcFacts12();
    OneMore(INITIAL, ABC_WORDS, 12);
    assert Operations(INITIAL, ABC_WORDS, 13) == State(0x74e2f284, 0xdda9b9a6, 0x5ed49596, 0x3020401c);
    OneMore(INITIAL, ABC_WORDS, 13);
    assert Operations(INITIAL, ABC_WORDS, 14) == State(0x3020401c, 0xa1051895, 0xdda9b9a6, 0x5ed49596);
    OneMore(INITIAL, ABC_WORDS, 14);
    assert Operations(INITIAL, ABC_WORDS, 15) == State(0x5ed49596, 0xe396856b, 0xa1051895, 0xdda9b9a6);
    OneMore(INITIAL, ABC_WORDS, 15);
  }

  lemma AbcFacts16()
    ensures Aux(16, 0x72aff2e0, 0xe396856b, 0xa1051895) == 0x629795ea
    ensures Total(0xdda9b9a6, 0x629795ea, 0x00000000, 0xf61e2562) == 0x365f74f2
    ensures RotateLeft(0x365f74f2, 5) == 0xcbee9e46 && Plus(0x72aff2e0, 0xcbee9e46) == 0x3e9e9126
    ensures Aux(17, 0x3e9e9126, 0x72aff2e0, 0xe396856b) == 0x32bff3a2
    ensures Total(0xa1051895, 0x32bff3a2, 0x00000000, 0xc040b340) == 0x9405bf77
    ensures RotateLeft(0x9405bf77, 9) == 0x0b7eef28 && Plus(0x3e9e9126, 0x0b7eef28) == 0x4a1d804e
    ensures Aux(18, 0x4a1d804e, 0x3e9e9126, 0x72aff2e0) == 0x4e1d8146
    ensures Total(0xe396856b, 0x4e1d8146, 0x00000000, 0x265e5a51) == 0x58126102
    ensures RotateLeft(0x58126102, 14) == 0x98409604 && Plus(0x4a1d804e, 0x98409604) == 0xe25e1652
    ensures Aux(19, 0xe25e1652, 0x4a1d804e, 0x3e9e9126) == 0x621f104a
    ensures Total(0x72aff2e0, 0x621f104a, 0x80636261, 0xe9b6c7aa) == 0x3ee92d35
    ensures RotateLeft(0x3ee92d35, 20) == 0xd353ee92 && Plus(0xe25e1652, 0xd353ee92) == 0xb5b204e4
  {
  }

  lemma AbcAfter20()
    ensures Operations(INITIAL, ABC_WORDS, 20) == State(0x3e9e9126, 0xb5b204e4, 0xe25e1652, 0x4a1d804e)
  {
    hide Operations, Aux, Total, RotateLeft, Plus, Index, Shift, Sine;
    AbcAfter16();
    Table16();
    AbcFacts16();
    OneMore(INITIAL, ABC_WORDS, 16);
    assert Operations(INITIAL, ABC_WORDS, 17) == State(0xa1051895, 0x3e9e9126, 0x72aff2e0, 0xe396856b);
    OneMore(INITIAL, ABC_WORDS, 17);
    assert Operations(INITIAL, ABC_WORDS, 18) == State(0xe396856b, 0x4a1d804e, 0x3e9e9126, 0x72aff2e0);
    OneMore(INITIAL, ABC_WORDS, 18);
    assert Operations(INITIAL, ABC_WORDS, 19) == State(0x72aff2e0, 0xe25e1652, 0x4a1d804e, 0x3e9e9126);
    OneMore(INITIAL, ABC_WORDS, 19);
  }

  lemma AbcFacts20()
    ensures Aux(20, 0xb5b204e4, 0xe25e1652, 0x4a1d804e) == 0xa0521654
    ensures Total(0x3e9e9126, 0xa0521654, 0x00000000, 0xd62f105d) == 0xb51fb7d7
    ensures RotateLeft(0xb51fb7d7, 5) == 0xa3f6faf6 && Plus(0xb5b204e4, 0xa3f6faf6) == 0x59a8ffda
    ensures Aux(21, 0x59a8ffda, 0xb5b204e4, 0xe25e1652) == 0x55a816f6
    ensures Total(0x4a1d804e, 0x55a816f6, 0x00000000, 0x02441453) == 0xa209ab97
    ensures RotateLeft(0xa209ab97, 9) == 0x13572f44 && Plus(0x59a8ffda, 0x13572f44) == 0x6d002f1e
    ensures Aux(22, 0x6d002f1e, 0x59a8ffda, 0xb5b204e4) == 0x6d08ff1e
    ensures Total(0xe25e1652, 0x6d08ff1e, 0x00000000, 0xd8a1e681) == 0x2808fbf1
    ensures RotateLeft(0x2808fbf1, 14) == 0x3efc4a02 && Plus(0x6d002f1e, 0x3efc4a02) == 0xabfc7920
    ensures Aux(23, 0xabfc7920, 0x6d002f1e, 0x59a8ffda) == 0x2da87904
    ensures Total(0xb5b204e4, 0x2da87904, 0x00000000, 0xe7d3fbc8) == 0xcb2e79b0
    ensures RotateLeft(0xcb2e79b0, 20) == 0x9b0cb2e7 && Plus(0xabfc7920, 0x9b0cb2e7) == 0x47092c07
  {
  }

  lemma AbcAfter24()
    ensures Operations(INITIAL, ABC_WORDS, 24) == State(0x59a8ffda, 0x47092c07, 0xabfc7920, 0x6d002f1e)
  {
    hide Operations, Aux, Total, RotateLeft, Plus, Index, Shift, Sine;
    AbcAfter20();
    Table20();
    AbcFacts20();
    OneMore(INITIAL, ABC_WORDS, 20);
    assert Operations(INITIAL, ABC_WORDS, 21) == State(0x4a1d804e, 0x59a8ffda, 0xb5b204e4, 0xe25e1652);
    OneMore(INITIAL, ABC_WORDS, 21);
    assert Operations(INITIAL, ABC_WORDS, 22) == State(0xe25e1652, 0x6d002f1e, 0x59a8ffda, 0xb5b204e4);
    OneMore(INITIAL, ABC_WORDS, 22);
    assert Operations(INITIAL, ABC_WORDS, 23) == State(0xb5b204e4, 0xabfc7920, 0x6d002f1e, 0x59a8ffda);
    OneMore(INITIAL, ABC_WORDS, 23);
  }

  lemma AbcFacts24()
    ensures Aux(24, 0x47092c07, 0xabfc7920, 0x6d002f1e) == 0xc7fc7c26
    ensures Total(0x59a8ffda, 0xc7fc7c26, 0x00000000, 0x21e1cde6) == 0x438749e6
    ensures RotateLeft(0x438749e6, 5) == 0x70e93cc8 && Plus(0x47092c07, 0x70e93cc8) == 0xb7f268cf
    ensures Aux(25, 0xb7f268cf, 0x47092c07, 0xabfc7920) == 0xe7f16c07
    ensures Total(0x6d002f1e, 0xe7f16c07, 0x00000018, 0xc33707d6) == 0x1828a313
    ensures RotateLeft(0x1828a313, 9) == 0x51462630 && Plus(0xb7f268cf, 0x51462630) == 0x09388eff
    ensures Aux(26, 0x09388eff, 0xb7f268cf, 0x47092c07) == 0xb1fa4ccf
    ensures Total(0xabfc7920, 0xb1fa4ccf, 0x00000000, 0xf4d50d87) == 0x52cbd376
    ensures RotateLeft(0x52cbd376, 14) == 0xf4dd94b2 && Plus(0x09388eff, 0xf4dd94b2) == 0xfe1623b1
    ensures Aux(27, 0xfe1623b1, 0x09388eff, 0xb7f268cf) == 0xbe1aa6b1
    ensures Total(0x47092c07, 0xbe1aa6b1, 0x00000000, 0x455a14ed) == 0x4a7de7a5
    ensures RotateLeft(0x4a7de7a5, 20) == 0x7a54a7de && Plus(0xfe1623b1, 0x7a54a7de) == 0x786acb8f
  {
  }

  lemma AbcAfter28()
    ensures Operations(INITIAL, ABC_WORDS, 28) == State(0xb7f268cf, 0x786acb8f, 0xfe1623b1, 0x09388eff)
  {
    hide Operations, Aux, Total, RotateLeft, Plus, Index, Shift, Sine;
    AbcAfter24();
    Table24();
    AbcFacts24();
    OneMore(INITIAL, ABC_WORDS, 24);
    assert Operations(INITIAL, ABC_WORDS, 25) == State(0x6d002f1e, 0xb7f268cf, 0x47092c07, 0xabfc7920);
    OneMore(INITIAL, ABC_WORDS, 25);
    assert Operations(INITIAL, ABC_WORDS, 26) == State(0xabfc7920, 0x09388eff, 0xb7f268cf, 0x47092c07);
    OneMore(INITIAL, ABC_WORDS, 26);
    assert Operations(INITIAL, ABC_WORDS, 27) == State(0x47092c07, 0xfe1623b1, 0x09388eff, 0xb7f268cf);
    OneMore(INITIAL, ABC_WORDS, 27);
  }

  lemma AbcFacts28()
    ensures Aux(28, 0x786acb8f, 0xfe1623b1, 0x09388eff) == 0xfe2eab8f
    ensures Total(0xb7f268cf, 0xfe2eab8f, 0x00000000, 0xa9e3e905) == 0x6004fd63
    ensures RotateLeft(0x6004fd63, 5) == 0x009fac6c && Plus(0x786acb8f, 0x009fac6c) == 0x790a77fb
    ensures Aux(29, 0x790a77fb, 0x786acb8f, 0xfe1623b1) == 0x786aebbf
    ensures Total(0x09388eff, 0x786aebbf, 0x00000000, 0xfcefa3f8) == 0x7e931eb6
    ensures RotateLeft(0x7e931eb6, 9) == 0x263d6cfd && Plus(0x790a77fb, 0x263d6cfd) == 0x9f47e4f8
    ensures Aux(30, 0x9f47e4f8, 0x790a77fb, 0x786acb8f) == 0x1942f4f8
    ensures Total(0xfe1623b1, 0x1942f4f8, 0x00000000, 0x676f02d9) == 0x7ec81b82
    ensures RotateLeft(0x7ec81b82, 14) == 0x06e09fb2 && Plus(0x9f47e4f8, 0x06e09fb2) == 0xa62884aa
    ensures Aux(31, 0xa62884aa, 0x9f47e4f8, 0x790a77fb) == 0xa64d84aa
    ensures Total(0x786acb8f, 0xa64d84aa, 0x00000000, 0x8d2a4c8a) == 0xabe29cc3
    ensures RotateLeft(0xabe29cc3, 20) == 0xcc3abe29 && Plus(0xa62884aa, 0xcc3abe29) == 0x726342d3
  {
  }

  lemma AbcAfter32()
    ensures Operations(INITIAL, ABC_WORDS, 32) == State(0x790a77fb, 0x726342d3, 0xa62884aa, 0x9f47e4f8)
  {
    hide Operations, Aux, Total, RotateLeft, Plus, Index, Shift, Sine;
    AbcAfter28();
    Table28();
    AbcFacts28();
    OneMore(INITIAL, ABC_WORDS, 28);
    assert Operations(INITIAL, ABC_WORDS, 29) == State(0x09388eff, 0x790a77fb, 0x786acb8f, 0xfe1623b1);
    OneMore(INITIAL, ABC_WORDS, 29);
    assert Operations(INITIAL, ABC_WORDS, 30) == State(0xfe1623b1, 0x9f47e4f8, 0x790a77fb, 0x786acb8f);
    OneMore(INITIAL, ABC_WORDS, 30);
    assert Operations(INITIAL, ABC_WORDS, 31) == State(0x786acb8f, 0xa62884aa, 0x9f47e4f8, 0x790a77fb);
    OneMore(INITIAL, ABC_WORDS, 31);
  }

  lemma AbcFacts32()
    ensures Aux(32, 0x726342d3, 0xa62884aa, 0x9f47e4f8) == 0x4b0c2281
    ensures Total(0x790a77fb, 0x4b0c2281, 0x00000000, 0xfffa3942) == 0xc410d3be
    ensures RotateLeft(0xc410d3be, 4) == 0x410d3bec && Plus(0x726342d3, 0x410d3bec) == 0xb3707ebf
    ensures Aux(33, 0xb3707ebf, 0x726342d3, 0xa62884aa) == 0x673bb8c6
    ensures Total(0x9f47e4f8, 0x673bb8c6, 0x00000000, 0x8771f681) == 0x8df5943f
    ensures RotateLeft(0x8df5943f, 11) == 0xaca1fc6f && Plus(0xb3707ebf, 0xaca1fc6f) == 0x60127b2e
    ensures Aux(34, 0x60127b2e, 0xb3707ebf, 0x726342d3) == 0xa1014742
    ensures Total(0xa62884aa, 0xa1014742, 0x00000000, 0x6d9d6122) == 0xb4c72d0e
    ensures RotateLeft(0xb4c72d0e, 16) == 0x2d0eb4c7 && Plus(0x60127b2e, 0x2d0eb4c7) == 0x8d212ff5
    ensures Aux(35, 0x8d212ff5, 0x60127b2e, 0xb3707ebf) == 0x5e432a64
    ensures Total(0x726342d3, 0x5e432a64, 0x00000018, 0xfde5380c) == 0xce8ba55b
    ensures RotateLeft(0xce8ba55b, 23) == 0xade745d2 && Plus(0x8d212ff5, 0xade745d2) == 0x3b0875c7
  {
  }

  lemma AbcAfter36()
    ensures Operations(INITIAL, ABC_WORDS, 36) == State(0xb3707ebf, 0x3b0875c7, 0x8d212ff5, 0x60127b2e)
  {
    hide Operations, Aux, Total, RotateLeft, Plus, Index, Shift, Sine;
    AbcAfter32();
    Table32();
    AbcFacts32();
    OneMore(INITIAL, ABC_WORDS, 32);
    assert Operations(INITIAL, ABC_WORDS, 33) == State(0x9f47e4f8, 0xb3707ebf, 0x726342d3, 0xa62884aa);
    OneMore(INITIAL, ABC_WORDS, 33);
    assert Operations(INITIAL, ABC_WORDS, 34) == State(0xa62884aa, 0x60127b2e, 0xb3707ebf, 0x726342d3);
    OneMore(INITIAL, ABC_WORDS, 34);
    assert Operations(INITIAL, ABC_WORDS, 35) == State(0x726342d3, 0x8d212ff5, 0x60127b2e, 0xb3707ebf);
    OneMore(INITIAL, ABC_WORDS, 35);
  }

  lemma AbcFacts36()
    ensures Aux(36, 0x3b0875c7, 0x8d212ff5, 0x60127b2e) == 0xd63b211c
    ensures Total(0xb3707ebf, 0xd63b211c, 0x00000000, 0xa4beea44) == 0x2e6a8a1f
    ensures RotateLeft(0x2e6a8a1f, 4) == 0xe6a8a1f2 && Plus(0x3b0875c7, 0xe6a8a1f2) == 0x21b117b9
    ensures Aux(37, 0x21b117b9, 0x3b0875c7, 0x8d212ff5) == 0x97984d8b
    ensures Total(0x60127b2e, 0x97984d8b, 0x00000000, 0x4bdecfa9) == 0x43899862
    ensures RotateLeft(0x43899862, 11) == 0x4cc3121c && Plus(0x21b117b9, 0x4cc3121c) == 0x6e7429d5
    ensures Aux(38, 0x6e7429d5, 0x21b117b9, 0x3b0875c7) == 0x74cd4bab
    ensures Total(0x8d212ff5, 0x74cd4bab, 0x00000000, 0xf6bb4b60) == 0xf8a9c700
    ensures RotateLeft(0xf8a9c700, 16) == 0xc700f8a9 && Plus(0x6e7429d5, 0xc700f8a9) == 0x3575227e
    ensures Aux(39, 0x3575227e, 0x6e7429d5, 0x21b117b9) == 0x7ab01c12
    ensures Total(0x3b0875c7, 0x7ab01c12, 0x00000000, 0xbebfbc70) == 0x74784e49
    ensures RotateLeft(0x74784e49, 23) == 0x24ba3c27 && Plus(0x3575227e, 0x24ba3c27) == 0x5a2f5ea5
  {
  }

  lemma AbcAfter40()
    ensures Operations(INITIAL, ABC_WORDS, 40) == State(0x21b117b9, 0x5a2f5ea5, 0x3575227e, 0x6e7429d5)
  {
    hide Operations, Aux, Total, RotateLeft, Plus, Index, Shift, Sine;
    AbcAfter36();
    Table36();
    AbcFacts36();
    OneMore(INITIAL, ABC_WORDS, 36);
    assert Operations(INITIAL, ABC_WORDS, 37) == State(0x60127b2e, 0x21b117b9, 0x3b0875c7, 0x8d212ff5);
    OneMore(INITIAL, ABC_WORDS, 37);
    assert Operations(INITIAL, ABC_WORDS, 38) == State(0x8d212ff5, 0x6e7429d5, 0x21b117b9, 0x3b0875c7);
    OneMore(INITIAL, ABC_WORDS, 38);
    assert Operations(INITIAL, ABC_WORDS, 39) == State(0x3b0875c7, 0x3575227e, 0x6e7429d5, 0x21b117b9);
    OneMore(INITIAL, ABC_WORDS, 39);
  }

  lemma AbcFacts40()
    ensures Aux(40, 0x5a2f5ea5, 0x3575227e, 0x6e7429d5) == 0x012e550e
    ensures Total(0x21b117b9, 0x012e550e, 0x00000000, 0x289b7ec6) == 0x4b7aeb8d
    ensures RotateLeft(0x4b7aeb8d, 4) == 0xb7aeb8d4 && Plus(0x5a2f5ea5, 0xb7aeb8d4) == 0x11de1779
    ensures Aux(41, 0x11de1779, 0x5a2f5ea5, 0x3575227e) == 0x7e846ba2
    ensures Total(0x6e7429d5, 0x7e846ba2, 0x80636261, 0xeaa127fa) == 0x57fd1fd2
    ensures RotateLeft(0x57fd1fd2, 11) == 0xe8fe92bf && Plus(0x11de1779, 0xe8fe92bf) == 0xfadcaa38
    ensures Aux(42, 0xfadcaa38, 0x11de1779, 0x5a2f5ea5) == 0xb12de3e4
    ensures Total(0x3575227e, 0xb12de3e4, 0x00000000, 0xd4ef3085) == 0xbb9236e7
    ensures RotateLeft(0xbb9236e7, 16) == 0x36e7bb92 && Plus(0xfadcaa38, 0x36e7bb92) == 0x31c465ca
    ensures Aux(43, 0x31c465ca, 0xfadcaa38, 0x11de1779) == 0xdac6d88b
    ensures Total(0x5a2f5ea5, 0xdac6d88b, 0x00000000, 0x04881d05) == 0x397e5435
    ensures RotateLeft(0x397e5435, 23) == 0x1a9cbf2a && Plus(0x31c465ca, 0x1a9cbf2a) == 0x4c6124f4
  {
  }

  lemma AbcAfter44()
    ensures Operations(INITIAL, ABC_WORDS, 44) == State(0x11de1779, 0x4c6124f4, 0x31c465ca, 0xfadcaa38)
  {
    hide Operations, Aux, Total, RotateLeft, Plus, Index, Shift, Sine;
    AbcAfter40();
    Table40();
    AbcFacts40();
    OneMore(INITIAL, ABC_WORDS, 40);
    assert Operations(INITIAL, ABC_WORDS, 41) == State(0x6e7429d5, 0x11de1779, 0x5a2f5ea5, 0x3575227e);
    OneMore(INITIAL, ABC_WORDS, 41);
    assert Operations(INITIAL, ABC_WORDS, 42) == State(0x3575227e, 0xfadcaa38, 0x11de1779, 0x5a2f5ea5);
    OneMore(INITIAL, ABC_WORDS, 42);
    assert Operations(INITIAL, ABC_WORDS, 43) == State(0x5a2f5ea5, 0x31c465ca, 0xfadcaa38, 0x11de1779);
    OneMore(INITIAL, ABC_WORDS, 43);
  }

  lemma AbcFacts44()
    ensures Aux(44, 0x4c6124f4, 0x31c465ca, 0xfadcaa38) == 0x8779eb06
    ensures Total(0x11de1779, 0x8779eb06, 0x00000000, 0xd9d4d039) == 0x732cd2b8
    ensures RotateLeft(0x732cd2b8, 4) == 0x32cd2b87 && Plus(0x4c6124f4, 0x32cd2b87) == 0x7f2e507b
    ensures Aux(45, 0x7f2e507b, 0x4c6124f4, 0x31c465ca) == 0x028b1145
    ensures Total(0xfadcaa38, 0x028b1145, 0x00000000, 0xe6db99e5) == 0xe4435562
    ensures RotateLeft(0xe4435562, 11) == 0x1aab1722 && Plus(0x7f2e507b, 0x1aab1722) == 0x99d9679d
    ensures Aux(46, 0x99d9679d, 0x7f2e507b, 0x4c6124f4) == 0xaa961312
    ensures Total(0x31c465ca, 0xaa961312, 0x00000000, 0x1fa27cf8) == 0xfbfcf5d4
    ensures RotateLeft(0xfbfcf5d4, 16) == 0xf5d4fbfc && Plus(0x99d9679d, 0xf5d4fbfc) == 0x8fae6399
    ensures Aux(47, 0x8fae6399, 0x99d9679d, 0x7f2e507b) == 0x6959547f
    ensures Total(0x4c6124f4, 0x6959547f, 0x00000000, 0xc4ac5665) == 0x7a66cfd8
    ensures RotateLeft(0x7a66cfd8, 23) == 0xec3d3367 && Plus(0x8fae6399, 0xec3d3367) == 0x7beb9700
  {
  }

  lemma AbcAfter48()
    ensures Operations(INITIAL, ABC_WORDS, 48) == State(0x7f2e507b, 0x7beb9700, 0x8fae6399, 0x99d9679d)
  {
    hide Operations, Aux, Total, RotateLeft, Plus, Index, Shift, Sine;
    AbcAfter44();
    Table44();
    AbcFacts44();
    OneMore(INITIAL, ABC_WORDS, 44);
    assert Operations(INITIAL, ABC_WORDS, 45) == State(0xfadcaa38, 0x7f2e507b, 0x4c6124f4, 0x31c465ca);
    OneMore(INITIAL, ABC_WORDS, 45);
    assert Operations(INITIAL, ABC_WORDS, 46) == State(0x31c465ca, 0x99d9679d, 0x7f2e507b, 0x4c6124f4);
    OneMore(INITIAL, ABC_WORDS, 46);
    assert Operations(INITIAL, ABC_WORDS, 47) == State(0x4c6124f4, 0x8fae6399, 0x99d9679d, 0x7f2e507b);
    OneMore(INITIAL, ABC_WORDS, 47);
  }

  lemma AbcFacts48()
    ensures Aux(48, 0x7beb9700, 0x8fae6399, 0x99d9679d) == 0xf041fcfb
    ensures Total(0x7f2e507b, 0xf041fcfb, 0x80636261, 0xf4292244) == 0xe3fcd21b
    ensures RotateLeft(0xe3fcd21b, 6) == 0xff3486f8 && Plus(0x7beb9700, 0xff3486f8) == 0x7b201df8
    ensures Aux(49, 0x7b201df8, 0x7beb9700, 0x8fae6399) == 0x009a0afe
    ensures Total(0x99d9679d, 0x009a0afe, 0x00000000, 0x432aff97) == 0xdd9e7232
    ensures RotateLeft(0xdd9e7232, 10) == 0x79c8cb76 && Plus(0x7b201df8, 0x79c8cb76) == 0xf4e8e96e
    ensures Aux(50, 0xf4e8e96e, 0x7b201df8, 0x7beb9700) == 0x8fdcf407
    ensures Total(0x8fae6399, 0x8fdcf407, 0x00000018, 0xab9423a7) == 0xcb1f7b5f
    ensures RotateLeft(0xcb1f7b5f, 15) == 0xbdafe58f && Plus(0xf4e8e96e, 0xbdafe58f) == 0xb298cefd
    ensures Aux(51, 0xb298cefd, 0xf4e8e96e, 0x7b201df8) == 0x42370791
    ensures Total(0x7beb9700, 0x42370791, 0x00000000, 0xfc93a039) == 0xbab63eca
    ensures RotateLeft(0xbab63eca, 21) == 0xd95756c7 && Plus(0xb298cefd, 0xd95756c7) == 0x8bf025c4
  {
  }

  lemma AbcAfter52()
    ensures Operations(INITIAL, ABC_WORDS, 52) == State(0x7b201df8, 0x8bf025c4, 0xb298cefd, 0xf4e8e96e)
  {
    hide Operations, Aux, Total, RotateLeft, Plus, Index, Shift, Sine;
    AbcAfter48();
    Table48();
    AbcFacts48();
    OneMore(INITIAL, ABC_WORDS, 48);
    assert Operations(INITIAL, ABC_WORDS, 49) == State(0x99d9679d, 0x7b201df8, 0x7beb9700, 0x8fae6399);
    OneMore(INITIAL, ABC_WORDS, 49);
    assert Operations(INITIAL, ABC_WORDS, 50) == State(0x8fae6399, 0xf4e8e96e, 0x7b201df8, 0x7beb9700);
    OneMore(INITIAL, ABC_WORDS, 50);
    assert Operations(INITIAL, ABC_WORDS, 51) == State(0x7beb9700, 0xb298cefd, 0xf4e8e96e, 0x7b201df8);
    OneMore(INITIAL, ABC_WORDS, 51);
  }

  lemma AbcFacts52()
    ensures Aux(52, 0x8bf025c4, 0xb298cefd, 0xf4e8e96e) == 0x396ff928
    ensures Total(0x7b201df8, 0x396ff928, 0x00000000, 0x655b59c3) == 0x19eb70e3
    ensures RotateLeft(0x19eb70e3, 6) == 0x7adc38c6 && Plus(0x8bf025c4, 0x7adc38c6) == 0x06cc5e8a
    ensures Aux(53, 0x06cc5e8a, 0x8bf025c4, 0xb298cefd) == 0xc41f5a4e
    ensures Total(0xf4e8e96e, 0xc41f5a4e, 0x00000000, 0x8f0ccc92) == 0x4815104e
    ensures RotateLeft(0x4815104e, 10) == 0x54413920 && Plus(0x06cc5e8a, 0x54413920) == 0x5b0d97aa
    ensures Aux(54, 0x5b0d97aa, 0x06cc5e8a, 0x8bf025c4) == 0x79c38131
    ensures Total(0xb298cefd, 0x79c38131, 0x00000000, 0xffeff47d) == 0x2c4c44ab
    ensures RotateLeft(0x2c4c44ab, 15) == 0x22559626 && Plus(0x5b0d97aa, 0x22559626) == 0x7d632dd0
    ensures Aux(55, 0x7d632dd0, 0x5b0d97aa, 0x06cc5e8a) == 0xa67e3a5f
    ensures Total(0x8bf025c4, 0xa67e3a5f, 0x00000000, 0x85845dd1) == 0xb7f2bdf4
    ensures RotateLeft(0xb7f2bdf4, 21) == 0xbe96fe57 && Plus(0x7d632dd0, 0xbe96fe57) == 0x3bfa2c27
  {
  }

  lemma AbcAfter56()
    ensures Operations(INITIAL, ABC_WORDS, 56) == State(0x06cc5e8a, 0x3bfa2c27, 0x7d632dd0, 0x5b0d97aa)
  {
    hide Operations, Aux, Total, RotateLeft, Plus, Index, Shift, Sine;
    AbcAfter52();
    Table52();
    AbcFacts52();
    OneMore(INITIAL, ABC_WORDS, 52);
    assert Operations(INITIAL, ABC_WORDS, 53) == State(0xf4e8e96e, 0x06cc5e8a, 0x8bf025c4, 0xb298cefd);
    OneMore(INITIAL, ABC_WORDS, 53);
    assert Operations(INITIAL, ABC_WORDS, 54) == State(0xb298cefd, 0x5b0d97aa, 0x06cc5e8a, 0x8bf025c4);
    OneMore(INITIAL, ABC_WORDS, 54);
    assert Operations(INITIAL, ABC_WORDS, 55) == State(0x8bf025c4, 0x7d632dd0, 0x5b0d97aa, 0x06cc5e8a);
    OneMore(INITIAL, ABC_WORDS, 55);
  }

  lemma AbcFacts56()
    ensures Aux(56, 0x3bfa2c27, 0x7d632dd0, 0x5b0d97aa) == 0xc29941a7
    ensures Total(0x06cc5e8a, 0xc29941a7, 0x00000000, 0x6fa87e4f) == 0x390e1e80
    ensures RotateLeft(0x390e1e80, 6) == 0x4387a00e && Plus(0x3bfa2c27, 0x4387a00e) == 0x7f81cc35
    ensures Aux(57, 0x7f81cc35, 0x3bfa2c27, 0x7d632dd0) == 0xc467f218
    ensures Total(0x5b0d97aa, 0xc467f218, 0x00000000, 0xfe2ce6e0) == 0x1da270a2
    ensures RotateLeft(0x1da270a2, 10) == 0x89c28876 && Plus(0x7f81cc35, 0x89c28876) == 0x094454ab
    ensures Aux(58, 0x094454ab, 0x7f81cc35, 0x3bfa2c27) == 0xb2c41bce
    ensures Total(0x7d632dd0, 0xb2c41bce, 0x00000000, 0xa3014314) == 0xd3288cb2
    ensures RotateLeft(0xd3288cb2, 15) == 0x46596994 && Plus(0x094454ab, 0x46596994) == 0x4f9dbe3f
    ensures Aux(59, 0x4f9dbe3f, 0x094454ab, 0x7f81cc35) == 0xc6bbeb54
    ensures Total(0x3bfa2c27, 0xc6bbeb54, 0x00000000, 0x4e0811a1) == 0x50be291c
    ensures RotateLeft(0x50be291c, 21) == 0x238a17c5 && Plus(0x4f9dbe3f, 0x238a17c5) == 0x7327d604
  {
  }

  lemma AbcAfter60()
    ensures Operations(INITIAL, ABC_WORDS, 60) == State(0x7f81cc35, 0x7327d604, 0x4f9dbe3f, 0x094454ab)
  {
    hide Operations, Aux, Total, RotateLeft, Plus, Index, Shift, Sine;
    AbcAfter56();
    Table56();
    AbcFacts56();
    OneMore(INITIAL, ABC_WORDS, 56);
    assert Operations(INITIAL, ABC_WORDS, 57) == State(0x5b0d97aa, 0x7f81cc35, 0x3bfa2c27, 0x7d632dd0);
    OneMore(INITIAL, ABC_WORDS, 57);
    assert Operations(INITIAL, ABC_WORDS, 58) == State(0x7d632dd0, 0x094454ab, 0x7f81cc35, 0x3bfa2c27);
    OneMore(INITIAL, ABC_WORDS, 58);
    assert Operations(INITIAL, ABC_WORDS, 59) == State(0x3bfa2c27, 0x4f9dbe3f, 0x094454ab, 0x7f81cc35);
    OneMore(INITIAL, ABC_WORDS, 59);
  }

  lemma AbcFacts60()
    ensures Aux(60, 0x7327d604, 0x4f9dbe3f, 0x094454ab) == 0xb822416b
    ensures Total(0x7f81cc35, 0xb822416b, 0x00000000, 0xf7537e82) == 0x2ef78c22
    ensures RotateLeft(0x2ef78c22, 6) == 0xbde3088b && Plus(0x7327d604, 0xbde3088b) == 0x310ade8f
    ensures Aux(61, 0x310ade8f, 0x7327d604, 0x4f9dbe3f) == 0xc24d09cb
    ensures Total(0x094454ab, 0xc24d09cb, 0x00000000, 0xbd3af235) == 0x88cc50ab
    ensures RotateLeft(0x88cc50ab, 10) == 0x3142ae23 && Plus(0x310ade8f, 0x3142ae23) == 0x624d8cb2
    ensures Aux(62, 0x624d8cb2, 0x310ade8f, 0x7327d604) == 0xdfd77374
    ensures Total(0x4f9dbe3f, 0xdfd77374, 0x00000000, 0x2ad7d2bb) == 0x5a4d046e
    ensures RotateLeft(0x5a4d046e, 15) == 0x82372d26 && Plus(0x624d8cb2, 0x82372d26) == 0xe484b9d8
    ensures Aux(63, 0xe484b9d8, 0x624d8cb2, 0x310ade8f) == 0x8cb8354a
    ensures Total(0x7327d604, 0x8cb8354a, 0x00000000, 0xeb86d391) == 0xeb66dedf
    ensures RotateLeft(0xeb66dedf, 21) == 0xdbfd6cdb && Plus(0xe484b9d8, 0xdbfd6cdb) == 0xc08226b3
  {
  }

  lemma AbcAfter64()
    ensures Operations(INITIAL, ABC_WORDS, 64) == State(0x310ade8f, 0xc08226b3, 0xe484b9d8, 0x624d8cb2)
  {
    hide Operations, Aux, Total, RotateLeft, Plus, Index, Shift, Sine;
    AbcAfter60();
    Table60();
    AbcFacts60();
    OneMore(INITIAL, ABC_WORDS, 60);
    assert Operations(INITIAL, ABC_WORDS, 61) == State(0x094454ab, 0x310ade8f, 0x7327d604, 0x4f9dbe3f);
    OneMore(INITIAL, ABC_WORDS, 61);
    assert Operations(INITIAL, ABC_WORDS, 62) == State(0x4f9dbe3f, 0x624d8cb2, 0x310ade8f, 0x7327d604);
    OneMore(INITIAL, ABC_WORDS, 62);
    assert Operations(INITIAL, ABC_WORDS, 63) == State(0x7327d604, 0xe484b9d8, 0x624d8cb2, 0x310ade8f);
    OneMore(INITIAL, ABC_WORDS, 63);
  }

  lemma AbcLength()
    ensures LengthBytes(3) == [0x18, 0, 0, 0, 0, 0, 0, 0]
  {
    hide LengthBytes, NatBytes;
    LengthIs(3);
    SmallBytes();
  }

  lemma AbcPadded()
    ensures var p := Pad(ABC);
      && |p| == 64 && p[0] == 0x61 && p[1] == 0x62 && p[2] == 0x63 && p[3] == 0x80 && p[56] == 0x18
      && forall i :: 4 <= i < 64 && i != 56 ==> p[i] == 0
  {
    AbcLength();
    hide LengthBytes;
  }

  lemma AbcLoaded()
    ensures Words(Pad(ABC)) == ABC_WORDS
  {
    hide Pad, ToWord;
    AbcPadded();
    LoadedWords();
    var p := Pad(ABC);
    forall k | 0 <= k < 16
      ensures Words(p)[k] == ABC_WORDS[k]
    {
      assert k >= 1 && k != 14 ==> p[4 * k] == 0 && p[4 * k + 1] == 0 && p[4 * k + 2] == 0 && p[4 * k + 3] == 0;
    }
  }

  lemma AbcAdded()
    ensures Added(State(0x310ade8f, 0xc08226b3, 0xe484b9d8, 0x624d8cb2), INITIAL) ==
            State(0x98500190, 0xb04fd23c, 0x7d3f96d6, 0x727fe128)
  {
  }

  lemma AbcBytes()
    ensures WordBytes(0x98500190) == [0x90, 0x01, 0x50, 0x98]
    ensures WordBytes(0xb04fd23c) == [0x3c, 0xd2, 0x4f, 0xb0]
    ensures WordBytes(0x7d3f96d6) == [0xd6, 0x96, 0x3f, 0x7d]
    ensures WordBytes(0x727fe128) == [0x28, 0xe1, 0x7f, 0x72]
  {
  }

  /** The answer in appendix A.5 of RFC 1321: 900150983cd24fb0d6963f7d28e17f72. */
  lemma AbcAnswer()
    ensures StateBytes(Digest(ABC)) == [
      0x90, 0x01, 0x50, 0x98, 0x3c, 0xd2, 0x4f, 0xb0,
      0xd6, 0x96, 0x3f, 0x7d, 0x28, 0xe1, 0x7f, 0x72
    ]
    ensures Digest(ABC).a == 0x98500190
  {
    hide Pad, Words, Operations, Added, WordBytes;
    AbcPadded();
    AbcLoaded();
    AbcAfter64();
    AbcAdded();
    AbcBytes();
    WholeBlock(INITIAL, Pad(ABC));
  }
}
