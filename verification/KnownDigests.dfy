/**
 Known digests: three values of section A.5 of RFC 1321, worked out operation by operation.
 The last message fills two blocks, so that every word index, rotation and addend is used.
*/
module KnownDigests {
  import opened Evaluation
  import opened JsNumbers
  import opened Rfc1321
  import Md5

  // ---- no octet

  const EMPTY: seq<Word> := [
    0x00000080, 0x00000000, 0x00000000, 0x00000000, 0x00000000, 0x00000000, 0x00000000, 0x00000000,
    0x00000000, 0x00000000, 0x00000000, 0x00000000, 0x00000000, 0x00000000, 0x00000000, 0x00000000
  ]

  lemma EmptyWords()
    ensures |EMPTY| == 16
    ensures EMPTY[0] == 0x00000080 && EMPTY[1] == 0x00000000 && EMPTY[2] == 0x00000000 && EMPTY[3] == 0x00000000
    ensures EMPTY[4] == 0x00000000 && EMPTY[5] == 0x00000000 && EMPTY[6] == 0x00000000 && EMPTY[7] == 0x00000000
    ensures EMPTY[8] == 0x00000000 && EMPTY[9] == 0x00000000 && EMPTY[10] == 0x00000000 && EMPTY[11] == 0x00000000
    ensures EMPTY[12] == 0x00000000 && EMPTY[13] == 0x00000000 && EMPTY[14] == 0x00000000 && EMPTY[15] == 0x00000000
  {
  }

  lemma EmptyStart()
    ensures |EMPTY| == 16 && Operations(0, INITIAL, EMPTY) == StateOf(0x67452301, 0xefcdab89, 0x98badcfe, 0x10325476)
  {
  }

  lemma Empty8()
    ensures |EMPTY| == 16 && Operations(8, INITIAL, EMPTY)
         == StateOf(0x32033344, 0x9bc13ce9, 0xf5b158db, 0x2f35d494)
  {
    hide EMPTY, INITIAL, Operations;
    EmptyWords();
    EmptyStart();
    var x, s := EMPTY, INITIAL;
    Next(0, s, x, 0x67452301, 0xefcdab89, 0x98badcfe, 0x10325476, 0x98badcfe, 1, 0x6b, 0x16aa4f7, 0xa5202774);
    Next(1, s, x, 0x10325476, 0xa5202774, 0xefcdab89, 0x98badcfe, 0xbd9afb8a, 1, 0xb69, 0x50756, 0xf59592dd);
    Next(2, s, x, 0x98badcfe, 0xf59592dd, 0xa5202774, 0xefcdab89, 0xaf482b54, 1, 0xd846, 0x792d, 0xe7f06b23);
    Next(3, s, x, 0xefcdab89, 0xe7f06b23, 0xf59592dd, 0xa5202774, 0xe5900655, 2, 0x25c6e0, 0xcc, 0x1b163203);
    Next(4, s, x, 0xa5202774, 0x1b163203, 0xe7f06b23, 0xf59592dd, 0xe791a2df, 2, 0x41, 0x2dda02, 0x32033344);
    Next(5, s, x, 0xf59592dd, 0x32033344, 0x1b163203, 0xe7f06b23, 0xd7f27a23, 2, 0x150, 0xfd32a, 0x2f35d494);
    Next(6, s, x, 0xe7f06b23, 0x2f35d494, 0x32033344, 0x1b163203, 0x32033207, 1, 0x18447, 0x633d, 0xf5b158db);
    Next(7, s, x, 0x1b163203, 0xf5b158db, 0x2f35d494, 0x32033344, 0x27337394, 1, 0xfe40e, 0x298, 0x9bc13ce9);
  }

  lemma Empty16()
    ensures |EMPTY| == 16 && Operations(16, INITIAL, EMPTY)
         == StateOf(0xf56c7cf1, 0xd6819c6a, 0x5aa53f75, 0x374943a7)
  {
    hide EMPTY, INITIAL, Operations;
    EmptyWords();
    Empty8();
    var x, s := EMPTY, INITIAL;
    Next(8, s, x, 0x32033344, 0x9bc13ce9, 0xf5b158db, 0x2f35d494, 0xb5b5d8dd, 1, 0x28, 0x139a4f9, 0x3893b991);
    Next(9, s, x, 0x2f35d494, 0x3893b991, 0x9bc13ce9, 0xf5b158db, 0xdda178cb, 1, 0x981, 0xc450e, 0xfce4a312);
    Next(10, s, x, 0xf5b158db, 0xfce4a312, 0x3893b991, 0x9bc13ce9, 0x3b81bdf9, 2, 0x6264, 0x7285, 0xe1ef0576);
    Next(11, s, x, 0x9bc13ce9, 0xe1ef0576, 0xfce4a312, 0x3893b991, 0xf8f4b993, 2, 0x784b3, 0x23a, 0x70768a29);
    Next(12, s, x, 0x3893b991, 0x70768a29, 0xe1ef0576, 0xfce4a312, 0xece62132, 1, 0x48, 0x109ebe5, 0xf56c7cf1);
    Next(13, s, x, 0xfce4a312, 0xf56c7cf1, 0x70768a29, 0xe1ef0576, 0x70e70927, 2, 0x6b6, 0x41dcc, 0x374943a7);
    Next(14, s, x, 0xe1ef0576, 0x374943a7, 0xf56c7cf1, 0x70768a29, 0x757ec8a9, 1, 0x1fbce, 0x11ad, 0x5aa53f75);
    Next(15, s, x, 0x70768a29, 0x5aa53f75, 0x374943a7, 0xf56c7cf1, 0xb74943a5, 1, 0x1c5cf5, 0x1ef, 0xd6819c6a);
  }

  lemma Empty24()
    ensures |EMPTY| == 16 && Operations(24, INITIAL, EMPTY)
         == StateOf(0x3d1e3e6c, 0xe422531a, 0xeb41643e, 0x68b7b3e3)
  {
    hide EMPTY, INITIAL, Operations;
    EmptyWords();
    Empty16();
    var x, s := EMPTY, INITIAL;
    Next(16, s, x, 0xf56c7cf1, 0xd6819c6a, 0x5aa53f75, 0x374943a7, 0x5ea53c72, 2, 0x9, 0x22fdec5, 0x1c7d7513);
    Next(17, s, x, 0x374943a7, 0x1c7d7513, 0xd6819c6a, 0x5aa53f75, 0x9c25b51b, 1, 0x127, 0x2fac02, 0x7bd57a3a);
    Next(18, s, x, 0x5aa53f75, 0x7bd57a3a, 0x1c7d7513, 0xd6819c6a, 0x5afd793b, 0, 0x3700, 0x11301, 0xc095f13a);
    Next(19, s, x, 0xd6819c6a, 0xc095f13a, 0x7bd57a3a, 0x1c7d7513, 0x63957b3a, 2, 0x23cdd, 0xfce, 0xbd782e17);
    Next(20, s, x, 0x1c7d7513, 0xbd782e17, 0xc095f13a, 0x7bd57a3a, 0xb950ab12, 1, 0x15, 0x3fd3082, 0x3d1e3e6c);
    Next(21, s, x, 0x7bd57a3a, 0x3d1e3e6c, 0xbd782e17, 0xc095f13a, 0x3d7c3e2d, 0, 0x177, 0x15ccba, 0x68b7b3e3);
    Next(22, s, x, 0xc095f13a, 0x68b7b3e3, 0x3d1e3e6c, 0xbd782e17, 0x2836326b, 1, 0x305b, 0x20a26, 0xeb41643e);
    Next(23, s, x, 0xbd782e17, 0xeb41643e, 0x68b7b3e3, 0x3d1e3e6c, 0x69a1a5af, 2, 0xeedc, 0xf8e, 0xe422531a);
  }

  lemma Empty32()
    ensures |EMPTY| == 16 && Operations(32, INITIAL, EMPTY)
         == StateOf(0x13707036, 0xa2205f1f, 0x1c31c384, 0xae7813db)
  {
    hide EMPTY, INITIAL, Operations;
    EmptyWords();
    Empty24();
    var x, s := EMPTY, INITIAL;
    Next(24, s, x, 0x3d1e3e6c, 0xe422531a, 0xeb41643e, 0x68b7b3e3, 0xe362571e, 1, 0x8, 0x2626370, 0x306ec122);
    Next(25, s, x, 0x68b7b3e3, 0x306ec122, 0xe422531a, 0xeb41643e, 0x24625322, 1, 0xa0, 0x510edb, 0xd28c77c2);
    Next(26, s, x, 0xeb41643e, 0xd28c77c2, 0x306ec122, 0xe422531a, 0xd04cd322, 2, 0x2c18, 0x344e7, 0xa3c663da);
    Next(27, s, x, 0xe422531a, 0xa3c663da, 0xd28c77c2, 0x306ec122, 0xe2c677c2, 2, 0xc42d, 0xfc9, 0xa0572807);
    Next(28, s, x, 0x306ec122, 0xa0572807, 0xa3c663da, 0xd28c77c2, 0xa146201a, 1, 0xf, 0x398ca41, 0x13707036);
    Next(29, s, x, 0xd28c77c2, 0x13707036, 0xa0572807, 0xa3c663da, 0x03516817, 1, 0x1a5, 0x4d83d1, 0xae7813db);
    Next(30, s, x, 0xa3c663da, 0xae7813db, 0x13707036, 0xa0572807, 0xb3705033, 1, 0x2fa9, 0x1b6e6, 0x1c31c384);
    Next(31, s, x, 0xa0572807, 0x1c31c384, 0xae7813db, 0x13707036, 0xbc3843cd, 1, 0xe9b9b, 0x85e, 0xa2205f1f);
  }

  lemma Empty40()
    ensures |EMPTY| == 16 && Operations(40, INITIAL, EMPTY)
         == StateOf(0x5f7a9b2e, 0xc5dc8c15, 0x91ca4cb7, 0xabc34e16)
  {
    hide EMPTY, INITIAL, Operations;
    EmptyWords();
    Empty32();
    var x, s := EMPTY, INITIAL;
    Next(32, s, x, 0x13707036, 0xa2205f1f, 0x1c31c384, 0xae7813db, 0x10698f40, 1, 0x2, 0x3d438b8, 0xdf63eaa1);
    Next(33, s, x, 0xae7813db, 0xdf63eaa1, 0xa2205f1f, 0x1c31c384, 0x6172763a, 1, 0x4ba, 0x1c8096, 0xc3689f5b);
    Next(34, s, x, 0x1c31c384, 0xc3689f5b, 0xdf63eaa1, 0xa2205f1f, 0xbe2b2ae5, 1, 0x47fa, 0x4f8b, 0x12f3e755);
    Next(35, s, x, 0xa2205f1f, 0x12f3e755, 0xc3689f5b, 0xdf63eaa1, 0x0ef892af, 1, 0x577f14, 0x1da, 0x004b6669);
    Next(36, s, x, 0xdf63eaa1, 0x004b6669, 0x12f3e755, 0xc3689f5b, 0xd1d01e67, 2, 0x5, 0x5f2f34c, 0x5f7a9b2e);
    Next(37, s, x, 0xc3689f5b, 0x5f7a9b2e, 0x004b6669, 0x12f3e755, 0x4dc21a12, 1, 0x2e8, 0x98916, 0xabc34e16);
    Next(38, s, x, 0x12f3e755, 0xabc34e16, 0x5f7a9b2e, 0x004b6669, 0xf4f2b351, 1, 0xfea1, 0xe606, 0x91ca4cb7);
    Next(39, s, x, 0x004b6669, 0x91ca4cb7, 0xabc34e16, 0x5f7a9b2e, 0x6573998f, 1, 0x123f5e, 0x68, 0xc5dc8c15);
  }

  lemma Empty48()
    ensures |EMPTY| == 16 && Operations(48, INITIAL, EMPTY)
         == StateOf(0x3f55edfd, 0xca7d2dbd, 0x68d84ea2, 0x22a31f54)
  {
    hide EMPTY, INITIAL, Operations;
    EmptyWords();
    Empty40();
    var x, s := EMPTY, INITIAL;
    Next(40, s, x, 0x5f7a9b2e, 0xc5dc8c15, 0x91ca4cb7, 0xabc34e16, 0xffd58eb4, 1, 0x8, 0x7eba8a8, 0x4497169d);
    Next(41, s, x, 0xabc34e16, 0x4497169d, 0xc5dc8c15, 0x91ca4cb7, 0x1081d63f, 1, 0x537, 0x64ccf, 0x76fd93d4);
    Next(42, s, x, 0x91ca4cb7, 0x76fd93d4, 0x4497169d, 0xc5dc8c15, 0xf7b6095c, 2, 0x5e6f, 0x8698, 0xfd95f243);
    Next(43, s, x, 0xc5dc8c15, 0xfd95f243, 0x76fd93d4, 0x4497169d, 0xcfff770a, 1, 0x4d3210, 0x24, 0x0fe32453);
    Next(44, s, x, 0x4497169d, 0x0fe32453, 0xfd95f243, 0x76fd93d4, 0x848b45c4, 1, 0xa, 0x2f72c9a, 0x3f55edfd);
    Next(45, s, x, 0x76fd93d4, 0x3f55edfd, 0x0fe32453, 0xfd95f243, 0xcd233bed, 2, 0x157, 0x1c69a6, 0x22a31f54);
    Next(46, s, x, 0xfd95f243, 0x22a31f54, 0x3f55edfd, 0x0fe32453, 0x1215d6fa, 1, 0x2f4e, 0x4635, 0x68d84ea2);
    Next(47, s, x, 0x0fe32453, 0x68d84ea2, 0x22a31f54, 0x3f55edfd, 0x752ebc0b, 1, 0x24df1b, 0xc3, 0xca7d2dbd);
  }

  lemma Empty56()
    ensures |EMPTY| == 16 && Operations(56, INITIAL, EMPTY)
         == StateOf(0x5625a114, 0x1e77fa61, 0x392ad0d0, 0x3450f42b)
  {
    hide EMPTY, INITIAL, Operations;
    EmptyWords();
    Empty48();
    var x, s := EMPTY, INITIAL;
    Next(48, s, x, 0x3f55edfd, 0xca7d2dbd, 0x68d84ea2, 0x22a31f54, 0xb7a5a31d, 1, 0x3a, 0x324b3de, 0x93aa2577);
    Next(49, s, x, 0x22a31f54, 0x93aa2577, 0xca7d2dbd, 0x68d84ea2, 0x5dd298c2, 0, 0x30e, 0x20b7ad, 0x1688dc85);
    Next(50, s, x, 0x68d84ea2, 0x1688dc85, 0x93aa2577, 0xca7d2dbd, 0xa420fbb0, 1, 0x5c46, 0x16df9, 0xcd85b8cb);
    Next(51, s, x, 0xca7d2dbd, 0xcd85b8cb, 0x1688dc85, 0x93aa2577, 0xfb5d264e, 2, 0x184dbe, 0x444, 0x561e0689);
    Next(52, s, x, 0x93aa2577, 0x561e0689, 0xcd85b8cb, 0x1688dc85, 0x32fa9f30, 1, 0xb, 0x1e6a, 0x5625a114);
    Next(53, s, x, 0x1688dc85, 0x5625a114, 0x561e0689, 0xcd85b8cb, 0x2061e1bd, 0, 0x317, 0x378ad4, 0x3450f42b);
    Next(54, s, x, 0xcd85b8cb, 0x3450f42b, 0x5625a114, 0x561e0689, 0xebd45c6b, 2, 0x5ca5, 0x9b3, 0x392ad0d0);
    Next(55, s, x, 0x561e0689, 0x392ad0d0, 0x3450f42b, 0x5625a114, 0x8daa2ad0, 1, 0xd2991, 0x72a, 0x1e77fa61);
  }

  lemma Empty64()
    ensures |EMPTY| == 16 && Operations(64, INITIAL, EMPTY)
         == StateOf(0x7246fad3, 0x14e45506, 0xff4ea3eb, 0x6e10a476)
  {
    hide EMPTY, INITIAL, Operations;
    EmptyWords();
    Empty56();
    var x, s := EMPTY, INITIAL;
    Next(56, s, x, 0x5625a114, 0x1e77fa61, 0x392ad0d0, 0x3450f42b, 0xe6d52b25, 1, 0x2b, 0xa34a88, 0x474a9c8c);
    Next(57, s, x, 0x3450f42b, 0x474a9c8c, 0x1e77fa61, 0x392ad0d0, 0xd9a845ce, 2, 0x30, 0x2620d9, 0xdfce00bc);
    Next(58, s, x, 0x392ad0d0, 0xdfce00bc, 0x474a9c8c, 0x1e77fa61, 0xb8849932, 1, 0x4a58, 0xad16, 0x36594b14);
    Next(59, s, x, 0x1e77fa61, 0x36594b14, 0xdfce00bc, 0x474a9c8c, 0x61336bcb, 0, 0x19b66e, 0x7cd, 0x30130182);
    Next(60, s, x, 0x474a9c8c, 0x30130182, 0x36594b14, 0xdfce00bc, 0x066ab4d7, 1, 0x11, 0x108cfe5, 0x7246fad3);
    Next(61, s, x, 0xdfce00bc, 0x7246fad3, 0x30130182, 0x36594b14, 0xcbf5ff79, 2, 0x1a3, 0x3ef26a, 0x6e10a476);
    Next(62, s, x, 0x36594b14, 0x6e10a476, 0x7246fad3, 0x30130182, 0x9dba04ac, 0, 0x7f75, 0x1227b, 0xff4ea3eb);
    Next(63, s, x, 0x30130182, 0xff4ea3eb, 0x6e10a476, 0x7246fad3, 0x91ef0399, 1, 0x15b11b, 0xac, 0x14e45506);
  }

  lemma EmptyBlock()
    ensures |EMPTY| == 16 && Compress(INITIAL, EMPTY) == State(0xd98c1dd4, 0x04b2008f, 0x980980e9, 0x7e42f8ec)
  {
    hide EMPTY, Operations;
    Empty64();
  }

  // ---- the letter a

  const LETTER: seq<Word> := [
    0x00008061, 0x00000000, 0x00000000, 0x00000000, 0x00000000, 0x00000000, 0x00000000, 0x00000000,
    0x00000000, 0x00000000, 0x00000000, 0x00000000, 0x00000000, 0x00000000, 0x00000008, 0x00000000
  ]

  lemma LetterWords()
    ensures |LETTER| == 16
    ensures LETTER[0] == 0x00008061 && LETTER[1] == 0x00000000 && LETTER[2] == 0x00000000 && LETTER[3] == 0x00000000
    ensures LETTER[4] == 0x00000000 && LETTER[5] == 0x00000000 && LETTER[6] == 0x00000000 && LETTER[7] == 0x00000000
    ensures LETTER[8] == 0x00000000 && LETTER[9] == 0x00000000 && LETTER[10] == 0x00000000 && LETTER[11] == 0x00000000
    ensures LETTER[12] == 0x00000000 && LETTER[13] == 0x00000000 && LETTER[14] == 0x00000008 && LETTER[15] == 0x00000000
  {
  }

  lemma LetterStart()
    ensures |LETTER| == 16 && Operations(0, INITIAL, LETTER) == StateOf(0x67452301, 0xefcdab89, 0x98badcfe, 0x10325476)
  {
  }

  lemma Letter8()
    ensures |LETTER| == 16 && Operations(8, INITIAL, LETTER)
         == StateOf(0x3a9d5bcc, 0xa8af6da5, 0xd31ddc83, 0xe0a07db7)
  {
    hide LETTER, INITIAL, Operations;
    LetterWords();
    LetterStart();
    var x, s := LETTER, INITIAL;
    Next(0, s, x, 0x67452301, 0xefcdab89, 0x98badcfe, 0x10325476, 0x98badcfe, 1, 0x6b, 0x16b24d8, 0xa56017f4);
    Next(1, s, x, 0x10325476, 0xa56017f4, 0xefcdab89, 0x98badcfe, 0xbddacb8a, 1, 0xb6d, 0x4d756, 0xf2d58361);
    Next(2, s, x, 0x98badcfe, 0xf2d58361, 0xa56017f4, 0xefcdab89, 0xad482be8, 1, 0xd446, 0x79c1, 0xe65857a7);
    Next(3, s, x, 0xefcdab89, 0xe65857a7, 0xf2d58361, 0xa56017f4, 0xe3700371, 2, 0x253edf, 0x1e8, 0x607d9686);
    Next(4, s, x, 0xa56017f4, 0x607d9686, 0xe65857a7, 0xf2d58361, 0xf2d817e7, 2, 0x46, 0x1b43f8a, 0x3a9d5bcc);
    Next(5, s, x, 0xf2d58361, 0x3a9d5bcc, 0x607d9686, 0xe65857a7, 0xe45d16a7, 2, 0x1eb, 0xa6032, 0xe0a07db7);
    Next(6, s, x, 0xe65857a7, 0xe0a07db7, 0x3a9d5bcc, 0x607d9686, 0x20dddb84, 1, 0x15ecc, 0x793e, 0xd31ddc83);
    Next(7, s, x, 0x607d9686, 0xd31ddc83, 0xe0a07db7, 0x3a9d5bcc, 0xe8805fcf, 2, 0x119122, 0x356, 0xa8af6da5);
  }

  lemma Letter16()
    ensures |LETTER| == 16 && Operations(16, INITIAL, LETTER)
         == StateOf(0x44244cf8, 0xf01e3ce2, 0x6360a45f, 0xd0fe9b27)
  {
    hide LETTER, INITIAL, Operations;
    LetterWords();
    Letter8();
    var x, s := LETTER, INITIAL;
    Next(8, s, x, 0x3a9d5bcc, 0xa8af6da5, 0xd31ddc83, 0xe0a07db7, 0xc00d5c93, 1, 0x32, 0x2b5137, 0xbe580957);
    Next(9, s, x, 0xe0a07db7, 0xbe580957, 0xa8af6da5, 0xd31ddc83, 0xe90ddd85, 2, 0x54f, 0x352eb, 0xf386bea6);
    Next(10, s, x, 0xd31ddc83, 0xf386bea6, 0xbe580957, 0xa8af6da5, 0xba294907, 2, 0x11a8d, 0x13b, 0xf5fdd933);
    Next(11, s, x, 0xa8af6da5, 0xf5fdd933, 0xf386bea6, 0xbe580957, 0xfb849866, 2, 0xb6437, 0x1c9, 0x68493d6a);
    Next(12, s, x, 0xbe580957, 0x68493d6a, 0xf5fdd933, 0xf386bea6, 0xf3cf9ba6, 2, 0xe, 0x1b7b61f, 0x44244cf8);
    Next(13, s, x, 0xf386bea6, 0x44244cf8, 0x68493d6a, 0xf5fdd933, 0xf1d99d6b, 2, 0xe2f, 0x8cda4, 0xd0fe9b27);
    Next(14, s, x, 0xf5fdd933, 0xd0fe9b27, 0x44244cf8, 0x68493d6a, 0x68252c68, 2, 0x938, 0x4931, 0x6360a45f);
    Next(15, s, x, 0x68493d6a, 0x6360a45f, 0xd0fe9b27, 0x44244cf8, 0x4464c8a7, 0, 0x3d9883, 0x232, 0xf01e3ce2);
  }

  lemma Letter24()
    ensures |LETTER| == 16 && Operations(24, INITIAL, LETTER)
         == StateOf(0x8c444930, 0x373beab0, 0x2dacb8a3, 0x7267097a)
  {
    hide LETTER, INITIAL, Operations;
    LetterWords();
    Letter16();
    var x, s := LETTER, INITIAL;
    Next(16, s, x, 0x44244cf8, 0xf01e3ce2, 0x6360a45f, 0xd0fe9b27, 0xf31e3c7a, 2, 0x5, 0x560aed4, 0x9c341767);
    Next(17, s, x, 0xd0fe9b27, 0x9c341767, 0xf01e3ce2, 0x6360a45f, 0x903e1ce7, 2, 0x42, 0x7d6b4e, 0x970ab3a9);
    Next(18, s, x, 0x6360a45f, 0x970ab3a9, 0x9c341767, 0xf01e3ce2, 0x9c2a33a5, 1, 0x97a, 0x13255, 0xe39ffd23);
    Next(19, s, x, 0xf01e3ce2, 0xe39ffd23, 0x970ab3a9, 0x9c341767, 0x831eb5ab, 2, 0x5cf43, 0xa98, 0x8d25cc66);
    Next(20, s, x, 0x9c341767, 0x8d25cc66, 0xe39ffd23, 0x970ab3a9, 0xe595cc22, 2, 0xa, 0x7f8f3e6, 0x8c444930);
    Next(21, s, x, 0x970ab3a9, 0x8c444930, 0x8d25cc66, 0xe39ffd23, 0x8c244964, 1, 0x4a, 0x731160, 0x7267097a);
    Next(22, s, x, 0xe39ffd23, 0x7267097a, 0x8c444930, 0x8d25cc66, 0x00650972, 1, 0x2f29, 0x2ed16, 0x2dacb8a3);
    Next(23, s, x, 0x8d25cc66, 0x2dacb8a3, 0x7267097a, 0x8c444930, 0x7e27086a, 1, 0xf320d, 0x98, 0x373beab0);
  }

  lemma Letter32()
    ensures |LETTER| == 16 && Operations(32, INITIAL, LETTER)
         == StateOf(0x93842e98, 0x3745961f, 0x94a2ebee, 0xc7043b64)
  {
    hide LETTER, INITIAL, Operations;
    LetterWords();
    Letter24();
    var x, s := LETTER, INITIAL;
    Next(24, s, x, 0x8c444930, 0x373beab0, 0x2dacb8a3, 0x7267097a, 0x3fabb8b1, 0, 0x1d, 0x5d1cfc7, 0xf175e3ad);
    Next(25, s, x, 0x7267097a, 0xf175e3ad, 0x373beab0, 0x2dacb8a3, 0x3337e2b1, 1, 0xd1, 0x55f409, 0x9d5df67e);
    Next(26, s, x, 0x2dacb8a3, 0x9d5df67e, 0xf175e3ad, 0x373beab0, 0xd55de33d, 1, 0x3df7, 0x3a967, 0x87b7f475);
    Next(27, s, x, 0x373beab0, 0x87b7f475, 0x9d5df67e, 0xf175e3ad, 0x8d3df477, 1, 0x9d3f, 0x414, 0xc8f891b4);
    Next(28, s, x, 0xf175e3ad, 0xc8f891b4, 0x87b7f475, 0x9d5df67e, 0x8afa9035, 2, 0x4, 0x6545ce7, 0x93842e98);
    Next(29, s, x, 0x9d5df67e, 0x93842e98, 0xc8f891b4, 0x87b7f475, 0xcbcc2590, 2, 0xcc, 0x19c006, 0xc7043b64);
    Next(30, s, x, 0x87b7f475, 0xc7043b64, 0x93842e98, 0xc8f891b4, 0xd3043f2c, 1, 0x308a, 0x3367a, 0x94a2ebee);
    Next(31, s, x, 0xc8f891b4, 0x94a2ebee, 0xc7043b64, 0x93842e98, 0xd4803bec, 2, 0x2aa31, 0xa2a, 0x3745961f);
  }

  lemma Letter40()
    ensures |LETTER| == 16 && Operations(40, INITIAL, LETTER)
         == StateOf(0x35a82a7a, 0xcf7e60db, 0x5abe099c, 0x89e0ec97)
  {
    hide LETTER, INITIAL, Operations;
    LetterWords();
    Letter32();
    var x, s := LETTER, INITIAL;
    Next(32, s, x, 0x93842e98, 0x3745961f, 0x94a2ebee, 0xc7043b64, 0x64e34695, 1, 0xf, 0x861ae6f, 0xbd607d1e);
    Next(33, s, x, 0xc7043b64, 0xbd607d1e, 0x3745961f, 0x94a2ebee, 0x1e8700ef, 1, 0x367, 0x1d32d4, 0xa6f72085);
    Next(34, s, x, 0x94a2ebee, 0xa6f72085, 0xbd607d1e, 0x3745961f, 0x2cd2cb84, 1, 0x2f13, 0x1894, 0xbf8b4f98);
    Next(35, s, x, 0x3745961f, 0xbf8b4f98, 0xa6f72085, 0xbd607d1e, 0xa41c1203, 1, 0x6ca370, 0x36, 0xdaf7f308);
    Next(36, s, x, 0xbd607d1e, 0xdaf7f308, 0xbf8b4f98, 0xa6f72085, 0xc38b9c15, 2, 0x2, 0x5ab0377, 0x35a82a7a);
    Next(37, s, x, 0xa6f72085, 0x35a82a7a, 0xdaf7f308, 0xbf8b4f98, 0x50d496ea, 1, 0x21d, 0xa8718, 0x89e0ec97);
    Next(38, s, x, 0xbf8b4f98, 0x89e0ec97, 0x35a82a7a, 0xdaf7f308, 0x66bf35e5, 2, 0x1d05, 0xd0dd, 0x5abe099c);
    Next(39, s, x, 0xdaf7f308, 0x5abe099c, 0x89e0ec97, 0x35a82a7a, 0xe6f6cf71, 2, 0x40573f, 0xe9, 0xcf7e60db);
  }

  lemma Letter48()
    ensures |LETTER| == 16 && Operations(48, INITIAL, LETTER)
         == StateOf(0x0ac50e18, 0x918f93bb, 0x8a4a6356, 0x79ca7845)
  {
    hide LETTER, INITIAL, Operations;
    LetterWords();
    Letter40();
    var x, s := LETTER, INITIAL;
    Next(40, s, x, 0x35a82a7a, 0xcf7e60db, 0x5abe099c, 0x89e0ec97, 0x1c2085d0, 0, 0x7, 0xa642f10, 0x75c151e2);
    Next(41, s, x, 0x89e0ec97, 0x75c151e2, 0xcf7e60db, 0x5abe099c, 0xe00138a5, 2, 0x2a4, 0x3cd97, 0x942e0c86);
    Next(42, s, x, 0x5abe099c, 0x942e0c86, 0x75c151e2, 0xcf7e60db, 0x2e913dbf, 1, 0x5e3e, 0x77e0, 0x0c0e6ac4);
    Next(43, s, x, 0xcf7e60db, 0x0c0e6ac4, 0x942e0c86, 0x75c151e2, 0xede137a0, 1, 0x60f3da, 0x180, 0xcc6f5e9e);
    Next(44, s, x, 0x75c151e2, 0xcc6f5e9e, 0x0c0e6ac4, 0x942e0c86, 0x544f38dc, 1, 0xa, 0x3e55af7, 0x0ac50e18);
    Next(45, s, x, 0x942e0c86, 0x0ac50e18, 0xcc6f5e9e, 0x0c0e6ac4, 0xcaa43a42, 2, 0x22d, 0xde0ad, 0x79ca7845);
    Next(46, s, x, 0x0c0e6ac4, 0x79ca7845, 0x0ac50e18, 0xcc6f5e9e, 0xbf6028c3, 0, 0xeb11, 0x107f, 0x8a4a6356);
    Next(47, s, x, 0xcc6f5e9e, 0x8a4a6356, 0x79ca7845, 0x0ac50e18, 0xf945150b, 2, 0x453065, 0xe, 0x918f93bb);
  }

  lemma Letter56()
    ensures |LETTER| == 16 && Operations(56, INITIAL, LETTER)
         == StateOf(0x982c7861, 0x893501c0, 0x71fc7709, 0x6812a362)
  {
    hide LETTER, INITIAL, Operations;
    LetterWords();
    Letter48();
    var x, s := LETTER, INITIAL;
    Next(48, s, x, 0x0ac50e18, 0x918f93bb, 0x8a4a6356, 0x79ca7845, 0x1df5f4ed, 1, 0x7, 0xe4a5aa, 0xcab8fe42);
    Next(49, s, x, 0x79ca7845, 0xcab8fe42, 0x918f93bb, 0x8a4a6356, 0x6e326d50, 1, 0xac, 0x27e52c, 0x6a4daeee);
    Next(50, s, x, 0x8a4a6356, 0x6a4daeee, 0xcab8fe42, 0x918f93bb, 0xa4c510ac, 1, 0x6d51, 0x197b1, 0x36269c3f);
    Next(51, s, x, 0x918f93bb, 0x36269c3f, 0x6a4daeee, 0xcab8fe42, 0x5d2a3351, 1, 0x1d69ac, 0x745, 0x1ee405eb);
    Next(52, s, x, 0xcab8fe42, 0x1ee405eb, 0x36269c3f, 0x6a4daeee, 0xa9d0c9c4, 1, 0x36, 0x1e521c9, 0x982c7861);
    Next(53, s, x, 0x6a4daeee, 0x982c7861, 0x1ee405eb, 0x36269c3f, 0xc7197e0a, 1, 0x301, 0x33f98a, 0x6812a362);
    Next(54, s, x, 0x36269c3f, 0x6812a362, 0x982c7861, 0x1ee405eb, 0x71378317, 1, 0x53a7, 0x13d3, 0x71fc7709);
    Next(55, s, x, 0x1ee405eb, 0x71fc7709, 0x6812a362, 0x982c7861, 0x1fed54fd, 0, 0x188ab7, 0xb9, 0x893501c0);
  }

  lemma Letter64()
    ensures |LETTER| == 16 && Operations(64, INITIAL, LETTER)
         == StateOf(0x52309e0b, 0xb8e94637, 0x49dee633, 0x50f422f3)
  {
    hide LETTER, INITIAL, Operations;
    LetterWords();
    Letter56();
    var x, s := LETTER, INITIAL;
    Next(56, s, x, 0x982c7861, 0x893501c0, 0x71fc7709, 0x6812a362, 0xee012ad4, 1, 0x3d, 0x1d62184, 0xfebd62fd);
    Next(57, s, x, 0x6812a362, 0xfebd62fd, 0x893501c0, 0x71fc7709, 0x778aeb3f, 1, 0x377, 0xa7581, 0x28936a74);
    Next(58, s, x, 0x71fc7709, 0x28936a74, 0xfebd62fd, 0x893501c0, 0x80669c82, 1, 0x4ab2, 0x569f, 0x53e33526);
    Next(59, s, x, 0x893501c0, 0x53e33526, 0x28936a74, 0xfebd62fd, 0x7b70d752, 1, 0xa55bd, 0x2b3, 0xaa4d8ae3);
    Next(60, s, x, 0xfebd62fd, 0xaa4d8ae3, 0x53e33526, 0x28936a74, 0xac8eaacd, 2, 0x28, 0x29f8c4c, 0x52309e0b);
    Next(61, s, x, 0x28936a74, 0x52309e0b, 0xaa4d8ae3, 0x53e33526, 0x54715438, 1, 0xe8, 0x3fb0e1, 0x50f422f3);
    Next(62, s, x, 0x53e33526, 0x50f422f3, 0x52309e0b, 0xaa4d8ae3, 0x07c6e9f4, 0, 0x4340, 0x1f1d5, 0x49dee633);
    Next(63, s, x, 0xaa4d8ae3, 0x49dee633, 0x50f422f3, 0x52309e0b, 0xbd2bc504, 2, 0xa6004, 0x378, 0xb8e94637);
  }

  lemma LetterBlock()
    ensures |LETTER| == 16 && Compress(INITIAL, LETTER) == State(0xb975c10c, 0xa8b6f1c0, 0xe299c331, 0x61267769)
  {
    hide LETTER, Operations;
    Letter64();
  }

  // ---- the capital letters, the small letters and the digits

  const FIRST: seq<Word> := [
    0x44434241, 0x48474645, 0x4c4b4a49, 0x504f4e4d, 0x54535251, 0x58575655, 0x62615a59, 0x66656463,
    0x6a696867, 0x6e6d6c6b, 0x7271706f, 0x76757473, 0x7a797877, 0x33323130, 0x37363534, 0x00803938
  ]

  lemma FirstWords()
    ensures |FIRST| == 16
    ensures FIRST[0] == 0x44434241 && FIRST[1] == 0x48474645 && FIRST[2] == 0x4c4b4a49 && FIRST[3] == 0x504f4e4d
    ensures FIRST[4] == 0x54535251 && FIRST[5] == 0x58575655 && FIRST[6] == 0x62615a59 && FIRST[7] == 0x66656463
    ensures FIRST[8] == 0x6a696867 && FIRST[9] == 0x6e6d6c6b && FIRST[10] == 0x7271706f && FIRST[11] == 0x76757473
    ensures FIRST[12] == 0x7a797877 && FIRST[13] == 0x33323130 && FIRST[14] == 0x37363534 && FIRST[15] == 0x00803938
  {
  }

  lemma FirstStart()
    ensures |FIRST| == 16 && Operations(0, INITIAL, FIRST) == StateOf(0x67452301, 0xefcdab89, 0x98badcfe, 0x10325476)
  {
  }

  lemma First8()
    ensures |FIRST| == 16 && Operations(8, INITIAL, FIRST)
         == StateOf(0xf22e6c4e, 0xa4799506, 0xa95a2fc0, 0xb4ac9218)
  {
    hide FIRST, INITIAL, Operations;
    FirstWords();
    FirstStart();
    var x, s := FIRST, INITIAL;
    Next(0, s, x, 0x67452301, 0xefcdab89, 0x98badcfe, 0x10325476, 0x98badcfe, 2, 0xd, 0x1ade6b8, 0xc6c10796);
    Next(1, s, x, 0x10325476, 0xc6c10796, 0xefcdab89, 0x98badcfe, 0xdefbdbe8, 2, 0x203, 0xd2df9, 0x99a09999);
    Next(2, s, x, 0x98badcfe, 0x99a09999, 0xc6c10796, 0xefcdab89, 0xe6cd2390, 1, 0x1dfe7, 0x3bb2, 0x11067980);
    Next(3, s, x, 0xefcdab89, 0x11067980, 0x99a09999, 0xc6c10796, 0xd7c11f96, 2, 0x3666fa, 0x5a, 0x27bce07a);
    Next(4, s, x, 0xc6c10796, 0x27bce07a, 0x11067980, 0x99a09999, 0x99047981, 2, 0x54, 0x194e317, 0xf22e6c4e);
    Next(5, s, x, 0x99a09999, 0xf22e6c4e, 0x27bce07a, 0x11067980, 0x232c71ca, 1, 0x5ca, 0xc27e2, 0xb4ac9218);
    Next(6, s, x, 0x11067980, 0xb4ac9218, 0xf22e6c4e, 0x27bce07a, 0xb33c606a, 1, 0x19da8, 0x7a56, 0xa95a2fc0);
    Next(7, s, x, 0x27bce07a, 0xa95a2fc0, 0xb4ac9218, 0xf22e6c4e, 0xf22c420e, 2, 0x1f6546, 0x3ec, 0xa4799506);
  }

  lemma First16()
    ensures |FIRST| == 16 && Operations(16, INITIAL, FIRST)
         == StateOf(0x3cbdcd45, 0x5d38e690, 0xfa148c8a, 0xb8dec763)
  {
    hide FIRST, INITIAL, Operations;
    FirstWords();
    First8();
    var x, s := FIRST, INITIAL;
    Next(8, s, x, 0xf22e6c4e, 0xa4799506, 0xa95a2fc0, 0xb4ac9218, 0xb0dc0718, 2, 0x3b, 0xf474a5, 0x1eb3e7c1);
    Next(9, s, x, 0xb4ac9218, 0x1eb3e7c1, 0xa4799506, 0xa95a2fc0, 0xa5798d00, 2, 0x53d, 0x88332, 0xa6e70cfe);
    Next(10, s, x, 0xa95a2fc0, 0xa6e70cfe, 0x1eb3e7c1, 0xa4799506, 0x06bb95c0, 2, 0x450d, 0x11a0, 0xca27520b);
    Next(11, s, x, 0xa4799506, 0xca27520b, 0xa6e70cfe, 0x1eb3e7c1, 0x96b7a5ca, 2, 0xec0e1, 0x301, 0x8a7612ec);
    Next(12, s, x, 0x1eb3e7c1, 0x8a7612ec, 0xca27520b, 0xa6e70cfe, 0xaea71e1a, 1, 0x59, 0x1648f74, 0x3cbdcd45);
    Next(13, s, x, 0xa6e70cfe, 0x3cbdcd45, 0x8a7612ec, 0xca27520b, 0xca36124e, 2, 0xa1e, 0x7c20f, 0xb8dec763);
    Next(14, s, x, 0xca27520b, 0xb8dec763, 0x3cbdcd45, 0x8a7612ec, 0x3abcd5cd, 1, 0x1c527, 0x209a, 0xfa148c8a);
    Next(15, s, x, 0x8a7612ec, 0xfa148c8a, 0xb8dec763, 0x3cbdcd45, 0xbcbdc547, 1, 0x245a06, 0x18c, 0x5d38e690);
  }

  lemma First24()
    ensures |FIRST| == 16 && Operations(24, INITIAL, FIRST)
         == StateOf(0x2d7d8a3f, 0x75292030, 0x4b534dc3, 0xd1210823)
  {
    hide FIRST, INITIAL, Operations;
    FirstWords();
    First16();
    var x, s := FIRST, INITIAL;
    Next(16, s, x, 0x3cbdcd45, 0x5d38e690, 0xfa148c8a, 0xb8dec763, 0x5a18ce88, 1, 0x1a, 0x53c0774, 0x04b9d52a);
    Next(17, s, x, 0xb8dec763, 0x04b9d52a, 0x5d38e690, 0xfa148c8a, 0x0538e61a, 1, 0x1c1, 0x39bb16, 0x783002eb);
    Next(18, s, x, 0xfa148c8a, 0x783002eb, 0x04b9d52a, 0x5d38e690, 0x58b113aa, 1, 0x3be6, 0x16ef8, 0xd3ee3ed1);
    Next(19, s, x, 0x5d38e690, 0xd3ee3ed1, 0x783002eb, 0x04b9d52a, 0x78a816c1, 2, 0x3db0, 0x73c, 0x47ae7c81);
    Next(20, s, x, 0x04b9d52a, 0x47ae7c81, 0xd3ee3ed1, 0x783002eb, 0xc3ee3c91, 1, 0x1e, 0x72e786d, 0x2d7d8a3f);
    Next(21, s, x, 0x783002eb, 0x2d7d8a3f, 0x47ae7c81, 0xd3ee3ed1, 0x056c4a11, 0, 0x1e4, 0x51d1be, 0xd1210823);
    Next(22, s, x, 0xd3ee3ed1, 0xd1210823, 0x2d7d8a3f, 0x47ae7c81, 0x69718a3f, 2, 0x5a0, 0x1e8c9, 0x4b534dc3);
    Next(23, s, x, 0x47ae7c81, 0x4b534dc3, 0xd1210823, 0x2d7d8a3f, 0xd9510803, 2, 0x5d26d, 0x29d, 0x75292030);
  }

  lemma First32()
    ensures |FIRST| == 16 && Operations(32, INITIAL, FIRST)
         == StateOf(0x9b085fa9, 0xdd789ecc, 0x5993248f, 0x4400a9bd)
  {
    hide FIRST, INITIAL, Operations;
    FirstWords();
    First24();
    var x, s := FIRST, INITIAL;
    Next(24, s, x, 0x2d7d8a3f, 0x75292030, 0x4b534dc3, 0xd1210823, 0x5b7345e0, 1, 0x3, 0x1400a70, 0x9d2a6e33);
    Next(25, s, x, 0xd1210823, 0x9d2a6e33, 0x75292030, 0x4b534dc3, 0x3d2a6c33, 2, 0x11, 0x38b160, 0x0e8d2e44);
    Next(26, s, x, 0x4b534dc3, 0x0e8d2e44, 0x9d2a6e33, 0x75292030, 0x8c0b6e03, 2, 0x720, 0x3179a, 0xd473b564);
    Next(27, s, x, 0x75292030, 0xd473b564, 0x0e8d2e44, 0x9d2a6e33, 0x96a72464, 1, 0xbb93c, 0x1e8, 0xf2ff6ea0);
    Next(28, s, x, 0x9d2a6e33, 0xf2ff6ea0, 0xd473b564, 0x0e8d2e44, 0xd2ffbf20, 2, 0x9, 0x5404788, 0x9b085fa9);
    Next(29, s, x, 0x0e8d2e44, 0x9b085fa9, 0xf2ff6ea0, 0xd473b564, 0xb28c5fa0, 2, 0x14, 0x547c25, 0x4400a9bd);
    Next(30, s, x, 0xd473b564, 0x4400a9bd, 0x9b085fa9, 0xf2ff6ea0, 0x490039a9, 1, 0x3ad2, 0x5649, 0x5993248f);
    Next(31, s, x, 0xf2ff6ea0, 0x5993248f, 0x4400a9bd, 0x9b085fa9, 0x5d00a49d, 2, 0x57a3d, 0x83e, 0xdd789ecc);
  }

  lemma First40()
    ensures |FIRST| == 16 && Operations(40, INITIAL, FIRST)
         == StateOf(0x436b7fe9, 0xcf0341ed, 0xf404c2f6, 0x075800c1)
  {
    hide FIRST, INITIAL, Operations;
    FirstWords();
    First32();
    var x, s := FIRST, INITIAL;
    Next(32, s, x, 0x9b085fa9, 0xdd789ecc, 0x5993248f, 0x4400a9bd, 0xc0eb13fe, 2, 0xb, 0x445033e, 0x21c8d2b7);
    Next(33, s, x, 0x4400a9bd, 0x21c8d2b7, 0xdd789ecc, 0x5993248f, 0xa52368f4, 1, 0x6d7, 0x1f7199, 0x1d55a18e);
    Next(34, s, x, 0x5993248f, 0x1d55a18e, 0x21c8d2b7, 0xdd789ecc, 0xe1e5edf5, 2, 0x1f8b, 0xe819, 0x056ec119);
    Next(35, s, x, 0xdd789ecc, 0x056ec119, 0x1d55a18e, 0x21c8d2b7, 0x39f3b220, 2, 0x2643df, 0x2c, 0x1b9504f8);
    Next(36, s, x, 0x21c8d2b7, 0x1b9504f8, 0x056ec119, 0x1d55a18e, 0x03ae646f, 1, 0x1, 0x27d67af, 0x436b7fe9);
    Next(37, s, x, 0x1d55a18e, 0x436b7fe9, 0x1b9504f8, 0x056ec119, 0x5d90ba08, 1, 0xd8, 0x187d90, 0x075800c1);
    Next(38, s, x, 0x056ec119, 0x075800c1, 0x436b7fe9, 0x1b9504f8, 0x5fa67bd0, 1, 0xc235, 0xecac, 0xf404c2f6);
    Next(39, s, x, 0x1b9504f8, 0xf404c2f6, 0x075800c1, 0x436b7fe9, 0xb037bdde, 1, 0x7e7ef7, 0x1b5, 0xcf0341ed);
  }

  lemma First48()
    ensures |FIRST| == 16 && Operations(48, INITIAL, FIRST)
         == StateOf(0x2dbee21d, 0xf166f514, 0xee46e961, 0xe95c3a43)
  {
    hide FIRST, INITIAL, Operations;
    FirstWords();
    First40();
    var x, s := FIRST, INITIAL;
    Next(40, s, x, 0x436b7fe9, 0xcf0341ed, 0xf404c2f6, 0x075800c1, 0x3c5f83da, 0, 0xd, 0xb98b3b9, 0x888e7d8a);
    Next(41, s, x, 0x075800c1, 0x888e7d8a, 0xcf0341ed, 0xf404c2f6, 0xb389fe91, 1, 0x74e, 0x6698d, 0xbbdaecd8);
    Next(42, s, x, 0xf404c2f6, 0xbbdaecd8, 0x888e7d8a, 0xcf0341ed, 0xfc57d0bf, 3, 0x159b, 0x1287, 0xce620273);
    Next(43, s, x, 0xcf0341ed, 0xce620273, 0xbbdaecd8, 0x888e7d8a, 0xfd369321, 2, 0x1991a6, 0x6c, 0x047b9419);
    Next(44, s, x, 0x888e7d8a, 0x047b9419, 0xce620273, 0xbbdaecd8, 0x71c37ab2, 2, 0x4, 0x29434e0, 0x2dbee21d);
    Next(45, s, x, 0xbbdaecd8, 0x2dbee21d, 0x047b9419, 0xce620273, 0xe7a77477, 3, 0x26, 0x1773ab, 0xe95c3a43);
    Next(46, s, x, 0xce620273, 0xe95c3a43, 0x2dbee21d, 0x047b9419, 0xc0994c47, 1, 0xaf1e, 0x4ea, 0xee46e961);
    Next(47, s, x, 0x047b9419, 0xee46e961, 0xe95c3a43, 0x2dbee21d, 0x2aa4313f, 1, 0x200bb3, 0x6, 0xf166f514);
  }

  lemma First56()
    ensures |FIRST| == 16 && Operations(56, INITIAL, FIRST)
         == StateOf(0xa691d430, 0xefb0e72f, 0x3fc23df6, 0x528452f2)
  {
    hide FIRST, INITIAL, Operations;
    FirstWords();
    First48();
    var x, s := FIRST, INITIAL;
    Next(48, s, x, 0x2dbee21d, 0xf166f514, 0xee46e961, 0xe95c3a43, 0x19a11cdd, 1, 0x1f, 0x3cc637f, 0xe47fd4f3);
    Next(49, s, x, 0xe95c3a43, 0xe47fd4f3, 0xf166f514, 0xee46e961, 0x049923eb, 1, 0x25e, 0x5c228, 0xfb887751);
    Next(50, s, x, 0xee46e961, 0xfb887751, 0xe47fd4f3, 0xf166f514, 0x1be6ab08, 1, 0x767b, 0x1ed44, 0xf22aedcc);
    Next(51, s, x, 0xf166f514, 0xf22aedcc, 0xfb887751, 0xe47fd4f3, 0x0022989d, 2, 0x8ce90, 0x43f, 0x7a13bc5c);
    Next(52, s, x, 0xe47fd4f3, 0x7a13bc5c, 0xf22aedcc, 0xfb887751, 0x8c5d5132, 2, 0x14, 0xb1f85f, 0xa691d430);
    Next(53, s, x, 0xfb887751, 0xa691d430, 0x7a13bc5c, 0xf22aedcc, 0xd5c66a6f, 2, 0x2c2, 0x2afc9f, 0x528452f2);
    Next(54, s, x, 0xf22aedcc, 0x528452f2, 0xa691d430, 0x7a13bc5c, 0x717d87c3, 2, 0x6b04, 0x1da7b, 0x3fc23df6);
    Next(55, s, x, 0x7a13bc5c, 0x3fc23df6, 0x528452f2, 0xa691d430, 0x2d6a6d0d, 1, 0xea939, 0x57f, 0xefb0e72f);
  }

  lemma First64()
    ensures |FIRST| == 16 && Operations(64, INITIAL, FIRST)
         == StateOf(0x1cb80f0a, 0xef2e3a46, 0x10f68731, 0xea3d3eb4)
  {
    hide FIRST, INITIAL, Operations;
    FirstWords();
    First56();
    var x, s := FIRST, INITIAL;
    Next(56, s, x, 0xa691d430, 0xefb0e72f, 0x3fc23df6, 0x528452f2, 0xd039d2d9, 2, 0x14, 0xdd8dbf, 0x27145703);
    Next(57, s, x, 0x528452f2, 0x27145703, 0xefb0e72f, 0x3fc23df6, 0x088d3024, 1, 0x166, 0x3ea32e, 0x21a11069);
    Next(58, s, x, 0x3fc23df6, 0x21a11069, 0x27145703, 0xefb0e72f, 0x16fb4ffa, 1, 0x2e10, 0x2b5d, 0x374fbe79);
    Next(59, s, x, 0xefb0e72f, 0x374fbe79, 0x21a11069, 0x27145703, 0xde4eae94, 2, 0x9e73b, 0x94, 0x49d9a5b4);
    Next(60, s, x, 0x27145703, 0x49d9a5b4, 0x374fbe79, 0x21a11069, 0xe89051cf, 2, 0x16, 0x34b79a5, 0x1cb80f0a);
    Next(61, s, x, 0x21a11069, 0x1cb80f0a, 0x49d9a5b4, 0x374fbe79, 0x9561ea3a, 1, 0x3aa, 0x33614b, 0xea3d3eb4);
    Next(62, s, x, 0x374fbe79, 0xea3d3eb4, 0x1cb80f0a, 0x49d9a5b4, 0xe28771f5, 1, 0x487d, 0x4d72, 0x10f68731);
    Next(63, s, x, 0x49d9a5b4, 0x10f68731, 0xea3d3eb4, 0x1cb80f0a, 0x19cac941, 1, 0x17b315, 0x6f1, 0xef2e3a46);
  }

  lemma FirstBlock()
    ensures |FIRST| == 16 && Compress(INITIAL, FIRST) == State(0x83fd320b, 0xdefbe5cf, 0xa9b1642f, 0xfa6f932a)
  {
    hide FIRST, Operations;
    First64();
  }

  const MIDDLE: State := State(0x83fd320b, 0xdefbe5cf, 0xa9b1642f, 0xfa6f932a)

  // ---- the second block

  const SECOND: seq<Word> := [
    0x00000000, 0x00000000, 0x00000000, 0x00000000, 0x00000000, 0x00000000, 0x00000000, 0x00000000,
    0x00000000, 0x00000000, 0x00000000, 0x00000000, 0x00000000, 0x00000000, 0x000001f0, 0x00000000
  ]

  lemma SecondWords()
    ensures |SECOND| == 16
    ensures SECOND[0] == 0x00000000 && SECOND[1] == 0x00000000 && SECOND[2] == 0x00000000 && SECOND[3] == 0x00000000
    ensures SECOND[4] == 0x00000000 && SECOND[5] == 0x00000000 && SECOND[6] == 0x00000000 && SECOND[7] == 0x00000000
    ensures SECOND[8] == 0x00000000 && SECOND[9] == 0x00000000 && SECOND[10] == 0x00000000 && SECOND[11] == 0x00000000
    ensures SECOND[12] == 0x00000000 && SECOND[13] == 0x00000000 && SECOND[14] == 0x000001f0 && SECOND[15] == 0x00000000
  {
  }

  lemma SecondStart()
    ensures |SECOND| == 16 && Operations(0, MIDDLE, SECOND) == StateOf(0x83fd320b, 0xdefbe5cf, 0xa9b1642f, 0xfa6f932a)
  {
  }

  lemma Second8()
    ensures |SECOND| == 16 && Operations(8, MIDDLE, SECOND)
         == StateOf(0x75144433, 0x99b6b699, 0xc783cb60, 0xc8875807)
  {
    hide SECOND, MIDDLE, Operations;
    SecondWords();
    SecondStart();
    var x, s := SECOND, MIDDLE;
    Next(0, s, x, 0x83fd320b, 0xdefbe5cf, 0xa9b1642f, 0xfa6f932a, 0xa8b5762f, 2, 0x2, 0x1d4cb2, 0xeda23ed1);
    Next(1, s, x, 0xfa6f932a, 0xeda23ed1, 0xdefbe5cf, 0xa9b1642f, 0xccb364ef, 2, 0xafe, 0xaaf6f, 0x989939cf);
    Next(2, s, x, 0xa9b1642f, 0x989939cf, 0xeda23ed1, 0xdefbe5cf, 0xcee2fcc1, 1, 0x13969, 0x51cb, 0x3c307338);
    Next(3, s, x, 0xdefbe5cf, 0x3c307338, 0x989939cf, 0xeda23ed1, 0xd9923dc9, 2, 0x1e92fc, 0x286, 0xddcf0634);
    Next(4, s, x, 0xeda23ed1, 0xddcf0634, 0x3c307338, 0x989939cf, 0x1c103bfb, 1, 0x7f, 0x12e8a7b, 0x75144433);
    Next(5, s, x, 0x989939cf, 0x75144433, 0xddcf0634, 0x3c307338, 0x5d243738, 1, 0x3d4, 0x53731, 0xc8875807);
    Next(6, s, x, 0x3c307338, 0xc8875807, 0x75144433, 0xddcf0634, 0x554c4633, 1, 0x7359, 0x7f7e, 0xc783cb60);
    Next(7, s, x, 0xddcf0634, 0xc783cb60, 0xc8875807, 0x75144433, 0xf0974c13, 2, 0x32eb39, 0x348, 0x99b6b699);
  }

  lemma Second16()
    ensures |SECOND| == 16 && Operations(16, MIDDLE, SECOND)
         == StateOf(0xa70737da, 0xa36f556f, 0x96f6586e, 0x5473f8a7)
  {
    hide SECOND, MIDDLE, Operations;
    SecondWords();
    Second8();
    var x, s := SECOND, MIDDLE;
    Next(8, s, x, 0x75144433, 0x99b6b699, 0xc783cb60, 0xc8875807, 0xc183ca06, 1, 0x50, 0x18a711, 0xa60a3f69);
    Next(9, s, x, 0xc8875807, 0xa60a3f69, 0x99b6b699, 0xc783cb60, 0xc183f609, 2, 0x155, 0x45bf, 0xaa6630be);
    Next(10, s, x, 0xc783cb60, 0xaa6630be, 0xa60a3f69, 0x99b6b699, 0xb392b629, 2, 0xf62b, 0x5d3a, 0x64db26e9);
    Next(11, s, x, 0x99b6b699, 0x64db26e9, 0xaa6630be, 0xa60a3f69, 0xa24239a8, 1, 0x315571, 0x3ff, 0x64cc7c5a);
    Next(12, s, x, 0xa60a3f69, 0x64cc7c5a, 0x64db26e9, 0xaa6630be, 0xeeea24ec, 2, 0x0, 0x847577, 0xa70737da);
    Next(13, s, x, 0xaa6630be, 0xa70737da, 0x64cc7c5a, 0x64db26e9, 0x64dc347b, 2, 0xcd, 0xad6cc, 0x5473f8a7);
    Next(14, s, x, 0x64db26e9, 0x5473f8a7, 0xa70737da, 0x64cc7c5a, 0x248f34da, 1, 0x5fc7, 0x2141, 0x96f6586e);
    Next(15, s, x, 0x64cc7c5a, 0x96f6586e, 0x5473f8a7, 0xa70737da, 0x35737fb6, 0, 0x38fd01, 0x31, 0xa36f556f);
  }

  lemma Second24()
    ensures |SECOND| == 16 && Operations(24, MIDDLE, SECOND)
         == StateOf(0xe04f070c, 0xdf35cb56, 0xc0d22b61, 0x2f3cd2a2)
  {
    hide SECOND, MIDDLE, Operations;
    SecondWords();
    Second16();
    var x, s := SECOND, MIDDLE;
    Next(16, s, x, 0xa70737da, 0xa36f556f, 0x96f6586e, 0x5473f8a7, 0x82e7506f, 2, 0x4, 0xcadab, 0xa5050ad3);
    Next(17, s, x, 0x5473f8a7, 0xa5050ad3, 0xa36f556f, 0x96f6586e, 0xa50d0d43, 1, 0x173, 0x41b92a, 0x28776046);
    Next(18, s, x, 0x96f6586e, 0x28776046, 0xa5050ad3, 0xa36f556f, 0x24674ad6, 0, 0x386e, 0x3fd95, 0x27dcd8b4);
    Next(19, s, x, 0xa36f556f, 0x27dcd8b4, 0x28776046, 0xa5050ad3, 0x2d766894, 1, 0xba9c8, 0x5ad, 0x82b8827c);
    Next(20, s, x, 0xa5050ad3, 0x82b8827c, 0x27dcd8b4, 0x28776046, 0x07b898f4, 1, 0x10, 0x2ecb424, 0xe04f070c);
    Next(21, s, x, 0x28776046, 0xe04f070c, 0x82b8827c, 0x27dcd8b4, 0xa06c024c, 0, 0x196, 0x2776e5, 0x2f3cd2a2);
    Next(22, s, x, 0x27dcd8b4, 0x2f3cd2a2, 0xe04f070c, 0x82b8827c, 0x627f8720, 1, 0x18bf, 0x24655, 0xc0d22b61);
    Next(23, s, x, 0x82b8827c, 0xc0d22b61, 0x2f3cd2a2, 0xe04f070c, 0xcf72d3a2, 2, 0x39ff5, 0x1e6, 0xdf35cb56);
  }

  lemma Second32()
    ensures |SECOND| == 16 && Operations(32, MIDDLE, SECOND)
         == StateOf(0x24eba695, 0x9c03e2e8, 0x10c42a2f, 0x4bd0378b)
  {
    hide SECOND, MIDDLE, Operations;
    SecondWords();
    Second24();
    var x, s := SECOND, MIDDLE;
    Next(24, s, x, 0xe04f070c, 0xdf35cb56, 0xc0d22b61, 0x2f3cd2a2, 0xcff6eb43, 1, 0x1a, 0x227c035, 0x242dd210);
    Next(25, s, x, 0x2f3cd2a2, 0x242dd210, 0xdf35cb56, 0xc0d22b61, 0x1f25c216, 1, 0x23, 0x199e7e, 0x576ace33);
    Next(26, s, x, 0xc0d22b61, 0x576ace33, 0x242dd210, 0xdf35cb56, 0x7728da12, 2, 0xb34, 0x12fa, 0x5c295967);
    Next(27, s, x, 0xdf35cb56, 0x5c295967, 0x576ace33, 0x242dd210, 0x576b5c23, 1, 0x7bfb3, 0xc66, 0x2291191a);
    Next(28, s, x, 0x242dd210, 0x2291191a, 0x5c295967, 0x576ace33, 0x0a011956, 0, 0x1b, 0x12d46b, 0x24eba695);
    Next(29, s, x, 0x576ace33, 0x24eba695, 0x2291191a, 0x5c295967, 0x26b9001d, 1, 0xf6, 0x137248, 0x4bd0378b);
    Next(30, s, x, 0x5c295967, 0x4bd0378b, 0x24eba695, 0x2291191a, 0x06fab78f, 0, 0x32a4, 0x313cf, 0x10c42a2f);
    Next(31, s, x, 0x2291191a, 0x10c42a2f, 0x4bd0378b, 0x24eba695, 0x4bd0330f, 0, 0xfb8b9, 0x8b3, 0x9c03e2e8);
  }

  lemma Second40()
    ensures |SECOND| == 16 && Operations(40, MIDDLE, SECOND)
         == StateOf(0xe14e403d, 0xfe314121, 0x60cc183a, 0xe8cfd670)
  {
    hide SECOND, MIDDLE, Operations;
    SecondWords();
    Second32();
    var x, s := SECOND, MIDDLE;
    Next(32, s, x, 0x24eba695, 0x9c03e2e8, 0x10c42a2f, 0x4bd0378b, 0xc717ff4c, 1, 0xe, 0xbfddf23, 0x5be1d526);
    Next(33, s, x, 0x4bd0378b, 0x5be1d526, 0x9c03e2e8, 0x10c42a2f, 0xd7261de1, 1, 0x553, 0x84bed, 0x9e414279);
    Next(34, s, x, 0x10c42a2f, 0x9e414279, 0x5be1d526, 0x9c03e2e8, 0x59a375b7, 0, 0xd805, 0x108, 0x9f4a1a7e);
    Next(35, s, x, 0x9c03e2e8, 0x9f4a1a7e, 0x9e414279, 0x5be1d526, 0x5aea8d21, 1, 0x7a69d5, 0x5, 0xa2448453);
    Next(36, s, x, 0x5be1d526, 0xa2448453, 0x9f4a1a7e, 0x9e414279, 0xa34fdc54, 1, 0xa, 0x3f09bbe, 0xe14e403d);
    Next(37, s, x, 0x9e414279, 0xe14e403d, 0xa2448453, 0x9f4a1a7e, 0xdc40de10, 1, 0x633, 0xf032, 0xe8cfd670);
    Next(38, s, x, 0x9f4a1a7e, 0xe8cfd670, 0xe14e403d, 0xa2448453, 0xabc5121e, 2, 0x41ca, 0x77fc, 0x60cc183a);
    Next(39, s, x, 0xa2448453, 0x60cc183a, 0xe8cfd670, 0xe14e403d, 0x694d8e77, 1, 0x6528e7, 0x13a, 0xfe314121);
  }

  lemma Second48()
    ensures |SECOND| == 16 && Operations(48, MIDDLE, SECOND)
         == StateOf(0x54c9eb3a, 0x79c0710a, 0x2ec86f72, 0xd4d9c6ac)
  {
    hide SECOND, MIDDLE, Operations;
    SecondWords();
    Second40();
    var x, s := SECOND, MIDDLE;
    Next(40, s, x, 0xe14e403d, 0xfe314121, 0x60cc183a, 0xe8cfd670, 0x76328f6b, 1, 0x8, 0x1c4e6e, 0xfff62809);
    Next(41, s, x, 0xe8cfd670, 0xfff62809, 0xfe314121, 0x60cc183a, 0x610b7112, 2, 0x1a3, 0x1c6f7c, 0xe37209ac);
    Next(42, s, x, 0x60cc183a, 0xe37209ac, 0xfff62809, 0xfe314121, 0xe2b56084, 2, 0x1870, 0xa943, 0x8cb5221c);
    Next(43, s, x, 0xfe314121, 0x8cb5221c, 0xe37209ac, 0xfff62809, 0x903103b9, 1, 0x497530, 0x1df, 0x7c7e974c);
    Next(44, s, x, 0xfff62809, 0x7c7e974c, 0x8cb5221c, 0xe37209ac, 0x13b9bcfc, 1, 0xe, 0xd84b53e, 0x54c9eb3a);
    Next(45, s, x, 0xe37209ac, 0x54c9eb3a, 0x7c7e974c, 0x8cb5221c, 0xa4025e6a, 2, 0x372, 0x1001fb, 0xd4d9c6ac);
    Next(46, s, x, 0x8cb5221c, 0xd4d9c6ac, 0x54c9eb3a, 0x7c7e974c, 0xfc6ebada, 1, 0xa8c6, 0x59ee, 0x2ec86f72);
    Next(47, s, x, 0x7c7e974c, 0x2ec86f72, 0xd4d9c6ac, 0x54c9eb3a, 0xaed842e4, 1, 0x780198, 0x95, 0x79c0710a);
  }

  lemma Second56()
    ensures |SECOND| == 16 && Operations(56, MIDDLE, SECOND)
         == StateOf(0xe126c1aa, 0xfb7bcee0, 0x6f287ff5, 0x96b00fa7)
  {
    hide SECOND, MIDDLE, Operations;
    SecondWords();
    Second48();
    var x, s := SECOND, MIDDLE;
    Next(48, s, x, 0x54c9eb3a, 0x79c0710a, 0x2ec86f72, 0xd4d9c6ac, 0x552e1629, 1, 0x27, 0x22123a7, 0x02095af1);
    Next(49, s, x, 0xd4d9c6ac, 0x02095af1, 0x79c0710a, 0x2ec86f72, 0xaaffabf7, 1, 0x30c, 0x4723a, 0x13d245fd);
    Next(50, s, x, 0x2ec86f72, 0x13d245fd, 0x02095af1, 0x79c0710a, 0x95f6950c, 1, 0x3829, 0x12a15, 0xa8dcfe26);
    Next(51, s, x, 0x79c0710a, 0xa8dcfe26, 0x13d245fd, 0x02095af1, 0xee2cbad3, 2, 0xc9019, 0x416, 0x2ba98e3f);
    Next(52, s, x, 0x02095af1, 0x2ba98e3f, 0xa8dcfe26, 0x13d245fd, 0x47714019, 0, 0x2b, 0x2d5f4cd, 0xe126c1aa);
    Next(53, s, x, 0x13d245fd, 0xe126c1aa, 0x2ba98e3f, 0xa8dcfe26, 0xdc8e4fc4, 1, 0x1fd, 0x2d6253, 0x96b00fa7);
    Next(54, s, x, 0xa8dcfe26, 0x96b00fa7, 0xe126c1aa, 0x2ba98e3f, 0x37d0be4d, 1, 0x704e, 0x1b0f0, 0x6f287ff5);
    Next(55, s, x, 0x2ba98e3f, 0x6f287ff5, 0x96b00fa7, 0xe126c1aa, 0xe9497052, 1, 0x134eeb, 0x462, 0xfb7bcee0);
  }

  lemma Second64()
    ensures |SECOND| == 16 && Operations(64, MIDDLE, SECOND)
         == StateOf(0x14ae42c6, 0x16dd9203, 0x826afd76, 0xa52dae75)
  {
    hide SECOND, MIDDLE, Operations;
    SecondWords();
    Second56();
    var x, s := SECOND, MIDDLE;
    Next(56, s, x, 0xe126c1aa, 0xfb7bcee0, 0x6f287ff5, 0x96b00fa7, 0x9457810d, 1, 0x39, 0x126c106, 0x452c1099);
    Next(57, s, x, 0x96b00fa7, 0x452c1099, 0xfb7bcee0, 0x6f287ff5, 0x2e845e7b, 1, 0x30d, 0x215502, 0xca801ba6);
    Next(58, s, x, 0x6f287ff5, 0xca801ba6, 0x452c1099, 0xfb7bcee0, 0x8ba82b26, 1, 0x4ee8, 0x1ee2f, 0xc197ea8e);
    Next(59, s, x, 0xfb7bcee0, 0xc197ea8e, 0xca801ba6, 0x452c1099, 0x3157f448, 1, 0xf5b7a, 0x4c9, 0x5ac74608);
    Next(60, s, x, 0x452c1099, 0x5ac74608, 0xc197ea8e, 0xca801ba6, 0xbe680cd7, 1, 0x3e, 0x2e79bf2, 0x14ae42c6);
    Next(61, s, x, 0xca801ba6, 0x14ae42c6, 0x5ac74608, 0xc197ea8e, 0x642911ff, 1, 0x3af, 0x241fda, 0xa52dae75);
    Next(62, s, x, 0xc197ea8e, 0xa52dae75, 0x14ae42c6, 0x5ac74608, 0xb193fd31, 1, 0x4f01, 0x1ba7a, 0x826afd76);
    Next(63, s, x, 0x5ac74608, 0x826afd76, 0xa52dae75, 0x14ae42c6, 0x4e56530a, 1, 0x12948d, 0x4a3, 0x16dd9203);
  }

  lemma SecondBlock()
    ensures |SECOND| == 16 && Compress(MIDDLE, SECOND) == State(0x98ab74d1, 0xf5d977d2, 0x2c1c61a5, 0x9f9d419f)
  {
    hide SECOND, Operations;
    Second64();
  }

  // ---- the padded messages

  const ALPHANUMERIC: seq<Octet> :=
    seq(62, k requires 0 <= k < 62 => if k < 26 then 65 + k else if k < 52 then 97 + (k - 26) else 48 + (k - 52))

  // The word of four octets, low-order octet first.
  function Little(b0: int, b1: int, b2: int, b3: int): int
  {
    b0 + 0x100 * b1 + 0x1_0000 * b2 + 0x100_0000 * b3
  }

  lemma LittleOf(b0: int, b1: int, b2: int, b3: int)
    ensures Little(b0, b1, b2, b3) == b0 + 0x100 * b1 + 0x1_0000 * b2 + 0x100_0000 * b3
  {
  }

  lemma WordsAre(p: seq<Octet>, x: seq<Word>)
    requires |p| == 64 && |x| == 16
    requires forall k :: 0 <= k < 16 ==> x[k] == Little(p[4 * k], p[4 * k + 1], p[4 * k + 2], p[4 * k + 3])
    ensures WordsOf(p) == x
  {
    forall k | 0 <= k < 16 ensures WordsOf(p)[k] == x[k] {
      assert p[4 * k..4 * k + 4] == [p[4 * k], p[4 * k + 1], p[4 * k + 2], p[4 * k + 3]];
    }
  }

  // A block with octets in words 0 and 14 only.
  lemma ShortWords(p: seq<Octet>, x: seq<Word>)
    requires |p| == 64 && forall j :: 4 <= j < 56 || 60 <= j < 64 ==> p[j] == 0
    requires |x| == 16 && forall k :: 1 <= k < 14 || k == 15 ==> x[k] == 0
    requires x[0] == Little(p[0], p[1], p[2], p[3])
    requires x[14] == Little(p[56], p[57], p[58], p[59])
    ensures WordsOf(p) == x
  {
    WordsAre(p, x);
  }

  lemma Lengths()
    ensures LengthOctets(0) == [0, 0, 0, 0] + [0, 0, 0, 0]
    ensures LengthOctets(1) == [8, 0, 0, 0] + [0, 0, 0, 0]
    ensures LengthOctets(62) == [0xf0, 1, 0, 0] + [0, 0, 0, 0]
  {
  }

  lemma EmptyPadded()
    ensures |Pad([])| == 64 && WordsOf(Pad([])) == EMPTY
  {
    hide EMPTY, LengthOctets, Zeros, Little, WordsOf;
    Lengths();
    EmptyWords();
    var p := Pad([]);
    assert p == [0x80] + Zeros(55) + LengthOctets(0);
    LittleOf(0x80, 0, 0, 0);
    LittleOf(0, 0, 0, 0);
    ShortWords(p, EMPTY);
  }

  lemma LetterPadded()
    ensures |Pad([97])| == 64 && WordsOf(Pad([97])) == LETTER
  {
    hide LETTER, LengthOctets, Zeros, Little, WordsOf;
    Lengths();
    LetterWords();
    var p := Pad([97]);
    assert p == [97, 0x80] + Zeros(54) + LengthOctets(1);
    LittleOf(97, 0x80, 0, 0);
    LittleOf(8, 0, 0, 0);
    ShortWords(p, LETTER);
  }

  lemma LongPadded()
    ensures var p := Pad(ALPHANUMERIC);
            p == ALPHANUMERIC + [0x80] + Zeros(57) + LengthOctets(62) && |p| == 128
            && p[..64] == ALPHANUMERIC + [0x80, 0] && p[64..] == Zeros(56) + LengthOctets(62)
  {
    var p := Pad(ALPHANUMERIC);
    assert p == ALPHANUMERIC + [0x80] + Zeros(57) + LengthOctets(62);
  }

  lemma CapitalWords(k: nat)
    requires k < 6
    ensures |FIRST| == 16
         && FIRST[k] == Little(65 + 4 * k, 65 + 4 * k + 1, 65 + 4 * k + 2, 65 + 4 * k + 3)
  {
    FirstWords();
  }

  lemma SmallWords(k: nat)
    requires 7 <= k < 13
    ensures |FIRST| == 16
         && FIRST[k] == Little(71 + 4 * k, 71 + 4 * k + 1, 71 + 4 * k + 2, 71 + 4 * k + 3)
  {
    FirstWords();
  }

  lemma FirstPadded()
    ensures WordsOf(ALPHANUMERIC + [0x80, 0]) == FIRST
  {
    hide FIRST, Little, WordsOf;
    FirstWords();
    var p := ALPHANUMERIC + [0x80, 0];
    LittleOf(89, 90, 97, 98);
    LittleOf(48, 49, 50, 51);
    LittleOf(52, 53, 54, 55);
    LittleOf(56, 57, 0x80, 0);
    forall k | 0 <= k < 16 ensures FIRST[k] == Little(p[4 * k], p[4 * k + 1], p[4 * k + 2], p[4 * k + 3]) {
      if k < 6 { CapitalWords(k); } else if 7 <= k < 13 { SmallWords(k); }
    }
    WordsAre(p, FIRST);
  }

  lemma SecondPadded()
    ensures |Zeros(56) + LengthOctets(62)| == 64 && WordsOf(Zeros(56) + LengthOctets(62)) == SECOND
  {
    hide SECOND, LengthOctets, Zeros, Little, WordsOf;
    Lengths();
    SecondWords();
    var p := Zeros(56) + LengthOctets(62);
    assert forall j :: 4 <= j < 56 || 60 <= j < 64 ==> p[j] == 0;
    LittleOf(0, 0, 0, 0);
    LittleOf(0xf0, 1, 0, 0);
    ShortWords(p, SECOND);
  }

  // ---- the digests

  lemma OneBlock(m: seq<Octet>)
    requires |m| == 64
    ensures Chain(m) == Compress(INITIAL, WordsOf(m))
  {
    hide Compress, WordsOf;
    assert m[..0] == [] && m[0..] == m;
  }

  lemma TwoBlocks(m: seq<Octet>)
    requires |m| == 128
    ensures Chain(m) == Compress(Compress(INITIAL, WordsOf(m[..64])), WordsOf(m[64..]))
  {
    hide Compress, WordsOf;
    OneBlock(m[..64]);
  }

  // The digit of a value below 16, by its place in ASCII.
  function DigitChar(v: nat): char
    requires v < 16
  {
    if v < 10 then (48 + v) as char else (87 + v) as char
  }

  lemma HexDigitsAre(o: Octet)
    ensures Md5.HexDigits(o) == [DigitChar(o / 16), DigitChar(o % 16)]
  {
  }

  // The octets of one word and their digits.
  lemma HexOfWord(w: Word, o0: Octet, o1: Octet, o2: Octet, o3: Octet, t: string)
    requires w == o0 + 0x100 * o1 + 0x1_0000 * o2 + 0x100_0000 * o3
    requires |t| == 8 && t[0] == DigitChar(o0 / 16) && t[1] == DigitChar(o0 % 16)
             && t[2] == DigitChar(o1 / 16) && t[3] == DigitChar(o1 % 16)
             && t[4] == DigitChar(o2 / 16) && t[5] == DigitChar(o2 % 16)
             && t[6] == DigitChar(o3 / 16) && t[7] == DigitChar(o3 % 16)
    ensures OctetsOf(w) == [o0, o1, o2, o3] && Md5.HexString(OctetsOf(w)) == t
  {
    hide Md5.HexDigits, Md5.HexString, DigitChar;
    Md5.OctetsWord([o0, o1, o2, o3]);
    Md5.HexOfFour(o0, o1, o2, o3);
    HexDigitsAre(o0);
    HexDigitsAre(o1);
    HexDigitsAre(o2);
    HexDigitsAre(o3);
  }

  lemma HexOfOutput(s: State)
    ensures Md5.HexString(Output(s)) == Md5.HexString(OctetsOf(s.a)) + Md5.HexString(OctetsOf(s.b))
                                        + Md5.HexString(OctetsOf(s.c)) + Md5.HexString(OctetsOf(s.d))
  {
    hide Md5.HexString;
    var a, b, c, d := OctetsOf(s.a), OctetsOf(s.b), OctetsOf(s.c), OctetsOf(s.d);
    Md5.HexStringConcat(a + b + c, d);
    Md5.HexStringConcat(a + b, c);
    Md5.HexStringConcat(a, b);
  }

  lemma EmptyOutput()
    ensures var s := State(0xd98c1dd4, 0x04b2008f, 0x980980e9, 0x7e42f8ec);
            Output(s)
            == [0xd4, 0x1d, 0x8c, 0xd9] + [0x8f, 0x00, 0xb2, 0x04] + [0xe9, 0x80, 0x09, 0x98] + [0xec, 0xf8, 0x42, 0x7e]
            && Md5.HexString(Output(s)) == "d41d8cd9" + "8f00b204" + "e9800998" + "ecf8427e"
  {
    hide Md5.HexString, OctetsOf;
    HexOfOutput(State(0xd98c1dd4, 0x04b2008f, 0x980980e9, 0x7e42f8ec));
    HexOfWord(0xd98c1dd4, 0xd4, 0x1d, 0x8c, 0xd9, "d41d8cd9");
    HexOfWord(0x04b2008f, 0x8f, 0x00, 0xb2, 0x04, "8f00b204");
    HexOfWord(0x980980e9, 0xe9, 0x80, 0x09, 0x98, "e9800998");
    HexOfWord(0x7e42f8ec, 0xec, 0xf8, 0x42, 0x7e, "ecf8427e");
  }

  /** The digest of no octet. */
  lemma EmptyDigest()
    ensures Rfc1321.Md5([])
         == [0xd4, 0x1d, 0x8c, 0xd9] + [0x8f, 0x00, 0xb2, 0x04] + [0xe9, 0x80, 0x09, 0x98] + [0xec, 0xf8, 0x42, 0x7e]
    ensures Md5.HexString(Rfc1321.Md5([])) == "d41d8cd9" + "8f00b204" + "e9800998" + "ecf8427e"
  {
    hide Compress, Chain, Pad, WordsOf, Output, Md5.HexString, EMPTY, LETTER, FIRST, SECOND;
    EmptyPadded();
    OneBlock(Pad([]));
    EmptyBlock();
    EmptyOutput();
  }

  lemma LetterOutput()
    ensures var s := State(0xb975c10c, 0xa8b6f1c0, 0xe299c331, 0x61267769);
            Output(s)
            == [0x0c, 0xc1, 0x75, 0xb9] + [0xc0, 0xf1, 0xb6, 0xa8] + [0x31, 0xc3, 0x99, 0xe2] + [0x69, 0x77, 0x26, 0x61]
            && Md5.HexString(Output(s)) == "0cc175b9" + "c0f1b6a8" + "31c399e2" + "69772661"
  {
    hide Md5.HexString, OctetsOf;
    HexOfOutput(State(0xb975c10c, 0xa8b6f1c0, 0xe299c331, 0x61267769));
    HexOfWord(0xb975c10c, 0x0c, 0xc1, 0x75, 0xb9, "0cc175b9");
    HexOfWord(0xa8b6f1c0, 0xc0, 0xf1, 0xb6, 0xa8, "c0f1b6a8");
    HexOfWord(0xe299c331, 0x31, 0xc3, 0x99, 0xe2, "31c399e2");
    HexOfWord(0x61267769, 0x69, 0x77, 0x26, 0x61, "69772661");
  }

  /** The digest of the letter a. */
  lemma LetterDigest()
    ensures Rfc1321.Md5([97])
         == [0x0c, 0xc1, 0x75, 0xb9] + [0xc0, 0xf1, 0xb6, 0xa8] + [0x31, 0xc3, 0x99, 0xe2] + [0x69, 0x77, 0x26, 0x61]
    ensures Md5.HexString(Rfc1321.Md5([97])) == "0cc175b9" + "c0f1b6a8" + "31c399e2" + "69772661"
  {
    hide Compress, Chain, Pad, WordsOf, Output, Md5.HexString, EMPTY, LETTER, FIRST, SECOND;
    LetterPadded();
    OneBlock(Pad([97]));
    LetterBlock();
    LetterOutput();
  }

  lemma LongOutput()
    ensures var s := State(0x98ab74d1, 0xf5d977d2, 0x2c1c61a5, 0x9f9d419f);
            Output(s)
            == [0xd1, 0x74, 0xab, 0x98] + [0xd2, 0x77, 0xd9, 0xf5] + [0xa5, 0x61, 0x1c, 0x2c] + [0x9f, 0x41, 0x9d, 0x9f]
            && Md5.HexString(Output(s)) == "d174ab98" + "d277d9f5" + "a5611c2c" + "9f419d9f"
  {
    hide Md5.HexString, OctetsOf;
    HexOfOutput(State(0x98ab74d1, 0xf5d977d2, 0x2c1c61a5, 0x9f9d419f));
    HexOfWord(0x98ab74d1, 0xd1, 0x74, 0xab, 0x98, "d174ab98");
    HexOfWord(0xf5d977d2, 0xd2, 0x77, 0xd9, 0xf5, "d277d9f5");
    HexOfWord(0x2c1c61a5, 0xa5, 0x61, 0x1c, 0x2c, "a5611c2c");
    HexOfWord(0x9f9d419f, 0x9f, 0x41, 0x9d, 0x9f, "9f419d9f");
  }

  /** The digest of A to Z, a to z and 0 to 9. */
  lemma LongDigest()
    ensures Rfc1321.Md5(ALPHANUMERIC)
         == [0xd1, 0x74, 0xab, 0x98] + [0xd2, 0x77, 0xd9, 0xf5] + [0xa5, 0x61, 0x1c, 0x2c] + [0x9f, 0x41, 0x9d, 0x9f]
    ensures Md5.HexString(Rfc1321.Md5(ALPHANUMERIC)) == "d174ab98" + "d277d9f5" + "a5611c2c" + "9f419d9f"
  {
    hide Compress, Chain, Pad, WordsOf, Output, Md5.HexString, EMPTY, LETTER, FIRST, SECOND;
    LongPadded();
    TwoBlocks(Pad(ALPHANUMERIC));
    FirstPadded();
    SecondPadded();
    FirstBlock();
    SecondBlock();
    LongOutput();
  }
}
