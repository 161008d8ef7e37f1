/** Both worked examples of GB/T 32905-2016. */
module Sm3Examples {
  import opened Bytes
  import opened Memory
  import opened Sm3Spec
  import opened Sm3Padding
  import opened Sm3Trace

  // ----- the constants of the rounds -----

  lemma Amounts(a: word)
    ensures Left(a, 0) == a.RotateLeft(0) && Left(a, 1) == a.RotateLeft(1) && Left(a, 2) == a.RotateLeft(2)
    ensures Left(a, 3) == a.RotateLeft(3) && Left(a, 4) == a.RotateLeft(4) && Left(a, 5) == a.RotateLeft(5)
    ensures Left(a, 6) == a.RotateLeft(6) && Left(a, 7) == a.RotateLeft(7) && Left(a, 8) == a.RotateLeft(8)
    ensures Left(a, 9) == a.RotateLeft(9) && Left(a, 10) == a.RotateLeft(10) && Left(a, 11) == a.RotateLeft(11)
    ensures Left(a, 12) == a.RotateLeft(12) && Left(a, 13) == a.RotateLeft(13) && Left(a, 14) == a.RotateLeft(14)
    ensures Left(a, 15) == a.RotateLeft(15) && Left(a, 16) == a.RotateLeft(16) && Left(a, 17) == a.RotateLeft(17)
    ensures Left(a, 18) == a.RotateLeft(18) && Left(a, 19) == a.RotateLeft(19) && Left(a, 20) == a.RotateLeft(20)
    ensures Left(a, 21) == a.RotateLeft(21) && Left(a, 22) == a.RotateLeft(22) && Left(a, 23) == a.RotateLeft(23)
    ensures Left(a, 24) == a.RotateLeft(24) && Left(a, 25) == a.RotateLeft(25) && Left(a, 26) == a.RotateLeft(26)
    ensures Left(a, 27) == a.RotateLeft(27) && Left(a, 28) == a.RotateLeft(28) && Left(a, 29) == a.RotateLeft(29)
    ensures Left(a, 30) == a.RotateLeft(30) && Left(a, 31) == a.RotateLeft(31)
  {}

  lemma Turned0()
    ensures Turned(0) == 0x79CC4519 && Turned(1) == 0xF3988A32 && Turned(2) == 0xE7311465
    ensures Turned(3) == 0xCE6228CB && Turned(4) == 0x9CC45197 && Turned(5) == 0x3988A32F
    ensures Turned(6) == 0x7311465E && Turned(7) == 0xE6228CBC && Turned(8) == 0xCC451979
    ensures Turned(9) == 0x988A32F3 && Turned(10) == 0x311465E7 && Turned(11) == 0x6228CBCE
    ensures Turned(12) == 0xC451979C && Turned(13) == 0x88A32F39 && Turned(14) == 0x11465E73
    ensures Turned(15) == 0x228CBCE6
  {
    hide Left;
    Amounts(0x79CC4519);
  }

  lemma Turned16()
    ensures Turned(16) == 0x9D8A7A87 && Turned(17) == 0x3B14F50F && Turned(18) == 0x7629EA1E
    ensures Turned(19) == 0xEC53D43C && Turned(20) == 0xD8A7A879 && Turned(21) == 0xB14F50F3
    ensures Turned(22) == 0x629EA1E7 && Turned(23) == 0xC53D43CE && Turned(24) == 0x8A7A879D
    ensures Turned(25) == 0x14F50F3B && Turned(26) == 0x29EA1E76 && Turned(27) == 0x53D43CEC
    ensures Turned(28) == 0xA7A879D8 && Turned(29) == 0x4F50F3B1 && Turned(30) == 0x9EA1E762
    ensures Turned(31) == 0x3D43CEC5
  {
    hide Left;
    Amounts(0x7A879D8A);
  }

  lemma Turned32()
    ensures Turned(32) == 0x7A879D8A && Turned(33) == 0xF50F3B14 && Turned(34) == 0xEA1E7629
    ensures Turned(35) == 0xD43CEC53 && Turned(36) == 0xA879D8A7 && Turned(37) == 0x50F3B14F
    ensures Turned(38) == 0xA1E7629E && Turned(39) == 0x43CEC53D && Turned(40) == 0x879D8A7A
    ensures Turned(41) == 0x0F3B14F5 && Turned(42) == 0x1E7629EA && Turned(43) == 0x3CEC53D4
    ensures Turned(44) == 0x79D8A7A8 && Turned(45) == 0xF3B14F50 && Turned(46) == 0xE7629EA1
    ensures Turned(47) == 0xCEC53D43
  {
    hide Left;
    Amounts(0x7A879D8A);
  }

  lemma Turned48()
    ensures Turned(48) == 0x9D8A7A87 && Turned(49) == 0x3B14F50F && Turned(50) == 0x7629EA1E
    ensures Turned(51) == 0xEC53D43C && Turned(52) == 0xD8A7A879 && Turned(53) == 0xB14F50F3
    ensures Turned(54) == 0x629EA1E7 && Turned(55) == 0xC53D43CE && Turned(56) == 0x8A7A879D
    ensures Turned(57) == 0x14F50F3B && Turned(58) == 0x29EA1E76 && Turned(59) == 0x53D43CEC
    ensures Turned(60) == 0xA7A879D8 && Turned(61) == 0x4F50F3B1 && Turned(62) == 0x9EA1E762
    ensures Turned(63) == 0x3D43CEC5
  {
    hide Left;
    Amounts(0x7A879D8A);
  }

  // ----- the one block of "abc" -----

  function AbcBlockWords(): (r: seq<word>)
    ensures |r| == 16
  {
    [0x61626380, 0x00000000, 0x00000000, 0x00000000,
     0x00000000, 0x00000000, 0x00000000, 0x00000000,
     0x00000000, 0x00000000, 0x00000000, 0x00000000,
     0x00000000, 0x00000000, 0x00000000, 0x00000018]
  }

  function AbcBlock(): (r: seq<byte>)
    ensures |r| == 64
  {
    Digest(AbcBlockWords())
  }

  // The words of the one block of "abc".
  lemma AbcWords0()
    ensures Is(AbcBlock(), 0, 0x61626380) && Is(AbcBlock(), 1, 0x00000000) && Is(AbcBlock(), 2, 0x00000000)
    ensures Is(AbcBlock(), 3, 0x00000000) && Is(AbcBlock(), 4, 0x00000000) && Is(AbcBlock(), 5, 0x00000000)
    ensures Is(AbcBlock(), 6, 0x00000000) && Is(AbcBlock(), 7, 0x00000000) && Is(AbcBlock(), 8, 0x00000000)
    ensures Is(AbcBlock(), 9, 0x00000000) && Is(AbcBlock(), 10, 0x00000000) && Is(AbcBlock(), 11, 0x00000000)
    ensures Is(AbcBlock(), 12, 0x00000000) && Is(AbcBlock(), 13, 0x00000000) && Is(AbcBlock(), 14, 0x00000000)
    ensures Is(AbcBlock(), 15, 0x00000018)
  {
    hide W, WordAt, Digest;
    FirstWords(AbcBlockWords());
  }

  lemma AbcWords16()
    ensures Is(AbcBlock(), 16, 0x9092E200) && Is(AbcBlock(), 17, 0x00000000) && Is(AbcBlock(), 18, 0x000C0606)
    ensures Is(AbcBlock(), 19, 0x719C70ED) && Is(AbcBlock(), 20, 0x00000000) && Is(AbcBlock(), 21, 0x8001801F)
    ensures Is(AbcBlock(), 22, 0x939F7DA9) && Is(AbcBlock(), 23, 0x00000000) && Is(AbcBlock(), 24, 0x2C6FA1F9)
  {
    hide W, WordAt, Digest;
    AbcWords0();
    Word(AbcBlock(), 16, 0x61626380, 0x00000000, 0x00000000, 0x00000000, 0x00000000, 0x61626380, 0x9092E200);
    Word(AbcBlock(), 17, 0x00000000, 0x00000000, 0x00000000, 0x00000000, 0x00000000, 0x00000000, 0x00000000);
    Word(AbcBlock(), 18, 0x00000000, 0x00000000, 0x00000000, 0x00000000, 0x00000018, 0x000C0000, 0x000C0606);
    Word(AbcBlock(), 19, 0x00000000, 0x00000000, 0x00000000, 0x00000000, 0x9092E200, 0x71004849, 0x719C70ED);
    Word(AbcBlock(), 20, 0x00000000, 0x00000000, 0x00000000, 0x00000000, 0x00000000, 0x00000000, 0x00000000);
    Word(AbcBlock(), 21, 0x00000000, 0x00000000, 0x00000000, 0x00000018, 0x000C0606, 0x03030006, 0x8001801F);
    Word(AbcBlock(), 22, 0x00000000, 0x00000000, 0x00000000, 0x9092E200, 0x719C70ED, 0x3876B8CE, 0x939F7DA9);
    Word(AbcBlock(), 23, 0x00000000, 0x00000000, 0x00000000, 0x00000000, 0x00000000, 0x00000000, 0x00000000);
    Word(AbcBlock(), 24, 0x00000000, 0x00000000, 0x00000018, 0x000C0606, 0x8001801F, 0xC00FC018, 0x2C6FA1F9);
  }

  lemma AbcWords25()
    ensures Is(AbcBlock(), 25, 0xADAAEF14) && Is(AbcBlock(), 26, 0x00000000) && Is(AbcBlock(), 27, 0x0001801E)
    ensures Is(AbcBlock(), 28, 0x9A965F89) && Is(AbcBlock(), 29, 0x49710048) && Is(AbcBlock(), 30, 0x23CE86A1)
    ensures Is(AbcBlock(), 31, 0xB2D12F1B) && Is(AbcBlock(), 32, 0xE1DAE338) && Is(AbcBlock(), 33, 0xF8061807)
  {
    hide W, WordAt, Digest;
    AbcWords0();
    AbcWords16();
    Word(AbcBlock(), 25, 0x00000000, 0x00000000, 0x9092E200, 0x719C70ED, 0x939F7DA9, 0x2E462BCF, 0xADAAEF14);
    Word(AbcBlock(), 26, 0x00000000, 0x00000000, 0x00000000, 0x00000000, 0x00000000, 0x00000000, 0x00000000);
    Word(AbcBlock(), 27, 0x00000000, 0x00000000, 0x000C0606, 0x8001801F, 0x2C6FA1F9, 0xD0F09031, 0x0001801E);
    Word(AbcBlock(), 28, 0x00000000, 0x00000018, 0x719C70ED, 0x939F7DA9, 0xADAAEF14, 0x06162638, 0x9A965F89);
    Word(AbcBlock(), 29, 0x00000000, 0x9092E200, 0x00000000, 0x00000000, 0x00000000, 0x00000000, 0x49710048);
    Word(AbcBlock(), 30, 0x00000000, 0x00000000, 0x8001801F, 0x2C6FA1F9, 0x0001801E, 0x400E801F, 0x23CE86A1);
    Word(AbcBlock(), 31, 0x00000018, 0x000C0606, 0x939F7DA9, 0xADAAEF14, 0x9A965F89, 0xBC5BB0FA, 0xB2D12F1B);
    Word(AbcBlock(), 32, 0x9092E200, 0x719C70ED, 0x00000000, 0x00000000, 0x49710048, 0x10B6C6B8, 0xE1DAE338);
    Word(AbcBlock(), 33, 0x00000000, 0x00000000, 0x2C6FA1F9, 0x0001801E, 0x23CE86A1, 0x6F3F301E, 0xF8061807);
  }

  lemma AbcWords34()
    ensures Is(AbcBlock(), 34, 0x055D68BE) && Is(AbcBlock(), 35, 0x86CFD481) && Is(AbcBlock(), 36, 0x1F447D83)
    ensures Is(AbcBlock(), 37, 0xD9023DBF) && Is(AbcBlock(), 38, 0x185898E0) && Is(AbcBlock(), 39, 0xE0061807)
    ensures Is(AbcBlock(), 40, 0x050DF55C) && Is(AbcBlock(), 41, 0xCDE0104C) && Is(AbcBlock(), 42, 0xA5B9C955)
  {
    hide W, WordAt, Digest;
    AbcWords16();
    AbcWords25();
    Word(AbcBlock(), 34, 0x000C0606, 0x8001801F, 0xADAAEF14, 0x9A965F89, 0xB2D12F1B, 0x3A2B307A, 0x055D68BE);
    Word(AbcBlock(), 35, 0x719C70ED, 0x939F7DA9, 0x00000000, 0x49710048, 0xE1DAE338, 0x00000000, 0x86CFD481);
    Word(AbcBlock(), 36, 0x00000000, 0x00000000, 0x0001801E, 0x23CE86A1, 0xF8061807, 0x0C027C1D, 0x1F447D83);
    Word(AbcBlock(), 37, 0x8001801F, 0x2C6FA1F9, 0x9A965F89, 0xB2D12F1B, 0x055D68BE, 0xAEC8DD38, 0xD9023DBF);
    Word(AbcBlock(), 38, 0x939F7DA9, 0xADAAEF14, 0x49710048, 0xE1DAE338, 0x86CFD481, 0x30AEBE86, 0x185898E0);
    Word(AbcBlock(), 39, 0x00000000, 0x00000000, 0x23CE86A1, 0xF8061807, 0x1F447D83, 0x1D0F0903, 0xE0061807);
    Word(AbcBlock(), 40, 0x2C6FA1F9, 0x0001801E, 0xB2D12F1B, 0x055D68BE, 0xD9023DBF, 0x80616263, 0x050DF55C);
    Word(AbcBlock(), 41, 0xADAAEF14, 0x9A965F89, 0xE1DAE338, 0x86CFD481, 0x185898E0, 0x00000000, 0xCDE0104C);
    Word(AbcBlock(), 42, 0x00000000, 0x49710048, 0xF8061807, 0x1F447D83, 0xE0061807, 0xF405E804, 0xA5B9C955);
  }

  lemma AbcWords43()
    ensures Is(AbcBlock(), 43, 0xA7DF0184) && Is(AbcBlock(), 44, 0x6E46CD08) && Is(AbcBlock(), 45, 0xE3BABDF8)
    ensures Is(AbcBlock(), 46, 0x70CAA422) && Is(AbcBlock(), 47, 0x0353AF50) && Is(AbcBlock(), 48, 0xA92DBCA1)
    ensures Is(AbcBlock(), 49, 0x5F33CFD2) && Is(AbcBlock(), 50, 0xE16F6E89) && Is(AbcBlock(), 51, 0xF70FE941)
  {
    hide W, WordAt, Digest;
    AbcWords25();
    AbcWords34();
    Word(AbcBlock(), 43, 0x0001801E, 0x23CE86A1, 0x055D68BE, 0xD9023DBF, 0x050DF55C, 0xFFF2EA26, 0xA7DF0184);
    Word(AbcBlock(), 44, 0x9A965F89, 0xB2D12F1B, 0x86CFD481, 0x185898E0, 0xCDE0104C, 0x147FEDF8, 0x6E46CD08);
    Word(AbcBlock(), 45, 0x49710048, 0xE1DAE338, 0x1F447D83, 0xE0061807, 0xA5B9C955, 0xB29FAF17, 0xE3BABDF8);
    Word(AbcBlock(), 46, 0x23CE86A1, 0xF8061807, 0xD9023DBF, 0x050DF55C, 0xA7DF0184, 0x7A0EE8F1, 0x70CAA422);
    Word(AbcBlock(), 47, 0xB2D12F1B, 0x055D68BE, 0x185898E0, 0xCDE0104C, 0x6E46CD08, 0xCC0D80D8, 0x0353AF50);
    Word(AbcBlock(), 48, 0xE1DAE338, 0x86CFD481, 0xE0061807, 0xA5B9C955, 0xE3BABDF8, 0x5F208AE2, 0xA92DBCA1);
    Word(AbcBlock(), 49, 0xF8061807, 0x1F447D83, 0x050DF55C, 0xA7DF0184, 0x70CAA422, 0xAF1AD53E, 0x5F33CFD2);
    Word(AbcBlock(), 50, 0x055D68BE, 0xD9023DBF, 0xCDE0104C, 0x6E46CD08, 0x0353AF50, 0x1F15795B, 0xE16F6E89);
    Word(AbcBlock(), 51, 0x86CFD481, 0x185898E0, 0xA5B9C955, 0xE3BABDF8, 0xA92DBCA1, 0xFD26C942, 0xF70FE941);
  }

  lemma AbcWords52()
    ensures Is(AbcBlock(), 52, 0xCA5462DC) && Is(AbcBlock(), 53, 0x85A90152) && Is(AbcBlock(), 54, 0x76AF6296)
    ensures Is(AbcBlock(), 55, 0xC922BDB2) && Is(AbcBlock(), 56, 0x68378CF5) && Is(AbcBlock(), 57, 0x97585344)
    ensures Is(AbcBlock(), 58, 0x09008723) && Is(AbcBlock(), 59, 0x86FAEE74)
  {
    hide W, WordAt, Digest;
    AbcWords34();
    AbcWords43();
    Word(AbcBlock(), 52, 0x1F447D83, 0xE0061807, 0xA7DF0184, 0x70CAA422, 0x5F33CFD2, 0x5F72539E, 0xCA5462DC);
    Word(AbcBlock(), 53, 0xD9023DBF, 0x050DF55C, 0x6E46CD08, 0x0353AF50, 0xE16F6E89, 0x00000000, 0x85A90152);
    Word(AbcBlock(), 54, 0x185898E0, 0xCDE0104C, 0xE3BABDF8, 0xA92DBCA1, 0xF70FE941, 0x0F42DE9F, 0x76AF6296);
    Word(AbcBlock(), 55, 0xE0061807, 0xA5B9C955, 0x70CAA422, 0x5F33CFD2, 0xCA5462DC, 0xA1A2D90F, 0xC922BDB2);
    Word(AbcBlock(), 56, 0x050DF55C, 0xA7DF0184, 0x0353AF50, 0xE16F6E89, 0x85A90152, 0x86F718D8, 0x68378CF5);
    Word(AbcBlock(), 57, 0xCDE0104C, 0x6E46CD08, 0xA92DBCA1, 0xF70FE941, 0x76AF6296, 0xD58697BA, 0x97585344);
    Word(AbcBlock(), 58, 0xA5B9C955, 0xE3BABDF8, 0x5F33CFD2, 0xCA5462DC, 0xC922BDB2, 0xA4536216, 0x09008723);
    Word(AbcBlock(), 59, 0xA7DF0184, 0x70CAA422, 0xE16F6E89, 0x85A90152, 0x68378CF5, 0x80CADB16, 0x86FAEE74);
  }

  lemma AbcWords60()
    ensures Is(AbcBlock(), 60, 0x2AB908B0) && Is(AbcBlock(), 61, 0x4A64BC50) && Is(AbcBlock(), 62, 0x864E6E08)
    ensures Is(AbcBlock(), 63, 0xF07E6590) && Is(AbcBlock(), 64, 0x325C8F78) && Is(AbcBlock(), 65, 0xACCB8011)
    ensures Is(AbcBlock(), 66, 0xE11DB9DD) && Is(AbcBlock(), 67, 0xB99C0545)
  {
    hide W, WordAt, Digest;
    AbcWords43();
    AbcWords52();
    Word(AbcBlock(), 60, 0x6E46CD08, 0x0353AF50, 0xF70FE941, 0x76AF6296, 0x97585344, 0xB0EB6FE5, 0x2AB908B0);
    Word(AbcBlock(), 61, 0xE3BABDF8, 0xA92DBCA1, 0xCA5462DC, 0xC922BDB2, 0x09008723, 0x6A7F5BA4, 0x4A64BC50);
    Word(AbcBlock(), 62, 0x70CAA422, 0x5F33CFD2, 0x85A90152, 0x68378CF5, 0x86FAEE74, 0x8259E60D, 0x864E6E08);
    Word(AbcBlock(), 63, 0x0353AF50, 0xE16F6E89, 0x76AF6296, 0x97585344, 0x2AB908B0, 0xF1A4D89A, 0xF07E6590);
    Word(AbcBlock(), 64, 0xA92DBCA1, 0xF70FE941, 0xC922BDB2, 0x09008723, 0x4A64BC50, 0x3E272421, 0x325C8F78);
    Word(AbcBlock(), 65, 0x5F33CFD2, 0xCA5462DC, 0x68378CF5, 0x86FAEE74, 0x864E6E08, 0x00000000, 0xACCB8011);
    Word(AbcBlock(), 66, 0xE16F6E89, 0x85A90152, 0x97585344, 0x2AB908B0, 0xF07E6590, 0x44FF45F2, 0xE11DB9DD);
    Word(AbcBlock(), 67, 0xF70FE941, 0x76AF6296, 0x09008723, 0x4A64BC50, 0x325C8F78, 0xB9B3774C, 0xB99C0545);
  }

  // Its rounds.
  lemma AbcRounds16()
    ensures Rounds(AbcBlock(), IV, 16)
         == Registers(0x34D1691E, 0x7C529778, 0x92B57849, 0x979AB113,
                      0x61F99646, 0x3EE95933, 0x2AA0D251, 0xDB131B86)
  {
    hide W, WordAt, Rounds, Turned;
    AbcWords0();
    AbcWords16();
    Turned0();
    NoRounds(AbcBlock(), IV);
    var r := Registers(0x7380166F, 0x4914B2B9, 0x172442D7, 0xDA8A0600,
                       0xA96F30BC, 0x163138AA, 0xE38DEE4D, 0xB0FB0E4E);
    r := Next(AbcBlock(), IV, 0, r, 0xB9EDC12B, 0xB2AD29F4);
    r := Next(AbcBlock(), IV, 1, r, 0xEA52428C, 0xAC353A23);
    r := Next(AbcBlock(), IV, 2, r, 0x609F2850, 0xD33AD5FB);
    r := Next(AbcBlock(), IV, 3, r, 0x35037E59, 0xB8204B5F);
    r := Next(AbcBlock(), IV, 4, r, 0x1F995766, 0x8AD212EA);
    r := Next(AbcBlock(), IV, 5, r, 0x374A0CA7, 0xACF0F639);
    r := Next(AbcBlock(), IV, 6, r, 0x33130100, 0x3391EC8A);
    r := Next(AbcBlock(), IV, 7, r, 0x1022AC97, 0x367250A1);
    r := Next(AbcBlock(), IV, 8, r, 0xD47CAF4C, 0x6AD473A4);
    r := Next(AbcBlock(), IV, 9, r, 0x59C2744B, 0xC6A3CEAE);
    r := Next(AbcBlock(), IV, 10, r, 0x481BA2A0, 0x02AFB727);
    r := Next(AbcBlock(), IV, 11, r, 0x694A3D09, 0x9DD1B58C);
    r := Next(AbcBlock(), IV, 12, r, 0x89CBCD58, 0x6370DB62);
    r := Next(AbcBlock(), IV, 13, r, 0x24C95ABC, 0x1A4A2554);
    r := Next(AbcBlock(), IV, 14, r, 0x7C529778, 0x3EE95933);
    r := Next(AbcBlock(), IV, 15, r, 0x34D1691E, 0x61F99646);
  }

  lemma AbcRounds32()
    ensures Rounds(AbcBlock(), IV, 32)
         == Registers(0x89A13E59, 0xA5A4A2B3, 0x37593BFF, 0x3D708FC2,
                      0x0A1FF572, 0xE92DF4EA, 0xA36CC08D, 0x74B72DB2)
  {
    hide W, WordAt, Rounds, Turned;
    AbcWords16();
    AbcWords25();
    AbcWords34();
    Turned16();
    AbcRounds16();
    var r := Registers(0x34D1691E, 0x7C529778, 0x92B57849, 0x979AB113,
                       0x61F99646, 0x3EE95933, 0x2AA0D251, 0xDB131B86);
    r := Next(AbcBlock(), IV, 16, r, 0x796AFAB1, 0x067550F5);
    r := Next(AbcBlock(), IV, 17, r, 0x7D27CC0E, 0xB3C8669B);
    r := Next(AbcBlock(), IV, 18, r, 0xD7820AD1, 0x575C37D8);
    r := Next(AbcBlock(), IV, 19, r, 0xF84FD372, 0xA5DCEAF1);
    r := Next(AbcBlock(), IV, 20, r, 0x02C57896, 0x74576681);
    r := Next(AbcBlock(), IV, 21, r, 0x4D0C2FCD, 0x576F1D09);
    r := Next(AbcBlock(), IV, 22, r, 0xEEEEC41A, 0xB5523911);
    r := Next(AbcBlock(), IV, 23, r, 0xF368DA78, 0x6A879032);
    r := Next(AbcBlock(), IV, 24, r, 0x15CE1286, 0x62063354);
    r := Next(AbcBlock(), IV, 25, r, 0xC3FD31C2, 0x4DB58F43);
    r := Next(AbcBlock(), IV, 26, r, 0x6243BE5E, 0x131152FE);
    r := Next(AbcBlock(), IV, 27, r, 0xA549BEAA, 0xCF65E309);
    r := Next(AbcBlock(), IV, 28, r, 0xE11EB847, 0xE5B64E96);
    r := Next(AbcBlock(), IV, 29, r, 0xFF9BAC9D, 0x9811B46D);
    r := Next(AbcBlock(), IV, 30, r, 0xA5A4A2B3, 0xE92DF4EA);
    r := Next(AbcBlock(), IV, 31, r, 0x89A13E59, 0x0A1FF572);
  }

  lemma AbcRounds48()
    ensures Rounds(AbcBlock(), IV, 48)
         == Registers(0x47C5BE50, 0xE51076B3, 0x12150DA4, 0xD0B273B0,
                      0x3567734E, 0xD9F89E61, 0xB1297299, 0xEFAC7743)
  {
    hide W, WordAt, Rounds, Turned;
    AbcWords25();
    AbcWords34();
    AbcWords43();
    Turned32();
    AbcRounds32();
    var r := Registers(0x89A13E59, 0xA5A4A2B3, 0x37593BFF, 0x3D708FC2,
                       0x0A1FF572, 0xE92DF4EA, 0xA36CC08D, 0x74B72DB2);
    r := Next(AbcBlock(), IV, 32, r, 0x3720BD4E, 0xCF7D1683);
    r := Next(AbcBlock(), IV, 33, r, 0x9CCD089C, 0xDA8C835F);
    r := Next(AbcBlock(), IV, 34, r, 0xC7A0744D, 0x0958FF1B);
    r := Next(AbcBlock(), IV, 35, r, 0xD955C3ED, 0xC533F0FF);
    r := Next(AbcBlock(), IV, 36, r, 0xE142D72B, 0xD4509586);
    r := Next(AbcBlock(), IV, 37, r, 0xE7250598, 0xC7F93FD3);
    r := Next(AbcBlock(), IV, 38, r, 0x2F13C4AD, 0x1A6CABC9);
    r := Next(AbcBlock(), IV, 39, r, 0x19F363F9, 0xC302BADB);
    r := Next(AbcBlock(), IV, 40, r, 0x55E1DDE2, 0x459DACCF);
    r := Next(AbcBlock(), IV, 41, r, 0xD4F4EFE3, 0x5CFBA85A);
    r := Next(AbcBlock(), IV, 42, r, 0x48DCBC62, 0x6F49C7BB);
    r := Next(AbcBlock(), IV, 43, r, 0x8237B8A0, 0xD89D2711);
    r := Next(AbcBlock(), IV, 44, r, 0xD8685939, 0x8EE87DF5);
    r := Next(AbcBlock(), IV, 45, r, 0xD2090A86, 0x2E533625);
    r := Next(AbcBlock(), IV, 46, r, 0xE51076B3, 0xD9F89E61);
    r := Next(AbcBlock(), IV, 47, r, 0x47C5BE50, 0x3567734E);
  }

  lemma AbcRounds64()
    ensures Rounds(AbcBlock(), IV, 64)
         == Registers(0x1547E69B, 0x2BFA5F60, 0xC6D696BC, 0x069AE2E2,
                      0xE808F43B, 0x4AC3CF08, 0xCAF04E66, 0x3FB0A6AE)
  {
    hide W, WordAt, Rounds, Turned;
    AbcWords43();
    AbcWords52();
    AbcWords60();
    Turned48();
    AbcRounds48();
    var r := Registers(0x47C5BE50, 0xE51076B3, 0x12150DA4, 0xD0B273B0,
                       0x3567734E, 0xD9F89E61, 0xB1297299, 0xEFAC7743);
    r := Next(AbcBlock(), IV, 48, r, 0xABDDBDC8, 0x3DFCDD11);
    r := Next(AbcBlock(), IV, 49, r, 0xBD708003, 0x93494BC0);
    r := Next(AbcBlock(), IV, 50, r, 0x15E2F5D3, 0xC3956C3F);
    r := Next(AbcBlock(), IV, 51, r, 0x13826486, 0xCD09A51C);
    r := Next(AbcBlock(), IV, 52, r, 0x4A00ED2F, 0x0741F675);
    r := Next(AbcBlock(), IV, 53, r, 0xF4412E82, 0x7429807C);
    r := Next(AbcBlock(), IV, 54, r, 0x549DB4B7, 0xF6BC15ED);
    r := Next(AbcBlock(), IV, 55, r, 0x22A79585, 0x9D4DB19A);
    r := Next(AbcBlock(), IV, 56, r, 0x30245B78, 0xF6804C82);
    r := Next(AbcBlock(), IV, 57, r, 0x6598314F, 0xF522ADB2);
    r := Next(AbcBlock(), IV, 58, r, 0xC3D629A9, 0x14FB0764);
    r := Next(AbcBlock(), IV, 59, r, 0xDDB0A26A, 0x589F7D5C);
    r := Next(AbcBlock(), IV, 60, r, 0x71034D71, 0x14D5C7F6);
    r := Next(AbcBlock(), IV, 61, r, 0x5E636B4B, 0x09CCD95E);
    r := Next(AbcBlock(), IV, 62, r, 0x2BFA5F60, 0x4AC3CF08);
    r := Next(AbcBlock(), IV, 63, r, 0x1547E69B, 0xE808F43B);
  }

  lemma AbcCompressed()
    ensures CF(IV, AbcBlock()) == AbcResult()
  {
    AbcRounds64();
    hide Rounds, Digest;
  }

  function AbcResult(): (r: seq<word>)
    ensures |r| == 8
  {
    [0x66C7F0F4, 0x62EEEDD9, 0xD1F2D46B, 0xDC10E4E2,
     0x4167C487, 0x5CF2F7A2, 0x297DA02B, 0x8F4BA8E0]
  }

  lemma AbcPadded()
    ensures PaddedBytes([0x61, 0x62, 0x63], 24, 24) == AbcBlock()
  {
    hide Digest, BigEndian, TailByte, WordBytes;
    var msg: seq<byte> := [0x61, 0x62, 0x63];
    assert AbcBlockWords() == [0x61626380] + NoWords(13) + [0, 24];
    FinalBlock(0x61626380, 24);
    AbcPieces();
    LengthBytes(24, Repeat(0, 4) + [0x00, 0x00, 0x00, 0x18]);
    assert msg[..3] == msg && msg + [0x80] == [0x61, 0x62, 0x63, 0x80];
    assert ZeroCount(24) / 8 == 52;
    assert msg + [0x80] + Repeat(0, 52) + (Repeat(0, 4) + [0x00, 0x00, 0x00, 0x18])
        == [0x61, 0x62, 0x63, 0x80] + Repeat(0, 52) + Repeat(0, 4) + [0x00, 0x00, 0x00, 0x18];
  }

  lemma AbcPieces()
    ensures WordBytes(0x61626380) == [0x61, 0x62, 0x63, 0x80] && WordBytes(24) == [0x00, 0x00, 0x00, 0x18]
    ensures TailByte(0, 0) == 0x80
    ensures Num(Repeat(0, 4) + [0x00, 0x00, 0x00, 0x18]) == 24
  {
    NumOfLength([0x00, 0x00, 0x00, 0x18], 24);
  }

  lemma NumOfLength(last: seq<byte>, n: nat)
    requires |last| == 4 && n == 256 * Value(last[2]) + Value(last[3]) && last[0] == last[1] == 0
    ensures Num(Repeat(0, 4) + last) == n
  {
    hide Value;
    var bytes := Repeat(0, 4) + last;
    assert bytes[..8] == bytes && bytes[..0] == [];
    NothingIsZero();
    NumStep(bytes, 0);
    NumStep(bytes, 1);
    NumStep(bytes, 2);
    NumStep(bytes, 3);
    NumStep(bytes, 4);
    NumStep(bytes, 5);
    NumStep(bytes, 6);
    NumStep(bytes, 7);
    hide Num;
  }

  lemma NothingIsZero()
    ensures Num([]) == 0 && Value(0) == 0
  {}

  lemma NumStep(s: seq<byte>, i: nat)
    requires i < |s|
    ensures Num(s[..i + 1]) == 256 * Num(s[..i]) + Value(s[i])
  {
    hide Value;
    assert s[..i + 1][..i] == s[..i];
  }

  /** The digest of the three bytes of "abc". */
  lemma AbcDigest()
    ensures Sm3(ToBits([0x61, 0x62, 0x63]))
         == [0x66, 0xc7, 0xf0, 0xf4, 0x62, 0xee, 0xed, 0xd9,
          0xd1, 0xf2, 0xd4, 0x6b, 0xdc, 0x10, 0xe4, 0xe2,
          0x41, 0x67, 0xc4, 0x87, 0x5c, 0xf2, 0xf7, 0xa2,
          0x29, 0x7d, 0xa0, 0x2b, 0x8f, 0x4b, 0xa8, 0xe0]
  {
    hide Sm3, HashWith, PadWith, ToBits, ToBytes, CF, PaddedBytes, Digest, WordBytes;
    var msg: seq<byte> := [0x61, 0x62, 0x63];
    AbcPadded();
    DigestOfBlocks(msg, 24);
    OneBlock(IV, AbcBlock());
    AbcCompressed();
    AbcBytes();
  }

  lemma AbcBytes()
    ensures Digest(AbcResult())
         == [0x66, 0xc7, 0xf0, 0xf4, 0x62, 0xee, 0xed, 0xd9,
          0xd1, 0xf2, 0xd4, 0x6b, 0xdc, 0x10, 0xe4, 0xe2,
          0x41, 0x67, 0xc4, 0x87, 0x5c, 0xf2, 0xf7, 0xa2,
          0x29, 0x7d, 0xa0, 0x2b, 0x8f, 0x4b, 0xa8, 0xe0]
  {
    hide Digest;
    DigestOfEight(AbcResult());
  }

  // ----- the message block of "abcd" sixteen times -----

  function LongBlockWords(): (r: seq<word>)
    ensures |r| == 16
  {
    [0x61626364, 0x61626364, 0x61626364, 0x61626364,
     0x61626364, 0x61626364, 0x61626364, 0x61626364,
     0x61626364, 0x61626364, 0x61626364, 0x61626364,
     0x61626364, 0x61626364, 0x61626364, 0x61626364]
  }

  function LongBlock(): (r: seq<byte>)
    ensures |r| == 64
  {
    Digest(LongBlockWords())
  }

  // The words of the message block of "abcd" sixteen times.
  lemma LongWords0()
    ensures Is(LongBlock(), 0, 0x61626364) && Is(LongBlock(), 1, 0x61626364) && Is(LongBlock(), 2, 0x61626364)
    ensures Is(LongBlock(), 3, 0x61626364) && Is(LongBlock(), 4, 0x61626364) && Is(LongBlock(), 5, 0x61626364)
    ensures Is(LongBlock(), 6, 0x61626364) && Is(LongBlock(), 7, 0x61626364) && Is(LongBlock(), 8, 0x61626364)
    ensures Is(LongBlock(), 9, 0x61626364) && Is(LongBlock(), 10, 0x61626364) && Is(LongBlock(), 11, 0x61626364)
    ensures Is(LongBlock(), 12, 0x61626364) && Is(LongBlock(), 13, 0x61626364) && Is(LongBlock(), 14, 0x61626364)
    ensures Is(LongBlock(), 15, 0x61626364)
  {
    hide W, WordAt, Digest;
    FirstWords(LongBlockWords());
  }

  lemma LongWords16()
    ensures Is(LongBlock(), 16, 0xA121A024) && Is(LongBlock(), 17, 0xA121A024) && Is(LongBlock(), 18, 0xA121A024)
    ensures Is(LongBlock(), 19, 0x6061E0E5) && Is(LongBlock(), 20, 0x6061E0E5) && Is(LongBlock(), 21, 0x6061E0E5)
    ensures Is(LongBlock(), 22, 0xA002E345) && Is(LongBlock(), 23, 0xA002E345) && Is(LongBlock(), 24, 0xA002E345)
  {
    hide W, WordAt, Digest;
    LongWords0();
    Word(LongBlock(), 16, 0x61626364, 0x61626364, 0x61626364, 0x61626364, 0x61626364, 0x31B230B1, 0xA121A024);
    Word(LongBlock(), 17, 0x61626364, 0x61626364, 0x61626364, 0x61626364, 0x61626364, 0x31B230B1, 0xA121A024);
    Word(LongBlock(), 18, 0x61626364, 0x61626364, 0x61626364, 0x61626364, 0x61626364, 0x31B230B1, 0xA121A024);
    Word(LongBlock(), 19, 0x61626364, 0x61626364, 0x61626364, 0x61626364, 0xA121A024, 0xD0125090, 0x6061E0E5);
    Word(LongBlock(), 20, 0x61626364, 0x61626364, 0x61626364, 0x61626364, 0xA121A024, 0xD0125090, 0x6061E0E5);
    Word(LongBlock(), 21, 0x61626364, 0x61626364, 0x61626364, 0x61626364, 0xA121A024, 0xD0125090, 0x6061E0E5);
    Word(LongBlock(), 22, 0x61626364, 0x61626364, 0x61626364, 0xA121A024, 0x6061E0E5, 0xF072B030, 0xA002E345);
    Word(LongBlock(), 23, 0x61626364, 0x61626364, 0x61626364, 0xA121A024, 0x6061E0E5, 0xF072B030, 0xA002E345);
    Word(LongBlock(), 24, 0x61626364, 0x61626364, 0x61626364, 0xA121A024, 0x6061E0E5, 0xF072B030, 0xA002E345);
  }

  lemma LongWords25()
    ensures Is(LongBlock(), 25, 0x49C969ED) && Is(LongBlock(), 26, 0x49C969ED) && Is(LongBlock(), 27, 0x49C969ED)
    ensures Is(LongBlock(), 28, 0x85AE5679) && Is(LongBlock(), 29, 0xA44FF619) && Is(LongBlock(), 30, 0xA44FF619)
    ensures Is(LongBlock(), 31, 0x694B6244) && Is(LongBlock(), 32, 0xE8C8E0C4) && Is(LongBlock(), 33, 0xE8C8E0C4)
  {
    hide W, WordAt, Digest;
    LongWords0();
    LongWords16();
    Word(LongBlock(), 25, 0x61626364, 0x61626364, 0xA121A024, 0x6061E0E5, 0xA002E345, 0xB1E11341, 0x49C969ED);
    Word(LongBlock(), 26, 0x61626364, 0x61626364, 0xA121A024, 0x6061E0E5, 0xA002E345, 0xB1E11341, 0x49C969ED);
    Word(LongBlock(), 27, 0x61626364, 0x61626364, 0xA121A024, 0x6061E0E5, 0xA002E345, 0xB1E11341, 0x49C969ED);
    Word(LongBlock(), 28, 0x61626364, 0x61626364, 0x6061E0E5, 0xA002E345, 0x49C969ED, 0xB5F52765, 0x85AE5679);
    Word(LongBlock(), 29, 0x61626364, 0xA121A024, 0x6061E0E5, 0xA002E345, 0x49C969ED, 0xB5F52765, 0xA44FF619);
    Word(LongBlock(), 30, 0x61626364, 0xA121A024, 0x6061E0E5, 0xA002E345, 0x49C969ED, 0xB5F52765, 0xA44FF619);
    Word(LongBlock(), 31, 0x61626364, 0xA121A024, 0xA002E345, 0x49C969ED, 0x85AE5679, 0xEA5C42F6, 0x694B6244);
    Word(LongBlock(), 32, 0xA121A024, 0x6061E0E5, 0xA002E345, 0x49C969ED, 0xA44FF619, 0xFA2F9146, 0xE8C8E0C4);
    Word(LongBlock(), 33, 0xA121A024, 0x6061E0E5, 0xA002E345, 0x49C969ED, 0xA44FF619, 0xFA2F9146, 0xE8C8E0C4);
  }

  lemma LongWords34()
    ensures Is(LongBlock(), 34, 0x240E103E) && Is(LongBlock(), 35, 0x346E603E) && Is(LongBlock(), 36, 0x346E603E)
    ensures Is(LongBlock(), 37, 0x9A517AB5) && Is(LongBlock(), 38, 0x8A01AA25) && Is(LongBlock(), 39, 0x8A01AA25)
    ensures Is(LongBlock(), 40, 0x0607191C) && Is(LongBlock(), 41, 0x25F8A37A) && Is(LongBlock(), 42, 0xD528936A)
  {
    hide W, WordAt, Digest;
    LongWords16();
    LongWords25();
    Word(LongBlock(), 34, 0xA121A024, 0x6061E0E5, 0x49C969ED, 0x85AE5679, 0x694B6244, 0x59CAFD6C, 0x240E103E);
    Word(LongBlock(), 35, 0x6061E0E5, 0xA002E345, 0x49C969ED, 0xA44FF619, 0xE8C8E0C4, 0x59CAFD6C, 0x346E603E);
    Word(LongBlock(), 36, 0x6061E0E5, 0xA002E345, 0x49C969ED, 0xA44FF619, 0xE8C8E0C4, 0x59CAFD6C, 0x346E603E);
    Word(LongBlock(), 37, 0x6061E0E5, 0xA002E345, 0x85AE5679, 0x694B6244, 0x240E103E, 0xEDD0A49B, 0x9A517AB5);
    Word(LongBlock(), 38, 0xA002E345, 0x49C969ED, 0xA44FF619, 0xE8C8E0C4, 0x346E603E, 0x34520F6B, 0x8A01AA25);
    Word(LongBlock(), 39, 0xA002E345, 0x49C969ED, 0xA44FF619, 0xE8C8E0C4, 0x346E603E, 0x34520F6B, 0x8A01AA25);
    Word(LongBlock(), 40, 0xA002E345, 0x49C969ED, 0x694B6244, 0x240E103E, 0x9A517AB5, 0x74134C29, 0x0607191C);
    Word(LongBlock(), 41, 0x49C969ED, 0x85AE5679, 0xE8C8E0C4, 0x346E603E, 0x8A01AA25, 0x74134C29, 0x25F8A37A);
    Word(LongBlock(), 42, 0x49C969ED, 0xA44FF619, 0xE8C8E0C4, 0x346E603E, 0x8A01AA25, 0x74134C29, 0xD528936A);
  }

  lemma LongWords43()
    ensures Is(LongBlock(), 43, 0x89FBD8AE) && Is(LongBlock(), 44, 0x00606206) && Is(LongBlock(), 45, 0x10501256)
    ensures Is(LongBlock(), 46, 0x7CFF7EF9) && Is(LongBlock(), 47, 0x3C78B9F9) && Is(LongBlock(), 48, 0xCC2B8A69)
    ensures Is(LongBlock(), 49, 0x9F03F169) && Is(LongBlock(), 50, 0xDF45BE20) && Is(LongBlock(), 51, 0x9EC5BEE1)
  {
    hide W, WordAt, Digest;
    LongWords25();
    LongWords34();
    Word(LongBlock(), 43, 0x49C969ED, 0xA44FF619, 0x240E103E, 0x9A517AB5, 0x0607191C, 0xE1497AD0, 0x89FBD8AE);
    Word(LongBlock(), 44, 0x85AE5679, 0x694B6244, 0x346E603E, 0x8A01AA25, 0x25F8A37A, 0xE07D24BB, 0x00606206);
    Word(LongBlock(), 45, 0xA44FF619, 0xE8C8E0C4, 0x346E603E, 0x8A01AA25, 0xD528936A, 0xD994FCB3, 0x10501256);
    Word(LongBlock(), 46, 0xA44FF619, 0xE8C8E0C4, 0x9A517AB5, 0x0607191C, 0x89FBD8AE, 0xD249C851, 0x7CFF7EF9);
    Word(LongBlock(), 47, 0x694B6244, 0x240E103E, 0x8A01AA25, 0x25F8A37A, 0x00606206, 0xD249C851, 0x3C78B9F9);
    Word(LongBlock(), 48, 0xE8C8E0C4, 0x346E603E, 0x8A01AA25, 0xD528936A, 0x10501256, 0x6BE242C9, 0xCC2B8A69);
    Word(LongBlock(), 49, 0xE8C8E0C4, 0x346E603E, 0x0607191C, 0x89FBD8AE, 0x7CFF7EF9, 0x51B347A7, 0x9F03F169);
    Word(LongBlock(), 50, 0x240E103E, 0x9A517AB5, 0x25F8A37A, 0x00606206, 0x3C78B9F9, 0x5D0A2D78, 0xDF45BE20);
    Word(LongBlock(), 51, 0x346E603E, 0x8A01AA25, 0xD528936A, 0x10501256, 0xCC2B8A69, 0x24721541, 0x9EC5BEE1);
  }

  lemma LongWords52()
    ensures Is(LongBlock(), 52, 0x0A212906) && Is(LongBlock(), 53, 0x49FF72C0) && Is(LongBlock(), 54, 0x46717241)
    ensures Is(LongBlock(), 55, 0x67E09A19) && Is(LongBlock(), 56, 0x6EFAA333) && Is(LongBlock(), 57, 0x2EBAE676)
    ensures Is(LongBlock(), 58, 0x3475C386) && Is(LongBlock(), 59, 0x201DCFF6)
  {
    hide W, WordAt, Digest;
    LongWords34();
    LongWords43();
    Word(LongBlock(), 52, 0x346E603E, 0x8A01AA25, 0x89FBD8AE, 0x7CFF7EF9, 0x9F03F169, 0x45217711, 0x0A212906);
    Word(LongBlock(), 53, 0x9A517AB5, 0x0607191C, 0x00606206, 0x3C78B9F9, 0xDF45BE20, 0x45217711, 0x49FF72C0);
    Word(LongBlock(), 54, 0x8A01AA25, 0x25F8A37A, 0x10501256, 0xCC2B8A69, 0x9EC5BEE1, 0x45217711, 0x46717241);
    Word(LongBlock(), 55, 0x8A01AA25, 0xD528936A, 0x7CFF7EF9, 0x9F03F169, 0x0A212906, 0x627DD1CC, 0x67E09A19);
    Word(LongBlock(), 56, 0x0607191C, 0x89FBD8AE, 0x3C78B9F9, 0xDF45BE20, 0x49FF72C0, 0x831F841A, 0x6EFAA333);
    Word(LongBlock(), 57, 0x25F8A37A, 0x00606206, 0xCC2B8A69, 0x9EC5BEE1, 0x46717241, 0x50F38A2B, 0x2EBAE676);
    Word(LongBlock(), 58, 0xD528936A, 0x10501256, 0x9F03F169, 0x0A212906, 0x67E09A19, 0x0727D1F3, 0x3475C386);
    Word(LongBlock(), 59, 0x89FBD8AE, 0x7CFF7EF9, 0xDF45BE20, 0x49FF72C0, 0x6EFAA333, 0x0727D1F3, 0x201DCFF6);
  }

  lemma LongWords60()
    ensures Is(LongBlock(), 60, 0x2F18FCCF) && Is(LongBlock(), 61, 0x2C5F2B5C) && Is(LongBlock(), 62, 0xA80B9F38)
    ensures Is(LongBlock(), 63, 0xBC139F34) && Is(LongBlock(), 64, 0xC47F18A7) && Is(LongBlock(), 65, 0xA25CE71D)
    ensures Is(LongBlock(), 66, 0x42743705) && Is(LongBlock(), 67, 0x51BAF619)
  {
    hide W, WordAt, Digest;
    LongWords43();
    LongWords52();
    Word(LongBlock(), 60, 0x00606206, 0x3C78B9F9, 0x9EC5BEE1, 0x46717241, 0x2EBAE676, 0xED9ECBBA, 0x2F18FCCF);
    Word(LongBlock(), 61, 0x10501256, 0xCC2B8A69, 0x0A212906, 0x67E09A19, 0x3475C386, 0xFBB2216A, 0x2C5F2B5C);
    Word(LongBlock(), 62, 0x7CFF7EF9, 0x9F03F169, 0x49FF72C0, 0x6EFAA333, 0x201DCFF6, 0xD2FB1C37, 0xA80B9F38);
    Word(LongBlock(), 63, 0x3C78B9F9, 0xDF45BE20, 0x46717241, 0x2EBAE676, 0x2F18FCCF, 0x046E5C34, 0xBC139F34);
    Word(LongBlock(), 64, 0xCC2B8A69, 0x9EC5BEE1, 0x67E09A19, 0x3475C386, 0x2C5F2B5C, 0x3E65065F, 0xC47F18A7);
    Word(LongBlock(), 65, 0x9F03F169, 0x0A212906, 0x6EFAA333, 0x201DCFF6, 0xA80B9F38, 0x3E65065F, 0xA25CE71D);
    Word(LongBlock(), 66, 0xDF45BE20, 0x49FF72C0, 0x2EBAE676, 0x2F18FCCF, 0xBC139F34, 0x3E65065F, 0x42743705);
    Word(LongBlock(), 67, 0x9EC5BEE1, 0x46717241, 0x3475C386, 0x2C5F2B5C, 0xC47F18A7, 0x26E39F58, 0x51BAF619);
  }

  // Its rounds.
  lemma LongRounds16()
    ensures Rounds(LongBlock(), IV, 16)
         == Registers(0xB6A4BE20, 0x8BA504B1, 0xF7F7F1CA, 0xE46E2AC6,
                      0x8AE4D7A0, 0xA8C73777, 0xC73AA118, 0x5139C715)
  {
    hide W, WordAt, Rounds, Turned;
    LongWords0();
    LongWords16();
    Turned0();
    NoRounds(LongBlock(), IV);
    var r := Registers(0x7380166F, 0x4914B2B9, 0x172442D7, 0xDA8A0600,
                       0xA96F30BC, 0x163138AA, 0xE38DEE4D, 0xB0FB0E4E);
    r := Next(LongBlock(), IV, 0, r, 0x588B5DAB, 0xB2E561D0);
    r := Next(LongBlock(), IV, 1, r, 0xB31CECD3, 0x887CDF53);
    r := Next(LongBlock(), IV, 2, r, 0x087B31DF, 0x5234344F);
    r := Next(LongBlock(), IV, 3, r, 0x17448B12, 0x16372CA6);
    r := Next(LongBlock(), IV, 4, r, 0xDCA06DE5, 0xF7BC113C);
    r := Next(LongBlock(), IV, 5, r, 0x8EB847A3, 0x9FE64FB1);
    r := Next(LongBlock(), IV, 6, r, 0x0E0F1218, 0x57E5FC4E);
    r := Next(LongBlock(), IV, 7, r, 0xADA83827, 0x55EB8591);
    r := Next(LongBlock(), IV, 8, r, 0x6E12C163, 0xC26A14B8);
    r := Next(LongBlock(), IV, 9, r, 0xF7578117, 0x3433DD28);
    r := Next(LongBlock(), IV, 10, r, 0xBC497C66, 0x4F85C749);
    r := Next(LongBlock(), IV, 11, r, 0xECC59168, 0x8CE5EE61);
    r := Next(LongBlock(), IV, 12, r, 0x63723715, 0x38E2AA27);
    r := Next(LongBlock(), IV, 13, r, 0xE57BFBF8, 0x542318E7);
    r := Next(LongBlock(), IV, 14, r, 0x8BA504B1, 0xA8C73777);
    r := Next(LongBlock(), IV, 15, r, 0xB6A4BE20, 0x8AE4D7A0);
  }

  lemma LongRounds32()
    ensures Rounds(LongBlock(), IV, 32)
         == Registers(0x32418D74, 0x1BD9E6E3, 0x254D8158, 0x1B9CCE4E,
                      0x3F717698, 0x0FAC4CAD, 0xAF1CB200, 0xB603AB25)
  {
    hide W, WordAt, Rounds, Turned;
    LongWords16();
    LongWords25();
    LongWords34();
    Turned16();
    LongRounds16();
    var r := Registers(0xB6A4BE20, 0x8BA504B1, 0xF7F7F1CA, 0xE46E2AC6,
                       0x8AE4D7A0, 0xA8C73777, 0xC73AA118, 0x5139C715);
    r := Next(LongBlock(), IV, 16, r, 0xC0A0E3F7, 0xF671E12A);
    r := Next(LongBlock(), IV, 17, r, 0x68EF7357, 0x673F9D46);
    r := Next(LongBlock(), IV, 18, r, 0x4C6499D3, 0xF01924A3);
    r := Next(LongBlock(), IV, 19, r, 0x9F532735, 0x71C6EF02);
    r := Next(LongBlock(), IV, 20, r, 0x231D84BD, 0x108149DE);
    r := Next(LongBlock(), IV, 21, r, 0x6A203212, 0x90C31AF9);
    r := Next(LongBlock(), IV, 22, r, 0x175C3B57, 0x508F82D2);
    r := Next(LongBlock(), IV, 23, r, 0xCDCBABD5, 0xB5A2F2FB);
    r := Next(LongBlock(), IV, 24, r, 0x7DD941F8, 0xA541CB9B);
    r := Next(LongBlock(), IV, 25, r, 0xEAF54F3E, 0x912D4E17);
    r := Next(LongBlock(), IV, 26, r, 0xF7310A83, 0xB43DA5E9);
    r := Next(LongBlock(), IV, 27, r, 0xF8441D7E, 0xCF194872);
    r := Next(LongBlock(), IV, 28, r, 0x270DCE67, 0x7564B6C0);
    r := Next(LongBlock(), IV, 29, r, 0xAC12A6C0, 0x964015E3);
    r := Next(LongBlock(), IV, 30, r, 0x1BD9E6E3, 0x0FAC4CAD);
    r := Next(LongBlock(), IV, 31, r, 0x32418D74, 0x3F717698);
  }

  lemma LongRounds48()
    ensures Rounds(LongBlock(), IV, 48)
         == Registers(0xFEF3CB16, 0x6E89A7FB, 0xC177AA9E, 0xF3FF8AA7,
                      0x4A9E594F, 0x17394CA0, 0x3F379E57, 0x93DE1E99)
  {
    hide W, WordAt, Rounds, Turned;
    LongWords25();
    LongWords34();
    LongWords43();
    Turned32();
    LongRounds32();
    var r := Registers(0x32418D74, 0x1BD9E6E3, 0x254D8158, 0x1B9CCE4E,
                       0x3F717698, 0x0FAC4CAD, 0xAF1CB200, 0xB603AB25);
    r := Next(LongBlock(), IV, 32, r, 0x9C89B505, 0x38766ABF);
    r := Next(LongBlock(), IV, 33, r, 0x3C60352A, 0x8AEDD93B);
    r := Next(LongBlock(), IV, 34, r, 0x2A116C70, 0x476048D4);
    r := Next(LongBlock(), IV, 35, r, 0xA0C7C66F, 0xB47A7DC5);
    r := Next(LongBlock(), IV, 36, r, 0xB7E58F33, 0x3A3537A9);
    r := Next(LongBlock(), IV, 37, r, 0x79BAF4CA, 0x9455B731);
    r := Next(LongBlock(), IV, 38, r, 0xAD5B0BCF, 0x289D35E0);
    r := Next(LongBlock(), IV, 39, r, 0xA167BD76, 0xDA27276B);
    r := Next(LongBlock(), IV, 40, r, 0x2CCC1878, 0x7EDED43B);
    r := Next(LongBlock(), IV, 41, r, 0x610C6084, 0x9DA32CAB);
    r := Next(LongBlock(), IV, 42, r, 0xA40209FE, 0x7D483846);
    r := Next(LongBlock(), IV, 43, r, 0x6FA376A2, 0x12A851CF);
    r := Next(LongBlock(), IV, 44, r, 0x53F9FFC5, 0xC3D3327B);
    r := Next(LongBlock(), IV, 45, r, 0x4F60BBD5, 0xF3CAE7E6);
    r := Next(LongBlock(), IV, 46, r, 0x6E89A7FB, 0x17394CA0);
    r := Next(LongBlock(), IV, 47, r, 0xFEF3CB16, 0x4A9E594F);
  }

  lemma LongRounds64()
    ensures Rounds(LongBlock(), IV, 64)
         == Registers(0x2AD0C8EE, 0x0F92D652, 0x55D90E51, 0xC4F6A60A,
                      0x69CAA1B7, 0xB8AB6D40, 0xF956635A, 0xC6C7AC6C)
  {
    hide W, WordAt, Rounds, Turned;
    LongWords43();
    LongWords52();
    LongWords60();
    Turned48();
    LongRounds48();
    var r := Registers(0xFEF3CB16, 0x6E89A7FB, 0xC177AA9E, 0xF3FF8AA7,
                       0x4A9E594F, 0x17394CA0, 0x3F379E57, 0x93DE1E99);
    r := Next(LongBlock(), IV, 48, r, 0xFA8E6731, 0x7D9E1966);
    r := Next(LongBlock(), IV, 49, r, 0x08A826C3, 0xEBFA90CC);
    r := Next(LongBlock(), IV, 50, r, 0x614C7627, 0x969ECF53);
    r := Next(LongBlock(), IV, 51, r, 0xD776618D, 0x423489F6);
    r := Next(LongBlock(), IV, 52, r, 0xEF958266, 0x6EF4554D);
    r := Next(LongBlock(), IV, 53, r, 0x04B44FD2, 0x290032B5);
    r := Next(LongBlock(), IV, 54, r, 0x008D6012, 0x50AA1FAA);
    r := Next(LongBlock(), IV, 55, r, 0x57859FEC, 0xC00CD655);
    r := Next(LongBlock(), IV, 56, r, 0xC864420D, 0x2FB3C502);
    r := Next(LongBlock(), IV, 57, r, 0xE7423482, 0xAAC3B183);
    r := Next(LongBlock(), IV, 58, r, 0x5C5BE9DD, 0x8B1BA117);
    r := Next(LongBlock(), IV, 59, r, 0xEBD4948C, 0x74A75FE1);
    r := Next(LongBlock(), IV, 60, r, 0x05627B53, 0xF58D98D8);
    r := Next(LongBlock(), IV, 61, r, 0x28AAEC87, 0xCC6B5F2A);
    r := Next(LongBlock(), IV, 62, r, 0x0F92D652, 0xB8AB6D40);
    r := Next(LongBlock(), IV, 63, r, 0x2AD0C8EE, 0x69CAA1B7);
  }

  lemma LongCompressed()
    ensures CF(IV, LongBlock()) == LongResult()
  {
    LongRounds64();
    hide Rounds, Digest;
  }

  function LongResult(): (r: seq<word>)
    ensures |r| == 8
  {
    [0x5950DE81, 0x468664EB, 0x42FD4C86, 0x1E7CA00A,
     0xC0A5910B, 0xAE9A55EA, 0x1ADB8D17, 0x763CA222]
  }

  // ----- its padding block -----

  function LastBlockWords(): (r: seq<word>)
    ensures |r| == 16
  {
    [0x80000000, 0x00000000, 0x00000000, 0x00000000,
     0x00000000, 0x00000000, 0x00000000, 0x00000000,
     0x00000000, 0x00000000, 0x00000000, 0x00000000,
     0x00000000, 0x00000000, 0x00000000, 0x00000200]
  }

  function LastBlock(): (r: seq<byte>)
    ensures |r| == 64
  {
    Digest(LastBlockWords())
  }

  // The words of its padding block.
  lemma LastWords0()
    ensures Is(LastBlock(), 0, 0x80000000) && Is(LastBlock(), 1, 0x00000000) && Is(LastBlock(), 2, 0x00000000)
    ensures Is(LastBlock(), 3, 0x00000000) && Is(LastBlock(), 4, 0x00000000) && Is(LastBlock(), 5, 0x00000000)
    ensures Is(LastBlock(), 6, 0x00000000) && Is(LastBlock(), 7, 0x00000000) && Is(LastBlock(), 8, 0x00000000)
    ensures Is(LastBlock(), 9, 0x00000000) && Is(LastBlock(), 10, 0x00000000) && Is(LastBlock(), 11, 0x00000000)
    ensures Is(LastBlock(), 12, 0x00000000) && Is(LastBlock(), 13, 0x00000000) && Is(LastBlock(), 14, 0x00000000)
    ensures Is(LastBlock(), 15, 0x00000200)
  {
    hide W, WordAt, Digest;
    FirstWords(LastBlockWords());
  }

  lemma LastWords16()
    ensures Is(LastBlock(), 16, 0x80404000) && Is(LastBlock(), 17, 0x00000000) && Is(LastBlock(), 18, 0x01008080)
    ensures Is(LastBlock(), 19, 0x10005000) && Is(LastBlock(), 20, 0x00000000) && Is(LastBlock(), 21, 0x002002A0)
    ensures Is(LastBlock(), 22, 0xAC545C04) && Is(LastBlock(), 23, 0x00000000) && Is(LastBlock(), 24, 0x09582A39)
  {
    hide W, WordAt, Digest;
    LastWords0();
    Word(LastBlock(), 16, 0x80000000, 0x00000000, 0x00000000, 0x00000000, 0x00000000, 0x80000000, 0x80404000);
    Word(LastBlock(), 17, 0x00000000, 0x00000000, 0x00000000, 0x00000000, 0x00000000, 0x00000000, 0x00000000);
    Word(LastBlock(), 18, 0x00000000, 0x00000000, 0x00000000, 0x00000000, 0x00000200, 0x01000000, 0x01008080);
    Word(LastBlock(), 19, 0x00000000, 0x00000000, 0x00000000, 0x00000000, 0x80404000, 0x20004020, 0x10005000);
    Word(LastBlock(), 20, 0x00000000, 0x00000000, 0x00000000, 0x00000000, 0x00000000, 0x00000000, 0x00000000);
    Word(LastBlock(), 21, 0x00000000, 0x00000000, 0x00000000, 0x00000200, 0x01008080, 0x40400080, 0x002002A0);
    Word(LastBlock(), 22, 0x00000000, 0x00000000, 0x00000000, 0x80404000, 0x10005000, 0x28000800, 0xAC545C04);
    Word(LastBlock(), 23, 0x00000000, 0x00000000, 0x00000000, 0x00000000, 0x00000000, 0x00000000, 0x00000000);
    Word(LastBlock(), 24, 0x00000000, 0x00000000, 0x00000200, 0x01008080, 0x002002A0, 0x01500210, 0x09582A39);
  }

  lemma LastWords25()
    ensures Is(LastBlock(), 25, 0xA0003000) && Is(LastBlock(), 26, 0x00000000) && Is(LastBlock(), 27, 0x00200280)
    ensures Is(LastBlock(), 28, 0xA4515804) && Is(LastBlock(), 29, 0x20200040) && Is(LastBlock(), 30, 0x51609838)
    ensures Is(LastBlock(), 31, 0x30005701) && Is(LastBlock(), 32, 0xA0002000) && Is(LastBlock(), 33, 0x008200AA)
  {
    hide W, WordAt, Digest;
    LastWords0();
    LastWords16();
    Word(LastBlock(), 25, 0x00000000, 0x00000000, 0x80404000, 0x10005000, 0xAC545C04, 0xAE42162A, 0xA0003000);
    Word(LastBlock(), 26, 0x00000000, 0x00000000, 0x00000000, 0x00000000, 0x00000000, 0x00000000, 0x00000000);
    Word(LastBlock(), 27, 0x00000000, 0x00000000, 0x01008080, 0x002002A0, 0x09582A39, 0x141C042C, 0x00200280);
    Word(LastBlock(), 28, 0x00000000, 0x00000200, 0x10005000, 0xAC545C04, 0xA0003000, 0x08000000, 0xA4515804);
    Word(LastBlock(), 29, 0x00000000, 0x80404000, 0x00000000, 0x00000000, 0x00000000, 0x00000000, 0x20200040);
    Word(LastBlock(), 30, 0x00000000, 0x00000000, 0x002002A0, 0x09582A39, 0x00200280, 0x016002B0, 0x51609838);
    Word(LastBlock(), 31, 0x00000200, 0x01008080, 0xAC545C04, 0xA0003000, 0xA4515804, 0x00560C2C, 0x30005701);
    Word(LastBlock(), 32, 0x80404000, 0x10005000, 0x00000000, 0x00000000, 0x20200040, 0x80605010, 0xA0002000);
    Word(LastBlock(), 33, 0x00000000, 0x00000000, 0x09582A39, 0x00200280, 0x51609838, 0x45440289, 0x008200AA);
  }

  lemma LastWords34()
    ensures Is(LastBlock(), 34, 0x6AD525D0) && Is(LastBlock(), 35, 0x0A0E0216) && Is(LastBlock(), 36, 0xB0F52042)
    ensures Is(LastBlock(), 37, 0xFA7073B0) && Is(LastBlock(), 38, 0x20000000) && Is(LastBlock(), 39, 0x008200A8)
    ensures Is(LastBlock(), 40, 0x7A542590) && Is(LastBlock(), 41, 0x22A20044) && Is(LastBlock(), 42, 0xD5D6EBD2)
  {
    hide W, WordAt, Digest;
    LastWords16();
    LastWords25();
    Word(LastBlock(), 34, 0x01008080, 0x002002A0, 0xA0003000, 0xA4515804, 0x30005701, 0x8A802880, 0x6AD525D0);
    Word(LastBlock(), 35, 0x10005000, 0xAC545C04, 0x00000000, 0x20200040, 0xA0002000, 0x00000000, 0x0A0E0216);
    Word(LastBlock(), 36, 0x00000000, 0x00000000, 0x00200280, 0x51609838, 0x008200AA, 0x007502C1, 0xB0F52042);
    Word(LastBlock(), 37, 0x002002A0, 0x09582A39, 0xA4515804, 0x30005701, 0x6AD525D0, 0x36996FCE, 0xFA7073B0);
    Word(LastBlock(), 38, 0xAC545C04, 0xA0003000, 0x20200040, 0xA0002000, 0x0A0E0216, 0x8D7F5943, 0x20000000);
    Word(LastBlock(), 39, 0x00000000, 0x00000000, 0x51609838, 0x008200AA, 0xB0F52042, 0xC141C042, 0x008200A8);
    Word(LastBlock(), 40, 0x09582A39, 0x00200280, 0x30005701, 0x6AD525D0, 0xFA7073B0, 0x00800000, 0x7A542590);
    Word(LastBlock(), 41, 0xA0003000, 0xA4515804, 0xA0002000, 0x0A0E0216, 0x20000000, 0x00000000, 0x22A20044);
    Word(LastBlock(), 42, 0x00000000, 0x20200040, 0x008200AA, 0xB0F52042, 0x008200A8, 0x00D600EB, 0xD5D6EBD2);
  }

  lemma LastWords43()
    ensures Is(LastBlock(), 43, 0x82005771) && Is(LastBlock(), 44, 0x8A202240) && Is(LastBlock(), 45, 0xB42826AA)
    ensures Is(LastBlock(), 46, 0xEAF84E59) && Is(LastBlock(), 47, 0x4898EAF9) && Is(LastBlock(), 48, 0x8207283D)
    ensures Is(LastBlock(), 49, 0xEE6775FA) && Is(LastBlock(), 50, 0xA3E0E0A0) && Is(LastBlock(), 51, 0x8828488A)
  {
    hide W, WordAt, Digest;
    LastWords25();
    LastWords34();
    Word(LastBlock(), 43, 0x00200280, 0x51609838, 0x6AD525D0, 0xFA7073B0, 0x7A542590, 0x783D1A7A, 0x82005771);
    Word(LastBlock(), 44, 0xA4515804, 0x30005701, 0x0A0E0216, 0x20000000, 0x22A20044, 0xAE7D4B43, 0x8A202240);
    Word(LastBlock(), 45, 0x20200040, 0xA0002000, 0xB0F52042, 0x008200A8, 0xD5D6EBD2, 0xE53C4AE9, 0xB42826AA);
    Word(LastBlock(), 46, 0x51609838, 0x008200AA, 0xFA7073B0, 0x7A542590, 0x82005771, 0x80A82A88, 0xEAF84E59);
    Word(LastBlock(), 47, 0x30005701, 0x6AD525D0, 0x20000000, 0x22A20044, 0x8A202240, 0x01201211, 0x4898EAF9);
    Word(LastBlock(), 48, 0xA0002000, 0x0A0E0216, 0x008200A8, 0xD5D6EBD2, 0xB42826AA, 0xB3D77ABC, 0x8207283D);
    Word(LastBlock(), 49, 0x008200AA, 0xB0F52042, 0x7A542590, 0x82005771, 0xEAF84E59, 0x5DFAD046, 0xEE6775FA);
    Word(LastBlock(), 50, 0x6AD525D0, 0xFA7073B0, 0x22A20044, 0x8A202240, 0x4898EAF9, 0x3D0B81D8, 0xA3E0E0A0);
    Word(LastBlock(), 51, 0x0A0E0216, 0x20000000, 0xD5D6EBD2, 0xB42826AA, 0x8207283D, 0x4BC628C7, 0x8828488A);
  }

  lemma LastWords52()
    ensures Is(LastBlock(), 52, 0x23B45A5D) && Is(LastBlock(), 53, 0x628A22C4) && Is(LastBlock(), 54, 0x8D6D0615)
    ensures Is(LastBlock(), 55, 0x38300A7E) && Is(LastBlock(), 56, 0xE96260E5) && Is(LastBlock(), 57, 0x2B60C020)
    ensures Is(LastBlock(), 58, 0x502ED531) && Is(LastBlock(), 59, 0x9E878CB9)
  {
    hide W, WordAt, Digest;
    LastWords34();
    LastWords43();
    Word(LastBlock(), 52, 0xB0F52042, 0x008200A8, 0x82005771, 0xEAF84E59, 0xEE6775FA, 0x88080000, 0x23B45A5D);
    Word(LastBlock(), 53, 0xFA7073B0, 0x7A542590, 0x8A202240, 0x4898EAF9, 0xA3E0E0A0, 0x00000000, 0x628A22C4);
    Word(LastBlock(), 54, 0x20000000, 0x22A20044, 0xB42826AA, 0x8207283D, 0x8828488A, 0xB06D62BE, 0x8D6D0615);
    Word(LastBlock(), 55, 0x008200A8, 0xD5D6EBD2, 0xEAF84E59, 0xEE6775FA, 0x23B45A5D, 0xC754DF2B, 0x38300A7E);
    Word(LastBlock(), 56, 0x7A542590, 0x82005771, 0x4898EAF9, 0xA3E0E0A0, 0x628A22C4, 0x23AEFE2C, 0xE96260E5);
    Word(LastBlock(), 57, 0x22A20044, 0x8A202240, 0x8207283D, 0x8828488A, 0x8D6D0615, 0x23AFEECF, 0x2B60C020);
    Word(LastBlock(), 58, 0xD5D6EBD2, 0xB42826AA, 0xEE6775FA, 0x23B45A5D, 0x38300A7E, 0x3E8E8230, 0x502ED531);
    Word(LastBlock(), 59, 0x82005771, 0xEAF84E59, 0xA3E0E0A0, 0x628A22C4, 0xE96260E5, 0x11924360, 0x9E878CB9);
  }

  lemma LastWords60()
    ensures Is(LastBlock(), 60, 0x218C38F8) && Is(LastBlock(), 61, 0xDCAE3CB7) && Is(LastBlock(), 62, 0x2A3E0E0A)
    ensures Is(LastBlock(), 63, 0xE9E0C461) && Is(LastBlock(), 64, 0x8C3E3831) && Is(LastBlock(), 65, 0x44AAA228)
    ensures Is(LastBlock(), 66, 0xDC60A38B) && Is(LastBlock(), 67, 0x518300F7)
  {
    hide W, WordAt, Digest;
    LastWords43();
    LastWords52();
    Word(LastBlock(), 60, 0x8A202240, 0x4898EAF9, 0x8828488A, 0x8D6D0615, 0x2B60C020, 0x62187F7A, 0x218C38F8);
    Word(LastBlock(), 61, 0xB42826AA, 0x8207283D, 0x23B45A5D, 0x38300A7E, 0x502ED531, 0xFD04D4E0, 0xDCAE3CB7);
    Word(LastBlock(), 62, 0xEAF84E59, 0xEE6775FA, 0x628A22C4, 0xE96260E5, 0x9E878CB9, 0x4E2EA3DE, 0x2A3E0E0A);
    Word(LastBlock(), 63, 0x4898EAF9, 0xA3E0E0A0, 0x8D6D0615, 0x2B60C020, 0x218C38F8, 0xD989FC2A, 0xE9E0C461);
    Word(LastBlock(), 64, 0x8207283D, 0x8828488A, 0x38300A7E, 0x502ED531, 0xDCAE3CB7, 0xA46CCC14, 0x8C3E3831);
    Word(LastBlock(), 65, 0xEE6775FA, 0x23B45A5D, 0xE96260E5, 0x9E878CB9, 0x2A3E0E0A, 0x00000000, 0x44AAA228);
    Word(LastBlock(), 66, 0xA3E0E0A0, 0x628A22C4, 0x2B60C020, 0x218C38F8, 0xE9E0C461, 0xEAB0D470, 0xDC60A38B);
    Word(LastBlock(), 67, 0x8828488A, 0x8D6D0615, 0x502ED531, 0xDCAE3CB7, 0x8C3E3831, 0xC41E5BA4, 0x518300F7);
  }

  // Its rounds.
  lemma LastRounds16()
    ensures Rounds(LastBlock(), LongResult(), 16)
         == Registers(0xF185448A, 0x141CB1E7, 0xE30BC81E, 0x77554AB6,
                      0x32028D02, 0x5CC495DB, 0xCB4F9FDF, 0x8C7F75FB)
  {
    hide W, WordAt, Rounds, Turned;
    LastWords0();
    LastWords16();
    Turned0();
    NoRounds(LastBlock(), LongResult());
    var r := Registers(0x5950DE81, 0x468664EB, 0x42FD4C86, 0x1E7CA00A,
                       0xC0A5910B, 0xAE9A55EA, 0x1ADB8D17, 0x763CA222);
    r := Next(LastBlock(), LongResult(), 0, r, 0x1CC66027, 0x24FE81A1);
    r := Next(LastBlock(), LongResult(), 1, r, 0xB7197324, 0x61B7397A);
    r := Next(LastBlock(), LongResult(), 2, r, 0xB1AACB3F, 0x4C7CBB59);
    r := Next(LastBlock(), LongResult(), 3, r, 0x920D5D4D, 0xC6C863A3);
    r := Next(LastBlock(), LongResult(), 4, r, 0x03162191, 0xDBCB73DD);
    r := Next(LastBlock(), LongResult(), 5, r, 0xCBFDDBB7, 0x6A6EAAFB);
    r := Next(LastBlock(), LongResult(), 6, r, 0x67F45147, 0xE0CC5B97);
    r := Next(LastBlock(), LongResult(), 7, r, 0xDFC06393, 0x9D84A8D5);
    r := Next(LastBlock(), LongResult(), 8, r, 0x777F980D, 0x89D0A059);
    r := Next(LastBlock(), LongResult(), 9, r, 0x502A9BE2, 0xBEFC3EDA);
    r := Next(LastBlock(), LongResult(), 10, r, 0xDF0F77ED, 0xC8B999F7);
    r := Next(LastBlock(), LongResult(), 11, r, 0xB8BC2801, 0x3A05DA38);
    r := Next(LastBlock(), LongResult(), 12, r, 0x5B3BAAA5, 0xEEBF718F);
    r := Next(LastBlock(), LongResult(), 13, r, 0x0F7185E4, 0xF3FBF969);
    r := Next(LastBlock(), LongResult(), 14, r, 0x141CB1E7, 0x5CC495DB);
    r := Next(LastBlock(), LongResult(), 15, r, 0xF185448A, 0x32028D02);
  }

  lemma LastRounds32()
    ensures Rounds(LastBlock(), LongResult(), 32)
         == Registers(0x026E42F7, 0xB6FEEEF7, 0x3C8ADCA8, 0x2EDB9594,
                      0xC9436B11, 0xD41F5FDA, 0x10A9AE7C, 0x60DDA0C5)
  {
    hide W, WordAt, Rounds, Turned;
    LastWords16();
    LastWords25();
    LastWords34();
    Turned16();
    LastRounds16();
    var r := Registers(0xF185448A, 0x141CB1E7, 0xE30BC81E, 0x77554AB6,
                       0x32028D02, 0x5CC495DB, 0xCB4F9FDF, 0x8C7F75FB);
    r := Next(LastBlock(), LongResult(), 16, r, 0xA7374ACD, 0x3D03E81B);
    r := Next(LastBlock(), LongResult(), 17, r, 0xAACA2DCB, 0x130BC932);
    r := Next(LastBlock(), LongResult(), 18, r, 0x3D2DFD31, 0x07FFF8F8);
    r := Next(LastBlock(), LongResult(), 19, r, 0x15BAB3E6, 0x85B2DD34);
    r := Next(LastBlock(), LongResult(), 20, r, 0xF477625B, 0xD2B3C82B);
    r := Next(LastBlock(), LongResult(), 21, r, 0xECBFBA29, 0x604BDA38);
    r := Next(LastBlock(), LongResult(), 22, r, 0xB9F6943D, 0xE996D68B);
    r := Next(LastBlock(), LongResult(), 23, r, 0xC537AC67, 0x7F6C2BC6);
    r := Next(LastBlock(), LongResult(), 24, r, 0xC59665B3, 0x1A89EF0D);
    r := Next(LastBlock(), LongResult(), 25, r, 0x50115E1F, 0x3DDF2899);
    r := Next(LastBlock(), LongResult(), 26, r, 0x44196085, 0x0ABC22DA);
    r := Next(LastBlock(), LongResult(), 27, r, 0xBDE4E355, 0xDA96412A);
    r := Next(LastBlock(), LongResult(), 28, r, 0xCA176DCA, 0xB418AC1B);
    r := Next(LastBlock(), LongResult(), 29, r, 0x541E456E, 0x35CF8215);
    r := Next(LastBlock(), LongResult(), 30, r, 0xB6FEEEF7, 0xD41F5FDA);
    r := Next(LastBlock(), LongResult(), 31, r, 0x026E42F7, 0xC9436B11);
  }

  lemma LastRounds48()
    ensures Rounds(LastBlock(), LongResult(), 48)
         == Registers(0x18C77C40, 0x34D09EE0, 0xBD1A6888, 0x487C2077,
                      0xA8CA98C6, 0x1D0EA72C, 0xE88CA5E6, 0xF32CA9E0)
  {
    hide W, WordAt, Rounds, Turned;
    LastWords25();
    LastWords34();
    LastWords43();
    Turned32();
    LastRounds32();
    var r := Registers(0x026E42F7, 0xB6FEEEF7, 0x3C8ADCA8, 0x2EDB9594,
                       0xC9436B11, 0xD41F5FDA, 0x10A9AE7C, 0x60DDA0C5);
    r := Next(LastBlock(), LongResult(), 32, r, 0x8FD27582, 0xA48DC4C2);
    r := Next(LastBlock(), LongResult(), 33, r, 0x2527F8C6, 0xB29DC9D4);
    r := Next(LastBlock(), LongResult(), 34, r, 0x3218579F, 0x0DA81AD7);
    r := Next(LastBlock(), LongResult(), 35, r, 0x35421CF3, 0x644B37E4);
    r := Next(LastBlock(), LongResult(), 36, r, 0x12CB048F, 0x107CB2FB);
    r := Next(LastBlock(), LongResult(), 37, r, 0xC6716749, 0x7903974D);
    r := Next(LastBlock(), LongResult(), 38, r, 0x66BF4600, 0xE5575380);
    r := Next(LastBlock(), LongResult(), 39, r, 0x046516A9, 0xE23D4F18);
    r := Next(LastBlock(), LongResult(), 40, r, 0xE14AB898, 0x6E25AFFE);
    r := Next(LastBlock(), LongResult(), 41, r, 0xBC44D883, 0x4EF0CB38);
    r := Next(LastBlock(), LongResult(), 42, r, 0xE017C779, 0x10132C10);
    r := Next(LastBlock(), LongResult(), 43, r, 0x11154E38, 0xC1D401BD);
    r := Next(LastBlock(), LongResult(), 44, r, 0x3BA43E10, 0x953C1E65);
    r := Next(LastBlock(), LongResult(), 45, r, 0x445E8D34, 0x94BCDD11);
    r := Next(LastBlock(), LongResult(), 46, r, 0x34D09EE0, 0x1D0EA72C);
    r := Next(LastBlock(), LongResult(), 47, r, 0x18C77C40, 0xA8CA98C6);
  }

  lemma LastRounds64()
    ensures Rounds(LastBlock(), LongResult(), 64)
         == Registers(0x87EE4178, 0x64F3DC4A, 0x7A9D040F, 0xDFF2FA47,
                      0xAF7EE1EE, 0x96E4028F, 0x33E646B4, 0xEA30F510)
  {
    hide W, WordAt, Rounds, Turned;
    LastWords43();
    LastWords52();
    LastWords60();
    Turned48();
    LastRounds48();
    var r := Registers(0x18C77C40, 0x34D09EE0, 0xBD1A6888, 0x487C2077,
                       0xA8CA98C6, 0x1D0EA72C, 0xE88CA5E6, 0xF32CA9E0);
    r := Next(LastBlock(), LongResult(), 48, r, 0xA2507CEA, 0x9845362A);
    r := Next(LastBlock(), LongResult(), 49, r, 0x7E014176, 0x2CB0C2F2);
    r := Next(LastBlock(), LongResult(), 50, r, 0xEB39074B, 0x0DF22B74);
    r := Next(LastBlock(), LongResult(), 51, r, 0xF67597E1, 0x8D4F6B2F);
    r := Next(LastBlock(), LongResult(), 52, r, 0x31E9309D, 0xEECF99BE);
    r := Next(LastBlock(), LongResult(), 53, r, 0xC6329C3C, 0xC672AD96);
    r := Next(LastBlock(), LongResult(), 54, r, 0x75CC3800, 0x8515C87F);
    r := Next(LastBlock(), LongResult(), 55, r, 0x925156AD, 0x150CBD57);
    r := Next(LastBlock(), LongResult(), 56, r, 0x7D0DE10B, 0x7EE47610);
    r := Next(LastBlock(), LongResult(), 57, r, 0x2066F136, 0x7D7AADCC);
    r := Next(LastBlock(), LongResult(), 58, r, 0x85B31359, 0x07B9CFD1);
    r := Next(LastBlock(), LongResult(), 59, r, 0x6CDDCB93, 0xC43EB29C);
    r := Next(LastBlock(), LongResult(), 60, r, 0x23EFF97D, 0x1EA21D46);
    r := Next(LastBlock(), LongResult(), 61, r, 0x07BD4E82, 0xC8D6867C);
    r := Next(LastBlock(), LongResult(), 62, r, 0x64F3DC4A, 0x96E4028F);
    r := Next(LastBlock(), LongResult(), 63, r, 0x87EE4178, 0xAF7EE1EE);
  }

  lemma LastCompressed()
    ensures CF(LongResult(), LastBlock()) == LastResult()
  {
    LastRounds64();
    hide Rounds, Digest;
  }

  function LastResult(): (r: seq<word>)
    ensures |r| == 8
  {
    [0xDEBE9FF9, 0x2275B8A1, 0x38604889, 0xC18E5A4D,
     0x6FDB70E5, 0x387E5765, 0x293DCBA3, 0x9C0C5732]
  }

  function AbcdSixteenTimes(): (r: seq<byte>)
    ensures |r| == 64
  {
    seq(64, i requires 0 <= i < 64 => [0x61, 0x62, 0x63, 0x64][i % 4])
  }

  lemma LongPadded()
    ensures PaddedBytes(AbcdSixteenTimes(), 512, 512) == LongBlock() + LastBlock()
  {
    hide Digest, BigEndian, TailByte, WordBytes;
    var msg := AbcdSixteenTimes();
    assert LastBlockWords() == [0x80000000] + NoWords(13) + [0, 512];
    FinalBlock(0x80000000, 512);
    LongPieces();
    LongLetters();
    LengthBytes(512, Repeat(0, 4) + [0x00, 0x00, 0x02, 0x00]);
    assert msg[..64] == msg;
    assert ZeroCount(512) / 8 == 55;
    assert [0x80] + Repeat(0, 55) == [0x80, 0x00, 0x00, 0x00] + Repeat(0, 52);
    hide AbcdSixteenTimes, PaddedBytes, Repeat;
    JoinPadding(msg, [0x80], Repeat(0, 55), Repeat(0, 4), [0x00, 0x00, 0x02, 0x00]);
  }

  lemma JoinPadding(a: seq<byte>, b: seq<byte>, c: seq<byte>, d: seq<byte>, e: seq<byte>)
    ensures a + b + c + (d + e) == a + ((b + c) + d + e)
  {}

  lemma LongPieces()
    ensures WordBytes(0x80000000) == [0x80, 0x00, 0x00, 0x00] && WordBytes(512) == [0x00, 0x00, 0x02, 0x00]
    ensures TailByte(0, 0) == 0x80
    ensures Num(Repeat(0, 4) + [0x00, 0x00, 0x02, 0x00]) == 512
  {
    NumOfLength([0x00, 0x00, 0x02, 0x00], 512);
  }

  /** The message is its sixteen equal words. */
  lemma LongLetters()
    ensures LongBlock() == AbcdSixteenTimes()
  {
    hide WordBytes, Digest;
    var b := LongBlock();
    assert WordBytes(0x61626364) == [0x61, 0x62, 0x63, 0x64] by {
      LetterBytes();
    }
    SameWords();
    forall i | 0 <= i < 64
      ensures b[i] == AbcdSixteenTimes()[i]
    {
      DigestAt(LongBlockWords(), i / 4);
      assert b[4 * (i / 4)..4 * (i / 4) + 4][i % 4] == b[i];
    }
  }

  lemma LetterBytes()
    ensures WordBytes(0x61626364) == [0x61, 0x62, 0x63, 0x64]
  {}

  lemma SameWords()
    ensures forall j :: 0 <= j < 16 ==> LongBlockWords()[j] == 0x61626364
  {}

  /** The digest of the 64 bytes. */
  lemma LongDigest()
    ensures Sm3(ToBits(AbcdSixteenTimes()))
         == [0xde, 0xbe, 0x9f, 0xf9, 0x22, 0x75, 0xb8, 0xa1,
          0x38, 0x60, 0x48, 0x89, 0xc1, 0x8e, 0x5a, 0x4d,
          0x6f, 0xdb, 0x70, 0xe5, 0x38, 0x7e, 0x57, 0x65,
          0x29, 0x3d, 0xcb, 0xa3, 0x9c, 0x0c, 0x57, 0x32]
  {
    hide Sm3, HashWith, PadWith, ToBits, ToBytes, CF, PaddedBytes, Digest, WordBytes;
    LongPadded();
    DigestOfBlocks(AbcdSixteenTimes(), 512);
    TwoBlocks(IV, LongBlock(), LastBlock());
    LongCompressed();
    LastCompressed();
    LongBytes();
  }

  lemma LongBytes()
    ensures Digest(LastResult())
         == [0xde, 0xbe, 0x9f, 0xf9, 0x22, 0x75, 0xb8, 0xa1,
          0x38, 0x60, 0x48, 0x89, 0xc1, 0x8e, 0x5a, 0x4d,
          0x6f, 0xdb, 0x70, 0xe5, 0x38, 0x7e, 0x57, 0x65,
          0x29, 0x3d, 0xcb, 0xa3, 0x9c, 0x0c, 0x57, 0x32]
  {
    hide Digest;
    DigestOfEight(LastResult());
  }
}
