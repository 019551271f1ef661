/**
 The definition of MD5 against a digest of the test suite in appendix A.5 of RFC 1321.  Every
 constant of the algorithm takes part in it.
 */
module Md5Suite {
  import opened Md5

  /** The one block of the padded message "abc". */
  function AbcWords(): (x: seq<Word>)
    ensures |x| == 16
  {
    seq(16, i requires 0 <= i < 16 => if i == 0 then 0x80636261 else if i == 14 then 0x18 else 0)
  }

  predicate At(n: nat, r: Regs)
    requires n <= 64
  {
    Steps(n, INIT, AbcWords()) == r
  }

  /** One operation on the block. */
  lemma OneOperation(i: nat, r: Regs, o: Op, w: Word, v: Word)
    requires i < 64 && At(i, r) && OpAt(i) == o && w == (if o.k == 0 then 0x80636261 else if o.k == 14 then 0x18 else 0)
    requires v == Turn(Mix(i, r.b, r.c, r.d), r.a, r.b, w, o.s, o.t)
    ensures At(i + 1, Regs(r.d, v, r.b, r.c))
  {
    hide Turn, Mix, OpAt;
  }

  lemma Operations1()
    requires At(0, Regs(0x67452301, 0xefcdab89, 0x98badcfe, 0x10325476))
    ensures At(4, Regs(0xd6d117b4, 0x7ad956f2, 0x2f6fbd72, 0x344a8432))
  {
    hide At;
    OneOperation(0, Regs(0x67452301, 0xefcdab89, 0x98badcfe, 0x10325476),
                 Op(0, 7, 0xd76aa478), 0x80636261, 0xd6d117b4);
    OneOperation(1, Regs(0x10325476, 0xd6d117b4, 0xefcdab89, 0x98badcfe), Op(1, 12, 0xe8c7b756), 0x0, 0x344a8432);
    OneOperation(2, Regs(0x98badcfe, 0x344a8432, 0xd6d117b4, 0xefcdab89), Op(2, 17, 0x242070db), 0x0, 0x2f6fbd72);
    OneOperation(3, Regs(0xefcdab89, 0x2f6fbd72, 0x344a8432, 0xd6d117b4), Op(3, 22, 0xc1bdceee), 0x0, 0x7ad956f2);
  }

  lemma Operations2()
    requires At(4, Regs(0xd6d117b4, 0x7ad956f2, 0x2f6fbd72, 0x344a8432))
    ensures At(8, Regs(0xc73741ef, 0x928d99f6, 0x207dc67b, 0x8bac3051))
  {
    hide At;
    OneOperation(4, Regs(0xd6d117b4, 0x7ad956f2, 0x2f6fbd72, 0x344a8432), Op(4, 7, 0xf57c0faf), 0x0, 0xc73741ef);
    OneOperation(5, Regs(0x344a8432, 0xc73741ef, 0x7ad956f2, 0x2f6fbd72), Op(5, 12, 0x4787c62a), 0x0, 0x8bac3051);
    OneOperation(6, Regs(0x2f6fbd72, 0x8bac3051, 0xc73741ef, 0x7ad956f2), Op(6, 17, 0xa8304613), 0x0, 0x207dc67b);
    OneOperation(7, Regs(0x7ad956f2, 0x207dc67b, 0x8bac3051, 0xc73741ef), Op(7, 22, 0xfd469501), 0x0, 0x928d99f6);
  }

  lemma Operations3()
    requires At(8, Regs(0xc73741ef, 0x928d99f6, 0x207dc67b, 0x8bac3051))
    ensures At(12, Regs(0x854b3712, 0x5ed49596, 0x3020401c, 0x74e2f284))
  {
    hide At;
    OneOperation(8, Regs(0xc73741ef, 0x928d99f6, 0x207dc67b, 0x8bac3051), Op(8, 7, 0x698098d8), 0x0, 0x854b3712);
    OneOperation(9, Regs(0x8bac3051, 0x854b3712, 0x928d99f6, 0x207dc67b), Op(9, 12, 0x8b44f7af), 0x0, 0x74e2f284);
    OneOperation(10, Regs(0x207dc67b, 0x74e2f284, 0x854b3712, 0x928d99f6), Op(10, 17, 0xffff5bb1), 0x0, 0x3020401c);
    OneOperation(11, Regs(0x928d99f6, 0x3020401c, 0x74e2f284, 0x854b3712), Op(11, 22, 0x895cd7be), 0x0, 0x5ed49596);
  }

  lemma Operations4()
    requires At(12, Regs(0x854b3712, 0x5ed49596, 0x3020401c, 0x74e2f284))
    ensures At(16, Regs(0xdda9b9a6, 0x72aff2e0, 0xe396856b, 0xa1051895))
  {
    hide At;
    OneOperation(12, Regs(0x854b3712, 0x5ed49596, 0x3020401c, 0x74e2f284), Op(12, 7, 0x6b901122), 0x0, 0xdda9b9a6);
    OneOperation(13, Regs(0x74e2f284, 0xdda9b9a6, 0x5ed49596, 0x3020401c), Op(13, 12, 0xfd987193), 0x0, 0xa1051895);
    OneOperation(14, Regs(0x3020401c, 0xa1051895, 0xdda9b9a6, 0x5ed49596), Op(14, 17, 0xa679438e), 0x18, 0xe396856b);
    OneOperation(15, Regs(0x5ed49596, 0xe396856b, 0xa1051895, 0xdda9b9a6), Op(15, 22, 0x49b40821), 0x0, 0x72aff2e0);
  }

  lemma Operations5()
    requires At(16, Regs(0xdda9b9a6, 0x72aff2e0, 0xe396856b, 0xa1051895))
    ensures At(20, Regs(0x3e9e9126, 0xb5b204e4, 0xe25e1652, 0x4a1d804e))
  {
    hide At;
    OneOperation(16, Regs(0xdda9b9a6, 0x72aff2e0, 0xe396856b, 0xa1051895), Op(1, 5, 0xf61e2562), 0x0, 0x3e9e9126);
    OneOperation(17, Regs(0xa1051895, 0x3e9e9126, 0x72aff2e0, 0xe396856b), Op(6, 9, 0xc040b340), 0x0, 0x4a1d804e);
    OneOperation(18, Regs(0xe396856b, 0x4a1d804e, 0x3e9e9126, 0x72aff2e0), Op(11, 14, 0x265e5a51), 0x0, 0xe25e1652);
    OneOperation(19, Regs(0x72aff2e0, 0xe25e1652, 0x4a1d804e, 0x3e9e9126),
                 Op(0, 20, 0xe9b6c7aa), 0x80636261, 0xb5b204e4);
  }

  lemma Operations6()
    requires At(20, Regs(0x3e9e9126, 0xb5b204e4, 0xe25e1652, 0x4a1d804e))
    ensures At(24, Regs(0x59a8ffda, 0x47092c07, 0xabfc7920, 0x6d002f1e))
  {
    hide At;
    OneOperation(20, Regs(0x3e9e9126, 0xb5b204e4, 0xe25e1652, 0x4a1d804e), Op(5, 5, 0xd62f105d), 0x0, 0x59a8ffda);
    OneOperation(21, Regs(0x4a1d804e, 0x59a8ffda, 0xb5b204e4, 0xe25e1652), Op(10, 9, 0x2441453), 0x0, 0x6d002f1e);
    OneOperation(22, Regs(0xe25e1652, 0x6d002f1e, 0x59a8ffda, 0xb5b204e4), Op(15, 14, 0xd8a1e681), 0x0, 0xabfc7920);
    OneOperation(23, Regs(0xb5b204e4, 0xabfc7920, 0x6d002f1e, 0x59a8ffda), Op(4, 20, 0xe7d3fbc8), 0x0, 0x47092c07);
  }

  lemma Operations7()
    requires At(24, Regs(0x59a8ffda, 0x47092c07, 0xabfc7920, 0x6d002f1e))
    ensures At(28, Regs(0xb7f268cf, 0x786acb8f, 0xfe1623b1, 0x9388eff))
  {
    hide At;
    OneOperation(24, Regs(0x59a8ffda, 0x47092c07, 0xabfc7920, 0x6d002f1e), Op(9, 5, 0x21e1cde6), 0x0, 0xb7f268cf);
    OneOperation(25, Regs(0x6d002f1e, 0xb7f268cf, 0x47092c07, 0xabfc7920), Op(14, 9, 0xc33707d6), 0x18, 0x9388eff);
    OneOperation(26, Regs(0xabfc7920, 0x9388eff, 0xb7f268cf, 0x47092c07), Op(3, 14, 0xf4d50d87), 0x0, 0xfe1623b1);
    OneOperation(27, Regs(0x47092c07, 0xfe1623b1, 0x9388eff, 0xb7f268cf), Op(8, 20, 0x455a14ed), 0x0, 0x786acb8f);
  }

  lemma Operations8()
    requires At(28, Regs(0xb7f268cf, 0x786acb8f, 0xfe1623b1, 0x9388eff))
    ensures At(32, Regs(0x790a77fb, 0x726342d3, 0xa62884aa, 0x9f47e4f8))
  {
    hide At;
    OneOperation(28, Regs(0xb7f268cf, 0x786acb8f, 0xfe1623b1, 0x9388eff), Op(13, 5, 0xa9e3e905), 0x0, 0x790a77fb);
    OneOperation(29, Regs(0x9388eff, 0x790a77fb, 0x786acb8f, 0xfe1623b1), Op(2, 9, 0xfcefa3f8), 0x0, 0x9f47e4f8);
    OneOperation(30, Regs(0xfe1623b1, 0x9f47e4f8, 0x790a77fb, 0x786acb8f), Op(7, 14, 0x676f02d9), 0x0, 0xa62884aa);
    OneOperation(31, Regs(0x786acb8f, 0xa62884aa, 0x9f47e4f8, 0x790a77fb), Op(12, 20, 0x8d2a4c8a), 0x0, 0x726342d3);
  }

  lemma Operations9()
    requires At(32, Regs(0x790a77fb, 0x726342d3, 0xa62884aa, 0x9f47e4f8))
    ensures At(36, Regs(0xb3707ebf, 0x3b0875c7, 0x8d212ff5, 0x60127b2e))
  {
    hide At;
    OneOperation(32, Regs(0x790a77fb, 0x726342d3, 0xa62884aa, 0x9f47e4f8), Op(5, 4, 0xfffa3942), 0x0, 0xb3707ebf);
    OneOperation(33, Regs(0x9f47e4f8, 0xb3707ebf, 0x726342d3, 0xa62884aa), Op(8, 11, 0x8771f681), 0x0, 0x60127b2e);
    OneOperation(34, Regs(0xa62884aa, 0x60127b2e, 0xb3707ebf, 0x726342d3), Op(11, 16, 0x6d9d6122), 0x0, 0x8d212ff5);
    OneOperation(35, Regs(0x726342d3, 0x8d212ff5, 0x60127b2e, 0xb3707ebf), Op(14, 23, 0xfde5380c), 0x18, 0x3b0875c7);
  }

  lemma Operations10()
    requires At(36, Regs(0xb3707ebf, 0x3b0875c7, 0x8d212ff5, 0x60127b2e))
    ensures At(40, Regs(0x21b117b9, 0x5a2f5ea5, 0x3575227e, 0x6e7429d5))
  {
    hide At;
    OneOperation(36, Regs(0xb3707ebf, 0x3b0875c7, 0x8d212ff5, 0x60127b2e), Op(1, 4, 0xa4beea44), 0x0, 0x21b117b9);
    OneOperation(37, Regs(0x60127b2e, 0x21b117b9, 0x3b0875c7, 0x8d212ff5), Op(4, 11, 0x4bdecfa9), 0x0, 0x6e7429d5);
    OneOperation(38, Regs(0x8d212ff5, 0x6e7429d5, 0x21b117b9, 0x3b0875c7), Op(7, 16, 0xf6bb4b60), 0x0, 0x3575227e);
    OneOperation(39, Regs(0x3b0875c7, 0x3575227e, 0x6e7429d5, 0x21b117b9), Op(10, 23, 0xbebfbc70), 0x0, 0x5a2f5ea5);
  }

  lemma Operations11()
    requires At(40, Regs(0x21b117b9, 0x5a2f5ea5, 0x3575227e, 0x6e7429d5))
    ensures At(44, Regs(0x11de1779, 0x4c6124f4, 0x31c465ca, 0xfadcaa38))
  {
    hide At;
    OneOperation(40, Regs(0x21b117b9, 0x5a2f5ea5, 0x3575227e, 0x6e7429d5), Op(13, 4, 0x289b7ec6), 0x0, 0x11de1779);
    OneOperation(41, Regs(0x6e7429d5, 0x11de1779, 0x5a2f5ea5, 0x3575227e),
                 Op(0, 11, 0xeaa127fa), 0x80636261, 0xfadcaa38);
    OneOperation(42, Regs(0x3575227e, 0xfadcaa38, 0x11de1779, 0x5a2f5ea5), Op(3, 16, 0xd4ef3085), 0x0, 0x31c465ca);
    OneOperation(43, Regs(0x5a2f5ea5, 0x31c465ca, 0xfadcaa38, 0x11de1779), Op(6, 23, 0x4881d05), 0x0, 0x4c6124f4);
  }

  lemma Operations12()
    requires At(44, Regs(0x11de1779, 0x4c6124f4, 0x31c465ca, 0xfadcaa38))
    ensures At(48, Regs(0x7f2e507b, 0x7beb9700, 0x8fae6399, 0x99d9679d))
  {
    hide At;
    OneOperation(44, Regs(0x11de1779, 0x4c6124f4, 0x31c465ca, 0xfadcaa38), Op(9, 4, 0xd9d4d039), 0x0, 0x7f2e507b);
    OneOperation(45, Regs(0xfadcaa38, 0x7f2e507b, 0x4c6124f4, 0x31c465ca), Op(12, 11, 0xe6db99e5), 0x0, 0x99d9679d);
    OneOperation(46, Regs(0x31c465ca, 0x99d9679d, 0x7f2e507b, 0x4c6124f4), Op(15, 16, 0x1fa27cf8), 0x0, 0x8fae6399);
    OneOperation(47, Regs(0x4c6124f4, 0x8fae6399, 0x99d9679d, 0x7f2e507b), Op(2, 23, 0xc4ac5665), 0x0, 0x7beb9700);
  }

  lemma Operations13()
    requires At(48, Regs(0x7f2e507b, 0x7beb9700, 0x8fae6399, 0x99d9679d))
    ensures At(52, Regs(0x7b201df8, 0x8bf025c4, 0xb298cefd, 0xf4e8e96e))
  {
    hide At;
    OneOperation(48, Regs(0x7f2e507b, 0x7beb9700, 0x8fae6399, 0x99d9679d),
                 Op(0, 6, 0xf4292244), 0x80636261, 0x7b201df8);
    OneOperation(49, Regs(0x99d9679d, 0x7b201df8, 0x7beb9700, 0x8fae6399), Op(7, 10, 0x432aff97), 0x0, 0xf4e8e96e);
    OneOperation(50, Regs(0x8fae6399, 0xf4e8e96e, 0x7b201df8, 0x7beb9700), Op(14, 15, 0xab9423a7), 0x18, 0xb298cefd);
    OneOperation(51, Regs(0x7beb9700, 0xb298cefd, 0xf4e8e96e, 0x7b201df8), Op(5, 21, 0xfc93a039), 0x0, 0x8bf025c4);
  }

  lemma Operations14()
    requires At(52, Regs(0x7b201df8, 0x8bf025c4, 0xb298cefd, 0xf4e8e96e))
    ensures At(56, Regs(0x6cc5e8a, 0x3bfa2c27, 0x7d632dd0, 0x5b0d97aa))
  {
    hide At;
    OneOperation(52, Regs(0x7b201df8, 0x8bf025c4, 0xb298cefd, 0xf4e8e96e), Op(12, 6, 0x655b59c3), 0x0, 0x6cc5e8a);
    OneOperation(53, Regs(0xf4e8e96e, 0x6cc5e8a, 0x8bf025c4, 0xb298cefd), Op(3, 10, 0x8f0ccc92), 0x0, 0x5b0d97aa);
    OneOperation(54, Regs(0xb298cefd, 0x5b0d97aa, 0x6cc5e8a, 0x8bf025c4), Op(10, 15, 0xffeff47d), 0x0, 0x7d632dd0);
    OneOperation(55, Regs(0x8bf025c4, 0x7d632dd0, 0x5b0d97aa, 0x6cc5e8a), Op(1, 21, 0x85845dd1), 0x0, 0x3bfa2c27);
  }

  lemma Operations15()
    requires At(56, Regs(0x6cc5e8a, 0x3bfa2c27, 0x7d632dd0, 0x5b0d97aa))
    ensures At(60, Regs(0x7f81cc35, 0x7327d604, 0x4f9dbe3f, 0x94454ab))
  {
    hide At;
    OneOperation(56, Regs(0x6cc5e8a, 0x3bfa2c27, 0x7d632dd0, 0x5b0d97aa), Op(8, 6, 0x6fa87e4f), 0x0, 0x7f81cc35);
    OneOperation(57, Regs(0x5b0d97aa, 0x7f81cc35, 0x3bfa2c27, 0x7d632dd0), Op(15, 10, 0xfe2ce6e0), 0x0, 0x94454ab);
    OneOperation(58, Regs(0x7d632dd0, 0x94454ab, 0x7f81cc35, 0x3bfa2c27), Op(6, 15, 0xa3014314), 0x0, 0x4f9dbe3f);
    OneOperation(59, Regs(0x3bfa2c27, 0x4f9dbe3f, 0x94454ab, 0x7f81cc35), Op(13, 21, 0x4e0811a1), 0x0, 0x7327d604);
  }

  lemma Operations16()
    requires At(60, Regs(0x7f81cc35, 0x7327d604, 0x4f9dbe3f, 0x94454ab))
    ensures At(64, Regs(0x310ade8f, 0xc08226b3, 0xe484b9d8, 0x624d8cb2))
  {
    hide At;
    OneOperation(60, Regs(0x7f81cc35, 0x7327d604, 0x4f9dbe3f, 0x94454ab), Op(4, 6, 0xf7537e82), 0x0, 0x310ade8f);
    OneOperation(61, Regs(0x94454ab, 0x310ade8f, 0x7327d604, 0x4f9dbe3f), Op(11, 10, 0xbd3af235), 0x0, 0x624d8cb2);
    OneOperation(62, Regs(0x4f9dbe3f, 0x624d8cb2, 0x310ade8f, 0x7327d604), Op(2, 15, 0x2ad7d2bb), 0x0, 0xe484b9d8);
    OneOperation(63, Regs(0x7327d604, 0xe484b9d8, 0x624d8cb2, 0x310ade8f), Op(9, 21, 0xeb86d391), 0x0, 0xc08226b3);
  }

  lemma AllOperations()
    ensures At(64, Regs(0x310ade8f, 0xc08226b3, 0xe484b9d8, 0x624d8cb2))
  {
    hide At;
    Beginning();
    Operations1();
    Operations2();
    Operations3();
    Operations4();
    Operations5();
    Operations6();
    Operations7();
    Operations8();
    Operations9();
    Operations10();
    Operations11();
    Operations12();
    Operations13();
    Operations14();
    Operations15();
    Operations16();
  }

  lemma Beginning()
    ensures At(0, Regs(0x67452301, 0xefcdab89, 0x98badcfe, 0x10325476))
  {
  }

  const ABC: seq<Byte> := [0x61, 0x62, 0x63]

  lemma LengthOfAbc()
    ensures LengthBytes(3)[0] == 0x18 && forall i :: 1 <= i < 8 ==> LengthBytes(3)[i] == 0
  {
    assert ToWord(Low(3)) == 0x18 && ToWord(High(3)) == 0;
  }

  /** The padded message, byte by byte. */
  lemma PaddedAt(i: nat)
    requires i < 64
    ensures |Pad(ABC)| == 64
    ensures Pad(ABC)[i] ==
            if i == 0 then 0x61 else if i == 1 then 0x62 else if i == 2 then 0x63
            else if i == 3 then 0x80 else if i == 56 then 0x18 else 0
  {
    hide LengthBytes, Zeros;
    LengthOfAbc();
    assert PadLength(3) == 53;
    var padding := Padding(53);
    assert Pad(ABC) == ABC + padding + LengthBytes(3);
    assert padding == [0x80] + Zeros(52);
    if 4 <= i < 56 {
      assert Pad(ABC)[i] == padding[i - 3] == Zeros(52)[i - 4];
      ZeroAt(52, i - 4);
    }
    if 56 <= i { assert Pad(ABC)[i] == LengthBytes(3)[i - 56]; }
  }

  lemma ZeroAt(n: nat, i: nat)
    requires i < n
    ensures Zeros(n)[i] == 0
  {
  }

  lemma Joined()
    ensures Join(0x61, 0x62, 0x63, 0x80) == 0x80636261 && Join(0x18, 0, 0, 0) == 0x18 && Join(0, 0, 0, 0) == 0
  {
  }

  lemma AbcBlock()
    ensures |Pad(ABC)| == 64 && Words(Pad(ABC)) == AbcWords()
  {
    hide Pad, Join;
    PaddedAt(0);
    Joined();
    var p := Pad(ABC);
    forall i | 0 <= i < 16 ensures Words(p)[i] == AbcWords()[i] {
      PaddedAt(4 * i);
      PaddedAt(4 * i + 1);
      PaddedAt(4 * i + 2);
      PaddedAt(4 * i + 3);
    }
  }

  lemma OneBlock(m: seq<Byte>, r: Regs)
    requires |m| == 64 && Steps(64, INIT, Words(m)) == r
    ensures Fold(m) == Sum(INIT, r)
  {
    hide Steps, Sum, Words;
    assert m[..0] == [] && m[0..] == m;
    assert Fold([]) == INIT;
  }

  lemma Totals()
    ensures Sum(INIT, Regs(0x310ade8f, 0xc08226b3, 0xe484b9d8, 0x624d8cb2)) ==
            Regs(0x98500190, 0xb04fd23c, 0x7d3f96d6, 0x727fe128)
  {
  }

  lemma DigestBytes()
    ensures RegBytes(Regs(0x98500190, 0xb04fd23c, 0x7d3f96d6, 0x727fe128)) ==
            [0x90, 0x01, 0x50, 0x98, 0x3c, 0xd2, 0x4f, 0xb0, 0xd6, 0x96, 0x3f, 0x7d, 0x28, 0xe1, 0x7f, 0x72]
  {
  }

  /** The digest of "abc". */
  lemma DigestOfAbc()
    ensures Md5Of(ABC) ==
            [0x90, 0x01, 0x50, 0x98, 0x3c, 0xd2, 0x4f, 0xb0, 0xd6, 0x96, 0x3f, 0x7d, 0x28, 0xe1, 0x7f, 0x72]
  {
    hide Steps, Sum, Words, Pad, RegBytes, Fold;
    AllOperations();
    AbcBlock();
    OneBlock(Pad(ABC), Regs(0x310ade8f, 0xc08226b3, 0xe484b9d8, 0x624d8cb2));
    Totals();
    DigestBytes();
  }
}
