/**
 Known answers: two whole encryptions. The code takes the lowest bit of a byte first, the standard the highest, so
 the bytes of a published answer appear here with their bits in the opposite order.
 */
module DesAnswers {
  import opened Basics
  import opened Words
  import opened BitStrings
  import opened DesTables
  import opened Des
  import opened DesFacts
  import opened DesWords
  import opened Masks

  // ---- Key 07A7137045DA2A16, block 3BDD119049372802, answer DFD64A815CAF1A0F ----

  lemma {:induction false} Sample15Boxes()
    ensures BoxesGive(0xe7af04d4, 0x306c9e75521c44, 0x96d15f38)
  {
    SixFedIs(0xe7af04d4, 0x306c9e75521c44, 0, 45); SixFedIs(0xe7af04d4, 0x306c9e75521c44, 1, 11);
    SixFedIs(0xe7af04d4, 0x306c9e75521c44, 2, 12); SixFedIs(0xe7af04d4, 0x306c9e75521c44, 3, 54);
    SixFedIs(0xe7af04d4, 0x306c9e75521c44, 4, 2); SixFedIs(0xe7af04d4, 0x306c9e75521c44, 5, 54);
    SixFedIs(0xe7af04d4, 0x306c9e75521c44, 6, 62); SixFedIs(0xe7af04d4, 0x306c9e75521c44, 7, 5);
    EightBoxed(45, 11, 12, 54, 2, 54, 62, 5, 1, 12, 15, 10, 8, 11, 6, 9);
    Witnessed(0xe7af04d4, 0x306c9e75521c44, 0x96d15f38, 45, 11, 12, 54, 2, 54, 62, 5,
      1, 12, 15, 10, 8, 11, 6, 9);
  }

  lemma {:induction false} Sample15Words()
    ensures TurnedTo(0x306c9e75521c44, 15, 0x306c9e75521c44) && MixedTo(0xff795450, 0x96d15f38, 0x95cdcae8)
  {
    TurnedIs(0x306c9e75521c44, 15, 0x306c9e75521c44);
    MixedIs(0xff795450, 0x96d15f38, 0x95cdcae8);
  }

  lemma {:induction false} Sample15()
    requires Picked(0x68545ba20ec8e5e0, 0x306c9e75521c44)
    ensures Leads(0x68545ba20ec8e5e0, 15, 0xff795450, 0xe7af04d4, 0x95cdcae8, 0xe7af04d4)
  {
    Sample15Boxes();
    Sample15Words();
    RoundIs(0x68545ba20ec8e5e0, 0x306c9e75521c44, 15, 0xff795450, 0xe7af04d4, 0x306c9e75521c44, 0x96d15f38,
      0x95cdcae8, 0x95cdcae8, 0xe7af04d4);
  }

  lemma {:induction false} Sample14Boxes()
    ensures BoxesGive(0xff795450, 0x60d93ceaa43888, 0xa370321e)
  {
    SixFedIs(0xff795450, 0x60d93ceaa43888, 0, 40); SixFedIs(0xff795450, 0x60d93ceaa43888, 1, 8);
    SixFedIs(0xff795450, 0x60d93ceaa43888, 2, 22); SixFedIs(0xff795450, 0x60d93ceaa43888, 3, 58);
    SixFedIs(0xff795450, 0x60d93ceaa43888, 4, 15); SixFedIs(0xff795450, 0x60d93ceaa43888, 5, 6);
    SixFedIs(0xff795450, 0x60d93ceaa43888, 6, 63); SixFedIs(0xff795450, 0x60d93ceaa43888, 7, 55);
    EightBoxed(40, 8, 22, 58, 15, 6, 63, 55, 7, 8, 4, 12, 0, 14, 12, 5);
    Witnessed(0xff795450, 0x60d93ceaa43888, 0xa370321e, 40, 8, 22, 58, 15, 6, 63, 55,
      7, 8, 4, 12, 0, 14, 12, 5);
  }

  lemma {:induction false} Sample14Words()
    ensures TurnedTo(0x306c9e75521c44, 14, 0x60d93ceaa43888) && MixedTo(0x31f698dc, 0xa370321e, 0xe7af04d4)
  {
    TurnedIs(0x306c9e75521c44, 14, 0x60d93ceaa43888);
    MixedIs(0x31f698dc, 0xa370321e, 0xe7af04d4);
  }

  lemma {:induction false} Sample14()
    requires Picked(0x68545ba20ec8e5e0, 0x306c9e75521c44)
    ensures Leads(0x68545ba20ec8e5e0, 14, 0x31f698dc, 0xff795450, 0x95cdcae8, 0xe7af04d4)
  {
    Sample15();
    Sample14Boxes();
    Sample14Words();
    RoundIs(0x68545ba20ec8e5e0, 0x306c9e75521c44, 14, 0x31f698dc, 0xff795450, 0x60d93ceaa43888, 0xa370321e,
      0xe7af04d4, 0x95cdcae8, 0xe7af04d4);
  }

  lemma {:induction false} Sample13Boxes()
    ensures BoxesGive(0x31f698dc, 0x8364f39a90e222, 0x3e97e8c3)
  {
    SixFedIs(0x31f698dc, 0x8364f39a90e222, 0, 49); SixFedIs(0x31f698dc, 0x8364f39a90e222, 1, 37);
    SixFedIs(0x31f698dc, 0x8364f39a90e222, 2, 33); SixFedIs(0x31f698dc, 0x8364f39a90e222, 3, 50);
    SixFedIs(0x31f698dc, 0x8364f39a90e222, 4, 53); SixFedIs(0x31f698dc, 0x8364f39a90e222, 5, 44);
    SixFedIs(0x31f698dc, 0x8364f39a90e222, 6, 61); SixFedIs(0x31f698dc, 0x8364f39a90e222, 7, 51);
    EightBoxed(49, 37, 33, 50, 53, 44, 61, 51, 12, 3, 1, 7, 14, 9, 7, 12);
    Witnessed(0x31f698dc, 0x8364f39a90e222, 0x3e97e8c3, 49, 37, 33, 50, 53, 44, 61, 51,
      12, 3, 1, 7, 14, 9, 7, 12);
  }

  lemma {:induction false} Sample13Words()
    ensures TurnedTo(0x306c9e75521c44, 13, 0x8364f39a90e222) && MixedTo(0xfa567fab, 0x3e97e8c3, 0xff795450)
  {
    TurnedIs(0x306c9e75521c44, 13, 0x8364f39a90e222);
    MixedIs(0xfa567fab, 0x3e97e8c3, 0xff795450);
  }

  lemma {:induction false} Sample13()
    requires Picked(0x68545ba20ec8e5e0, 0x306c9e75521c44)
    ensures Leads(0x68545ba20ec8e5e0, 13, 0xfa567fab, 0x31f698dc, 0x95cdcae8, 0xe7af04d4)
  {
    Sample14();
    Sample13Boxes();
    Sample13Words();
    RoundIs(0x68545ba20ec8e5e0, 0x306c9e75521c44, 13, 0xfa567fab, 0x31f698dc, 0x8364f39a90e222, 0x3e97e8c3,
      0xff795450, 0x95cdcae8, 0xe7af04d4);
  }

  lemma {:induction false} Sample12Boxes()
    ensures BoxesGive(0xfa567fab, 0x0d93ce6a43888a, 0x579078a6)
  {
    SixFedIs(0xfa567fab, 0x0d93ce6a43888a, 0, 21); SixFedIs(0xfa567fab, 0x0d93ce6a43888a, 1, 55);
    SixFedIs(0xfa567fab, 0x0d93ce6a43888a, 2, 2); SixFedIs(0xfa567fab, 0x0d93ce6a43888a, 3, 46);
    SixFedIs(0xfa567fab, 0x0d93ce6a43888a, 4, 43); SixFedIs(0xfa567fab, 0x0d93ce6a43888a, 5, 37);
    SixFedIs(0xfa567fab, 0x0d93ce6a43888a, 6, 34); SixFedIs(0xfa567fab, 0x0d93ce6a43888a, 7, 53);
    EightBoxed(21, 55, 2, 46, 43, 37, 34, 53, 6, 5, 1, 14, 0, 9, 14, 10);
    Witnessed(0xfa567fab, 0x0d93ce6a43888a, 0x579078a6, 21, 55, 2, 46, 43, 37, 34, 53,
      6, 5, 1, 14, 0, 9, 14, 10);
  }

  lemma {:induction false} Sample12Words()
    ensures TurnedTo(0x306c9e75521c44, 12, 0x0d93ce6a43888a) && MixedTo(0xbb99d2e4, 0x579078a6, 0x31f698dc)
  {
    TurnedIs(0x306c9e75521c44, 12, 0x0d93ce6a43888a);
    MixedIs(0xbb99d2e4, 0x579078a6, 0x31f698dc);
  }

  lemma {:induction false} Sample12()
    requires Picked(0x68545ba20ec8e5e0, 0x306c9e75521c44)
    ensures Leads(0x68545ba20ec8e5e0, 12, 0xbb99d2e4, 0xfa567fab, 0x95cdcae8, 0xe7af04d4)
  {
    Sample13();
    Sample12Boxes();
    Sample12Words();
    RoundIs(0x68545ba20ec8e5e0, 0x306c9e75521c44, 12, 0xbb99d2e4, 0xfa567fab, 0x0d93ce6a43888a, 0x579078a6,
      0x31f698dc, 0x95cdcae8, 0xe7af04d4);
  }

  lemma {:induction false} Sample11Boxes()
    ensures BoxesGive(0xbb99d2e4, 0x364f39890e222a, 0xe56f449b)
  {
    SixFedIs(0xbb99d2e4, 0x364f39890e222a, 0, 8); SixFedIs(0xbb99d2e4, 0x364f39890e222a, 1, 54);
    SixFedIs(0xbb99d2e4, 0x364f39890e222a, 2, 47); SixFedIs(0xbb99d2e4, 0x364f39890e222a, 3, 18);
    SixFedIs(0xbb99d2e4, 0x364f39890e222a, 4, 42); SixFedIs(0xbb99d2e4, 0x364f39890e222a, 5, 39);
    SixFedIs(0xbb99d2e4, 0x364f39890e222a, 6, 22); SixFedIs(0xbb99d2e4, 0x364f39890e222a, 7, 57);
    EightBoxed(8, 54, 47, 18, 42, 39, 22, 57, 13, 9, 2, 2, 15, 6, 10, 7);
    Witnessed(0xbb99d2e4, 0x364f39890e222a, 0xe56f449b, 8, 54, 47, 18, 42, 39, 22, 57,
      13, 9, 2, 2, 15, 6, 10, 7);
  }

  lemma {:induction false} Sample11Words()
    ensures TurnedTo(0x306c9e75521c44, 11, 0x364f39890e222a) && MixedTo(0x0f65082f, 0xe56f449b, 0xfa567fab)
  {
    TurnedIs(0x306c9e75521c44, 11, 0x364f39890e222a);
    MixedIs(0x0f65082f, 0xe56f449b, 0xfa567fab);
  }

  lemma {:induction false} Sample11()
    requires Picked(0x68545ba20ec8e5e0, 0x306c9e75521c44)
    ensures Leads(0x68545ba20ec8e5e0, 11, 0x0f65082f, 0xbb99d2e4, 0x95cdcae8, 0xe7af04d4)
  {
    Sample12();
    Sample11Boxes();
    Sample11Words();
    RoundIs(0x68545ba20ec8e5e0, 0x306c9e75521c44, 11, 0x0f65082f, 0xbb99d2e4, 0x364f39890e222a, 0xe56f449b,
      0xfa567fab, 0x95cdcae8, 0xe7af04d4);
  }

  lemma {:induction false} Sample10Boxes()
    ensures BoxesGive(0x0f65082f, 0xd93ce6043888aa, 0x8604958e)
  {
    SixFedIs(0x0f65082f, 0xd93ce6043888aa, 0, 30); SixFedIs(0x0f65082f, 0xd93ce6043888aa, 1, 29);
    SixFedIs(0x0f65082f, 0xd93ce6043888aa, 2, 60); SixFedIs(0x0f65082f, 0xd93ce6043888aa, 3, 12);
    SixFedIs(0x0f65082f, 0xd93ce6043888aa, 4, 40); SixFedIs(0x0f65082f, 0xd93ce6043888aa, 5, 38);
    SixFedIs(0x0f65082f, 0xd93ce6043888aa, 6, 33); SixFedIs(0x0f65082f, 0xd93ce6043888aa, 7, 32);
    EightBoxed(30, 29, 60, 12, 40, 38, 33, 32, 7, 1, 10, 9, 2, 0, 6, 1);
    Witnessed(0x0f65082f, 0xd93ce6043888aa, 0x8604958e, 30, 29, 60, 12, 40, 38, 33, 32,
      7, 1, 10, 9, 2, 0, 6, 1);
  }

  lemma {:induction false} Sample10Words()
    ensures TurnedTo(0x306c9e75521c44, 10, 0xd93ce6043888aa) && MixedTo(0xd86adae5, 0x8604958e, 0xbb99d2e4)
  {
    TurnedIs(0x306c9e75521c44, 10, 0xd93ce6043888aa);
    MixedIs(0xd86adae5, 0x8604958e, 0xbb99d2e4);
  }

  lemma {:induction false} Sample10()
    requires Picked(0x68545ba20ec8e5e0, 0x306c9e75521c44)
    ensures Leads(0x68545ba20ec8e5e0, 10, 0xd86adae5, 0x0f65082f, 0x95cdcae8, 0xe7af04d4)
  {
    Sample11();
    Sample10Boxes();
    Sample10Words();
    RoundIs(0x68545ba20ec8e5e0, 0x306c9e75521c44, 10, 0xd86adae5, 0x0f65082f, 0xd93ce6043888aa, 0x8604958e,
      0xbb99d2e4, 0x95cdcae8, 0xe7af04d4);
  }

  lemma {:induction false} Sample9Boxes()
    ensures BoxesGive(0xd86adae5, 0x64f39830e222a9, 0x806b7a45)
  {
    SixFedIs(0xd86adae5, 0x64f39830e222a9, 0, 18); SixFedIs(0xd86adae5, 0x64f39830e222a9, 1, 52);
    SixFedIs(0xd86adae5, 0x64f39830e222a9, 2, 28); SixFedIs(0xd86adae5, 0x64f39830e222a9, 3, 27);
    SixFedIs(0xd86adae5, 0x64f39830e222a9, 4, 44); SixFedIs(0xd86adae5, 0x64f39830e222a9, 5, 34);
    SixFedIs(0xd86adae5, 0x64f39830e222a9, 6, 48); SixFedIs(0xd86adae5, 0x64f39830e222a9, 7, 32);
    EightBoxed(18, 52, 28, 27, 44, 34, 48, 32, 10, 2, 5, 14, 13, 6, 0, 1);
    Witnessed(0xd86adae5, 0x64f39830e222a9, 0x806b7a45, 18, 52, 28, 27, 44, 34, 48, 32,
      10, 2, 5, 14, 13, 6, 0, 1);
  }

  lemma {:induction false} Sample9Words()
    ensures TurnedTo(0x306c9e75521c44, 9, 0x64f39830e222a9) && MixedTo(0x1d3daf89, 0x806b7a45, 0x0f65082f)
  {
    TurnedIs(0x306c9e75521c44, 9, 0x64f39830e222a9);
    MixedIs(0x1d3daf89, 0x806b7a45, 0x0f65082f);
  }

  lemma {:induction false} Sample9()
    requires Picked(0x68545ba20ec8e5e0, 0x306c9e75521c44)
    ensures Leads(0x68545ba20ec8e5e0, 9, 0x1d3daf89, 0xd86adae5, 0x95cdcae8, 0xe7af04d4)
  {
    Sample10();
    Sample9Boxes();
    Sample9Words();
    RoundIs(0x68545ba20ec8e5e0, 0x306c9e75521c44, 9, 0x1d3daf89, 0xd86adae5, 0x64f39830e222a9, 0x806b7a45,
      0x0f65082f, 0x95cdcae8, 0xe7af04d4);
  }

  lemma {:induction false} Sample8Boxes()
    ensures BoxesGive(0x1d3daf89, 0x93ce60d3888aa4, 0x3c8ac773)
  {
    SixFedIs(0x1d3daf89, 0x93ce60d3888aa4, 0, 26); SixFedIs(0x1d3daf89, 0x93ce60d3888aa4, 1, 24);
    SixFedIs(0x1d3daf89, 0x93ce60d3888aa4, 2, 43); SixFedIs(0x1d3daf89, 0x93ce60d3888aa4, 3, 60);
    SixFedIs(0x1d3daf89, 0x93ce60d3888aa4, 4, 47); SixFedIs(0x1d3daf89, 0x93ce60d3888aa4, 5, 7);
    SixFedIs(0x1d3daf89, 0x93ce60d3888aa4, 6, 21); SixFedIs(0x1d3daf89, 0x93ce60d3888aa4, 7, 21);
    EightBoxed(26, 24, 43, 60, 47, 7, 21, 21, 12, 14, 14, 3, 5, 1, 3, 12);
    Witnessed(0x1d3daf89, 0x93ce60d3888aa4, 0x3c8ac773, 26, 24, 43, 60, 47, 7, 21, 21,
      12, 14, 14, 3, 5, 1, 3, 12);
  }

  lemma {:induction false} Sample8Words()
    ensures TurnedTo(0x306c9e75521c44, 8, 0x93ce60d3888aa4) && MixedTo(0xf4cf69b2, 0x3c8ac773, 0xd86adae5)
  {
    TurnedIs(0x306c9e75521c44, 8, 0x93ce60d3888aa4);
    MixedIs(0xf4cf69b2, 0x3c8ac773, 0xd86adae5);
  }

  lemma {:induction false} Sample8()
    requires Picked(0x68545ba20ec8e5e0, 0x306c9e75521c44)
    ensures Leads(0x68545ba20ec8e5e0, 8, 0xf4cf69b2, 0x1d3daf89, 0x95cdcae8, 0xe7af04d4)
  {
    Sample9();
    Sample8Boxes();
    Sample8Words();
    RoundIs(0x68545ba20ec8e5e0, 0x306c9e75521c44, 8, 0xf4cf69b2, 0x1d3daf89, 0x93ce60d3888aa4, 0x3c8ac773,
      0xd86adae5, 0x95cdcae8, 0xe7af04d4);
  }

  lemma {:induction false} Sample7Boxes()
    ensures BoxesGive(0xf4cf69b2, 0x279cc1b7111548, 0x6109d46a)
  {
    SixFedIs(0xf4cf69b2, 0x279cc1b7111548, 0, 35); SixFedIs(0xf4cf69b2, 0x279cc1b7111548, 1, 38);
    SixFedIs(0xf4cf69b2, 0x279cc1b7111548, 2, 11); SixFedIs(0xf4cf69b2, 0x279cc1b7111548, 3, 59);
    SixFedIs(0xf4cf69b2, 0x279cc1b7111548, 4, 30); SixFedIs(0xf4cf69b2, 0x279cc1b7111548, 5, 38);
    SixFedIs(0xf4cf69b2, 0x279cc1b7111548, 6, 46); SixFedIs(0xf4cf69b2, 0x279cc1b7111548, 7, 42);
    EightBoxed(35, 38, 11, 59, 30, 38, 46, 42, 5, 6, 2, 11, 9, 0, 8, 6);
    Witnessed(0xf4cf69b2, 0x279cc1b7111548, 0x6109d46a, 35, 38, 11, 59, 30, 38, 46, 42,
      5, 6, 2, 11, 9, 0, 8, 6);
  }

  lemma {:induction false} Sample7Words()
    ensures TurnedTo(0x306c9e75521c44, 7, 0x279cc1b7111548) && MixedTo(0xf33ced0e, 0x6109d46a, 0x1d3daf89)
  {
    TurnedIs(0x306c9e75521c44, 7, 0x279cc1b7111548);
    MixedIs(0xf33ced0e, 0x6109d46a, 0x1d3daf89);
  }

  lemma {:induction false} Sample7()
    requires Picked(0x68545ba20ec8e5e0, 0x306c9e75521c44)
    ensures Leads(0x68545ba20ec8e5e0, 7, 0xf33ced0e, 0xf4cf69b2, 0x95cdcae8, 0xe7af04d4)
  {
    Sample8();
    Sample7Boxes();
    Sample7Words();
    RoundIs(0x68545ba20ec8e5e0, 0x306c9e75521c44, 7, 0xf33ced0e, 0xf4cf69b2, 0x279cc1b7111548, 0x6109d46a,
      0x1d3daf89, 0x95cdcae8, 0xe7af04d4);
  }

  lemma {:induction false} Sample6Boxes()
    ensures BoxesGive(0xf33ced0e, 0x9e7306cc445521, 0xe8819977)
  {
    SixFedIs(0xf33ced0e, 0x9e7306cc445521, 0, 9); SixFedIs(0xf33ced0e, 0x9e7306cc445521, 1, 47);
    SixFedIs(0xf33ced0e, 0x9e7306cc445521, 2, 25); SixFedIs(0xf33ced0e, 0x9e7306cc445521, 3, 9);
    SixFedIs(0xf33ced0e, 0x9e7306cc445521, 4, 46); SixFedIs(0xf33ced0e, 0x9e7306cc445521, 5, 43);
    SixFedIs(0xf33ced0e, 0x9e7306cc445521, 6, 30); SixFedIs(0xf33ced0e, 0x9e7306cc445521, 7, 57);
    EightBoxed(9, 47, 25, 9, 46, 43, 30, 57, 14, 14, 9, 9, 8, 1, 1, 7);
    Witnessed(0xf33ced0e, 0x9e7306cc445521, 0xe8819977, 9, 47, 25, 9, 46, 43, 30, 57,
      14, 14, 9, 9, 8, 1, 1, 7);
  }

  lemma {:induction false} Sample6Words()
    ensures TurnedTo(0x306c9e75521c44, 6, 0x9e7306cc445521) && MixedTo(0xfa1a3851, 0xe8819977, 0xf4cf69b2)
  {
    TurnedIs(0x306c9e75521c44, 6, 0x9e7306cc445521);
    MixedIs(0xfa1a3851, 0xe8819977, 0xf4cf69b2);
  }

  lemma {:induction false} Sample6()
    requires Picked(0x68545ba20ec8e5e0, 0x306c9e75521c44)
    ensures Leads(0x68545ba20ec8e5e0, 6, 0xfa1a3851, 0xf33ced0e, 0x95cdcae8, 0xe7af04d4)
  {
    Sample7();
    Sample6Boxes();
    Sample6Words();
    RoundIs(0x68545ba20ec8e5e0, 0x306c9e75521c44, 6, 0xfa1a3851, 0xf33ced0e, 0x9e7306cc445521, 0xe8819977,
      0xf4cf69b2, 0x95cdcae8, 0xe7af04d4);
  }

  lemma {:induction false} Sample5Boxes()
    ensures BoxesGive(0xfa1a3851, 0x79cc1b21115487, 0xa087e0f9)
  {
    SixFedIs(0xfa1a3851, 0x79cc1b21115487, 0, 53); SixFedIs(0xfa1a3851, 0x79cc1b21115487, 1, 31);
    SixFedIs(0xfa1a3851, 0x79cc1b21115487, 2, 16); SixFedIs(0xfa1a3851, 0x79cc1b21115487, 3, 55);
    SixFedIs(0xfa1a3851, 0x79cc1b21115487, 4, 14); SixFedIs(0xfa1a3851, 0x79cc1b21115487, 5, 50);
    SixFedIs(0xfa1a3851, 0x79cc1b21115487, 6, 7); SixFedIs(0xfa1a3851, 0x79cc1b21115487, 7, 55);
    EightBoxed(53, 31, 16, 55, 14, 50, 7, 55, 9, 15, 0, 7, 14, 1, 0, 5);
    Witnessed(0xfa1a3851, 0x79cc1b21115487, 0xa087e0f9, 53, 31, 16, 55, 14, 50, 7, 55,
      9, 15, 0, 7, 14, 1, 0, 5);
  }

  lemma {:induction false} Sample5Words()
    ensures TurnedTo(0x306c9e75521c44, 5, 0x79cc1b21115487) && MixedTo(0xbe22de8d, 0xa087e0f9, 0xf33ced0e)
  {
    TurnedIs(0x306c9e75521c44, 5, 0x79cc1b21115487);
    MixedIs(0xbe22de8d, 0xa087e0f9, 0xf33ced0e);
  }

  lemma {:induction false} Sample5()
    requires Picked(0x68545ba20ec8e5e0, 0x306c9e75521c44)
    ensures Leads(0x68545ba20ec8e5e0, 5, 0xbe22de8d, 0xfa1a3851, 0x95cdcae8, 0xe7af04d4)
  {
    Sample6();
    Sample5Boxes();
    Sample5Words();
    RoundIs(0x68545ba20ec8e5e0, 0x306c9e75521c44, 5, 0xbe22de8d, 0xfa1a3851, 0x79cc1b21115487, 0xa087e0f9,
      0xf33ced0e, 0x95cdcae8, 0xe7af04d4);
  }

  lemma {:induction false} Sample4Boxes()
    ensures BoxesGive(0xbe22de8d, 0xe7306c9445521c, 0xcc581d44)
  {
    SixFedIs(0xbe22de8d, 0xe7306c9445521c, 0, 57); SixFedIs(0xbe22de8d, 0xe7306c9445521c, 1, 52);
    SixFedIs(0xbe22de8d, 0xe7306c9445521c, 2, 54); SixFedIs(0xbe22de8d, 0xe7306c9445521c, 3, 15);
    SixFedIs(0xbe22de8d, 0xe7306c9445521c, 4, 37); SixFedIs(0xbe22de8d, 0xe7306c9445521c, 5, 8);
    SixFedIs(0xbe22de8d, 0xe7306c9445521c, 6, 50); SixFedIs(0xbe22de8d, 0xe7306c9445521c, 7, 10);
    EightBoxed(57, 52, 54, 15, 37, 8, 50, 10, 2, 2, 11, 8, 1, 10, 3, 3);
    Witnessed(0xbe22de8d, 0xe7306c9445521c, 0xcc581d44, 57, 52, 54, 15, 37, 8, 50, 10,
      2, 2, 11, 8, 1, 10, 3, 3);
  }

  lemma {:induction false} Sample4Words()
    ensures TurnedTo(0x306c9e75521c44, 4, 0xe7306c9445521c) && MixedTo(0xd8ea7c3f, 0xcc581d44, 0xfa1a3851)
  {
    TurnedIs(0x306c9e75521c44, 4, 0xe7306c9445521c);
    MixedIs(0xd8ea7c3f, 0xcc581d44, 0xfa1a3851);
  }

  lemma {:induction false} Sample4()
    requires Picked(0x68545ba20ec8e5e0, 0x306c9e75521c44)
    ensures Leads(0x68545ba20ec8e5e0, 4, 0xd8ea7c3f, 0xbe22de8d, 0x95cdcae8, 0xe7af04d4)
  {
    Sample5();
    Sample4Boxes();
    Sample4Words();
    RoundIs(0x68545ba20ec8e5e0, 0x306c9e75521c44, 4, 0xd8ea7c3f, 0xbe22de8d, 0xe7306c9445521c, 0xcc581d44,
      0xfa1a3851, 0x95cdcae8, 0xe7af04d4);
  }

  lemma {:induction false} Sample3Boxes()
    ensures BoxesGive(0xd8ea7c3f, 0x9cc1b271154871, 0x9d73e864)
  {
    SixFedIs(0xd8ea7c3f, 0x9cc1b271154871, 0, 13); SixFedIs(0xd8ea7c3f, 0x9cc1b271154871, 1, 27);
    SixFedIs(0xd8ea7c3f, 0x9cc1b271154871, 2, 62); SixFedIs(0xd8ea7c3f, 0x9cc1b271154871, 3, 13);
    SixFedIs(0xd8ea7c3f, 0x9cc1b271154871, 4, 11); SixFedIs(0xd8ea7c3f, 0x9cc1b271154871, 5, 58);
    SixFedIs(0xd8ea7c3f, 0x9cc1b271154871, 6, 9); SixFedIs(0xd8ea7c3f, 0x9cc1b271154871, 7, 43);
    EightBoxed(13, 27, 62, 13, 11, 58, 9, 43, 2, 6, 1, 7, 12, 14, 11, 9);
    Witnessed(0xd8ea7c3f, 0x9cc1b271154871, 0x9d73e864, 13, 27, 62, 13, 11, 58, 9, 43,
      2, 6, 1, 7, 12, 14, 11, 9);
  }

  lemma {:induction false} Sample3Words()
    ensures TurnedTo(0x306c9e75521c44, 3, 0x9cc1b271154871) && MixedTo(0x265af876, 0x9d73e864, 0xbe22de8d)
  {
    TurnedIs(0x306c9e75521c44, 3, 0x9cc1b271154871);
    MixedIs(0x265af876, 0x9d73e864, 0xbe22de8d);
  }

  lemma {:induction false} Sample3()
    requires Picked(0x68545ba20ec8e5e0, 0x306c9e75521c44)
    ensures Leads(0x68545ba20ec8e5e0, 3, 0x265af876, 0xd8ea7c3f, 0x95cdcae8, 0xe7af04d4)
  {
    Sample4();
    Sample3Boxes();
    Sample3Words();
    RoundIs(0x68545ba20ec8e5e0, 0x306c9e75521c44, 3, 0x265af876, 0xd8ea7c3f, 0x9cc1b271154871, 0x9d73e864,
      0xbe22de8d, 0x95cdcae8, 0xe7af04d4);
  }

  lemma {:induction false} Sample2Boxes()
    ensures BoxesGive(0x265af876, 0x7306c9e45521c4, 0x6af408f6)
  {
    SixFedIs(0x265af876, 0x7306c9e45521c4, 0, 47); SixFedIs(0x265af876, 0x7306c9e45521c4, 1, 31);
    SixFedIs(0x265af876, 0x7306c9e45521c4, 2, 19); SixFedIs(0x265af876, 0x7306c9e45521c4, 3, 25);
    SixFedIs(0x265af876, 0x7306c9e45521c4, 4, 17); SixFedIs(0x265af876, 0x7306c9e45521c4, 5, 24);
    SixFedIs(0x265af876, 0x7306c9e45521c4, 6, 42); SixFedIs(0x265af876, 0x7306c9e45521c4, 7, 42);
    EightBoxed(47, 31, 19, 25, 17, 24, 42, 42, 6, 15, 1, 0, 2, 15, 5, 6);
    Witnessed(0x265af876, 0x7306c9e45521c4, 0x6af408f6, 47, 31, 19, 25, 17, 24, 42, 42,
      6, 15, 1, 0, 2, 15, 5, 6);
  }

  lemma {:induction false} Sample2Words()
    ensures TurnedTo(0x306c9e75521c44, 2, 0x7306c9e45521c4) && MixedTo(0xc5ad2055, 0x6af408f6, 0xd8ea7c3f)
  {
    TurnedIs(0x306c9e75521c44, 2, 0x7306c9e45521c4);
    MixedIs(0xc5ad2055, 0x6af408f6, 0xd8ea7c3f);
  }

  lemma {:induction false} Sample2()
    requires Picked(0x68545ba20ec8e5e0, 0x306c9e75521c44)
    ensures Leads(0x68545ba20ec8e5e0, 2, 0xc5ad2055, 0x265af876, 0x95cdcae8, 0xe7af04d4)
  {
    Sample3();
    Sample2Boxes();
    Sample2Words();
    RoundIs(0x68545ba20ec8e5e0, 0x306c9e75521c44, 2, 0xc5ad2055, 0x265af876, 0x7306c9e45521c4, 0x6af408f6,
      0xd8ea7c3f, 0x95cdcae8, 0xe7af04d4);
  }

  lemma {:induction false} Sample1Boxes()
    ensures BoxesGive(0xc5ad2055, 0xcc1b2791548711, 0xc34e5d50)
  {
    SixFedIs(0xc5ad2055, 0xcc1b2791548711, 0, 31); SixFedIs(0xc5ad2055, 0xcc1b2791548711, 1, 58);
    SixFedIs(0xc5ad2055, 0xcc1b2791548711, 2, 3); SixFedIs(0xc5ad2055, 0xcc1b2791548711, 3, 37);
    SixFedIs(0xc5ad2055, 0xcc1b2791548711, 4, 57); SixFedIs(0xc5ad2055, 0xcc1b2791548711, 5, 41);
    SixFedIs(0xc5ad2055, 0xcc1b2791548711, 6, 18); SixFedIs(0xc5ad2055, 0xcc1b2791548711, 7, 10);
    EightBoxed(31, 58, 3, 37, 57, 41, 18, 10, 0, 10, 11, 10, 7, 2, 12, 3);
    Witnessed(0xc5ad2055, 0xcc1b2791548711, 0xc34e5d50, 31, 58, 3, 37, 57, 41, 18, 10,
      0, 10, 11, 10, 7, 2, 12, 3);
  }

  lemma {:induction false} Sample1Words()
    ensures TurnedTo(0x306c9e75521c44, 1, 0xcc1b2791548711) && MixedTo(0x85ca8650, 0xc34e5d50, 0x265af876)
  {
    TurnedIs(0x306c9e75521c44, 1, 0xcc1b2791548711);
    MixedIs(0x85ca8650, 0xc34e5d50, 0x265af876);
  }

  lemma {:induction false} Sample1()
    requires Picked(0x68545ba20ec8e5e0, 0x306c9e75521c44)
    ensures Leads(0x68545ba20ec8e5e0, 1, 0x85ca8650, 0xc5ad2055, 0x95cdcae8, 0xe7af04d4)
  {
    Sample2();
    Sample1Boxes();
    Sample1Words();
    RoundIs(0x68545ba20ec8e5e0, 0x306c9e75521c44, 1, 0x85ca8650, 0xc5ad2055, 0xcc1b2791548711, 0xc34e5d50,
      0x265af876, 0x95cdcae8, 0xe7af04d4);
  }

  lemma {:induction false} Sample0Boxes()
    ensures BoxesGive(0x85ca8650, 0x98364f32a90e22, 0x545ca736)
  {
    SixFedIs(0x85ca8650, 0x98364f32a90e22, 0, 47); SixFedIs(0x85ca8650, 0x98364f32a90e22, 1, 34);
    SixFedIs(0x85ca8650, 0x98364f32a90e22, 2, 24); SixFedIs(0x85ca8650, 0x98364f32a90e22, 3, 56);
    SixFedIs(0x85ca8650, 0x98364f32a90e22, 4, 23); SixFedIs(0x85ca8650, 0x98364f32a90e22, 5, 32);
    SixFedIs(0x85ca8650, 0x98364f32a90e22, 6, 55); SixFedIs(0x85ca8650, 0x98364f32a90e22, 7, 11);
    EightBoxed(47, 34, 24, 56, 23, 32, 55, 11, 6, 12, 14, 5, 3, 10, 2, 10);
    Witnessed(0x85ca8650, 0x98364f32a90e22, 0x545ca736, 47, 34, 24, 56, 23, 32, 55, 11,
      6, 12, 14, 5, 3, 10, 2, 10);
  }

  lemma {:induction false} Sample0Words()
    ensures TurnedTo(0x306c9e75521c44, 0, 0x98364f32a90e22) && MixedTo(0xec44f448, 0x545ca736, 0xc5ad2055)
  {
    TurnedIs(0x306c9e75521c44, 0, 0x98364f32a90e22);
    MixedIs(0xec44f448, 0x545ca736, 0xc5ad2055);
  }

  lemma {:induction false} Sample0()
    requires Picked(0x68545ba20ec8e5e0, 0x306c9e75521c44)
    ensures Enciphers(0x68545ba20ec8e5e0, 0xec44f448, 0x85ca8650, 0x95cdcae8, 0xe7af04d4)
  {
    Sample1();
    Sample0Boxes();
    Sample0Words();
    FirstRound(0x68545ba20ec8e5e0, 0x306c9e75521c44, 0xec44f448, 0x85ca8650, 0x98364f32a90e22, 0x545ca736,
      0xc5ad2055, 0x95cdcae8, 0xe7af04d4);
  }

  lemma {:induction false} SampleKey()
    ensures Written([0xe0, 0xe5, 0xc8, 0x0e, 0xa2, 0x5b, 0x54, 0x68], Whole(0x68545ba20ec8e5e0))
  {
    BitsAre(Whole(0x68545ba20ec8e5e0), 0xe0, 0xe5, 0xc8, 0x0e, 0xa2, 0x5b, 0x54, 0x68);
  }

  lemma {:induction false} SampleData()
    ensures Written([0xdc, 0xbb, 0x88, 0x09, 0x92, 0xec, 0x14, 0x40], Whole(0x4014ec920988bbdc))
  {
    BitsAre(Whole(0x4014ec920988bbdc), 0xdc, 0xbb, 0x88, 0x09, 0x92, 0xec, 0x14, 0x40);
  }

  lemma {:induction false} SampleOut()
    ensures Written([0xfb, 0x6b, 0x52, 0x81, 0x3a, 0xf5, 0x58, 0xf0], Whole(0xf058f53a81526bfb))
  {
    BitsAre(Whole(0xf058f53a81526bfb), 0xfb, 0x6b, 0x52, 0x81, 0x3a, 0xf5, 0x58, 0xf0);
  }

  lemma {:induction false} SampleEnds()
    ensures IpOf(Whole(0x4014ec920988bbdc)) == Half(0xec44f448) + Half(0x85ca8650)
    ensures IpOf(Whole(0xf058f53a81526bfb)) == Half(0x95cdcae8) + Half(0xe7af04d4)
  {
    IpIs(Whole(0x4014ec920988bbdc), Half(0xec44f448), Half(0x85ca8650));
    IpIs(Whole(0xf058f53a81526bfb), Half(0x95cdcae8), Half(0xe7af04d4));
  }

  lemma {:induction false} SamplePicked()
    ensures Picked(0x68545ba20ec8e5e0, 0x306c9e75521c44)
  {
    PickedIs(0x68545ba20ec8e5e0, 0x306c9e75521c44);
  }

  /** The published answer for this key and block. */
  lemma {:induction false} SampleAnswer()
    ensures Encrypted([0xe0, 0xe5, 0xc8, 0x0e, 0xa2, 0x5b, 0x54, 0x68],
      [0xdc, 0xbb, 0x88, 0x09, 0x92, 0xec, 0x14, 0x40])
      == Some([0xfb, 0x6b, 0x52, 0x81, 0x3a, 0xf5, 0x58, 0xf0])
  {
    SampleKey();
    SampleData();
    SampleOut();
    SampleEnds();
    SamplePicked();
    Sample0();
    KnownWords([0xe0, 0xe5, 0xc8, 0x0e, 0xa2, 0x5b, 0x54, 0x68], [0xdc, 0xbb, 0x88, 0x09, 0x92, 0xec, 0x14, 0x40],
      [0xfb, 0x6b, 0x52, 0x81, 0x3a, 0xf5, 0x58, 0xf0], 0x68545ba20ec8e5e0, 0x4014ec920988bbdc, 0xf058f53a81526bfb,
      0xec44f448, 0x85ca8650, 0x95cdcae8, 0xe7af04d4);
  }

  // ---- The key of zeros and the block of zeros, answer 8CA64DE9C1B123A7 ----

  lemma {:induction false} Blank15Boxes()
    ensures BoxesGive(0x43b057dd, 0x0, 0xb0d7143d)
  {
    SixFedIs(0x43b057dd, 0x0, 0, 58); SixFedIs(0x43b057dd, 0x0, 1, 59);
    SixFedIs(0x43b057dd, 0x0, 2, 47); SixFedIs(0x43b057dd, 0x0, 3, 10);
    SixFedIs(0x43b057dd, 0x0, 4, 32); SixFedIs(0x43b057dd, 0x0, 5, 54);
    SixFedIs(0x43b057dd, 0x0, 6, 7); SixFedIs(0x43b057dd, 0x0, 7, 40);
    EightBoxed(58, 59, 47, 10, 32, 54, 7, 40, 11, 12, 2, 8, 14, 11, 0, 13);
    Witnessed(0x43b057dd, 0x0, 0xb0d7143d, 58, 59, 47, 10, 32, 54, 7, 40,
      11, 12, 2, 8, 14, 11, 0, 13);
  }

  lemma {:induction false} Blank15Words()
    ensures TurnedTo(0x0, 15, 0x0) && MixedTo(0x50b531a0, 0xb0d7143d, 0x3fe10438)
  {
    TurnedIs(0x0, 15, 0x0);
    MixedIs(0x50b531a0, 0xb0d7143d, 0x3fe10438);
  }

  lemma {:induction false} Blank15()
    requires Picked(0x0, 0x0)
    ensures Leads(0x0, 15, 0x50b531a0, 0x43b057dd, 0x3fe10438, 0x43b057dd)
  {
    Blank15Boxes();
    Blank15Words();
    RoundIs(0x0, 0x0, 15, 0x50b531a0, 0x43b057dd, 0x0, 0xb0d7143d,
      0x3fe10438, 0x3fe10438, 0x43b057dd);
  }

  lemma {:induction false} Blank14Boxes()
    ensures BoxesGive(0x50b531a0, 0x0, 0xc6ef8247)
  {
    SixFedIs(0x50b531a0, 0x0, 0, 0); SixFedIs(0x50b531a0, 0x0, 1, 52);
    SixFedIs(0x50b531a0, 0x0, 2, 35); SixFedIs(0x50b531a0, 0x0, 3, 38);
    SixFedIs(0x50b531a0, 0x0, 4, 42); SixFedIs(0x50b531a0, 0x0, 5, 22);
    SixFedIs(0x50b531a0, 0x0, 6, 33); SixFedIs(0x50b531a0, 0x0, 7, 10);
    EightBoxed(0, 52, 35, 38, 42, 22, 33, 10, 14, 2, 4, 1, 15, 7, 6, 3);
    Witnessed(0x50b531a0, 0x0, 0xc6ef8247, 0, 52, 35, 38, 42, 22, 33, 10,
      14, 2, 4, 1, 15, 7, 6, 3);
  }

  lemma {:induction false} Blank14Words()
    ensures TurnedTo(0x0, 14, 0x0) && MixedTo(0x52c5ba5a, 0xc6ef8247, 0x43b057dd)
  {
    TurnedIs(0x0, 14, 0x0);
    MixedIs(0x52c5ba5a, 0xc6ef8247, 0x43b057dd);
  }

  lemma {:induction false} Blank14()
    requires Picked(0x0, 0x0)
    ensures Leads(0x0, 14, 0x52c5ba5a, 0x50b531a0, 0x3fe10438, 0x43b057dd)
  {
    Blank15();
    Blank14Boxes();
    Blank14Words();
    RoundIs(0x0, 0x0, 14, 0x52c5ba5a, 0x50b531a0, 0x0, 0xc6ef8247,
      0x43b057dd, 0x3fe10438, 0x43b057dd);
  }

  lemma {:induction false} Blank13Boxes()
    ensures BoxesGive(0x52c5ba5a, 0x0, 0xc8f3e234)
  {
    SixFedIs(0x52c5ba5a, 0x0, 0, 52); SixFedIs(0x52c5ba5a, 0x0, 1, 11);
    SixFedIs(0x52c5ba5a, 0x0, 2, 52); SixFedIs(0x52c5ba5a, 0x0, 3, 55);
    SixFedIs(0x52c5ba5a, 0x0, 4, 11); SixFedIs(0x52c5ba5a, 0x0, 5, 24);
    SixFedIs(0x52c5ba5a, 0x0, 6, 37); SixFedIs(0x52c5ba5a, 0x0, 7, 10);
    EightBoxed(52, 11, 52, 55, 11, 24, 37, 10, 2, 12, 4, 7, 12, 15, 1, 3);
    Witnessed(0x52c5ba5a, 0x0, 0xc8f3e234, 52, 11, 52, 55, 11, 24, 37, 10,
      2, 12, 4, 7, 12, 15, 1, 3);
  }

  lemma {:induction false} Blank13Words()
    ensures TurnedTo(0x0, 13, 0x0) && MixedTo(0x48e9c769, 0xc8f3e234, 0x50b531a0)
  {
    TurnedIs(0x0, 13, 0x0);
    MixedIs(0x48e9c769, 0xc8f3e234, 0x50b531a0);
  }

  lemma {:induction false} Blank13()
    requires Picked(0x0, 0x0)
    ensures Leads(0x0, 13, 0x48e9c769, 0x52c5ba5a, 0x3fe10438, 0x43b057dd)
  {
    Blank14();
    Blank13Boxes();
    Blank13Words();
    RoundIs(0x0, 0x0, 13, 0x48e9c769, 0x52c5ba5a, 0x0, 0xc8f3e234,
      0x50b531a0, 0x3fe10438, 0x43b057dd);
  }

  lemma {:induction false} Blank12Boxes()
    ensures BoxesGive(0x48e9c769, 0x0, 0x72c9a425)
  {
    SixFedIs(0x48e9c769, 0x0, 0, 18); SixFedIs(0x48e9c769, 0x0, 1, 45);
    SixFedIs(0x48e9c769, 0x0, 2, 14); SixFedIs(0x48e9c769, 0x0, 3, 56);
    SixFedIs(0x48e9c769, 0x0, 4, 19); SixFedIs(0x48e9c769, 0x0, 5, 29);
    SixFedIs(0x48e9c769, 0x0, 6, 17); SixFedIs(0x48e9c769, 0x0, 7, 41);
    EightBoxed(18, 45, 14, 56, 19, 29, 17, 41, 10, 4, 2, 5, 9, 3, 4, 14);
    Witnessed(0x48e9c769, 0x0, 0x72c9a425, 18, 45, 14, 56, 19, 29, 17, 41,
      10, 4, 2, 5, 9, 3, 4, 14);
  }

  lemma {:induction false} Blank12Words()
    ensures TurnedTo(0x0, 12, 0x0) && MixedTo(0x7e89f7cf, 0x72c9a425, 0x52c5ba5a)
  {
    TurnedIs(0x0, 12, 0x0);
    MixedIs(0x7e89f7cf, 0x72c9a425, 0x52c5ba5a);
  }

  lemma {:induction false} Blank12()
    requires Picked(0x0, 0x0)
    ensures Leads(0x0, 12, 0x7e89f7cf, 0x48e9c769, 0x3fe10438, 0x43b057dd)
  {
    Blank13();
    Blank12Boxes();
    Blank12Words();
    RoundIs(0x0, 0x0, 12, 0x7e89f7cf, 0x48e9c769, 0x0, 0x72c9a425,
      0x52c5ba5a, 0x3fe10438, 0x43b057dd);
  }

  lemma {:induction false} Blank11Boxes()
    ensures BoxesGive(0x7e89f7cf, 0x0, 0x6e79948e)
  {
    SixFedIs(0x7e89f7cf, 0x0, 0, 30); SixFedIs(0x7e89f7cf, 0x0, 1, 57);
    SixFedIs(0x7e89f7cf, 0x0, 2, 47); SixFedIs(0x7e89f7cf, 0x0, 3, 62);
    SixFedIs(0x7e89f7cf, 0x0, 4, 19); SixFedIs(0x7e89f7cf, 0x0, 5, 17);
    SixFedIs(0x7e89f7cf, 0x0, 6, 61); SixFedIs(0x7e89f7cf, 0x0, 7, 47);
    EightBoxed(30, 57, 47, 62, 19, 17, 61, 47, 7, 1, 2, 9, 9, 14, 7, 6);
    Witnessed(0x7e89f7cf, 0x0, 0x6e79948e, 30, 57, 47, 62, 19, 17, 61, 47,
      7, 1, 2, 9, 9, 14, 7, 6);
  }

  lemma {:induction false} Blank11Words()
    ensures TurnedTo(0x0, 11, 0x0) && MixedTo(0x3e8a8ba4, 0x6e79948e, 0x48e9c769)
  {
    TurnedIs(0x0, 11, 0x0);
    MixedIs(0x3e8a8ba4, 0x6e79948e, 0x48e9c769);
  }

  lemma {:induction false} Blank11()
    requires Picked(0x0, 0x0)
    ensures Leads(0x0, 11, 0x3e8a8ba4, 0x7e89f7cf, 0x3fe10438, 0x43b057dd)
  {
    Blank12();
    Blank11Boxes();
    Blank11Words();
    RoundIs(0x0, 0x0, 11, 0x3e8a8ba4, 0x7e89f7cf, 0x0, 0x6e79948e,
      0x48e9c769, 0x3fe10438, 0x43b057dd);
  }

  lemma {:induction false} Blank10Boxes()
    ensures BoxesGive(0x3e8a8ba4, 0x0, 0xfe7b654b)
  {
    SixFedIs(0x3e8a8ba4, 0x0, 0, 8); SixFedIs(0x3e8a8ba4, 0x0, 1, 52);
    SixFedIs(0x3e8a8ba4, 0x0, 2, 23); SixFedIs(0x3e8a8ba4, 0x0, 3, 17);
    SixFedIs(0x3e8a8ba4, 0x0, 4, 21); SixFedIs(0x3e8a8ba4, 0x0, 5, 17);
    SixFedIs(0x3e8a8ba4, 0x0, 6, 61); SixFedIs(0x3e8a8ba4, 0x0, 7, 7);
    EightBoxed(8, 52, 23, 17, 21, 17, 61, 7, 13, 2, 10, 6, 13, 14, 7, 15);
    Witnessed(0x3e8a8ba4, 0x0, 0xfe7b654b, 8, 52, 23, 17, 21, 17, 61, 7,
      13, 2, 10, 6, 13, 14, 7, 15);
  }

  lemma {:induction false} Blank10Words()
    ensures TurnedTo(0x0, 10, 0x0) && MixedTo(0x0a309811, 0xfe7b654b, 0x7e89f7cf)
  {
    TurnedIs(0x0, 10, 0x0);
    MixedIs(0x0a309811, 0xfe7b654b, 0x7e89f7cf);
  }

  lemma {:induction false} Blank10()
    requires Picked(0x0, 0x0)
    ensures Leads(0x0, 10, 0x0a309811, 0x3e8a8ba4, 0x3fe10438, 0x43b057dd)
  {
    Blank11();
    Blank10Boxes();
    Blank10Words();
    RoundIs(0x0, 0x0, 10, 0x0a309811, 0x3e8a8ba4, 0x0, 0xfe7b654b,
      0x7e89f7cf, 0x3fe10438, 0x43b057dd);
  }

  lemma {:induction false} Blank9Boxes()
    ensures BoxesGive(0x0a309811, 0x0, 0x407d8e95)
  {
    SixFedIs(0x0a309811, 0x0, 0, 34); SixFedIs(0x0a309811, 0x0, 1, 2);
    SixFedIs(0x0a309811, 0x0, 2, 48); SixFedIs(0x0a309811, 0x0, 3, 19);
    SixFedIs(0x0a309811, 0x0, 4, 33); SixFedIs(0x0a309811, 0x0, 5, 6);
    SixFedIs(0x0a309811, 0x0, 6, 20); SixFedIs(0x0a309811, 0x0, 7, 33);
    EightBoxed(34, 2, 48, 19, 33, 6, 20, 33, 10, 9, 7, 1, 11, 14, 0, 2);
    Witnessed(0x0a309811, 0x0, 0x407d8e95, 34, 2, 48, 19, 33, 6, 20, 33,
      10, 9, 7, 1, 11, 14, 0, 2);
  }

  lemma {:induction false} Blank9Words()
    ensures TurnedTo(0x0, 9, 0x0) && MixedTo(0x0fc85e09, 0x407d8e95, 0x3e8a8ba4)
  {
    TurnedIs(0x0, 9, 0x0);
    MixedIs(0x0fc85e09, 0x407d8e95, 0x3e8a8ba4);
  }

  lemma {:induction false} Blank9()
    requires Picked(0x0, 0x0)
    ensures Leads(0x0, 9, 0x0fc85e09, 0x0a309811, 0x3fe10438, 0x43b057dd)
  {
    Blank10();
    Blank9Boxes();
    Blank9Words();
    RoundIs(0x0, 0x0, 9, 0x0fc85e09, 0x0a309811, 0x0, 0x407d8e95,
      0x3e8a8ba4, 0x3fe10438, 0x43b057dd);
  }

  lemma {:induction false} Blank8Boxes()
    ensures BoxesGive(0x0fc85e09, 0x0, 0x4433c505)
  {
    SixFedIs(0x0fc85e09, 0x0, 0, 18); SixFedIs(0x0fc85e09, 0x0, 1, 1);
    SixFedIs(0x0fc85e09, 0x0, 2, 60); SixFedIs(0x0fc85e09, 0x0, 3, 11);
    SixFedIs(0x0fc85e09, 0x0, 4, 16); SixFedIs(0x0fc85e09, 0x0, 5, 57);
    SixFedIs(0x0fc85e09, 0x0, 6, 31); SixFedIs(0x0fc85e09, 0x0, 7, 33);
    EightBoxed(18, 1, 60, 11, 16, 57, 31, 33, 10, 0, 10, 3, 12, 12, 2, 2);
    Witnessed(0x0fc85e09, 0x0, 0x4433c505, 18, 1, 60, 11, 16, 57, 31, 33,
      10, 0, 10, 3, 12, 12, 2, 2);
  }

  lemma {:induction false} Blank8Words()
    ensures TurnedTo(0x0, 8, 0x0) && MixedTo(0x3ad0fb98, 0x4433c505, 0x0a309811)
  {
    TurnedIs(0x0, 8, 0x0);
    MixedIs(0x3ad0fb98, 0x4433c505, 0x0a309811);
  }

  lemma {:induction false} Blank8()
    requires Picked(0x0, 0x0)
    ensures Leads(0x0, 8, 0x3ad0fb98, 0x0fc85e09, 0x3fe10438, 0x43b057dd)
  {
    Blank9();
    Blank8Boxes();
    Blank8Words();
    RoundIs(0x0, 0x0, 8, 0x3ad0fb98, 0x0fc85e09, 0x0, 0x4433c505,
      0x0a309811, 0x3fe10438, 0x43b057dd);
  }

  lemma {:induction false} Blank7Boxes()
    ensures BoxesGive(0x3ad0fb98, 0x0, 0xf22d2a6f)
  {
    SixFedIs(0x3ad0fb98, 0x0, 0, 48); SixFedIs(0x3ad0fb98, 0x0, 1, 51);
    SixFedIs(0x3ad0fb98, 0x0, 2, 55); SixFedIs(0x3ad0fb98, 0x0, 3, 31);
    SixFedIs(0x3ad0fb98, 0x0, 4, 33); SixFedIs(0x3ad0fb98, 0x0, 5, 26);
    SixFedIs(0x3ad0fb98, 0x0, 6, 53); SixFedIs(0x3ad0fb98, 0x0, 7, 7);
    EightBoxed(48, 51, 55, 31, 33, 26, 53, 7, 15, 6, 5, 4, 11, 4, 4, 15);
    Witnessed(0x3ad0fb98, 0x0, 0xf22d2a6f, 48, 51, 55, 31, 33, 26, 53, 7,
      15, 6, 5, 4, 11, 4, 4, 15);
  }

  lemma {:induction false} Blank7Words()
    ensures TurnedTo(0x0, 7, 0x0) && MixedTo(0x529197bf, 0xf22d2a6f, 0x0fc85e09)
  {
    TurnedIs(0x0, 7, 0x0);
    MixedIs(0x529197bf, 0xf22d2a6f, 0x0fc85e09);
  }

  lemma {:induction false} Blank7()
    requires Picked(0x0, 0x0)
    ensures Leads(0x0, 7, 0x529197bf, 0x3ad0fb98, 0x3fe10438, 0x43b057dd)
  {
    Blank8();
    Blank7Boxes();
    Blank7Words();
    RoundIs(0x0, 0x0, 7, 0x529197bf, 0x3ad0fb98, 0x0, 0xf22d2a6f,
      0x0fc85e09, 0x3fe10438, 0x43b057dd);
  }

  lemma {:induction false} Blank6Boxes()
    ensures BoxesGive(0x529197bf, 0x0, 0x68b6e4a1)
  {
    SixFedIs(0x529197bf, 0x0, 0, 62); SixFedIs(0x529197bf, 0x0, 1, 55);
    SixFedIs(0x529197bf, 0x0, 2, 47); SixFedIs(0x529197bf, 0x0, 3, 50);
    SixFedIs(0x529197bf, 0x0, 4, 35); SixFedIs(0x529197bf, 0x0, 5, 18);
    SixFedIs(0x529197bf, 0x0, 6, 37); SixFedIs(0x529197bf, 0x0, 7, 42);
    EightBoxed(62, 55, 47, 50, 35, 18, 37, 42, 8, 5, 2, 7, 6, 13, 1, 6);
    Witnessed(0x529197bf, 0x0, 0x68b6e4a1, 62, 55, 47, 50, 35, 18, 37, 42,
      8, 5, 2, 7, 6, 13, 1, 6);
  }

  lemma {:induction false} Blank6Words()
    ensures TurnedTo(0x0, 6, 0x0) && MixedTo(0x07de98d1, 0x68b6e4a1, 0x3ad0fb98)
  {
    TurnedIs(0x0, 6, 0x0);
    MixedIs(0x07de98d1, 0x68b6e4a1, 0x3ad0fb98);
  }

  lemma {:induction false} Blank6()
    requires Picked(0x0, 0x0)
    ensures Leads(0x0, 6, 0x07de98d1, 0x529197bf, 0x3fe10438, 0x43b057dd)
  {
    Blank7();
    Blank6Boxes();
    Blank6Words();
    RoundIs(0x0, 0x0, 6, 0x07de98d1, 0x529197bf, 0x0, 0x68b6e4a1,
      0x3ad0fb98, 0x3fe10438, 0x43b057dd);
  }

  lemma {:induction false} Blank5Boxes()
    ensures BoxesGive(0x07de98d1, 0x0, 0x89eb85b5)
  {
    SixFedIs(0x07de98d1, 0x0, 0, 34); SixFedIs(0x07de98d1, 0x0, 1, 26);
    SixFedIs(0x07de98d1, 0x0, 2, 49); SixFedIs(0x07de98d1, 0x0, 3, 19);
    SixFedIs(0x07de98d1, 0x0, 4, 61); SixFedIs(0x07de98d1, 0x0, 5, 59);
    SixFedIs(0x07de98d1, 0x0, 6, 15); SixFedIs(0x07de98d1, 0x0, 7, 32);
    EightBoxed(34, 26, 49, 19, 61, 59, 15, 32, 10, 13, 10, 1, 13, 7, 9, 1);
    Witnessed(0x07de98d1, 0x0, 0x89eb85b5, 34, 26, 49, 19, 61, 59, 15, 32,
      10, 13, 10, 1, 13, 7, 9, 1);
  }

  lemma {:induction false} Blank5Words()
    ensures TurnedTo(0x0, 5, 0x0) && MixedTo(0xea47a27a, 0x89eb85b5, 0x529197bf)
  {
    TurnedIs(0x0, 5, 0x0);
    MixedIs(0xea47a27a, 0x89eb85b5, 0x529197bf);
  }

  lemma {:induction false} Blank5()
    requires Picked(0x0, 0x0)
    ensures Leads(0x0, 5, 0xea47a27a, 0x07de98d1, 0x3fe10438, 0x43b057dd)
  {
    Blank6();
    Blank5Boxes();
    Blank5Words();
    RoundIs(0x0, 0x0, 5, 0xea47a27a, 0x07de98d1, 0x0, 0x89eb85b5,
      0x529197bf, 0x3fe10438, 0x43b057dd);
  }

  lemma {:induction false} Blank4Boxes()
    ensures BoxesGive(0xea47a27a, 0x0, 0x4050f649)
  {
    SixFedIs(0xea47a27a, 0x0, 0, 53); SixFedIs(0xea47a27a, 0x0, 1, 15);
    SixFedIs(0xea47a27a, 0x0, 2, 4); SixFedIs(0xea47a27a, 0x0, 3, 52);
    SixFedIs(0xea47a27a, 0x0, 4, 15); SixFedIs(0xea47a27a, 0x0, 5, 8);
    SixFedIs(0xea47a27a, 0x0, 6, 20); SixFedIs(0xea47a27a, 0x0, 7, 29);
    EightBoxed(53, 15, 4, 52, 15, 8, 20, 29, 9, 2, 6, 15, 0, 10, 0, 2);
    Witnessed(0xea47a27a, 0x0, 0x4050f649, 53, 15, 4, 52, 15, 8, 20, 29,
      9, 2, 6, 15, 0, 10, 0, 2);
  }

  lemma {:induction false} Blank4Words()
    ensures TurnedTo(0x0, 4, 0x0) && MixedTo(0x65d65fda, 0x4050f649, 0x07de98d1)
  {
    TurnedIs(0x0, 4, 0x0);
    MixedIs(0x65d65fda, 0x4050f649, 0x07de98d1);
  }

  lemma {:induction false} Blank4()
    requires Picked(0x0, 0x0)
    ensures Leads(0x0, 4, 0x65d65fda, 0xea47a27a, 0x3fe10438, 0x43b057dd)
  {
    Blank5();
    Blank4Boxes();
    Blank4Words();
    RoundIs(0x0, 0x0, 4, 0x65d65fda, 0xea47a27a, 0x0, 0x4050f649,
      0x07de98d1, 0x3fe10438, 0x43b057dd);
  }

  lemma {:induction false} Blank3Boxes()
    ensures BoxesGive(0x65d65fda, 0x0, 0xd67bc334)
  {
    SixFedIs(0x65d65fda, 0x0, 0, 52); SixFedIs(0x65d65fda, 0x0, 1, 59);
    SixFedIs(0x65d65fda, 0x0, 2, 63); SixFedIs(0x65d65fda, 0x0, 3, 11);
    SixFedIs(0x65d65fda, 0x0, 4, 44); SixFedIs(0x65d65fda, 0x0, 5, 58);
    SixFedIs(0x65d65fda, 0x0, 6, 11); SixFedIs(0x65d65fda, 0x0, 7, 12);
    EightBoxed(52, 59, 63, 11, 44, 58, 11, 12, 2, 12, 12, 3, 13, 14, 6, 11);
    Witnessed(0x65d65fda, 0x0, 0xd67bc334, 52, 59, 63, 11, 44, 58, 11, 12,
      2, 12, 12, 3, 13, 14, 6, 11);
  }

  lemma {:induction false} Blank3Words()
    ensures TurnedTo(0x0, 3, 0x0) && MixedTo(0xf2b75ce7, 0xd67bc334, 0xea47a27a)
  {
    TurnedIs(0x0, 3, 0x0);
    MixedIs(0xf2b75ce7, 0xd67bc334, 0xea47a27a);
  }

  lemma {:induction false} Blank3()
    requires Picked(0x0, 0x0)
    ensures Leads(0x0, 3, 0xf2b75ce7, 0x65d65fda, 0x3fe10438, 0x43b057dd)
  {
    Blank4();
    Blank3Boxes();
    Blank3Words();
    RoundIs(0x0, 0x0, 3, 0xf2b75ce7, 0x65d65fda, 0x0, 0xd67bc334,
      0xea47a27a, 0x3fe10438, 0x43b057dd);
  }

  lemma {:induction false} Blank2Boxes()
    ensures BoxesGive(0xf2b75ce7, 0x0, 0x48e1a02a)
  {
    SixFedIs(0xf2b75ce7, 0x0, 0, 15); SixFedIs(0xf2b75ce7, 0x0, 1, 28);
    SixFedIs(0xf2b75ce7, 0x0, 2, 57); SixFedIs(0xf2b75ce7, 0x0, 3, 43);
    SixFedIs(0xf2b75ce7, 0x0, 4, 46); SixFedIs(0xf2b75ce7, 0x0, 5, 22);
    SixFedIs(0xf2b75ce7, 0x0, 6, 37); SixFedIs(0xf2b75ce7, 0x0, 7, 62);
    EightBoxed(15, 28, 57, 43, 46, 22, 37, 62, 5, 4, 0, 5, 8, 7, 1, 2);
    Witnessed(0xf2b75ce7, 0x0, 0x48e1a02a, 15, 28, 57, 43, 46, 22, 37, 62,
      5, 4, 0, 5, 8, 7, 1, 2);
  }

  lemma {:induction false} Blank2Words()
    ensures TurnedTo(0x0, 2, 0x0) && MixedTo(0x3ddb1b1b, 0x48e1a02a, 0x65d65fda)
  {
    TurnedIs(0x0, 2, 0x0);
    MixedIs(0x3ddb1b1b, 0x48e1a02a, 0x65d65fda);
  }

  lemma {:induction false} Blank2()
    requires Picked(0x0, 0x0)
    ensures Leads(0x0, 2, 0x3ddb1b1b, 0xf2b75ce7, 0x3fe10438, 0x43b057dd)
  {
    Blank3();
    Blank2Boxes();
    Blank2Words();
    RoundIs(0x0, 0x0, 2, 0x3ddb1b1b, 0xf2b75ce7, 0x0, 0x48e1a02a,
      0x65d65fda, 0x3fe10438, 0x43b057dd);
  }

  lemma {:induction false} Blank1Boxes()
    ensures BoxesGive(0x3ddb1b1b, 0x0, 0xcfe99dda)
  {
    SixFedIs(0x3ddb1b1b, 0x0, 0, 54); SixFedIs(0x3ddb1b1b, 0x0, 1, 35);
    SixFedIs(0x3ddb1b1b, 0x0, 2, 54); SixFedIs(0x3ddb1b1b, 0x0, 3, 35);
    SixFedIs(0x3ddb1b1b, 0x0, 4, 54); SixFedIs(0x3ddb1b1b, 0x0, 5, 59);
    SixFedIs(0x3ddb1b1b, 0x0, 6, 59); SixFedIs(0x3ddb1b1b, 0x0, 7, 39);
    EightBoxed(54, 35, 54, 35, 54, 59, 59, 39, 5, 11, 11, 9, 9, 7, 15, 3);
    Witnessed(0x3ddb1b1b, 0x0, 0xcfe99dda, 54, 35, 54, 35, 54, 59, 59, 39,
      5, 11, 11, 9, 9, 7, 15, 3);
  }

  lemma {:induction false} Blank1Words()
    ensures TurnedTo(0x0, 1, 0x0) && MixedTo(0x0, 0xcfe99dda, 0xf2b75ce7)
  {
    TurnedIs(0x0, 1, 0x0);
    MixedIs(0x0, 0xcfe99dda, 0xf2b75ce7);
  }

  lemma {:induction false} Blank1()
    requires Picked(0x0, 0x0)
    ensures Leads(0x0, 1, 0x0, 0x3ddb1b1b, 0x3fe10438, 0x43b057dd)
  {
    Blank2();
    Blank1Boxes();
    Blank1Words();
    RoundIs(0x0, 0x0, 1, 0x0, 0x3ddb1b1b, 0x0, 0xcfe99dda,
      0xf2b75ce7, 0x3fe10438, 0x43b057dd);
  }

  lemma {:induction false} Blank0Boxes()
    ensures BoxesGive(0x0, 0x0, 0xb234e5f7)
  {
    SixFedIs(0x0, 0x0, 0, 0); SixFedIs(0x0, 0x0, 1, 0);
    SixFedIs(0x0, 0x0, 2, 0); SixFedIs(0x0, 0x0, 3, 0);
    SixFedIs(0x0, 0x0, 4, 0); SixFedIs(0x0, 0x0, 5, 0);
    SixFedIs(0x0, 0x0, 6, 0); SixFedIs(0x0, 0x0, 7, 0);
    EightBoxed(0, 0, 0, 0, 0, 0, 0, 0, 14, 15, 10, 7, 2, 12, 4, 13);
    Witnessed(0x0, 0x0, 0xb234e5f7, 0, 0, 0, 0, 0, 0, 0, 0,
      14, 15, 10, 7, 2, 12, 4, 13);
  }

  lemma {:induction false} Blank0Words()
    ensures TurnedTo(0x0, 0, 0x0) && MixedTo(0x0, 0xb234e5f7, 0x3ddb1b1b)
  {
    TurnedIs(0x0, 0, 0x0);
    MixedIs(0x0, 0xb234e5f7, 0x3ddb1b1b);
  }

  lemma {:induction false} Blank0()
    requires Picked(0x0, 0x0)
    ensures Enciphers(0x0, 0x0, 0x0, 0x3fe10438, 0x43b057dd)
  {
    Blank1();
    Blank0Boxes();
    Blank0Words();
    FirstRound(0x0, 0x0, 0x0, 0x0, 0x0, 0xb234e5f7,
      0x3ddb1b1b, 0x3fe10438, 0x43b057dd);
  }

  lemma {:induction false} BlankKey()
    ensures Written([0x00, 0x00, 0x00, 0x00, 0x00, 0x00, 0x00, 0x00], Whole(0x0))
  {
    BitsAre(Whole(0x0), 0x00, 0x00, 0x00, 0x00, 0x00, 0x00, 0x00, 0x00);
  }

  lemma {:induction false} BlankData()
    ensures Written([0x00, 0x00, 0x00, 0x00, 0x00, 0x00, 0x00, 0x00], Whole(0x0))
  {
    BitsAre(Whole(0x0), 0x00, 0x00, 0x00, 0x00, 0x00, 0x00, 0x00, 0x00);
  }

  lemma {:induction false} BlankOut()
    ensures Written([0x31, 0x65, 0xb2, 0x97, 0x83, 0x8d, 0xc4, 0xe5], Whole(0xe5c48d8397b26531))
  {
    BitsAre(Whole(0xe5c48d8397b26531), 0x31, 0x65, 0xb2, 0x97, 0x83, 0x8d, 0xc4, 0xe5);
  }

  lemma {:induction false} BlankEnds()
    ensures IpOf(Whole(0x0)) == Half(0x0) + Half(0x0)
    ensures IpOf(Whole(0xe5c48d8397b26531)) == Half(0x3fe10438) + Half(0x43b057dd)
  {
    IpIs(Whole(0x0), Half(0x0), Half(0x0));
    IpIs(Whole(0xe5c48d8397b26531), Half(0x3fe10438), Half(0x43b057dd));
  }

  lemma {:induction false} BlankPicked()
    ensures Picked(0x0, 0x0)
  {
    PickedIs(0x0, 0x0);
  }

  /** The published answer for key and block of zeros. */
  lemma {:induction false} ZerosAnswer()
    ensures Encrypted([0x00, 0x00, 0x00, 0x00, 0x00, 0x00, 0x00, 0x00],
      [0x00, 0x00, 0x00, 0x00, 0x00, 0x00, 0x00, 0x00])
      == Some([0x31, 0x65, 0xb2, 0x97, 0x83, 0x8d, 0xc4, 0xe5])
  {
    BlankKey();
    BlankData();
    BlankOut();
    BlankEnds();
    BlankPicked();
    Blank0();
    KnownWords([0x00, 0x00, 0x00, 0x00, 0x00, 0x00, 0x00, 0x00], [0x00, 0x00, 0x00, 0x00, 0x00, 0x00, 0x00, 0x00],
      [0x31, 0x65, 0xb2, 0x97, 0x83, 0x8d, 0xc4, 0xe5], 0x0, 0x0, 0xe5c48d8397b26531,
      0x0, 0x0, 0x3fe10438, 0x43b057dd);
  }
}
