/**
  The compression function: the program's 64 inlined steps, and the table-driven form of section 3.4
  of RFC 1321.  The step itself is a parameter of both, so the schedule (which word, which shift,
  which register) is compared without looking into the arithmetic.
*/
module Md5Transform {
  import opened Bytes
  import opened Md5Stream
  import opened Md5Bits
  import opened Md5Tables

  datatype Regs<W> = Regs(a: W, b: W, c: W, d: W)

  // step i updates w from x, y, z with input word k and shift s
  type Stepper<!W> = (nat, W, W, W, W, nat, nat) -> W

  // ----- the program's schedule -----

  // input words and shifts of four consecutive MD5STEP lines
  datatype Row = Row(k0: nat, k1: nat, k2: nat, k3: nat, s0: nat, s1: nat, s2: nat, s3: nat)

  // lines 112 to 178, four at a time
  function Program(n: nat): Row {
    match n
    case 0 => Row(0, 1, 2, 3, 7, 12, 17, 22)
    case 1 => Row(4, 5, 6, 7, 7, 12, 17, 22)
    case 2 => Row(8, 9, 10, 11, 7, 12, 17, 22)
    case 3 => Row(12, 13, 14, 15, 7, 12, 17, 22)
    case 4 => Row(1, 6, 11, 0, 5, 9, 14, 20)
    case 5 => Row(5, 10, 15, 4, 5, 9, 14, 20)
    case 6 => Row(9, 14, 3, 8, 5, 9, 14, 20)
    case 7 => Row(13, 2, 7, 12, 5, 9, 14, 20)
    case 8 => Row(5, 8, 11, 14, 4, 11, 16, 23)
    case 9 => Row(1, 4, 7, 10, 4, 11, 16, 23)
    case 10 => Row(13, 0, 3, 6, 4, 11, 16, 23)
    case 11 => Row(9, 12, 15, 2, 4, 11, 16, 23)
    case 12 => Row(0, 7, 14, 5, 6, 10, 15, 21)
    case 13 => Row(12, 3, 10, 1, 6, 10, 15, 21)
    case 14 => Row(8, 15, 6, 13, 6, 10, 15, 21)
    case _ => Row(4, 11, 2, 9, 6, 10, 15, 21)
  }

  // four lines update a, d, c and b in turn
  function Group<W>(st: Stepper<W>, i: nat, r: Regs<W>, row: Row): Regs<W> {
    var a := st(i, r.a, r.b, r.c, r.d, row.k0, row.s0);
    var d := st(i + 1, r.d, a, r.b, r.c, row.k1, row.s1);
    var c := st(i + 2, r.c, d, a, r.b, row.k2, row.s2);
    var b := st(i + 3, r.b, c, d, a, row.k3, row.s3);
    Regs(a, b, c, d)
  }

  function Groups<W>(st: Stepper<W>, n: nat, r: Regs<W>): Regs<W>
    decreases 16 - n
  {
    if n >= 16 then r else Groups(st, n + 1, Group(st, 4 * n, r, Program(n)))
  }

  // ----- the schedule of RFC 1321 -----

  function Index(i: nat): nat {
    if i < 16 then i
    else if i < 32 then (5 * i + 1) % 16
    else if i < 48 then (3 * i + 5) % 16
    else 7 * i % 16
  }

  function Shift(i: nat): nat {
    if i < 16 then Pick(i, 7, 12, 17, 22)
    else if i < 32 then Pick(i, 5, 9, 14, 20)
    else if i < 48 then Pick(i, 4, 11, 16, 23)
    else Pick(i, 6, 10, 15, 21)
  }

  function Pick(i: nat, s0: nat, s1: nat, s2: nat, s3: nat): nat {
    if i % 4 == 0 then s0 else if i % 4 == 1 then s1 else if i % 4 == 2 then s2 else s3
  }

  // one operation; the registers then change names
  function Operation<W>(st: Stepper<W>, i: nat, r: Regs<W>): Regs<W> {
    Regs(r.d, st(i, r.a, r.b, r.c, r.d, Index(i), Shift(i)), r.b, r.c)
  }

  function Operations<W>(st: Stepper<W>, i: nat, r: Regs<W>): Regs<W>
    decreases 64 - i
  {
    if i >= 64 then r else Operations(st, i + 1, Operation(st, i, r))
  }

  lemma FourOperations<W>(st: Stepper<W>, i: nat, r: Regs<W>)
    requires i + 4 <= 64
    ensures Operations(st, i, r) ==
            Operations(st, i + 4, Operation(st, i + 3, Operation(st, i + 2, Operation(st, i + 1, Operation(st, i, r)))))
  {
    var r1 := Operation(st, i, r);
    var r2 := Operation(st, i + 1, r1);
    assert Operations(st, i + 1, r1) == Operations(st, i + 2, r2);
    var r3 := Operation(st, i + 2, r2);
    assert Operations(st, i + 2, r2) == Operations(st, i + 3, r3);
  }

  function StandardRow(i: nat): Row {
    Row(Index(i), Index(i + 1), Index(i + 2), Index(i + 3), Shift(i), Shift(i + 1), Shift(i + 2), Shift(i + 3))
  }

  lemma FirstRows(n: nat)
    requires n < 8
    ensures Program(n) == StandardRow(4 * n)
  {
    match n
    case 0 => assert StandardRow(0) == Program(0);
    case 1 => assert StandardRow(4) == Program(1);
    case 2 => assert StandardRow(8) == Program(2);
    case 3 => assert StandardRow(12) == Program(3);
    case 4 => assert StandardRow(16) == Program(4);
    case 5 => assert StandardRow(20) == Program(5);
    case 6 => assert StandardRow(24) == Program(6);
    case 7 => assert StandardRow(28) == Program(7);
  }

  lemma RowIsStandard(n: nat)
    requires n < 16
    ensures Program(n) == StandardRow(4 * n)
  {
    match n
    case 8 => assert StandardRow(32) == Program(8);
    case 9 => assert StandardRow(36) == Program(9);
    case 10 => assert StandardRow(40) == Program(10);
    case 11 => assert StandardRow(44) == Program(11);
    case 12 => assert StandardRow(48) == Program(12);
    case 13 => assert StandardRow(52) == Program(13);
    case 14 => assert StandardRow(56) == Program(14);
    case 15 => assert StandardRow(60) == Program(15);
    case _ => FirstRows(n);
  }

  lemma GroupIsFourOperations<W>(st: Stepper<W>, i: nat, r: Regs<W>)
    requires i + 4 <= 64
    ensures Operations(st, i, r) == Operations(st, i + 4, Group(st, i, r, StandardRow(i)))
  {
    FourOperations(st, i, r);
  }

  // the inlined steps follow the tables of the standard
  lemma {:induction false} ScheduleIsStandard<W>(st: Stepper<W>, n: nat, r: Regs<W>)
    requires n <= 16
    ensures Groups(st, n, r) == Operations(st, 4 * n, r)
    decreases 16 - n
  {
    if n < 16 {
      RowIsStandard(n);
      GroupIsFourOperations(st, 4 * n, r);
      ScheduleIsStandard(st, n + 1, Group(st, 4 * n, r, Program(n)));
    }
  }

  // two steppers that agree on the 64 operations give the same result
  lemma {:induction false} OperationsAgree<W(!new)>(st: Stepper<W>, st': Stepper<W>, i: nat, r: Regs<W>)
    requires forall j: nat, w: W, x: W, y: W, z: W :: j < 64 ==>
               st(j, w, x, y, z, Index(j), Shift(j)) == st'(j, w, x, y, z, Index(j), Shift(j))
    ensures Operations(st, i, r) == Operations(st', i, r)
    decreases 64 - i
  {
    if i < 64 {
      OperationsAgree(st, st', i + 1, Operation(st, i, r));
    }
  }

  // ----- the steps, over any words with an associative and commutative sum -----

  datatype Algebra<!W> = Algebra(add: (W, W) -> W, rotate: (W, nat) -> W, f: (nat, W, W, W) -> W,
                                 input: nat -> W, constant: nat -> W)

  // MD5STEP
  function MacroStep<W>(g: Algebra<W>, i: nat, w: W, x: W, y: W, z: W, k: nat, s: nat): W {
    g.add(g.rotate(g.add(w, g.add(g.f(i, x, y, z), g.add(g.input(k), g.constant(i)))), s), x)
  }

  // "a = b + ((a + F(b,c,d) + X[k] + T[i]) <<< s)"
  function StandardStep<W>(g: Algebra<W>, i: nat, w: W, x: W, y: W, z: W, k: nat, s: nat): W {
    g.add(x, g.rotate(g.add(g.add(g.add(w, g.f(i, x, y, z)), g.input(k)), g.constant(i)), s))
  }

  predicate SumLaw<W(==)>(g: Algebra<W>, u: W, v: W, w: W) {
    g.add(u, v) == g.add(v, u) && g.add(g.add(u, v), w) == g.add(u, g.add(v, w))
  }

  // the two agree on sums, on the input, and on all that operation i uses
  ghost predicate SameSums<W(!new)>(g: Algebra<W>, h: Algebra<W>) {
    && (forall u: W, v: W :: g.add(u, v) == h.add(u, v))
    && forall k: nat :: g.input(k) == h.input(k)
  }

  ghost predicate SameRotation<W(!new)>(g: Algebra<W>, h: Algebra<W>, s: nat) {
    forall w: W :: g.rotate(w, s) == h.rotate(w, s)
  }

  ghost predicate SameMix<W(!new)>(g: Algebra<W>, h: Algebra<W>, i: nat) {
    forall x: W, y: W, z: W :: g.f(i, x, y, z) == h.f(i, x, y, z)
  }

  ghost predicate SameOperations<W(!new)>(g: Algebra<W>, h: Algebra<W>) {
    forall i: nat :: i < 64 ==>
      SameMix(g, h, i) && SameRotation(g, h, Shift(i)) && g.constant(i) == h.constant(i)
  }

  // the program's step is the standard's
  lemma StepIsStandard<W(!new)>(g: Algebra<W>, h: Algebra<W>, i: nat, w: W, x: W, y: W, z: W, k: nat, s: nat)
    requires SameSums(g, h) && SameMix(g, h, i) && SameRotation(g, h, s) && g.constant(i) == h.constant(i)
    requires forall a: W, b: W, c: W {:trigger SumLaw(g, a, b, c)} :: SumLaw(g, a, b, c)
    ensures MacroStep(g, i, w, x, y, z, k, s) == StandardStep(h, i, w, x, y, z, k, s)
  {
    var f, v, t := g.f(i, x, y, z), g.input(k), g.constant(i);
    assert SumLaw(g, w, f, g.add(v, t)) && SumLaw(g, g.add(w, f), v, t);
    var u := g.rotate(g.add(w, g.add(f, g.add(v, t))), s);
    assert SumLaw(g, u, x, x);
  }

  // ----- 32-bit words -----

  function At(words: seq<word>, k: nat): word {
    if k < |words| then words[k] else 0
  }

  type Mix<!W> = (W, W, W) -> W

  // the program's lines: sixteen of each macro
  function ByLine<W>(f1: Mix<W>, f2: Mix<W>, f3: Mix<W>, f4: Mix<W>): (nat, W, W, W) -> W {
    (i: nat, x: W, y: W, z: W) =>
      var round := i / 16;
      if round == 0 then f1(x, y, z)
      else if round == 1 then f2(x, y, z)
      else if round == 2 then f3(x, y, z)
      else f4(x, y, z)
  }

  // rounds 1 to 4 of the standard
  function ByRound<W>(f: Mix<W>, g: Mix<W>, h: Mix<W>, i: Mix<W>): (nat, W, W, W) -> W {
    (op: nat, x: W, y: W, z: W) =>
      if op < 16 then f(x, y, z)
      else if op < 32 then g(x, y, z)
      else if op < 48 then h(x, y, z)
      else i(x, y, z)
  }

  lemma LinesAreRounds<W(!new)>(f1: Mix<W>, f2: Mix<W>, f3: Mix<W>, f4: Mix<W>, f: Mix<W>, g: Mix<W>, h: Mix<W>,
                                i: Mix<W>)
    requires forall x: W, y: W, z: W :: f1(x, y, z) == f(x, y, z)
    requires forall x: W, y: W, z: W :: f2(x, y, z) == g(x, y, z)
    requires forall x: W, y: W, z: W :: f3(x, y, z) == h(x, y, z)
    requires forall x: W, y: W, z: W :: f4(x, y, z) == i(x, y, z)
    ensures forall op: nat, x: W, y: W, z: W :: ByLine(f1, f2, f3, f4)(op, x, y, z) == ByRound(f, g, h, i)(op, x, y, z)
  {
  }

  const MACROS := ByLine(MacroF1, MacroF2, MacroF3, MacroF4)
  const STANDARD := ByRound(StandardF, StandardG, StandardH, StandardI)

  lemma MacrosAreStandard()
    ensures forall i: nat, x: word, y: word, z: word :: MACROS(i, x, y, z) == STANDARD(i, x, y, z)
  {
    forall x: word, y: word, z: word
      ensures MacroF1(x, y, z) == StandardF(x, y, z) && MacroF2(x, y, z) == StandardG(x, y, z)
      ensures MacroF3(x, y, z) == StandardH(x, y, z) && MacroF4(x, y, z) == StandardI(x, y, z)
    {
      FirstMacro(x, y, z);
      SecondMacro(x, y, z);
      ThirdMacro(x, y, z);
      FourthMacro(x, y, z);
    }
    LinesAreRounds(MacroF1, MacroF2, MacroF3, MacroF4, StandardF, StandardG, StandardH, StandardI);
  }

  // word k of a block, least significant byte first
  function NumberAt(block: seq<byte>, k: nat): (n: nat)
    requires 4 * k + 4 <= |block|
    ensures n < TWO32
  {
    var b0: int, b1: int, b2: int, b3: int := block[4 * k], block[4 * k + 1], block[4 * k + 2], block[4 * k + 3];
    b0 + 256 * b1 + 65536 * b2 + 16777216 * b3
  }

  function WordAt(block: seq<byte>, k: nat): word
    requires 4 * k + 4 <= |block|
  {
    NumberAt(block, k) as word
  }

  function Words(block: seq<byte>): seq<word> {
    seq(|block| / 4, k requires 0 <= k < |block| / 4 => WordAt(block, k))
  }

  // the program's words, and the standard's
  function MacroAlgebra(input: nat -> word): Algebra<word> {
    Algebra(Sum, MacroRotate, MACROS, input, (i: nat) => LineConstant(i) as word)
  }

  function StandardAlgebra(input: nat -> word): Algebra<word> {
    Algebra(Plus, Rotate, STANDARD, input, (i: nat) => Table(i) as word)
  }

  // ----- the compression function -----

  function MacroStepper<W>(g: Algebra<W>): Stepper<W> {
    (i: nat, w: W, x: W, y: W, z: W, k: nat, s: nat) => MacroStep(g, i, w, x, y, z, k, s)
  }

  function StandardStepper<W>(g: Algebra<W>): Stepper<W> {
    (i: nat, w: W, x: W, y: W, z: W, k: nat, s: nat) => StandardStep(g, i, w, x, y, z, k, s)
  }

  // Md5Transform
  function MacroCompress<W>(g: Algebra<W>, r: Regs<W>): Regs<W> {
    var q := Groups(MacroStepper(g), 0, r);
    Regs(g.add(r.a, q.a), g.add(r.b, q.b), g.add(r.c, q.c), g.add(r.d, q.d))
  }

  // section 3.4 of RFC 1321, with the increment of the four registers at its end
  function StandardCompress<W>(g: Algebra<W>, r: Regs<W>): Regs<W> {
    match Operations(StandardStepper(g), 0, r)
    case Regs(a, b, c, d) => Regs(g.add(a, r.a), g.add(b, r.b), g.add(c, r.c), g.add(d, r.d))
  }

  lemma SteppersAgree<W(!new)>(g: Algebra<W>, h: Algebra<W>, i: nat, r: Regs<W>)
    requires SameSums(g, h) && SameOperations(g, h)
    requires forall a: W, b: W, c: W {:trigger SumLaw(g, a, b, c)} :: SumLaw(g, a, b, c)
    ensures Operations(MacroStepper(g), i, r) == Operations(StandardStepper(h), i, r)
  {
    var st, st' := MacroStepper(g), StandardStepper(h);
    forall j: nat, w: W, x: W, y: W, z: W | j < 64
      ensures st(j, w, x, y, z, Index(j), Shift(j)) == st'(j, w, x, y, z, Index(j), Shift(j))
    {
      StepIsStandard(g, h, j, w, x, y, z, Index(j), Shift(j));
    }
    OperationsAgree(st, st', i, r);
  }

  lemma CompressIsStandard<W(!new)>(g: Algebra<W>, h: Algebra<W>, r: Regs<W>)
    requires SameSums(g, h) && SameOperations(g, h)
    requires forall a: W, b: W, c: W {:trigger SumLaw(g, a, b, c)} :: SumLaw(g, a, b, c)
    ensures MacroCompress(g, r) == StandardCompress(h, r)
  {
    var zero := 0;
    ScheduleIsStandard(MacroStepper(g), zero, r);
    SteppersAgree(g, h, zero, r);
    var q := Operations(StandardStepper(h), zero, r);
    assert SumLaw(g, r.a, q.a, q.a) && SumLaw(g, r.b, q.b, q.b) && SumLaw(g, r.c, q.c, q.c) &&
           SumLaw(g, r.d, q.d, q.d);
  }

  function InputOf(block: seq<byte>): nat -> word {
    var input := Words(block);
    (k: nat) => At(input, k)
  }

  // the program's compression function on 32-bit words
  function Compress(r: Regs<word>, block: seq<byte>): Regs<word> {
    MacroCompress(MacroAlgebra(InputOf(block)), r)
  }

  // the standard's
  function StandardWords(r: Regs<word>, block: seq<byte>): Regs<word> {
    StandardCompress(StandardAlgebra(InputOf(block)), r)
  }

  lemma FirstRotations(g: Algebra<word>, h: Algebra<word>)
    requires g.rotate == MacroRotate && h.rotate == Rotate
    ensures SameRotation(g, h, 7)
    ensures SameRotation(g, h, 12)
    ensures SameRotation(g, h, 17)
    ensures SameRotation(g, h, 22)
  {
    forall w: word
      ensures g.rotate(w, 7) == h.rotate(w, 7)
      ensures g.rotate(w, 12) == h.rotate(w, 12)
      ensures g.rotate(w, 17) == h.rotate(w, 17)
      ensures g.rotate(w, 22) == h.rotate(w, 22)
    {
      Rotates7(w);
      Rotates12(w);
      Rotates17(w);
      Rotates22(w);
    }
  }

  lemma SecondRotations(g: Algebra<word>, h: Algebra<word>)
    requires g.rotate == MacroRotate && h.rotate == Rotate
    ensures SameRotation(g, h, 5)
    ensures SameRotation(g, h, 9)
    ensures SameRotation(g, h, 14)
    ensures SameRotation(g, h, 20)
  {
    forall w: word
      ensures g.rotate(w, 5) == h.rotate(w, 5)
      ensures g.rotate(w, 9) == h.rotate(w, 9)
      ensures g.rotate(w, 14) == h.rotate(w, 14)
      ensures g.rotate(w, 20) == h.rotate(w, 20)
    {
      Rotates5(w);
      Rotates9(w);
      Rotates14(w);
      Rotates20(w);
    }
  }

  lemma ThirdRotations(g: Algebra<word>, h: Algebra<word>)
    requires g.rotate == MacroRotate && h.rotate == Rotate
    ensures SameRotation(g, h, 4)
    ensures SameRotation(g, h, 11)
    ensures SameRotation(g, h, 16)
    ensures SameRotation(g, h, 23)
  {
    forall w: word
      ensures g.rotate(w, 4) == h.rotate(w, 4)
      ensures g.rotate(w, 11) == h.rotate(w, 11)
      ensures g.rotate(w, 16) == h.rotate(w, 16)
      ensures g.rotate(w, 23) == h.rotate(w, 23)
    {
      Rotates4(w);
      Rotates11(w);
      Rotates16(w);
      Rotates23(w);
    }
  }

  lemma FourthRotations(g: Algebra<word>, h: Algebra<word>)
    requires g.rotate == MacroRotate && h.rotate == Rotate
    ensures SameRotation(g, h, 6)
    ensures SameRotation(g, h, 10)
    ensures SameRotation(g, h, 15)
    ensures SameRotation(g, h, 21)
  {
    forall w: word
      ensures g.rotate(w, 6) == h.rotate(w, 6)
      ensures g.rotate(w, 10) == h.rotate(w, 10)
      ensures g.rotate(w, 15) == h.rotate(w, 15)
      ensures g.rotate(w, 21) == h.rotate(w, 21)
    {
      Rotates6(w);
      Rotates10(w);
      Rotates15(w);
      Rotates21(w);
    }
  }

  // these are all the numbers of places there are
  lemma OperationsAlike<W(!new)>(g: Algebra<W>, h: Algebra<W>)
    requires SameRotation(g, h, 7) && SameRotation(g, h, 12) && SameRotation(g, h, 17) && SameRotation(g, h, 22)
    requires SameRotation(g, h, 5) && SameRotation(g, h, 9) && SameRotation(g, h, 14) && SameRotation(g, h, 20)
    requires SameRotation(g, h, 4) && SameRotation(g, h, 11) && SameRotation(g, h, 16) && SameRotation(g, h, 23)
    requires SameRotation(g, h, 6) && SameRotation(g, h, 10) && SameRotation(g, h, 15) && SameRotation(g, h, 21)
    requires forall i: nat, x: W, y: W, z: W :: g.f(i, x, y, z) == h.f(i, x, y, z)
    requires forall i: nat :: i < 64 ==> g.constant(i) == h.constant(i)
    ensures SameOperations(g, h)
  {
  }

  lemma AlgebraIsStandard(input: nat -> word, r: Regs<word>)
    ensures MacroCompress(MacroAlgebra(input), r) == StandardCompress(StandardAlgebra(input), r)
  {
    var g, h := MacroAlgebra(input), StandardAlgebra(input);
    MacrosAreStandard();
    forall i: nat | i < 64
      ensures g.constant(i) == h.constant(i)
    {
      ConstantsAreStandard(i);
    }
    forall a: word, b: word, c: word
      ensures SumLaw(g, a, b, c)
    {
      SumAssociates(a, b, c);
    }
    FirstRotations(g, h);
    SecondRotations(g, h);
    ThirdRotations(g, h);
    FourthRotations(g, h);
    OperationsAlike(g, h);
    CompressIsStandard(g, h, r);
  }

  const IV: Regs<word> := Regs(0x67452301, 0xefcdab89, 0x98badcfe, 0x10325476)

  function WordBytes(w: word): (d: seq<byte>)
    ensures |d| == 4
  {
    LittleEndian32(w as int)
  }

  // the digest: the four words, least significant byte first
  function EncodeRegs(r: Regs<word>): (d: seq<byte>)
    ensures |d| == 16
  {
    WordBytes(r.a) + WordBytes(r.b) + WordBytes(r.c) + WordBytes(r.d)
  }

  lemma FirstHalf()
    ensures WordBytes(IV.a) == [0x01, 0x23, 0x45, 0x67] && WordBytes(IV.b) == [0x89, 0xab, 0xcd, 0xef]
  {
  }

  lemma SecondHalf()
    ensures WordBytes(IV.c) == [0xfe, 0xdc, 0xba, 0x98] && WordBytes(IV.d) == [0x76, 0x54, 0x32, 0x10]
  {
  }

  // the initial registers in the bytes of section 3.3
  lemma InitialBytes()
    ensures EncodeRegs(IV) == [0x01, 0x23, 0x45, 0x67, 0x89, 0xab, 0xcd, 0xef,
                               0xfe, 0xdc, 0xba, 0x98, 0x76, 0x54, 0x32, 0x10]
  {
    FirstHalf();
    SecondHalf();
  }

  lemma NumberOfWord(w: word, n: int)
    requires n == w as int
    ensures n as word == w
  {
  }

  // words are read from bytes as they are written to them
  lemma WordReadBack(w: word)
    ensures WordAt(WordBytes(w), 0) == w
  {
    NumberReadBack(w as int);
    NumberOfWord(w, NumberAt(WordBytes(w), 0));
  }

  lemma NumberReadBack(n: nat)
    requires n < TWO32
    ensures NumberAt(LittleEndian32(n), 0) == n
  {
    assert n / 65536 == n / 256 / 256 && n / 16777216 == n / 65536 / 256;
  }

  lemma LowByte(n: nat, b: byte, m: nat)
    requires n == b + 256 * m
    ensures n % 256 == b && n / 256 == m
  {
  }

  lemma QuotientSteps(n: nat)
    ensures n / 65536 == n / 256 / 256 && n / 16777216 == n / 256 / 256 / 256
  {
  }

  lemma FourLowBytes(n: nat, b0: byte, b1: byte, b2: byte, b3: byte, m1: nat, m2: nat)
    requires n == b0 + 256 * m1 && m1 == b1 + 256 * m2 && m2 == b2 + 256 * b3
    ensures LittleEndian32(n) == [b0, b1, b2, b3]
  {
    LowByte(n, b0, m1);
    LowByte(m1, b1, m2);
    LowByte(m2, b2, b3);
    QuotientSteps(n);
  }

  // word k of a block is the number whose bytes, low byte first, are those from 4k on
  lemma BlockWords(block: seq<byte>, k: nat)
    requires 4 * k + 4 <= |block|
    ensures InputOf(block)(k) == NumberAt(block, k) as word
    ensures LittleEndian32(NumberAt(block, k)) == block[4 * k..4 * k + 4]
  {
    var b0: nat, b1: nat, b2: nat, b3: nat := block[4 * k], block[4 * k + 1], block[4 * k + 2], block[4 * k + 3];
    FourLowBytes(NumberAt(block, k), b0, b1, b2, b3, b1 + 256 * (b2 + 256 * b3), b2 + 256 * b3);
  }

  // the digest of a message, as the program computes it
  function Md5Digest(msg: seq<byte>): seq<byte> {
    DigestOf(Compress, IV, EncodeRegs, msg)
  }

  // ... and as the standard defines it
  lemma {:induction false} ChainedAgree<C(!new)>(f: (C, seq<byte>) -> C, f': (C, seq<byte>) -> C, iv: C, s: seq<byte>,
                                          n: nat)
    requires 64 * n <= |s|
    requires forall c: C, b: seq<byte> :: f(c, b) == f'(c, b)
    ensures Chained(f, iv, s, n) == Chained(f', iv, s, n)
  {
    if n > 0 {
      ChainedAgree(f, f', iv, s, n - 1);
    }
  }

  lemma DigestIsStandard(msg: seq<byte>)
    ensures Md5Digest(msg) == DigestOf(StandardWords, IV, EncodeRegs, msg)
  {
    forall r: Regs<word>, b: seq<byte>
      ensures Compress(r, b) == StandardWords(r, b)
    {
      AlgebraIsStandard(InputOf(b), r);
    }
    ChainedAgree(Compress, StandardWords, IV, Padded(msg), |Padded(msg)| / 64);
  }
}
