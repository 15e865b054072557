/**
 The MD5 compression function of src/md5.c, written out step by step as there, against the indexed description in
 section 3.4 of RFC 1321.
 */
module Md5Transform {
  import opened Words

  /** The four words A, B, C and D. */
  datatype State = State(a: word, b: word, c: word, d: word)

  // ---------- section 3.4 of RFC 1321 ----------

  function F(x: word, y: word, z: word): (w: word) {
    Or(And(x, y), And(Not(x), z))
  }

  function G(x: word, y: word, z: word): (w: word) {
    Or(And(x, z), And(y, Not(z)))
  }

  function H(x: word, y: word, z: word): (w: word) {
    Xor(Xor(x, y), z)
  }

  function I(x: word, y: word, z: word): (w: word) {
    Xor(y, Or(x, Not(z)))
  }

  /** The function of the round that step `i` belongs to. */
  function Mix(i: nat, x: word, y: word, z: word): (w: word) {
    if i < 16 then F(x, y, z) else if i < 32 then G(x, y, z) else if i < 48 then H(x, y, z) else I(x, y, z)
  }

  /** Which word of the block step `i` takes. */
  function Index(i: nat): (k: nat)
    ensures k < 16
  {
    if i < 16 then i % 16
    else if i < 32 then (1 + 5 * i) % 16
    else if i < 48 then (5 + 3 * i) % 16
    else 7 * i % 16
  }

  function Pick(k: nat, s0: nat, s1: nat, s2: nat, s3: nat): (s: nat) {
    if k == 0 then s0 else if k == 1 then s1 else if k == 2 then s2 else s3
  }

  function Shift(i: nat): (s: nat)
    ensures s <= 32
  {
    if i < 16 then Pick(i % 4, 7, 12, 17, 22)
    else if i < 32 then Pick(i % 4, 5, 9, 14, 20)
    else if i < 48 then Pick(i % 4, 4, 11, 16, 23)
    else Pick(i % 4, 6, 10, 15, 21)
  }

  /** The table T, counted from 0: the integer part of 4294967296 times the absolute value of sin(i + 1). */
  function Sine(i: nat): (t: word)
    requires i < 64
  {
    if i < 16 then SineOne(i) else if i < 32 then SineTwo(i) else if i < 48 then SineThree(i) else SineFour(i)
  }

  function SineOne(i: nat): (t: word) {
    match i
    case 0 => 0xd76aa478
    case 1 => 0xe8c7b756
    case 2 => 0x242070db
    case 3 => 0xc1bdceee
    case 4 => 0xf57c0faf
    case 5 => 0x4787c62a
    case 6 => 0xa8304613
    case 7 => 0xfd469501
    case 8 => 0x698098d8
    case 9 => 0x8b44f7af
    case 10 => 0xffff5bb1
    case 11 => 0x895cd7be
    case 12 => 0x6b901122
    case 13 => 0xfd987193
    case 14 => 0xa679438e
    case _ => 0x49b40821
  }

  function SineTwo(i: nat): (t: word) {
    match i
    case 16 => 0xf61e2562
    case 17 => 0xc040b340
    case 18 => 0x265e5a51
    case 19 => 0xe9b6c7aa
    case 20 => 0xd62f105d
    case 21 => 0x02441453
    case 22 => 0xd8a1e681
    case 23 => 0xe7d3fbc8
    case 24 => 0x21e1cde6
    case 25 => 0xc33707d6
    case 26 => 0xf4d50d87
    case 27 => 0x455a14ed
    case 28 => 0xa9e3e905
    case 29 => 0xfcefa3f8
    case 30 => 0x676f02d9
    case _ => 0x8d2a4c8a
  }

  function SineThree(i: nat): (t: word) {
    match i
    case 32 => 0xfffa3942
    case 33 => 0x8771f681
    case 34 => 0x6d9d6122
    case 35 => 0xfde5380c
    case 36 => 0xa4beea44
    case 37 => 0x4bdecfa9
    case 38 => 0xf6bb4b60
    case 39 => 0xbebfbc70
    case 40 => 0x289b7ec6
    case 41 => 0xeaa127fa
    case 42 => 0xd4ef3085
    case 43 => 0x04881d05
    case 44 => 0xd9d4d039
    case 45 => 0xe6db99e5
    case 46 => 0x1fa27cf8
    case _ => 0xc4ac5665
  }

  function SineFour(i: nat): (t: word) {
    match i
    case 48 => 0xf4292244
    case 49 => 0x432aff97
    case 50 => 0xab9423a7
    case 51 => 0xfc93a039
    case 52 => 0x655b59c3
    case 53 => 0x8f0ccc92
    case 54 => 0xffeff47d
    case 55 => 0x85845dd1
    case 56 => 0x6fa87e4f
    case 57 => 0xfe2ce6e0
    case 58 => 0xa3014314
    case 59 => 0x4e0811a1
    case 60 => 0xf7537e82
    case 61 => 0xbd3af235
    case 62 => 0x2ad7d2bb
    case _ => 0xeb86d391
  }

  /** b + ((a + f + x + t) <<< s). */
  function Turn(a: word, b: word, f: word, x: word, t: word, s: nat): (w: word)
    requires s <= 32
  {
    Plus(b, Rotate(Plus(Plus(Plus(a, f), x), t), s))
  }

  /** One operation: the register that is due gets its new value, and the roles move on by one. */
  function Operate(s: State, x: seq<word>, i: nat): (s': State)
    requires |x| == 16 && i < 64
  {
    State(s.d, Turn(s.a, s.b, Mix(i, s.b, s.c, s.d), x[Index(i)], Sine(i), Shift(i)), s.b, s.c)
  }

  /** Operations `from` to `to`. */
  function Operations(s: State, x: seq<word>, from: nat, to: nat): (s': State)
    requires |x| == 16 && from <= to <= 64
    decreases 64 - from
  {
    if from == to then s else Operations(Operate(s, x, from), x, from + 1, to)
  }

  function Add(s: State, t: State): (r: State) {
    State(Plus(s.a, t.a), Plus(s.b, t.b), Plus(s.c, t.c), Plus(s.d, t.d))
  }

  /** What a block of 16 words makes of the four words. */
  function Compress(s: State, x: seq<word>): (s': State)
    requires |x| == 16
  {
    Add(s, Operations(s, x, 0, 64))
  }

  lemma {:induction false} NextOperation(s: State, x: seq<word>, from: nat, i: nat)
    requires |x| == 16 && from <= i < 64
    ensures Operations(s, x, from, from) == s
    ensures Operations(s, x, from, i + 1) == Operate(Operations(s, x, from, i), x, i)
    decreases 64 - from
  {
    hide Operate;
    if from < i {
      NextOperation(Operate(s, x, from), x, from + 1, i);
    }
  }

  lemma {:induction false} OperationsJoin(s: State, x: seq<word>, from: nat, mid: nat, to: nat)
    requires |x| == 16 && from <= mid <= to <= 64
    ensures Operations(Operations(s, x, from, mid), x, mid, to) == Operations(s, x, from, to)
    decreases mid - from
  {
    hide Operate;
    if from < mid {
      OperationsJoin(Operate(s, x, from), x, from + 1, mid, to);
    }
  }

  // ---------- src/md5.c ----------

  /** The "optimized" forms are the functions F and G. */
  function F1(x: word, y: word, z: word): (w: word)
    ensures w == F(x, y, z)
  {
    SelectBits(32, x, y, z);
    Xor(z, And(x, Xor(y, z)))
  }

  function F2(x: word, y: word, z: word): (w: word)
    ensures w == G(x, y, z)
  {
    SelectSwapped(x, y, z);
    F1(z, x, y)
  }

  lemma SelectSwapped(x: word, y: word, z: word)
    ensures F(z, x, y) == G(x, y, z)
  {
    AndSwaps(32, z, x);
    AndSwaps(32, Not(z), y);
  }

  function F3(x: word, y: word, z: word): (w: word) {
    Xor(Xor(x, y), z)
  }

  function F4(x: word, y: word, z: word): (w: word) {
    Xor(y, Or(x, Not(z)))
  }

  /** MD5STEP, given the value `f` of the round's function and the two parts of its data. */
  function Md5Step(w: word, x: word, f: word, data: word, t: word, s: nat): (w': word)
    requires s <= 32
    ensures w' == Turn(w, x, f, data, t, s)
  {
    hide Rotate, Plus;
    PlusShift(w, Plus(f, data), t);
    PlusShift(w, f, data);
    var v := Plus(w, Plus(Plus(f, data), t));
    PlusShift(Rotate(v, s), x, 0);
    Plus(Rotate(v, s), x)
  }

  method RoundOne(x: seq<word>, s: State) returns (s': State)
    requires |x| == 16
    ensures s' == Operations(s, x, 0, 16)
  {
    hide F, G, Xor, And, Or, Not, Md5Step, Turn, Operations;
    var a, b, c, d := s.a, s.b, s.c, s.d;
    a := Md5Step(a, b, F1(b, c, d), x[0], 0xd76aa478, 7);
    NextOperation(s, x, 0, 0);
    d := Md5Step(d, a, F1(a, b, c), x[1], 0xe8c7b756, 12);
    NextOperation(s, x, 0, 1);
    c := Md5Step(c, d, F1(d, a, b), x[2], 0x242070db, 17);
    NextOperation(s, x, 0, 2);
    b := Md5Step(b, c, F1(c, d, a), x[3], 0xc1bdceee, 22);
    NextOperation(s, x, 0, 3);
    a := Md5Step(a, b, F1(b, c, d), x[4], 0xf57c0faf, 7);
    NextOperation(s, x, 0, 4);
    d := Md5Step(d, a, F1(a, b, c), x[5], 0x4787c62a, 12);
    NextOperation(s, x, 0, 5);
    c := Md5Step(c, d, F1(d, a, b), x[6], 0xa8304613, 17);
    NextOperation(s, x, 0, 6);
    b := Md5Step(b, c, F1(c, d, a), x[7], 0xfd469501, 22);
    NextOperation(s, x, 0, 7);
    a := Md5Step(a, b, F1(b, c, d), x[8], 0x698098d8, 7);
    NextOperation(s, x, 0, 8);
    d := Md5Step(d, a, F1(a, b, c), x[9], 0x8b44f7af, 12);
    NextOperation(s, x, 0, 9);
    c := Md5Step(c, d, F1(d, a, b), x[10], 0xffff5bb1, 17);
    NextOperation(s, x, 0, 10);
    b := Md5Step(b, c, F1(c, d, a), x[11], 0x895cd7be, 22);
    NextOperation(s, x, 0, 11);
    a := Md5Step(a, b, F1(b, c, d), x[12], 0x6b901122, 7);
    NextOperation(s, x, 0, 12);
    d := Md5Step(d, a, F1(a, b, c), x[13], 0xfd987193, 12);
    NextOperation(s, x, 0, 13);
    c := Md5Step(c, d, F1(d, a, b), x[14], 0xa679438e, 17);
    NextOperation(s, x, 0, 14);
    b := Md5Step(b, c, F1(c, d, a), x[15], 0x49b40821, 22);
    NextOperation(s, x, 0, 15);
    s' := State(a, b, c, d);
  }

  method RoundTwo(x: seq<word>, s: State) returns (s': State)
    requires |x| == 16
    ensures s' == Operations(s, x, 16, 32)
  {
    hide F, G, Xor, And, Or, Not, Md5Step, Turn, Operations;
    var a, b, c, d := s.a, s.b, s.c, s.d;
    a := Md5Step(a, b, F2(b, c, d), x[1], 0xf61e2562, 5);
    NextOperation(s, x, 16, 16);
    d := Md5Step(d, a, F2(a, b, c), x[6], 0xc040b340, 9);
    NextOperation(s, x, 16, 17);
    c := Md5Step(c, d, F2(d, a, b), x[11], 0x265e5a51, 14);
    NextOperation(s, x, 16, 18);
    b := Md5Step(b, c, F2(c, d, a), x[0], 0xe9b6c7aa, 20);
    NextOperation(s, x, 16, 19);
    a := Md5Step(a, b, F2(b, c, d), x[5], 0xd62f105d, 5);
    NextOperation(s, x, 16, 20);
    d := Md5Step(d, a, F2(a, b, c), x[10], 0x02441453, 9);
    NextOperation(s, x, 16, 21);
    c := Md5Step(c, d, F2(d, a, b), x[15], 0xd8a1e681, 14);
    NextOperation(s, x, 16, 22);
    b := Md5Step(b, c, F2(c, d, a), x[4], 0xe7d3fbc8, 20);
    NextOperation(s, x, 16, 23);
    a := Md5Step(a, b, F2(b, c, d), x[9], 0x21e1cde6, 5);
    NextOperation(s, x, 16, 24);
    d := Md5Step(d, a, F2(a, b, c), x[14], 0xc33707d6, 9);
    NextOperation(s, x, 16, 25);
    c := Md5Step(c, d, F2(d, a, b), x[3], 0xf4d50d87, 14);
    NextOperation(s, x, 16, 26);
    b := Md5Step(b, c, F2(c, d, a), x[8], 0x455a14ed, 20);
    NextOperation(s, x, 16, 27);
    a := Md5Step(a, b, F2(b, c, d), x[13], 0xa9e3e905, 5);
    NextOperation(s, x, 16, 28);
    d := Md5Step(d, a, F2(a, b, c), x[2], 0xfcefa3f8, 9);
    NextOperation(s, x, 16, 29);
    c := Md5Step(c, d, F2(d, a, b), x[7], 0x676f02d9, 14);
    NextOperation(s, x, 16, 30);
    b := Md5Step(b, c, F2(c, d, a), x[12], 0x8d2a4c8a, 20);
    NextOperation(s, x, 16, 31);
    s' := State(a, b, c, d);
  }

  method RoundThree(x: seq<word>, s: State) returns (s': State)
    requires |x| == 16
    ensures s' == Operations(s, x, 32, 48)
  {
    hide F, G, Xor, And, Or, Not, Md5Step, Turn, Operations;
    var a, b, c, d := s.a, s.b, s.c, s.d;
    a := Md5Step(a, b, F3(b, c, d), x[5], 0xfffa3942, 4);
    NextOperation(s, x, 32, 32);
    d := Md5Step(d, a, F3(a, b, c), x[8], 0x8771f681, 11);
    NextOperation(s, x, 32, 33);
    c := Md5Step(c, d, F3(d, a, b), x[11], 0x6d9d6122, 16);
    NextOperation(s, x, 32, 34);
    b := Md5Step(b, c, F3(c, d, a), x[14], 0xfde5380c, 23);
    NextOperation(s, x, 32, 35);
    a := Md5Step(a, b, F3(b, c, d), x[1], 0xa4beea44, 4);
    NextOperation(s, x, 32, 36);
    d := Md5Step(d, a, F3(a, b, c), x[4], 0x4bdecfa9, 11);
    NextOperation(s, x, 32, 37);
    c := Md5Step(c, d, F3(d, a, b), x[7], 0xf6bb4b60, 16);
    NextOperation(s, x, 32, 38);
    b := Md5Step(b, c, F3(c, d, a), x[10], 0xbebfbc70, 23);
    NextOperation(s, x, 32, 39);
    a := Md5Step(a, b, F3(b, c, d), x[13], 0x289b7ec6, 4);
    NextOperation(s, x, 32, 40);
    d := Md5Step(d, a, F3(a, b, c), x[0], 0xeaa127fa, 11);
    NextOperation(s, x, 32, 41);
    c := Md5Step(c, d, F3(d, a, b), x[3], 0xd4ef3085, 16);
    NextOperation(s, x, 32, 42);
    b := Md5Step(b, c, F3(c, d, a), x[6], 0x04881d05, 23);
    NextOperation(s, x, 32, 43);
    a := Md5Step(a, b, F3(b, c, d), x[9], 0xd9d4d039, 4);
    NextOperation(s, x, 32, 44);
    d := Md5Step(d, a, F3(a, b, c), x[12], 0xe6db99e5, 11);
    NextOperation(s, x, 32, 45);
    c := Md5Step(c, d, F3(d, a, b), x[15], 0x1fa27cf8, 16);
    NextOperation(s, x, 32, 46);
    b := Md5Step(b, c, F3(c, d, a), x[2], 0xc4ac5665, 23);
    NextOperation(s, x, 32, 47);
    s' := State(a, b, c, d);
  }

  method RoundFour(x: seq<word>, s: State) returns (s': State)
    requires |x| == 16
    ensures s' == Operations(s, x, 48, 64)
  {
    hide F, G, Xor, And, Or, Not, Md5Step, Turn, Operations;
    var a, b, c, d := s.a, s.b, s.c, s.d;
    a := Md5Step(a, b, F4(b, c, d), x[0], 0xf4292244, 6);
    NextOperation(s, x, 48, 48);
    d := Md5Step(d, a, F4(a, b, c), x[7], 0x432aff97, 10);
    NextOperation(s, x, 48, 49);
    c := Md5Step(c, d, F4(d, a, b), x[14], 0xab9423a7, 15);
    NextOperation(s, x, 48, 50);
    b := Md5Step(b, c, F4(c, d, a), x[5], 0xfc93a039, 21);
    NextOperation(s, x, 48, 51);
    a := Md5Step(a, b, F4(b, c, d), x[12], 0x655b59c3, 6);
    NextOperation(s, x, 48, 52);
    d := Md5Step(d, a, F4(a, b, c), x[3], 0x8f0ccc92, 10);
    NextOperation(s, x, 48, 53);
    c := Md5Step(c, d, F4(d, a, b), x[10], 0xffeff47d, 15);
    NextOperation(s, x, 48, 54);
    b := Md5Step(b, c, F4(c, d, a), x[1], 0x85845dd1, 21);
    NextOperation(s, x, 48, 55);
    a := Md5Step(a, b, F4(b, c, d), x[8], 0x6fa87e4f, 6);
    NextOperation(s, x, 48, 56);
    d := Md5Step(d, a, F4(a, b, c), x[15], 0xfe2ce6e0, 10);
    NextOperation(s, x, 48, 57);
    c := Md5Step(c, d, F4(d, a, b), x[6], 0xa3014314, 15);
    NextOperation(s, x, 48, 58);
    b := Md5Step(b, c, F4(c, d, a), x[13], 0x4e0811a1, 21);
    NextOperation(s, x, 48, 59);
    a := Md5Step(a, b, F4(b, c, d), x[4], 0xf7537e82, 6);
    NextOperation(s, x, 48, 60);
    d := Md5Step(d, a, F4(a, b, c), x[11], 0xbd3af235, 10);
    NextOperation(s, x, 48, 61);
    c := Md5Step(c, d, F4(d, a, b), x[2], 0x2ad7d2bb, 15);
    NextOperation(s, x, 48, 62);
    b := Md5Step(b, c, F4(c, d, a), x[9], 0xeb86d391, 21);
    NextOperation(s, x, 48, 63);
    s' := State(a, b, c, d);
  }

  method Transform(buf: State, x: seq<word>) returns (buf': State)
    requires |x| == 16
    ensures buf' == Compress(buf, x)
  {
    hide Operate, Operations, Plus;
    var s := RoundOne(x, buf);
    s := RoundTwo(x, s);
    s := RoundThree(x, s);
    s := RoundFour(x, s);
    OperationsJoin(buf, x, 0, 16, 32);
    OperationsJoin(buf, x, 0, 32, 48);
    OperationsJoin(buf, x, 0, 48, 64);
    return State(Plus(buf.a, s.a), Plus(buf.b, s.b), Plus(buf.c, s.c), Plus(buf.d, s.d));
  }
}
