/** A register driven by a stream of symbols, and the two ways it can keep different histories apart. */
module Registers {

  function Fold<S, X>(step: (S, X) -> S, s: S, xs: seq<X>): S
    decreases xs
  {
    if xs == [] then s else Fold(step, step(s, xs[0]), xs[1..])
  }

  lemma {:induction false} FoldAppend<S, X>(step: (S, X) -> S, s: S, a: seq<X>, b: seq<X>)
    ensures Fold(step, s, a + b) == Fold(step, Fold(step, s, a), b)
    decreases a
  {
    if a == [] {
      assert a + b == b;
    } else {
      assert (a + b)[1..] == a[1..] + b;
      FoldAppend(step, step(s, a[0]), a[1..], b);
    }
  }

  function Iterate<S>(f: S -> S, s: S, n: nat): S
    decreases n
  {
    if n == 0 then s else Iterate(f, f(s), n - 1)
  }

  /** No symbol merges two states. */
  ghost predicate Reversible<S(!new), X(!new)>(step: (S, X) -> S) {
    forall s, t, x :: step(s, x) == step(t, x) ==> s == t
  }

  lemma {:induction false} FoldInjective<S(!new), X(!new)>(step: (S, X) -> S, s: S, t: S, xs: seq<X>)
    requires Reversible(step)
    requires Fold(step, s, xs) == Fold(step, t, xs)
    ensures s == t
    decreases xs
  {
    if xs != [] {
      FoldInjective(step, step(s, xs[0]), step(t, xs[0]), xs[1..]);
    }
  }

  /** apart(s, t, k) measures a distance that shrinks by at most one per symbol, whatever the symbols are;
      different symbols put one state at distance n - 1 from itself. */
  ghost predicate Separating<S(!new), X(!new)>(step: (S, X) -> S, apart: (S, S, nat) -> bool, n: nat) {
    && (forall s, t :: apart(s, t, 0) ==> s != t)
    && (forall s, t, x, y, k: nat :: k < n && apart(s, t, k + 1) ==> apart(step(s, x), step(t, y), k))
    && (forall s, x, y, k: nat :: x != y && k < n ==> apart(step(s, x), step(s, y), k))
  }

  lemma {:induction false} ApartPersists<S(!new), X(!new)>(
    step: (S, X) -> S, apart: (S, S, nat) -> bool, n: nat, s: S, t: S, u: seq<X>, v: seq<X>)
    requires Separating(step, apart, n)
    requires |u| == |v| <= n && apart(s, t, |u|)
    ensures Fold(step, s, u) != Fold(step, t, v)
    decreases |u|
  {
    if u != [] {
      ApartPersists(step, apart, n, step(s, u[0]), step(t, v[0]), u[1..], v[1..]);
    }
  }

  /** Two different words of at most n symbols never lead from one state to the same state. */
  lemma {:induction false} WindowInjective<S(!new), X(!new)>(
    step: (S, X) -> S, apart: (S, S, nat) -> bool, n: nat, s: S, u: seq<X>, v: seq<X>)
    requires Separating(step, apart, n)
    requires |u| == |v| <= n && u != v
    ensures Fold(step, s, u) != Fold(step, s, v)
    decreases |u|
  {
    if u[0] == v[0] {
      assert u == [u[0]] + u[1..] && v == [v[0]] + v[1..];
      WindowInjective(step, apart, n, step(s, u[0]), u[1..], v[1..]);
    } else {
      ApartPersists(step, apart, n, step(s, u[0]), step(s, v[0]), u[1..], v[1..]);
    }
  }

  /** The number of places at which two words of the same length differ. */
  function Flips(u: seq<bool>, v: seq<bool>): nat
    requires |u| == |v|
  {
    if u == [] then 0 else (if u[0] != v[0] then 1 else 0) + Flips(u[1..], v[1..])
  }

  /** Each symbol shifts the parity of the state by its own. */
  ghost predicate ShiftsParity<S(!new)>(step: (S, bool) -> S, odd: S -> bool) {
    forall s, bit :: odd(step(s, bit)) == (odd(s) != bit)
  }

  /** If a state has a parity that each symbol shifts by its own, an odd number of flips shows in the parity. */
  lemma {:induction false} FlipsShowInParity<S(!new)>(
    step: (S, bool) -> S, odd: S -> bool, s: S, t: S, u: seq<bool>, v: seq<bool>)
    requires ShiftsParity(step, odd) && |u| == |v|
    ensures (odd(Fold(step, s, u)) == odd(Fold(step, t, v))) == ((odd(s) == odd(t)) == (Flips(u, v) % 2 == 0))
    decreases |u|
  {
    if u != [] {
      FlipsShowInParity(step, odd, step(s, u[0]), step(t, v[0]), u[1..], v[1..]);
    }
  }

  /** A change confined to n consecutive symbols changes the final state. */
  lemma BurstChangesState<S(!new), X(!new)>(
    step: (S, X) -> S, apart: (S, S, nat) -> bool, n: nat, s: S,
    pre: seq<X>, u: seq<X>, v: seq<X>, post: seq<X>)
    requires Reversible(step) && Separating(step, apart, n)
    requires |u| == |v| <= n && u != v
    ensures Fold(step, s, pre + u + post) != Fold(step, s, pre + v + post)
  {
    FoldAppend(step, s, pre + u, post);
    FoldAppend(step, s, pre, u);
    FoldAppend(step, s, pre + v, post);
    FoldAppend(step, s, pre, v);
    WindowInjective(step, apart, n, Fold(step, s, pre), u, v);
    if Fold(step, s, pre + u + post) == Fold(step, s, pre + v + post) {
      FoldInjective(step, Fold(step, s, pre + u), Fold(step, s, pre + v), post);
    }
  }
}

/** The CRC-16 of section 6.2.2 of the Modbus over Serial Line Specification V1.02, as computed by
    calculateCRC16. An unsigned machine word is its bits, least significant first, so that `w[0]` is `w & 1`,
    `w[1..] + [false]` is `w >> 1` and exclusive-or works place by place. */
module Crc16 {
  import opened Registers

  type Byte = w: seq<bool> | |w| == 8 witness [false, false, false, false, false, false, false, false]
  type Word = w: seq<bool> | |w| == 16 witness [false, false, false, false, false, false, false, false,
    false, false, false, false, false, false, false, false]

  function Repeat(bit: bool, n: nat): (u: seq<bool>)
    ensures |u| == n && forall i :: 0 <= i < n ==> u[i] == bit
  {
    if n == 0 then [] else [bit] + Repeat(bit, n - 1)
  }

  function Zero(): (w: Word)
    ensures forall i :: 0 <= i < 16 ==> !w[i]
  {
    Repeat(false, 16)
  }

  /** 0xFFFF */
  function Initial(): Word {
    Repeat(true, 16)
  }

  /** 0xA001 */
  function Polynomial(): (w: Word)
    ensures forall i :: 0 <= i < 16 ==> w[i] == (i == 0 || i == 13 || i == 15)
  {
    [true] + Repeat(false, 12) + [true, false, true]
  }

  function XorBits(x: seq<bool>, y: seq<bool>): (z: seq<bool>)
    requires |x| == |y|
    ensures |z| == |x| && forall i :: 0 <= i < |z| ==> z[i] == (x[i] != y[i])
  {
    if x == [] then [] else [x[0] != y[0]] + XorBits(x[1..], y[1..])
  }

  function Xor(x: Word, y: Word): Word {
    XorBits(x, y)
  }

  /** A narrower value as a word, as in uint16(b). */
  function Widen(u: seq<bool>): Word
    requires |u| <= 16
  {
    u + Repeat(false, 16 - |u|)
  }

  /** crc >> 1 */
  function Halve(crc: Word): Word {
    crc[1..] + [false]
  }

  /** One pass of the inner loop: shift right, and fold the polynomial in if a one fell out. */
  function Shift(crc: Word): Word {
    if crc[0] then Xor(Halve(crc), Polynomial()) else Halve(crc)
  }

  /** One pass of the outer loop. */
  function Feed(crc: Word, b: Byte): Word {
    Iterate<Word>(Shift, Xor(crc, Widen(b)), |b|)
  }

  function Crc(data: seq<Byte>): Word {
    Fold<Word, Byte>(Feed, Initial(), data)
  }

  method CalculateCrc16(data: seq<Byte>) returns (crc: Word)
    ensures crc == Crc(data)
  {
    crc := Initial();
    for i := 0 to |data|
      invariant Fold<Word, Byte>(Feed, crc, data[i..]) == Crc(data)
    {
      ghost var next := Feed(crc, data[i]);
      assert Fold<Word, Byte>(Feed, next, data[i + 1..]) == Crc(data) by {
        assert data[i..][1..] == data[i + 1..];
      }
      crc := Xor(crc, Widen(data[i]));
      for j := 0 to 8
        invariant Iterate<Word>(Shift, crc, |data[i]| - j) == next
      {
        if crc[0] {
          crc := Xor(Halve(crc), Polynomial());
        } else {
          crc := Halve(crc);
        }
      }
    }
  }

  // ---------------------------------------------------------------- the bit-serial register

  function Clock(crc: Word, bit: bool): Word {
    Shift(Xor(crc, Widen([bit])))
  }

  /** Bit i after one clock: the bit above it, flipped by the polynomial if the bit that fell out was one. */
  lemma ClockAt(crc: Word, bit: bool, i: nat)
    requires i < 16
    ensures Clock(crc, bit)[i] == ((i < 15 && crc[i + 1]) != ((crc[0] != bit) && Polynomial()[i]))
  {
  }

  /** Mixing a value in whole and shifting once per bit is clocking its bits in one by one. */
  lemma {:induction false} MixIsSerial(crc: Word, u: seq<bool>)
    requires |u| <= 16
    ensures Iterate<Word>(Shift, Xor(crc, Widen(u)), |u|) == Fold<Word, bool>(Clock, crc, u)
    decreases |u|
  {
    if u == [] {
      assert Xor(crc, Widen(u)) == crc;
    } else {
      var mixed := Xor(crc, Widen(u));
      var next := Clock(crc, u[0]);
      assert Shift(mixed) == Xor(next, Widen(u[1..])) by {
        forall i | 0 <= i < 16 ensures Shift(mixed)[i] == Xor(next, Widen(u[1..]))[i] {
          ClockAt(crc, u[0], i);
        }
      }
      MixIsSerial(next, u[1..]);
    }
  }

  /** The bits of a message in transmission order. */
  function Bits(data: seq<Byte>): (bits: seq<bool>)
    ensures |bits| == 8 * |data|
  {
    if data == [] then [] else data[0] + Bits(data[1..])
  }

  /** The byte-wise loop is the bit-serial register run over the bits of the message. */
  lemma {:induction false} FeedIsClock(crc: Word, data: seq<Byte>)
    ensures Fold<Word, Byte>(Feed, crc, data) == Fold<Word, bool>(Clock, crc, Bits(data))
    decreases data
  {
    if data != [] {
      MixIsSerial(crc, data[0]);
      FoldAppend(Clock, crc, data[0], Bits(data[1..]));
      FeedIsClock(Feed(crc, data[0]), data[1..]);
    }
  }

  /** Every clock is a bijection on the 65536 states: the bit that fell out can be read back at the top. */
  lemma ClockReversible()
    ensures Reversible(Clock)
  {
    forall x: Word, y: Word, bit | Clock(x, bit) == Clock(y, bit) ensures x == y {
      ClockAt(x, bit, 15);
      ClockAt(y, bit, 15);
      forall i | 0 <= i < 16 ensures x[i] == y[i] {
        if i > 0 {
          ClockAt(x, bit, i - 1);
          ClockAt(y, bit, i - 1);
        }
      }
    }
  }

  // ---------------------------------------------------------------- bursts and odd errors

  /** Two registers are k-apart when they differ at place k or above. */
  ghost predicate Apart(x: Word, y: Word, k: nat) {
    exists i :: k <= i < 16 && x[i] != y[i]
  }

  lemma ApartSinks(x: Word, y: Word, p: bool, q: bool, k: nat)
    requires Apart(x, y, k + 1) && k < 16
    ensures Apart(Clock(x, p), Clock(y, q), k)
  {
    var i :| k + 1 <= i < 16 && x[i] != y[i];
    ClockAt(x, p, i - 1);
    ClockAt(y, q, i - 1);
    ClockAt(x, p, 15);
    ClockAt(y, q, 15);
    if (x[0] != p) == (y[0] != q) {
      assert Clock(x, p)[i - 1] != Clock(y, q)[i - 1];
    } else {
      assert Clock(x, p)[15] != Clock(y, q)[15];
    }
  }

  lemma ApartSplits(x: Word, p: bool, q: bool, k: nat)
    requires p != q && k < 16
    ensures Apart(Clock(x, p), Clock(x, q), k)
  {
    ClockAt(x, p, 15);
    ClockAt(x, q, 15);
    assert Clock(x, p)[15] != Clock(x, q)[15];
  }

  lemma ClockSeparates()
    ensures Separating(Clock, Apart, 16)
  {
    forall x: Word, y: Word, p, q, k: nat | k < 16 && Apart(x, y, k + 1)
      ensures Apart(Clock(x, p), Clock(y, q), k)
    {
      ApartSinks(x, y, p, q, k);
    }
    forall x: Word, p, q, k: nat | p != q && k < 16 ensures Apart(Clock(x, p), Clock(x, q), k) {
      ApartSplits(x, p, q, k);
    }
  }

  /** Whether an odd number of bits is set. */
  predicate Odd(u: seq<bool>) {
    if u == [] then false else u[0] != Odd(u[1..])
  }

  lemma {:induction false} OddAppend(u: seq<bool>, bit: bool)
    ensures Odd(u + [bit]) == (Odd(u) != bit)
  {
    if u != [] {
      assert (u + [bit])[1..] == u[1..] + [bit];
      OddAppend(u[1..], bit);
    }
  }

  lemma {:induction false} OddXor(u: seq<bool>, v: seq<bool>, w: seq<bool>)
    requires |u| == |v| == |w| && forall i :: 0 <= i < |w| ==> w[i] == (u[i] != v[i])
    ensures Odd(w) == (Odd(u) != Odd(v))
  {
    if w != [] {
      OddXor(u[1..], v[1..], w[1..]);
    }
  }

  lemma {:induction false} OddSkipsZeros(u: seq<bool>, i: nat, j: nat)
    requires i <= j <= |u| && forall k :: i <= k < j ==> !u[k]
    ensures Odd(u[i..]) == Odd(u[j..])
    decreases j - i
  {
    if i < j {
      assert u[i..][1..] == u[i + 1..];
      OddSkipsZeros(u, i + 1, j);
    }
  }

  lemma PolynomialIsOdd()
    ensures Odd(Polynomial())
  {
    OddSkipsZeros(Polynomial(), 1, 13);
    assert Polynomial()[13..] == [true, false, true];
    assert [true, false, true][1..] == [false, true] && [false, true][1..] == [true];
  }

  lemma ShiftKeepsParity(w: Word)
    ensures Odd(Shift(w)) == Odd(w)
  {
    OddAppend(w[1..], false);
    if w[0] {
      OddXor(Halve(w), Polynomial(), Shift(w));
      PolynomialIsOdd();
    }
  }

  predicate OddWord(w: Word) { Odd(w) }

  lemma ClockShiftsParity(crc: Word, bit: bool)
    ensures OddWord(Clock(crc, bit)) == (OddWord(crc) != bit)
  {
    var mixed := Xor(crc, Widen([bit]));
    ShiftKeepsParity(mixed);
    assert mixed[1..] == crc[1..];
  }

  // ---------------------------------------------------------------- the residue

  /** The word whose low byte is l and whose high byte is h. */
  function Join(l: seq<bool>, h: seq<bool>): Word
    requires |l| == 8 && |h| == 8
  {
    l + h
  }

  function LowByte(crc: Word): Byte { crc[..8] }
  function HighByte(crc: Word): Byte { crc[8..] }

  /** Sixteen bits that take the register to zero: its own, lowest first. */
  lemma {:induction false} OwnBitsClear(crc: Word, n: nat)
    requires n <= 16 && forall i :: n <= i < 16 ==> !crc[i]
    ensures Fold<Word, bool>(Clock, crc, crc[..n]) == Zero()
    decreases n
  {
    if n == 0 {
      assert crc == Zero();
    } else {
      var next := Clock(crc, crc[0]);
      forall i | 0 <= i < 16 ensures next[i] == (i < 15 && crc[i + 1]) {
        ClockAt(crc, crc[0], i);
      }
      assert crc[..n][1..] == next[..n - 1];
      OwnBitsClear(next, n - 1);
    }
  }

  lemma OnlyOwnBitsClear(crc: Word, u: Word)
    ensures Fold<Word, bool>(Clock, crc, u) == Zero() <==> u == crc
  {
    OwnBitsClear(crc, 16);
    assert crc[..16] == crc;
    if u != crc {
      ClockSeparates();
      WindowInjective<Word, bool>(Clock, Apart, 16, crc, u, crc);
    }
  }

  lemma BitsOfPair(l: Byte, h: Byte)
    ensures Bits([l, h]) == Join(l, h)
  {
    assert [l, h][1..] == [h] && [h][1..] == [];
  }

  lemma SplitWord(crc: Word, l: Byte, h: Byte)
    ensures Join(l, h) == crc <==> l == LowByte(crc) && h == HighByte(crc)
  {
    assert Join(l, h)[..8] == l && Join(l, h)[8..] == h;
  }

  /** A message followed by two bytes leaves residue zero exactly when they are its CRC, low byte first. */
  lemma Residue(data: seq<Byte>, l: Byte, h: Byte)
    ensures Crc(data + [l, h]) == Zero() <==> l == LowByte(Crc(data)) && h == HighByte(Crc(data))
  {
    var crc := Crc(data);
    FoldAppend<Word, Byte>(Feed, Initial(), data, [l, h]);
    FeedIsClock(crc, [l, h]);
    BitsOfPair(l, h);
    OnlyOwnBitsClear(crc, Join(l, h));
    SplitWord(crc, l, h);
  }

  // ---------------------------------------------------------------- the preset

  lemma {:induction false} ZerosKeepZero(zeros: seq<bool>)
    requires forall i :: 0 <= i < |zeros| ==> !zeros[i]
    ensures Fold<Word, bool>(Clock, Zero(), zeros) == Zero()
  {
    if zeros != [] {
      forall i | 0 <= i < 16 ensures Clock(Zero(), false)[i] == Zero()[i] {
        ClockAt(Zero(), false, i);
      }
      assert Clock(Zero(), zeros[0]) == Zero();
      ZerosKeepZero(zeros[1..]);
    }
  }

  ghost predicate AllZero(data: seq<Byte>) {
    forall i, j :: 0 <= i < |data| && 0 <= j < 8 ==> !data[i][j]
  }

  lemma {:induction false} BitsOfZeros(data: seq<Byte>)
    requires AllZero(data)
    ensures forall i :: 0 <= i < |Bits(data)| ==> !Bits(data)[i]
  {
    if data != [] {
      var rest := data[1..];
      assert AllZero(rest) by {
        assert forall i :: 0 <= i < |rest| ==> rest[i] == data[i + 1];
      }
      BitsOfZeros(rest);
    }
  }

  /** The CRC of a message that is empty or all zeros is not zero, however long it is: that of the empty one is all
      ones. */
  lemma ZerosShow(data: seq<Byte>)
    requires AllZero(data)
    ensures Crc(data) != Zero()
    ensures data == [] ==> forall i :: 0 <= i < 16 ==> Crc(data)[i]
  {
    FeedIsClock(Initial(), data);
    BitsOfZeros(data);
    ZerosKeepZero(Bits(data));
    ClockReversible();
    assert Initial()[0] && !Zero()[0];
    if Crc(data) == Zero() {
      FoldInjective<Word, bool>(Clock, Initial(), Zero(), Bits(data));
    }
  }

  /** The register with its sixteen bits written out, lowest first. */
  datatype Register = Register(b0: bool, b1: bool, b2: bool, b3: bool, b4: bool, b5: bool, b6: bool, b7: bool,
    b8: bool, b9: bool, b10: bool, b11: bool, b12: bool, b13: bool, b14: bool, b15: bool)

  function Spelled(w: Word): Register {
    Register(w[0], w[1], w[2], w[3], w[4], w[5], w[6], w[7], w[8], w[9], w[10], w[11], w[12], w[13], w[14], w[15])
  }

  /** One clock: everything moves down one place, and the bit that falls out is fed back at places 0, 13 and 15. */
  function Turn(r: Register, bit: bool): Register {
    var out := r.b0 != bit;
    Register(r.b1 != out, r.b2, r.b3, r.b4, r.b5, r.b6, r.b7, r.b8, r.b9, r.b10, r.b11, r.b12, r.b13, r.b14 != out,
      r.b15, out)
  }

  lemma ClockIsTurn(w: Word, bit: bool)
    ensures Spelled(Clock(w, bit)) == Turn(Spelled(w), bit)
  {
    var out := w[0] != bit;
    forall i | 0 <= i < 16
      ensures Clock(w, bit)[i] == ((i < 15 && w[i + 1]) != (out && (i == 0 || i == 13 || i == 15)))
    {
      ClockAt(w, bit, i);
    }
  }

  function Turns(r: Register, bits: seq<bool>): Register
    decreases bits
  {
    if bits == [] then r else Turns(Turn(r, bits[0]), bits[1..])
  }

  lemma {:induction false} ClocksAreTurns(w: Word, bits: seq<bool>)
    ensures Spelled(Fold<Word, bool>(Clock, w, bits)) == Turns(Spelled(w), bits)
    decreases bits
  {
    if bits != [] {
      ClockIsTurn(w, bits[0]);
      ClocksAreTurns(Clock(w, bits[0]), bits[1..]);
    }
  }

  lemma TurnFirst(r: Register, bit: bool, rest: seq<bool>)
    ensures Turns(r, [bit] + rest) == Turns(Turn(r, bit), rest)
  {
    assert ([bit] + rest)[1..] == rest;
  }

  lemma TurnsByFour(r: Register, u: seq<bool>, rest: seq<bool>)
    requires |u| == 4
    ensures Turns(r, u + rest) == Turns(Turn(Turn(Turn(Turn(r, u[0]), u[1]), u[2]), u[3]), rest)
  {
    assert u + rest == [u[0]] + ([u[1]] + ([u[2]] + ([u[3]] + rest)));
    TurnFirst(r, u[0], [u[1]] + ([u[2]] + ([u[3]] + rest)));
    TurnFirst(Turn(r, u[0]), u[1], [u[2]] + ([u[3]] + rest));
    TurnFirst(Turn(Turn(r, u[0]), u[1]), u[2], [u[3]] + rest);
    TurnFirst(Turn(Turn(Turn(r, u[0]), u[1]), u[2]), u[3], rest);
  }

  lemma TurnsByEight(r: Register, u: seq<bool>, rest: seq<bool>)
    requires |u| == 8
    ensures Turns(r, u + rest) ==
      Turns(Turn(Turn(Turn(Turn(Turn(Turn(Turn(Turn(r, u[0]), u[1]), u[2]), u[3]), u[4]), u[5]), u[6]), u[7]), rest)
  {
    assert u + rest == u[..4] + (u[4..] + rest);
    TurnsByFour(r, u[..4], u[4..] + rest);
    TurnsByFour(Turn(Turn(Turn(Turn(r, u[0]), u[1]), u[2]), u[3]), u[4..], rest);
  }

  lemma InitialSpelled()
    ensures Spelled(Initial()) == Register(true, true, true, true, true, true, true, true, true, true, true, true, true,
      true, true, true)
  {
  }

  /** An independent definition of the CRC, for all messages: sixteen ones, turned once for each bit sent. */
  lemma CrcIsTurns(data: seq<Byte>)
    ensures Spelled(Crc(data)) == Turns(Register(true, true, true, true, true, true, true, true, true, true, true, true,
      true, true, true, true), Bits(data))
  {
    FeedIsClock(Initial(), data);
    ClocksAreTurns(Initial(), Bits(data));
    InitialSpelled();
  }

  /** A known value: the bytes 02 07 have the CRC 0x1241. */
  lemma KnownCrc(l: Byte, h: Byte)
    requires l == [false, true, false, false, false, false, false, false]
    requires h == [true, true, true, false, false, false, false, false]
    ensures Spelled(Crc([l, h])) == Register(true, false, false, false, false, false, true, false,
      false, true, false, false, true, false, false, false)
  {
    CrcIsTurns([l, h]);
    BitsOfPair(l, h);
    var r := Register(true, true, true, true, true, true, true, true, true, true, true, true, true, true, true, true);
    TurnsByEight(r, l, h);
    assert h == h + [];
    TurnsByEight(Turn(Turn(Turn(Turn(Turn(Turn(Turn(Turn(r, l[0]), l[1]), l[2]), l[3]), l[4]), l[5]), l[6]), l[7]), h, []);
  }

  // ---------------------------------------------------------------- error detection

  lemma {:induction false} BitsAppend(a: seq<Byte>, b: seq<Byte>)
    ensures Bits(a + b) == Bits(a) + Bits(b)
  {
    if a == [] {
      assert a + b == b;
    } else {
      assert (a + b)[1..] == a[1..] + b;
      BitsAppend(a[1..], b);
    }
  }

  /** The bits determine the bytes. */
  lemma {:induction false} BitsInjective(a: seq<Byte>, b: seq<Byte>)
    requires Bits(a) == Bits(b)
    ensures a == b
  {
    assert |a| == |b|;
    if a != [] {
      assert Bits(a)[..8] == a[0] && Bits(b)[..8] == b[0];
      assert Bits(a)[8..] == Bits(a[1..]) && Bits(b)[8..] == Bits(b[1..]);
      BitsInjective(a[1..], b[1..]);
    }
  }

  /** Two bit strings agree outside the sixteen places from i on. */
  ghost predicate WithinBurst(x: seq<bool>, y: seq<bool>, i: nat) {
    |x| == |y| && forall k :: 0 <= k < |x| && !(i <= k < i + 16) ==> x[k] == y[k]
  }

  lemma BurstSplits(x: seq<bool>, y: seq<bool>, i: nat) returns (lo: nat, hi: nat)
    requires x != y && WithinBurst(x, y, i)
    ensures lo <= hi <= |x| && hi - lo <= 16 && x[lo..hi] != y[lo..hi]
    ensures x == x[..lo] + x[lo..hi] + x[hi..] && y == x[..lo] + y[lo..hi] + x[hi..]
  {
    lo := i;
    hi := if i + 16 <= |x| then i + 16 else |x|;
    assert x[..lo] == y[..lo] && x[hi..] == y[hi..];
    assert x == x[..lo] + x[lo..hi] + x[hi..] && y == x[..lo] + y[lo..hi] + x[hi..];
  }

  lemma BurstChangesRegister(crc: Word, x: seq<bool>, y: seq<bool>, i: nat)
    requires x != y && WithinBurst(x, y, i)
    ensures Fold<Word, bool>(Clock, crc, x) != Fold<Word, bool>(Clock, crc, y)
  {
    var lo, hi := BurstSplits(x, y, i);
    ClockReversible();
    ClockSeparates();
    BurstChangesState<Word, bool>(Clock, Apart, 16, crc, x[..lo], x[lo..hi], y[lo..hi], x[hi..]);
  }

  lemma ClockParity()
    ensures ShiftsParity<Word>(Clock, OddWord)
  {
    forall r: Word, bit ensures OddWord(Clock(r, bit)) == (OddWord(r) != bit) {
      ClockShiftsParity(r, bit);
    }
  }

  lemma OddErrorChangesRegister(crc: Word, x: seq<bool>, y: seq<bool>)
    requires |x| == |y| && Flips(x, y) % 2 == 1
    ensures Fold<Word, bool>(Clock, crc, x) != Fold<Word, bool>(Clock, crc, y)
  {
    ClockParity();
    FlipsShowInParity<Word>(Clock, OddWord, crc, crc, x, y);
  }

  /** Messages that differ, but only inside sixteen consecutive bits, have different CRCs. */
  lemma BurstChangesCrc(a: seq<Byte>, b: seq<Byte>, i: nat)
    requires a != b && WithinBurst(Bits(a), Bits(b), i)
    ensures Crc(a) != Crc(b)
  {
    FeedIsClock(Initial(), a);
    FeedIsClock(Initial(), b);
    if Bits(a) == Bits(b) {
      BitsInjective(a, b);
    }
    BurstChangesRegister(Initial(), Bits(a), Bits(b), i);
  }

  /** Messages of one length that differ in an odd number of bits have different CRCs. */
  lemma OddErrorChangesCrc(a: seq<Byte>, b: seq<Byte>)
    requires |a| == |b| && Flips(Bits(a), Bits(b)) % 2 == 1
    ensures Crc(a) != Crc(b)
  {
    FeedIsClock(Initial(), a);
    FeedIsClock(Initial(), b);
    OddErrorChangesRegister(Initial(), Bits(a), Bits(b));
  }
}
