/** Modbus RTU framing as spoken over DTLS: the request of Read Holding Registers (section 6.3 of the Modbus
    Application Protocol V1.1b3) and the response parser with its AA55 pre-header. */
module ModbusRtu {
  import opened Arithmetic
  import opened Crc16
  import opened Registers

  // ---------------------------------------------------------------- numbers

  function Value(u: seq<bool>): nat {
    if u == [] then 0 else (if u[0] then 1 else 0) + 2 * Value(u[1..])
  }

  /** Lowest bit first: what follows |u| bits counts 2^|u| times. */
  lemma {:induction false} ValueAppend(u: seq<bool>, v: seq<bool>)
    ensures Value(u + v) == Value(u) + Pow2(|u|) * Value(v)
    ensures Value([false]) == 0 && Value([true]) == 1
  {
    assert Value([false]) == 0 && Value([true]) == 1 by {
      assert [true][1..] == [] && [false][1..] == [];
    }
    if u == [] {
      assert u + v == v;
    } else {
      assert (u + v)[1..] == u[1..] + v;
      ValueAppend(u[1..], v);
      Twice(Pow2(|u| - 1), Value(v));
    }
  }

  lemma Twice(p: nat, x: nat)
    ensures 2 * (p * x) == (2 * p) * x
  {
  }

  function Encode(n: nat, width: nat): (u: seq<bool>)
    ensures |u| == width
  {
    if width == 0 then [] else [n % 2 == 1] + Encode(n / 2, width - 1)
  }

  lemma {:induction false} ValueOfEncode(n: nat, width: nat)
    requires n < Pow2(width)
    ensures Value(Encode(n, width)) == n
    decreases width
  {
    if width != 0 {
      ValueOfEncode(n / 2, width - 1);
    }
  }

  function ByteOf(n: nat): Byte
    requires n < 256
  {
    Encode(n, 8)
  }

  lemma ValueOfByte(n: nat)
    requires n < 256
    ensures Value(ByteOf(n)) == n
  {
    assert Pow2(8) == 256;
    ValueOfEncode(n, 8);
  }

  // ---------------------------------------------------------------- the response

  datatype ParseResult =
    | Data(payload: seq<Byte>)
    | TooShort
    | CrcMismatch
    | ExceptionResponse(func: Byte, code: Byte)
    | Incomplete

  function Parse(response: seq<Byte>): (r: ParseResult)
    ensures r.TooShort? <==> |response| < 7
  {
    var n := |response|;
    if n < 7 then
      TooShort
    else
      var expectedCrc := Join(response[n - 2], response[n - 1]);
      var actualCrc := Crc(response[2..n - 2]);
      if expectedCrc != actualCrc then
        CrcMismatch
      else
        var func := response[3];
        if func[7] then
          ExceptionResponse(func, response[4])
        else
          var byteCount := Value(response[4]);
          if n < 5 + byteCount + 2 then
            Incomplete
          else
            Data(response[5..5 + byteCount])
  }

  /** The response that carries a payload: AA55, slave F7, function 03, byte count, payload, CRC. */
  function Frame(payload: seq<Byte>): seq<Byte>
    requires |payload| <= 255
  {
    var body := [ByteOf(0xF7), ByteOf(0x03), ByteOf(|payload|)] + payload;
    [ByteOf(0xAA), ByteOf(0x55)] + body + [LowByte(Crc(body)), HighByte(Crc(body))]
  }

  /** The comparison of the two CRC values is the test that the whole body, CRC included, leaves residue zero. */
  lemma CrcCheckIsResidue(response: seq<Byte>)
    requires |response| >= 7
    ensures Parse(response) == CrcMismatch <==> Crc(response[2..]) != Zero()
  {
    var n := |response|;
    var data, l, h := response[2..n - 2], response[n - 2], response[n - 1];
    BodyEndsWithCrc(response, data, l, h);
    Residue(data, l, h);
    SplitWord(Crc(data), l, h);
  }

  lemma BodyEndsWithCrc(response: seq<Byte>, data: seq<Byte>, l: Byte, h: Byte)
    requires |response| >= 4 && data == response[2..|response| - 2]
    requires l == response[|response| - 2] && h == response[|response| - 1]
    ensures response[2..] == data + [l, h]
  {
  }

  lemma ReadFunctionIsNoException()
    ensures !ByteOf(0x03)[7]
  {
    assert Encode(3, 8)[1..] == Encode(1, 7) && Encode(1, 7)[1..] == Encode(0, 6);
    EncodeZero(6);
    assert ByteOf(0x03)[7] == Encode(0, 6)[5];
  }

  lemma {:induction false} EncodeZero(width: nat)
    ensures forall i :: 0 <= i < width ==> !Encode(0, width)[i]
  {
    if width != 0 {
      EncodeZero(width - 1);
    }
  }

  lemma WellFormedParses(header: seq<Byte>, body: seq<Byte>, payload: seq<Byte>)
    requires |header| == 2 && |body| == 3 + |payload| && body[3..] == payload
    requires !body[1][7] && Value(body[2]) == |payload|
    ensures Parse(header + body + [LowByte(Crc(body)), HighByte(Crc(body))]) == Data(payload)
  {
    var l, h := LowByte(Crc(body)), HighByte(Crc(body));
    var f := header + body + [l, h];
    assert f[2..|f| - 2] == body;
    SplitWord(Crc(body), l, h);
    assert f[5..5 + |payload|] == payload;
  }

  /** Every payload a byte count can announce comes back unchanged. */
  lemma RoundTrip(payload: seq<Byte>)
    requires |payload| <= 255
    ensures Parse(Frame(payload)) == Data(payload)
  {
    var body := [ByteOf(0xF7), ByteOf(0x03), ByteOf(|payload|)] + payload;
    ValueOfByte(|payload|);
    ReadFunctionIsNoException();
    WellFormedParses([ByteOf(0xAA), ByteOf(0x55)], body, payload);
  }

  /** An exception response of any length is reported with its function and exception code, whatever else it holds. */
  lemma ExceptionParses(header: seq<Byte>, body: seq<Byte>)
    requires |header| == 2 && |body| >= 3 && body[1][7]
    ensures Parse(header + body + [LowByte(Crc(body)), HighByte(Crc(body))]) == ExceptionResponse(body[1], body[2])
  {
    var l, h := LowByte(Crc(body)), HighByte(Crc(body));
    var f := header + body + [l, h];
    assert f[2..|f| - 2] == body;
    SplitWord(Crc(body), l, h);
  }

  /** A response with a right CRC that announces more bytes than it has is incomplete. */
  lemma ShortDataIsIncomplete(header: seq<Byte>, body: seq<Byte>)
    requires |header| == 2 && |body| >= 3 && !body[1][7] && Value(body[2]) > |body| - 3
    ensures Parse(header + body + [LowByte(Crc(body)), HighByte(Crc(body))]) == Incomplete
  {
    var l, h := LowByte(Crc(body)), HighByte(Crc(body));
    var f := header + body + [l, h];
    assert f[2..|f| - 2] == body;
    SplitWord(Crc(body), l, h);
  }

  // ---------------------------------------------------------------- corrupted responses

  /** A response that passed the CRC check no longer does once its body is changed inside sixteen consecutive
      bits, whether in the payload, in the CRC field or across the two. */
  lemma BurstRejected(good: seq<Byte>, bad: seq<Byte>, i: nat)
    requires |good| >= 7 && Parse(good) != CrcMismatch
    requires |bad| == |good| && bad[2..] != good[2..] && WithinBurst(Bits(good[2..]), Bits(bad[2..]), i)
    ensures Parse(bad) == CrcMismatch
  {
    CrcCheckIsResidue(good);
    CrcCheckIsResidue(bad);
    BurstChangesCrc(good[2..], bad[2..], i);
  }

  /** In particular for any change to two adjacent bytes after the header. */
  lemma AdjacentBytesRejected(good: seq<Byte>, bad: seq<Byte>, j: nat)
    requires |good| >= 7 && Parse(good) != CrcMismatch
    requires |bad| == |good| && bad != good && 2 <= j
    requires forall k :: 0 <= k < |good| && k != j && k != j + 1 ==> bad[k] == good[k]
    ensures Parse(bad) == CrcMismatch
  {
    AdjacentIsBurst(good, bad, j);
    BurstRejected(good, bad, 8 * (j - 2));
  }

  lemma AdjacentIsBurst(good: seq<Byte>, bad: seq<Byte>, j: nat)
    requires |bad| == |good| && bad != good && 2 <= j
    requires forall k :: 0 <= k < |good| && k != j && k != j + 1 ==> bad[k] == good[k]
    ensures j < |good| && bad[2..] != good[2..]
    ensures WithinBurst(Bits(good[2..]), Bits(bad[2..]), 8 * (j - 2))
  {
    BodiesDiffer(good, bad, j);
    AdjacentBytesAreBurst(good[2..], bad[2..], j - 2);
  }

  lemma BodiesDiffer(good: seq<Byte>, bad: seq<Byte>, j: nat)
    requires |bad| == |good| && bad != good && 2 <= j
    requires forall k :: 0 <= k < |good| && k != j && k != j + 1 ==> bad[k] == good[k]
    ensures j < |good| && bad[2..] != good[2..]
  {
    var k :| 0 <= k < |good| && bad[k] != good[k];
    assert bad[2..][k - 2] != good[2..][k - 2];
  }

  lemma AdjacentParts<T>(x: seq<T>, y: seq<T>, j: nat) returns (a: seq<T>, u: seq<T>, v: seq<T>, c: seq<T>)
    requires |x| == |y| && j < |x| && forall k :: 0 <= k < |x| && k != j && k != j + 1 ==> x[k] == y[k]
    ensures |a| == j && |u| == |v| <= 2 && x == a + u + c && y == a + v + c
  {
    var hi := if j + 2 <= |x| then j + 2 else |x|;
    a, u, v, c := x[..j], x[j..hi], y[j..hi], x[hi..];
    assert y[..j] == a && y[hi..] == c;
    Thirds(x, j, hi);
    Thirds(y, j, hi);
  }

  lemma Thirds<T>(x: seq<T>, lo: nat, hi: nat)
    requires lo <= hi <= |x|
    ensures x == x[..lo] + x[lo..hi] + x[hi..]
  {
  }

  lemma AdjacentBytesAreBurst(x: seq<Byte>, y: seq<Byte>, j: nat)
    requires |x| == |y| && j < |x| && forall k :: 0 <= k < |x| && k != j && k != j + 1 ==> x[k] == y[k]
    ensures WithinBurst(Bits(x), Bits(y), 8 * j)
  {
    var a, u, v, c := AdjacentParts(x, y, j);
    PartsAreBurst(a, u, v, c);
  }

  lemma PartsAreBurst(a: seq<Byte>, u: seq<Byte>, v: seq<Byte>, c: seq<Byte>)
    requires |u| == |v| <= 2
    ensures WithinBurst(Bits(a + u + c), Bits(a + v + c), 8 * |a|)
  {
    BitsAppend(a + u, c);
    BitsAppend(a, u);
    BitsAppend(a + v, c);
    BitsAppend(a, v);
    BitsAreBurst(Bits(a), Bits(u), Bits(v), Bits(c));
  }

  lemma BitsAreBurst(a: seq<bool>, u: seq<bool>, v: seq<bool>, c: seq<bool>)
    requires |u| == |v| <= 16
    ensures WithinBurst(a + u + c, a + v + c, |a|)
  {
  }

  /** Nor once an odd number of its body's bits is flipped, wherever they are. */
  lemma OddErrorRejected(good: seq<Byte>, bad: seq<Byte>)
    requires |good| >= 7 && Parse(good) != CrcMismatch
    requires |bad| == |good| && Flips(Bits(good[2..]), Bits(bad[2..])) % 2 == 1
    ensures Parse(bad) == CrcMismatch
  {
    CrcCheckIsResidue(good);
    CrcCheckIsResidue(bad);
    OddErrorChangesCrc(good[2..], bad[2..]);
  }

  // ---------------------------------------------------------------- the request

  /** The eight bytes doRead sends; registers and quantities go high byte first, the CRC low byte first. */
  method BuildRequest(startReg: Word, quantity: Word) returns (request: seq<Byte>)
    ensures IsRequest(request, ByteOf(0xF7), ByteOf(0x03), startReg, quantity)
    ensures Crc(request) == Zero()
  {
    request := Assemble(ByteOf(0xF7), ByteOf(0x03), startReg, quantity);
  }

  predicate IsRequest(request: seq<Byte>, slave: Byte, func: Byte, register: Word, quantity: Word) {
    && |request| == 8 && request[0] == slave && request[1] == func
    && Join(request[3], request[2]) == register && Join(request[5], request[4]) == quantity
  }

  method Assemble(slave: Byte, func: Byte, register: Word, quantity: Word) returns (request: seq<Byte>)
    ensures IsRequest(request, slave, func, register, quantity)
    ensures Crc(request) == Zero()
  {
    request := [slave, func, HighByte(register), LowByte(register), HighByte(quantity), LowByte(quantity)];
    SplitWord(register, request[3], request[2]);
    SplitWord(quantity, request[5], request[4]);
    var crc := CalculateCrc16(request);
    Residue(request, LowByte(crc), HighByte(crc));
    request := request + [LowByte(crc), HighByte(crc)];
  }
}
