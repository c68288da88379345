/** The classic-BPF socket selector (udp_receiver_linux.go) against the hash it implements
    (reuseport_hash.go). */
module ReusePort {
  import opened Options
  import opened Bytes

  const MAX_UDP_PACKET_SIZE := 65535

  // ---- Unsigned 32-bit words ----

  function Pow2(n: nat): (p: nat)
    ensures p >= 1
  {
    if n == 0 then 1 else 2 * Pow2(n - 1)
  }

  /** Multiplication of words, which wraps around: `a` added `b` times. */
  function Times(a: u32, b: u32): u32
    decreases b, a
  {
    if b == 0 then 0 else (Times(a, b - 1) + a) % 0x1_0000_0000
  }

  lemma AddModulo(p: int, a: int, q: int)
    requires q == p + a
    ensures (p % 0x1_0000_0000 + a) % 0x1_0000_0000 == q % 0x1_0000_0000
  {
  }

  lemma Distribute(a: int, b: int) returns (p: int, q: int)
    ensures p == a * (b - 1) && q == a * b && q == p + a
  {
    p, q := a * (b - 1), a * b;
  }

  lemma {:induction false} TimesIsProduct(a: u32, b: u32)
    ensures Times(a, b) == a * b % 0x1_0000_0000
    decreases b
  {
    if b > 0 {
      TimesIsProduct(a, b - 1);
      var p, q := Distribute(a, b);
      AddModulo(p, a, q);
    }
  }

  /** What is left of `x` after taking `d` away as often as possible. */
  function Remainder(x: u32, d: u32): (r: u32)
    requires d != 0
    ensures r < d
    decreases x, d
  {
    if x < d then x else Remainder(x - d, d)
  }

  /** With `r < d`, this makes it the remainder of the division. */
  lemma {:induction false} RemainderDivides(x: u32, d: u32) returns (q: nat)
    requires d != 0
    ensures x == d * q + Remainder(x, d)
    decreases x
  {
    q := 0;
    if x >= d {
      var before := RemainderDivides(x - d, d);
      q := before + 1;
      var less, more := Distribute(d, q);
    }
  }

  /** Exclusive or of the `width` lowest bits. */
  function XorBits(a: nat, b: nat, width: nat): (r: nat)
    ensures r < Pow2(width)
  {
    if width == 0 then 0 else 2 * XorBits(a / 2, b / 2, width - 1) + if a % 2 != b % 2 then 1 else 0
  }

  function Xor(a: u32, b: u32): u32 {
    assert Pow2(32) == 0x1_0000_0000 by {
      assert Pow2(8) == 0x100;
      assert Pow2(16) == 0x1_0000;
      assert Pow2(24) == 0x100_0000;
    }
    XorBits(a, b, 32)
  }

  lemma {:induction false} XorBitsCommutes(a: nat, b: nat, width: nat)
    ensures XorBits(a, b, width) == XorBits(b, a, width)
  {
    if width != 0 {
      XorBitsCommutes(a / 2, b / 2, width - 1);
    }
  }

  lemma XorCommutes(a: u32, b: u32)
    ensures Xor(a, b) == Xor(b, a)
  {
    XorBitsCommutes(a, b, 32);
  }

  // ---- The reference hash ----

  function Prime(i: nat): u32 {
    match i % 8
    case 0 => 0x9e3779b1
    case 1 => 0x85ebca6b
    case 2 => 0xc2b2ae35
    case 3 => 0x27d4eb2f
    case 4 => 0x165667b1
    case 5 => 0xd3a2646c
    case 6 => 0xfd7046c5
    case _ => 0xb55a4f09
  }

  // ---- What mixing keeps of a word ----

  /** The number that undoes a multiplication by the prime of this index; the sixth has none. */
  function Inverse(i: nat): u32
    requires i % 8 != 5
  {
    match i % 8
    case 0 => 0xe8b2f51
    case 1 => 0xa5cb9243
    case 2 => 0x7ed1b41d
    case 3 => 0xa0fe3bcf
    case 4 => 0xae398151
    case 6 => 0x9621480d
    case _ => 0xd203ef39
  }

  lemma InverseUndoes(i: nat) returns (k: nat)
    requires i % 8 != 5
    ensures Prime(i) * Inverse(i) == k * 0x1_0000_0000 + 1
  {
    k := Prime(i) * Inverse(i) / 0x1_0000_0000;
  }

  lemma Recombine(a: int, p: int, q: int, j: int, k: int, t: int)
    requires a * p == j * 0x1_0000_0000 + t && p * q == k * 0x1_0000_0000 + 1
    ensures t * q == (a * k - j * q) * 0x1_0000_0000 + a
  {
    calc {
      t * q;
      (a * p - j * 0x1_0000_0000) * q;
      a * (p * q) - j * q * 0x1_0000_0000;
      a * (k * 0x1_0000_0000 + 1) - j * q * 0x1_0000_0000;
      (a * k - j * q) * 0x1_0000_0000 + a;
    }
  }

  lemma Undone(a: u32, i: nat)
    requires i % 8 != 5
    ensures Times(a, Prime(i)) * Inverse(i) % 0x1_0000_0000 == a
  {
    TimesIsProduct(a, Prime(i));
    var k := InverseUndoes(i);
    var product := a * Prime(i);
    var j, t := product / 0x1_0000_0000, product % 0x1_0000_0000;
    Recombine(a, Prime(i), Inverse(i), j, k, t);
    LowBits(a, a * k - j * Inverse(i), t * Inverse(i));
  }

  lemma LowBits(a: u32, z: int, n: int)
    requires n == z * 0x1_0000_0000 + a
    ensures n % 0x1_0000_0000 == a
  {
  }

  /** Every multiplier but the sixth is odd, so mixing loses nothing of the word of its offset: different words mix
      differently. */
  lemma MixingIsInjective(a: u32, b: u32, i: nat)
    requires i % 8 != 5
    ensures Times(a, Prime(i)) == Times(b, Prime(i)) <==> a == b
  {
    Undone(a, i);
    Undone(b, i);
  }

  /** The sixth is a multiple of four: there the two highest bits of the word do not count. */
  lemma SixthLosesBits(a: u32, i: nat)
    requires i % 8 == 5 && a < 0x4000_0000
    ensures Times(a, Prime(i)) == Times(a + 0x4000_0000, Prime(i))
  {
    TimesIsProduct(a, Prime(i));
    TimesIsProduct(a + 0x4000_0000, Prime(i));
    assert Prime(i) == 0xd3a2646c;
    var n, m := a * 0xd3a2646c, (a + 0x4000_0000) * 0xd3a2646c;
    Wraps(n, 0x34e8991b, m);
  }

  lemma Wraps(n: int, z: int, m: int)
    requires m == n + z * 0x1_0000_0000
    ensures m % 0x1_0000_0000 == n % 0x1_0000_0000
  {
  }

  predicate Covers(payload: seq<byte>, offset: int) {
    0 <= offset && offset + 4 <= |payload|
  }

  function Mixed(payload: seq<byte>, offset: int, i: nat): u32
    requires Covers(payload, offset)
  {
    Times(ReadBe32(payload, offset), Prime(i))
  }

  /** The running hash after the first `n` offsets. */
  function HashUpTo(payload: seq<byte>, offsets: seq<int>, n: nat): u32
    requires n <= |offsets| && forall i :: 0 <= i < n ==> Covers(payload, offsets[i])
  {
    if n == 0 then 0
    else if n == 1 then Mixed(payload, offsets[0], 0)
    else Xor(HashUpTo(payload, offsets, n - 1), Mixed(payload, offsets[n - 1], n - 1))
  }

  /** The final fold of the hash onto the sockets. */
  function Select(hash: u32, divisor: u32): (socket: u32)
    requires divisor != 0
    ensures socket < divisor
  {
    Remainder(Xor(hash, hash / 0x1_0000), divisor)
  }

  datatype HashResult = Index(value: u32) | Error | DivisionByZero

  /** A socket count as the unsigned 32-bit word both programs divide by. */
  function Divisor(socketCount: nat): u32 {
    socketCount % 0x1_0000_0000
  }

  lemma HashNext(payload: seq<byte>, offsets: seq<int>, i: nat)
    requires i < |offsets| && forall j :: 0 <= j <= i ==> Covers(payload, offsets[j])
    ensures HashUpTo(payload, offsets, i + 1)
      == if i == 0 then Mixed(payload, offsets[0], 0) else Xor(HashUpTo(payload, offsets, i), Mixed(payload, offsets[i], i))
  {
  }

  /** The loop over the offsets; None when one lies outside the payload. */
  method HashPayload(payload: seq<byte>, offsets: seq<int>) returns (r: Option<u32>)
    ensures r.Some? <==> forall i :: 0 <= i < |offsets| ==> Covers(payload, offsets[i])
    ensures r.Some? ==> r.value == HashUpTo(payload, offsets, |offsets|)
  {
    var hash: u32 := 0;
    for i := 0 to |offsets|
      invariant forall j :: 0 <= j < i ==> Covers(payload, offsets[j])
      invariant hash == HashUpTo(payload, offsets, i)
    {
      var offset := offsets[i];
      if offset < 0 || offset + 4 > |payload| {
        return None;
      }
      var mixed := Mixed(payload, offset, i);
      HashNext(payload, offsets, i);
      hash := if i == 0 then mixed else Xor(hash, mixed);
    }
    r := Some(hash);
  }

  method ReusePortPayloadHash(payload: seq<byte>, offsets: seq<int>, socketCount: int) returns (r: HashResult)
    ensures r.Error? <==>
      socketCount <= 0 || offsets == [] || exists i :: 0 <= i < |offsets| && !Covers(payload, offsets[i])
    ensures !r.Error? ==>
      var hash := HashUpTo(payload, offsets, |offsets|);
      r == if Divisor(socketCount) == 0 then DivisionByZero
           else Index(Select(hash, Divisor(socketCount)))
  {
    if socketCount <= 0 || |offsets| == 0 {
      return Error;
    }
    var hash := HashPayload(payload, offsets);
    if hash.None? {
      return Error;
    }
    var divisor := Divisor(socketCount);
    if divisor == 0 {
      return DivisionByZero;
    }
    r := Index(Remainder(Xor(hash.value, hash.value / 0x1_0000), divisor));
  }

  // ---- The compiler ----

  const LOAD_WORD_ABSOLUTE := 0x20
  const STORE_A := 0x02
  const LOAD_X_MEMORY := 0x61
  const MULTIPLY_K := 0x24
  const RIGHT_SHIFT_K := 0x74
  const XOR_X := 0xac
  const MODULO_K := 0x94
  const RETURN_A := 0x16

  datatype Instruction = Instruction(code: nat, k: u32)

  predicate InRange(offset: int) {
    0 <= offset <= MAX_UDP_PACKET_SIZE - 4
  }

  /** The instructions for one offset. */
  function Block(offset: int, i: nat): seq<Instruction>
    requires InRange(offset)
  {
    [Instruction(LOAD_WORD_ABSOLUTE, offset), Instruction(MULTIPLY_K, Prime(i))]
    + (if i > 0 then [Instruction(LOAD_X_MEMORY, 0), Instruction(XOR_X, 0)] else [])
    + [Instruction(STORE_A, 0)]
  }

  function Epilogue(socketCount: nat): seq<Instruction> {
    [Instruction(RIGHT_SHIFT_K, 16), Instruction(LOAD_X_MEMORY, 0), Instruction(XOR_X, 0),
     Instruction(MODULO_K, Divisor(socketCount)), Instruction(RETURN_A, 0)]
  }

  function Blocks(offsets: seq<int>, n: nat): seq<Instruction>
    requires n <= |offsets| && forall i :: 0 <= i < n ==> InRange(offsets[i])
  {
    if n == 0 then []
    else
      assert InRange(offsets[n - 1]);
      Blocks(offsets, n - 1) + Block(offsets[n - 1], n - 1)
  }

  /** Appends the program instruction by instruction, as the source does. */
  method BuildReusePortCbpf(socketCount: int, offsets: seq<int>) returns (r: Option<seq<Instruction>>)
    ensures r.None? <==>
      socketCount <= 1 || offsets == [] || exists i :: 0 <= i < |offsets| && !InRange(offsets[i])
    ensures r.Some? ==> AllInRange(offsets) && r.value == Program(socketCount, offsets)
  {
    if socketCount <= 1 || |offsets| == 0 {
      return None;
    }
    var filters: seq<Instruction> := [];
    for i := 0 to |offsets|
      invariant forall j :: 0 <= j < i ==> InRange(offsets[j])
      invariant filters == Blocks(offsets, i)
    {
      var offset := offsets[i];
      if offset < 0 || offset > MAX_UDP_PACKET_SIZE - 4 {
        return None;
      }
      ghost var before := filters;
      filters := filters + [Instruction(LOAD_WORD_ABSOLUTE, offset), Instruction(MULTIPLY_K, Prime(i))];
      if i > 0 {
        filters := filters + [Instruction(LOAD_X_MEMORY, 0), Instruction(XOR_X, 0)];
      }
      filters := filters + [Instruction(STORE_A, 0)];
      assert filters == before + Block(offset, i);
    }
    filters := filters + Epilogue(socketCount);
    r := Some(filters);
  }

  // ---- The machine ----

  /** `cell` is scratch cell M[0]; it is None until the program stores into it. */
  datatype Machine = Running(a: u32, x: u32, cell: Option<u32>) | Returned(value: u32) | Fault

  const Start: Machine := Running(0, 0, None)

  /** A load outside the packet makes a classic-BPF program return 0; anything a checked program cannot
      do is a fault: an unknown opcode, another scratch cell, an unset cell, a division by zero. */
  function Step(payload: seq<byte>, m: Machine, ins: Instruction): Machine
    requires m.Running?
  {
    if ins.code == LOAD_WORD_ABSOLUTE then
      if Covers(payload, ins.k) then m.(a := ReadBe32(payload, ins.k)) else Returned(0)
    else if ins.code == STORE_A then
      if ins.k == 0 then m.(cell := Some(m.a)) else Fault
    else if ins.code == LOAD_X_MEMORY then
      if ins.k == 0 && m.cell.Some? then m.(x := m.cell.value) else Fault
    else if ins.code == MULTIPLY_K then m.(a := Times(m.a, ins.k))
    else if ins.code == RIGHT_SHIFT_K then
      if ins.k < 32 then m.(a := m.a / Pow2(ins.k)) else Fault
    else if ins.code == XOR_X then m.(a := Xor(m.a, m.x))
    else if ins.code == MODULO_K then
      if ins.k != 0 then m.(a := Remainder(m.a, ins.k)) else Fault
    else if ins.code == RETURN_A then Returned(m.a)
    else Fault
  }

  function Run(payload: seq<byte>, m: Machine, program: seq<Instruction>): Machine
    decreases |program|
  {
    if program == [] || !m.Running? then m else Run(payload, Step(payload, m, program[0]), program[1..])
  }

  // ---- Compiler correctness ----

  lemma {:induction false} RunConcat(payload: seq<byte>, m: Machine, p: seq<Instruction>, q: seq<Instruction>)
    ensures Run(payload, m, p + q) == Run(payload, Run(payload, m, p), q)
    decreases |p|
  {
    if p == [] {
      assert p + q == q;
    } else if m.Running? {
      assert (p + q)[1..] == p[1..] + q;
      RunConcat(payload, Step(payload, m, p[0]), p[1..], q);
    }
  }

  lemma RunFrom(payload: seq<byte>, m: Machine, p: seq<Instruction>, i: nat)
    requires m.Running? && i < |p|
    ensures Run(payload, m, p[i..]) == Run(payload, Step(payload, m, p[i]), p[i + 1..])
  {
    assert p[i..][1..] == p[i + 1..];
  }

  /** The two instructions every block begins with. */
  lemma LoadsAndMultiplies(payload: seq<byte>, m: Machine, p: seq<Instruction>, offset: int, i: nat)
    requires InRange(offset) && m.Running? && |p| >= 2
    requires p[0] == Instruction(LOAD_WORD_ABSOLUTE, offset) && p[1] == Instruction(MULTIPLY_K, Prime(i))
    ensures Run(payload, m, p) ==
      if Covers(payload, offset) then Run(payload, m.(a := Mixed(payload, offset, i)), p[2..]) else Returned(0)
  {
    assert p[0..] == p;
    RunFrom(payload, m, p, 0);
    if Covers(payload, offset) {
      RunFrom(payload, m.(a := ReadBe32(payload, offset)), p, 1);
    }
  }

  lemma Stores(payload: seq<byte>, m: Machine)
    requires m.Running?
    ensures Run(payload, m, [Instruction(STORE_A, 0)]) == m.(cell := Some(m.a))
  {
    assert [Instruction(STORE_A, 0)][1..] == [];
  }

  /** What every block but the first does with the hash so far. */
  lemma MixesAndStores(payload: seq<byte>, m: Machine, p: seq<Instruction>)
    requires m.Running? && m.cell.Some?
    requires p == [Instruction(LOAD_X_MEMORY, 0), Instruction(XOR_X, 0), Instruction(STORE_A, 0)]
    ensures var hash := Xor(m.cell.value, m.a);
      Run(payload, m, p) == Running(hash, m.cell.value, Some(hash))
  {
    assert p[0..] == p && p[2..] == [Instruction(STORE_A, 0)];
    XorCommutes(m.a, m.cell.value);
    RunFrom(payload, m, p, 0);
    RunFrom(payload, m.(x := m.cell.value), p, 1);
    Stores(payload, Running(Xor(m.a, m.cell.value), m.cell.value, m.cell));
  }

  /** A block leaves the next running hash in the scratch cell, or returns 0 off the end of the packet. */
  lemma BlockIsCorrect(payload: seq<byte>, m: Machine, offset: int, i: nat)
    requires InRange(offset) && m.Running? && (i > 0 ==> m.cell.Some?)
    ensures var m' := Run(payload, m, Block(offset, i));
      if !Covers(payload, offset) then m' == Returned(0)
      else
        m'.Running? && m'.cell == Some(m'.a)
        && m'.a == if i == 0 then Mixed(payload, offset, 0) else Xor(m.cell.value, Mixed(payload, offset, i))
  {
    var p := Block(offset, i);
    LoadsAndMultiplies(payload, m, p, offset, i);
    if Covers(payload, offset) {
      var mixed := m.(a := Mixed(payload, offset, i));
      if i > 0 {
        MixesAndStores(payload, mixed, p[2..]);
      } else {
        assert p[2..] == [Instruction(STORE_A, 0)];
        Stores(payload, mixed);
      }
    }
  }

  predicate AllInRange(offsets: seq<int>) {
    forall i :: 0 <= i < |offsets| ==> InRange(offsets[i])
  }

  predicate CoveredUpTo(payload: seq<byte>, offsets: seq<int>, n: nat)
    requires n <= |offsets|
  {
    forall i :: 0 <= i < n ==> Covers(payload, offsets[i])
  }

  /** The machine after the blocks of the first `n` offsets, all of them within the packet. */
  predicate HoldsHash(payload: seq<byte>, offsets: seq<int>, n: nat, m: Machine)
    requires n <= |offsets| && CoveredUpTo(payload, offsets, n)
  {
    m.Running? && (n > 0 ==> m.cell == Some(m.a) && m.a == HashUpTo(payload, offsets, n))
  }

  lemma NextBlock(payload: seq<byte>, offsets: seq<int>, n: nat, m: Machine)
    requires n < |offsets| && InRange(offsets[n]) && CoveredUpTo(payload, offsets, n) && HoldsHash(payload, offsets, n, m)
    ensures CoveredUpTo(payload, offsets, n + 1) <==> Covers(payload, offsets[n])
    ensures var m' := Run(payload, m, Block(offsets[n], n));
      if Covers(payload, offsets[n]) then HoldsHash(payload, offsets, n + 1, m') else m' == Returned(0)
  {
    BlockIsCorrect(payload, m, offsets[n], n);
  }

  lemma {:induction false} BlocksAreCorrect(payload: seq<byte>, offsets: seq<int>, n: nat)
    requires n <= |offsets| && AllInRange(offsets)
    ensures var m := Run(payload, Start, Blocks(offsets, n));
      if CoveredUpTo(payload, offsets, n) then HoldsHash(payload, offsets, n, m) else m == Returned(0)
  {
    if n > 0 {
      BlocksAreCorrect(payload, offsets, n - 1);
      var offset := offsets[n - 1];
      assert InRange(offset);
      RunConcat(payload, Start, Blocks(offsets, n - 1), Block(offset, n - 1));
      if CoveredUpTo(payload, offsets, n - 1) {
        NextBlock(payload, offsets, n - 1, Run(payload, Start, Blocks(offsets, n - 1)));
      }
    }
  }

  lemma ShiftBySixteen(payload: seq<byte>, m: Machine)
    requires m.Running?
    ensures Step(payload, m, Instruction(RIGHT_SHIFT_K, 16)) == m.(a := m.a / 0x1_0000)
  {
    assert Pow2(16) == 0x1_0000 by { assert Pow2(8) == 0x100; }
  }

  lemma EpilogueFolds(payload: seq<byte>, m: Machine, p: seq<Instruction>)
    requires m.Running? && m.cell == Some(m.a) && |p| >= 3
    requires p[..3] == [Instruction(RIGHT_SHIFT_K, 16), Instruction(LOAD_X_MEMORY, 0), Instruction(XOR_X, 0)]
    ensures Run(payload, m, p) == Run(payload, Running(Xor(m.a, m.a / 0x1_0000), m.a, m.cell), p[3..])
  {
    assert p[0..] == p && p[0] == p[..3][0] && p[1] == p[..3][1] && p[2] == p[..3][2];
    RunFrom(payload, m, p, 0);
    ShiftBySixteen(payload, m);
    var m1 := m.(a := m.a / 0x1_0000);
    RunFrom(payload, m1, p, 1);
    RunFrom(payload, m1.(x := m.a), p, 2);
    XorCommutes(m.a / 0x1_0000, m.a);
  }

  lemma Returns(payload: seq<byte>, m: Machine)
    requires m.Running?
    ensures Run(payload, m, [Instruction(RETURN_A, 0)]) == Returned(m.a)
  {
    assert [Instruction(RETURN_A, 0)][1..] == [];
  }

  lemma DividesAndReturns(payload: seq<byte>, m: Machine, p: seq<Instruction>, divisor: u32)
    requires m.Running? && p == [Instruction(MODULO_K, divisor), Instruction(RETURN_A, 0)]
    ensures Run(payload, m, p) == if divisor == 0 then Fault else Returned(Remainder(m.a, divisor))
  {
    assert p[0..] == p && p[1..] == [Instruction(RETURN_A, 0)];
    RunFrom(payload, m, p, 0);
    if divisor != 0 {
      Returns(payload, m.(a := Remainder(m.a, divisor)));
    }
  }

  lemma EpilogueSelects(payload: seq<byte>, m: Machine, socketCount: nat)
    requires m.Running? && m.cell == Some(m.a)
    ensures Run(payload, m, Epilogue(socketCount)) ==
      if Divisor(socketCount) == 0 then Fault else Returned(Select(m.a, Divisor(socketCount)))
  {
    var p := Epilogue(socketCount);
    EpilogueFolds(payload, m, p);
    DividesAndReturns(payload, Running(Xor(m.a, m.a / 0x1_0000), m.a, m.cell), p[3..], Divisor(socketCount));
  }

  /** The program the source compiles from a list of offsets. */
  function Program(socketCount: nat, offsets: seq<int>): seq<Instruction>
    requires AllInRange(offsets)
  {
    Blocks(offsets, |offsets|) + Epilogue(socketCount)
  }

  /** For every offset list, packet and socket count, the compiled program returns what the reference
      hash returns; on a packet too short for some offset, where the reference reports an error, the
      program selects socket 0. A socket count that is a multiple of 2^32 divides by zero in both. */
  lemma SelectorImplementsHash(payload: seq<byte>, offsets: seq<int>, socketCount: nat)
    requires offsets != [] && AllInRange(offsets)
    ensures Run(payload, Start, Program(socketCount, offsets)) ==
      if !CoveredUpTo(payload, offsets, |offsets|) then Returned(0)
      else if Divisor(socketCount) == 0 then Fault
      else Returned(Select(HashUpTo(payload, offsets, |offsets|), Divisor(socketCount)))
  {
    var m := Run(payload, Start, Blocks(offsets, |offsets|));
    RunConcat(payload, Start, Blocks(offsets, |offsets|), Epilogue(socketCount));
    BlocksAreCorrect(payload, offsets, |offsets|);
    if CoveredUpTo(payload, offsets, |offsets|) {
      EpilogueSelects(payload, m, socketCount);
    }
  }

  /** Five instructions an offset and five more; the only return is the last instruction. */
  lemma {:induction false} BlocksShape(offsets: seq<int>, n: nat)
    requires n <= |offsets| && AllInRange(offsets)
    ensures |Blocks(offsets, n)| == if n == 0 then 0 else 5 * n - 2
    ensures forall i :: 0 <= i < |Blocks(offsets, n)| ==> Blocks(offsets, n)[i].code != RETURN_A
  {
    if n > 0 {
      BlocksShape(offsets, n - 1);
      assert InRange(offsets[n - 1]);
    }
  }

  lemma ProgramShape(socketCount: nat, offsets: seq<int>)
    requires offsets != [] && AllInRange(offsets)
    ensures var p := Program(socketCount, offsets);
      && |p| == 5 * |offsets| + 3
      && forall i :: 0 <= i < |p| ==> (p[i].code == RETURN_A <==> i == |p| - 1)
  {
    BlocksShape(offsets, |offsets|);
  }
}
