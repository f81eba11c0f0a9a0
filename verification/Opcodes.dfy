/**
 Relocation of a compiled function's instructions (src/copy.c).

 Instructions refer to literals and to other instructions by address.  On a 64-bit build
 (`Relative`) an operand word is a signed 32-bit byte distance from the instruction that holds
 it; on a 32-bit build (`Absolute`) it is an address.  The copier moves instructions and
 literals to new addresses and rewrites the words.  What is proved is about what the words
 mean: which literal, which instruction, and what an interpreter does.
 */
module Opcodes {
  datatype Mode = Relative | Absolute

  const ZVAL_SIZE: int := 16
  const HALF_WORD: int := 0x8000_0000
  const WORD: int := 0x1_0000_0000

  /** sizeof(zend_op) on the two kinds of build. */
  function OpSize(mode: Mode): int {
    if mode.Relative? then 32 else 28
  }

  datatype Opcode =
    | Jmp | FastCall
    | Jmpznz | Jmpz | Jmpnz | JmpzEx | JmpnzEx | JmpSet | Coalesce
    | FeResetR | FeResetRw | AssertCheck | JmpNull
    | Catch
    | FeFetchR | FeFetchRw | SwitchLong | SwitchString | Match
    | Other(code: nat)

  datatype Operand = Operand(isConst: bool, word: int)

  datatype Op = Op(opcode: Opcode, op1: Operand, op2: Operand, result: int, extended: nat)

  /** Where the instructions and the literals of one function lie in memory. */
  datatype Place = Place(opcodes: int, literals: int)

  // ---- What the words mean --------------------------------------------------

  function Truncate32(x: int): int {
    x % WORD
  }

  function Signed32(x: int): int {
    if x % WORD < HALF_WORD then x % WORD else x % WORD - WORD
  }

  function OpAddress(mode: Mode, at: Place, i: int): int {
    at.opcodes + OpSize(mode) * i
  }

  /** The address that instruction i's operand word denotes. */
  function Denotes(mode: Mode, at: Place, i: int, word: int): int {
    if mode.Absolute? then word else OpAddress(mode, at, i) + Signed32(word)
  }

  predicate IsLiteral(mode: Mode, at: Place, i: int, word: int, k: int) {
    Denotes(mode, at, i, word) == at.literals + ZVAL_SIZE * k
  }

  predicate IsTarget(mode: Mode, at: Place, i: int, word: int, t: int) {
    Denotes(mode, at, i, word) == OpAddress(mode, at, t)
  }

  // ---- What the virtual machine does with its operands ----------------------

  /** Whether the machine takes the first, and the second, operand for an instruction to go to. */
  function Jumps(opcode: Opcode, extended: nat): (bool, bool) {
    match opcode
    case Jmp => (true, false)
    case FastCall => (true, false)
    case Jmpznz => (false, true)
    case Jmpz => (false, true)
    case Jmpnz => (false, true)
    case JmpzEx => (false, true)
    case JmpnzEx => (false, true)
    case JmpSet => (false, true)
    case Coalesce => (false, true)
    case FeResetR => (false, true)
    case FeResetRw => (false, true)
    case AssertCheck => (false, true)
    case JmpNull => (false, true)
    case Catch => (false, extended % 2 != 1)   // the last catch of a try has nowhere to go
    case FeFetchR => (false, false)
    case FeFetchRw => (false, false)
    case SwitchLong => (false, false)
    case SwitchString => (false, false)
    case Match => (false, false)
    case Other(_) => (false, false)
  }

  function Jumps1(op: Op): bool {
    Jumps(op.opcode, op.extended).0
  }

  function Jumps2(op: Op): bool {
    Jumps(op.opcode, op.extended).1
  }

  // ---- The copier -----------------------------------------------------------

  /** The first operands that the copier takes for jump targets. */
  predicate JumpsFirst(op: Op) {
    op.opcode.Jmp? || op.opcode.FastCall?
  }

  /** The second operands that the copier takes for jump targets. */
  predicate JumpsSecond(op: Op) {
    match op.opcode
    case Jmpznz | Jmpz | Jmpnz | JmpzEx | JmpnzEx | JmpSet | Coalesce => true
    case FeResetR | FeResetRw | AssertCheck | JmpNull => true
    // The lowest bit of extended_value is ZEND_LAST_CATCH.
    case Catch => op.extended % 2 == 0
    case _ => false
  }

  /** The new word of a constant operand of instruction i. */
  function MovedConst(mode: Mode, from: Place, to: Place, i: int, word: int): int {
    if mode.Absolute? then word + (to.literals - from.literals)
    else
      var index := (OpAddress(mode, from, i) + Signed32(word) - from.literals) / ZVAL_SIZE;
      Truncate32(to.literals + ZVAL_SIZE * index - OpAddress(mode, to, i))
  }

  /** The new word of a jump operand: relative distances stay as they are. */
  function MovedJump(mode: Mode, from: Place, to: Place, word: int): int {
    if mode.Absolute? then to.opcodes + OpSize(mode) * ((word - from.opcodes) / OpSize(mode))
    else word
  }

  function MovedOperand(mode: Mode, from: Place, to: Place, i: int, o: Operand, jumps: bool): Operand {
    if o.isConst then o.(word := MovedConst(mode, from, to, i, o.word))
    else if jumps then o.(word := MovedJump(mode, from, to, o.word))
    else o
  }

  function MovedOp(mode: Mode, from: Place, to: Place, i: int, op: Op): Op {
    op.(op1 := MovedOperand(mode, from, to, i, op.op1, JumpsFirst(op)),
        op2 := MovedOperand(mode, from, to, i, op.op2, JumpsSecond(op)))
  }

  /** One instruction, fixed the way the loop fixes it: constants first, then jumps by opcode. */
  method FixOp(mode: Mode, from: Place, to: Place, i: int, op: Op) returns (r: Op)
    requires JumpsFirst(op) ==> !op.op1.isConst
    requires JumpsSecond(op) ==> !op.op2.isConst
    ensures r == MovedOp(mode, from, to, i, op)
  {
    r := op;
    if r.op1.isConst {
      r := r.(op1 := r.op1.(word := MovedConst(mode, from, to, i, r.op1.word)));
    }
    if r.op2.isConst {
      r := r.(op2 := r.op2.(word := MovedConst(mode, from, to, i, r.op2.word)));
    }
    if mode.Absolute? {
      match r.opcode
      case Jmp | FastCall =>
        r := r.(op1 := r.op1.(word := MovedJump(mode, from, to, r.op1.word)));
      case Jmpznz | Jmpz | Jmpnz | JmpzEx | JmpnzEx | JmpSet | Coalesce
      | FeResetR | FeResetRw | AssertCheck | JmpNull =>
        r := r.(op2 := r.op2.(word := MovedJump(mode, from, to, r.op2.word)));
      case Catch =>
        if r.extended % 2 == 0 {
          r := r.(op2 := r.op2.(word := MovedJump(mode, from, to, r.op2.word)));
        }
      case _ =>
    }
  }

  // ---- Well-formed functions ------------------------------------------------

  datatype Program<V> = Program(ops: seq<Op>, literals: seq<V>, at: Place)

  /** Pass two left every constant operand at a literal and every jump operand at an instruction. */
  ghost predicate OperandOk<V>(mode: Mode, p: Program<V>, i: int, o: Operand, jumps: bool) {
    && (o.isConst ==> !jumps && exists k :: 0 <= k < |p.literals| && IsLiteral(mode, p.at, i, o.word, k))
    && (jumps ==> exists t :: 0 <= t < |p.ops| && IsTarget(mode, p.at, i, o.word, t))
  }

  ghost predicate OpOk<V>(mode: Mode, p: Program<V>, i: int, op: Op) {
    && OperandOk(mode, p, i, op.op1, Jumps1(op))
    && OperandOk(mode, p, i, op.op2, Jumps2(op))
  }

  ghost predicate WellFormed<V>(mode: Mode, p: Program<V>) {
    forall i :: 0 <= i < |p.ops| ==> OpOk(mode, p, i, p.ops[i])
  }

  /** The distance from instruction i to literal k can be written in a signed 32-bit word. */
  predicate InReach(mode: Mode, to: Place, i: int, k: int) {
    mode.Absolute? || -HALF_WORD <= to.literals + ZVAL_SIZE * k - OpAddress(mode, to, i) < HALF_WORD
  }

  ghost predicate OperandInReach<V>(mode: Mode, p: Program<V>, to: Place, i: int, o: Operand) {
    o.isConst ==>
      forall k :: 0 <= k < |p.literals| && IsLiteral(mode, p.at, i, o.word, k) ==> InReach(mode, to, i, k)
  }

  /** Every constant operand that is used is in reach in the new place. */
  ghost predicate AllInReach<V>(mode: Mode, p: Program<V>, to: Place) {
    forall i :: 0 <= i < |p.ops| ==>
      && OperandInReach(mode, p, to, i, p.ops[i].op1)
      && OperandInReach(mode, p, to, i, p.ops[i].op2)
  }

  /** The copy keeps every literal and relocates every instruction. */
  ghost predicate IsCopy<V>(mode: Mode, p: Program<V>, q: Program<V>) {
    && q.literals == p.literals
    && |q.ops| == |p.ops|
    && forall i :: 0 <= i < |p.ops| ==> q.ops[i] == MovedOp(mode, p.at, q.at, i, p.ops[i])
  }

  /** pthreads_copy_opcodes: block copy, then one pass that rewrites each instruction in place. */
  method CopyOpcodes<V>(mode: Mode, p: Program<V>, memory: array<Op>, to: Place)
    requires memory.Length == |p.ops|
    requires WellFormed(mode, p)
    modifies memory
    ensures IsCopy(mode, p, Program(memory[..], p.literals, to))
  {
    for j := 0 to |p.ops|
      invariant memory[..j] == p.ops[..j]
    {
      memory[j] := p.ops[j];
    }
    assert memory[..] == p.ops;
    for i := 0 to |p.ops|
      invariant forall j :: 0 <= j < i ==> memory[j] == MovedOp(mode, p.at, to, j, p.ops[j])
      invariant forall j :: i <= j < |p.ops| ==> memory[j] == p.ops[j]
    {
      assert OpOk(mode, p, i, p.ops[i]);
      CopierKnowsJumps(p.ops[i]);
      var fixed := FixOp(mode, p.at, to, i, memory[i]);
      memory[i] := fixed;
    }
  }

  // ---- The copier and the machine agree -------------------------------------

  /** The copier relocates exactly the operands that the machine takes for jump targets. */
  lemma CopierKnowsJumps(op: Op)
    ensures JumpsFirst(op) == Jumps1(op) && JumpsSecond(op) == Jumps2(op)
  {
  }

  /** What becomes of one operand: `jumps` is what the machine does with it. */
  ghost predicate MovedRight<V>(mode: Mode, p: Program<V>, to: Place, i: int, o: Operand, r: Operand, jumps: bool) {
    && r.isConst == o.isConst
    && (!o.isConst && !jumps ==> r == o)
    && (jumps ==> forall t :: IsTarget(mode, p.at, i, o.word, t) ==> IsTarget(mode, to, i, r.word, t))
    && (jumps && mode.Absolute? ==> r.word - to.opcodes == o.word - p.at.opcodes)
    && (jumps && mode.Relative? ==> r == o)
  }

  /**
   Opcode by opcode: an operand that the machine jumps by denotes the same instruction in the new
   place, on absolute builds by a new address; nothing else of the instruction changes but the words of
   its constants.
   */
  lemma MovedExactly<V>(mode: Mode, p: Program<V>, to: Place, i: int)
    requires 0 <= i < |p.ops| && OpOk(mode, p, i, p.ops[i])
    ensures var (op, r) := (p.ops[i], MovedOp(mode, p.at, to, i, p.ops[i]));
            && r == op.(op1 := r.op1, op2 := r.op2)
            && MovedRight(mode, p, to, i, op.op1, r.op1, Jumps(op.opcode, op.extended).0)
            && MovedRight(mode, p, to, i, op.op2, r.op2, Jumps(op.opcode, op.extended).1)
  {
    CopierKnowsJumps(p.ops[i]);
    OperandMoved(mode, p, to, i, p.ops[i].op1, Jumps1(p.ops[i]));
    OperandMoved(mode, p, to, i, p.ops[i].op2, Jumps2(p.ops[i]));
  }

  lemma OperandMoved<V>(mode: Mode, p: Program<V>, to: Place, i: int, o: Operand, jumps: bool)
    requires OperandOk(mode, p, i, o, jumps)
    ensures MovedRight(mode, p, to, i, o, MovedOperand(mode, p.at, to, i, o, jumps), jumps)
  {
    forall t | jumps && IsTarget(mode, p.at, i, o.word, t)
      ensures IsTarget(mode, to, i, MovedOperand(mode, p.at, to, i, o, jumps).word, t)
    {
      JumpExact(mode, p.at, to, i, o.word, t);
    }
    if jumps && mode.Absolute? {
      var t :| 0 <= t < |p.ops| && IsTarget(mode, p.at, i, o.word, t);
      JumpExact(mode, p.at, to, i, o.word, t);
    }
  }

  // ---- Constants: exactly when they survive ---------------------------------

  lemma TruncationReads(x: int)
    ensures Signed32(Truncate32(x)) == x <==> -HALF_WORD <= x < HALF_WORD
    ensures Signed32(x) == Signed32(Truncate32(x))
  {
    if 0 <= x < HALF_WORD {
      assert x % WORD == x;
    } else if -HALF_WORD <= x < 0 {
      assert x % WORD == x + WORD;
    }
  }

  /**
   The rewritten operand denotes literal k again if and only if the distance fits a signed
   32-bit word; on an absolute build it always does.
   */
  lemma ConstantExact(mode: Mode, from: Place, to: Place, i: int, word: int, k: int)
    requires IsLiteral(mode, from, i, word, k)
    ensures IsLiteral(mode, to, i, MovedConst(mode, from, to, i, word), k) <==> InReach(mode, to, i, k)
  {
    if mode.Relative? {
      assert OpAddress(mode, from, i) + Signed32(word) - from.literals == ZVAL_SIZE * k;
      TruncationReads(to.literals + ZVAL_SIZE * k - OpAddress(mode, to, i));
    }
  }

  /** Whatever literal the operand denoted in p, the rewritten one denotes in the new place. */
  ghost predicate SameLiteral<V>(mode: Mode, p: Program<V>, to: Place, i: int, o: Operand) {
    o.isConst ==>
      forall k :: 0 <= k < |p.literals| && IsLiteral(mode, p.at, i, o.word, k) ==>
        IsLiteral(mode, to, i, MovedConst(mode, p.at, to, i, o.word), k)
  }

  /** For a whole function: every constant survives exactly when all are in reach. */
  lemma CopyExact<V>(mode: Mode, p: Program<V>, to: Place)
    ensures AllInReach(mode, p, to) <==>
      forall i :: 0 <= i < |p.ops| ==>
        SameLiteral(mode, p, to, i, p.ops[i].op1) && SameLiteral(mode, p, to, i, p.ops[i].op2)
  {
    forall i | 0 <= i < |p.ops|
      ensures OperandInReach(mode, p, to, i, p.ops[i].op1) <==> SameLiteral(mode, p, to, i, p.ops[i].op1)
      ensures OperandInReach(mode, p, to, i, p.ops[i].op2) <==> SameLiteral(mode, p, to, i, p.ops[i].op2)
    {
      OperandExact(mode, p, to, i, p.ops[i].op1);
      OperandExact(mode, p, to, i, p.ops[i].op2);
    }
  }

  lemma OperandExact<V>(mode: Mode, p: Program<V>, to: Place, i: int, o: Operand)
    ensures OperandInReach(mode, p, to, i, o) <==> SameLiteral(mode, p, to, i, o)
  {
    forall k | 0 <= k < |p.literals| && IsLiteral(mode, p.at, i, o.word, k)
      ensures IsLiteral(mode, to, i, MovedConst(mode, p.at, to, i, o.word), k) <==> InReach(mode, to, i, k)
    {
      ConstantExact(mode, p.at, to, i, o.word, k);
    }
  }

  /** A rewritten jump denotes the same instruction, always. */
  lemma JumpExact(mode: Mode, from: Place, to: Place, i: int, word: int, t: int)
    requires IsTarget(mode, from, i, word, t)
    ensures IsTarget(mode, to, i, MovedJump(mode, from, to, word), t)
  {
    if mode.Absolute? {
      assert word - from.opcodes == 28 * t;
    }
  }

  // ---- The block the copy lives in ------------------------------------------

  /** ZEND_MM_ALIGNED_SIZE_EX(size, 16) */
  function Align16(size: int): int {
    (size + 15) / 16 * 16
  }

  function BlockSize<V>(p: Program<V>): int {
    Align16(OpSize(Relative) * |p.ops|) + ZVAL_SIZE * |p.literals|
  }

  /** Instructions first, then the literals, in one allocation. */
  predicate OneBlock<V>(p: Program<V>, to: Place) {
    to.literals == to.opcodes + Align16(OpSize(Relative) * |p.ops|)
  }

  /**
   In one block, every literal lies after every instruction and inside the block, and a block of
   at most 2^31 bytes puts every literal in reach.
   */
  lemma BlockReaches<V>(p: Program<V>, to: Place)
    requires OneBlock(p, to)
    ensures forall i, k :: 0 <= i < |p.ops| && 0 <= k < |p.literals| ==>
      && OpAddress(Relative, to, i) + OpSize(Relative) <= to.literals + ZVAL_SIZE * k
      && to.literals + ZVAL_SIZE * k <= to.opcodes + BlockSize(p) - ZVAL_SIZE
    ensures BlockSize(p) <= HALF_WORD ==> AllInReach(Relative, p, to)
  {
    if BlockSize(p) <= HALF_WORD {
      forall i, k | 0 <= i < |p.ops| && 0 <= k < |p.literals|
        ensures InReach(Relative, to, i, k)
      {
      }
    }
  }

  // ---- An interpreter that follows addresses --------------------------------

  /** What an instruction handler sees of an operand. */
  datatype Seen<V> = Constant(value: V) | Raw(word: int) | Target | Wild

  /**
   Where it goes next; By is a byte distance from the instruction itself (extended_value and
   switch tables).
   */
  datatype Choice = Next | First | Second | By(delta: int) | Halt

  datatype Machine<E> = Running(pc: int, env: E) | Stopped(env: E) | Lost

  type Handler<!V, !E> = (Opcode, Seen<V>, Seen<V>, int, nat, E) -> (E, Choice)

  /** A handler goes where an operand says only if its opcode takes that operand for a jump target. */
  ghost predicate Proper<V(!new), E(!new)>(handler: Handler<V, E>) {
    forall opcode, a, b, result, extended, env ::
      && (handler(opcode, a, b, result, extended, env).1 == First ==> Jumps(opcode, extended).0)
      && (handler(opcode, a, b, result, extended, env).1 == Second ==> Jumps(opcode, extended).1)
  }

  function LiteralAt<V>(p: Program<V>, address: int): Seen<V> {
    var k := (address - p.at.literals) / ZVAL_SIZE;
    if 0 <= k < |p.literals| && address == p.at.literals + ZVAL_SIZE * k then Constant(p.literals[k]) else Wild
  }

  function See<V>(mode: Mode, p: Program<V>, i: int, o: Operand, jumps: bool): Seen<V> {
    if o.isConst then LiteralAt(p, Denotes(mode, p.at, i, o.word))
    else if jumps then Target
    else Raw(o.word)
  }

  function Follow<V, E>(mode: Mode, p: Program<V>, i: int, op: Op, env: E, choice: Choice): Machine<E> {
    match choice
    case Next => Running(OpAddress(mode, p.at, i + 1), env)
    case First => Running(Denotes(mode, p.at, i, op.op1.word), env)
    case Second => Running(Denotes(mode, p.at, i, op.op2.word), env)
    case By(delta) => Running(OpAddress(mode, p.at, i) + delta, env)
    case Halt => Stopped(env)
  }

  function Step<V, E>(mode: Mode, p: Program<V>, handler: Handler<V, E>, m: Machine<E>): Machine<E> {
    if !m.Running? then m
    else
      var i := (m.pc - p.at.opcodes) / OpSize(mode);
      if 0 <= i < |p.ops| && m.pc == OpAddress(mode, p.at, i) then
        var op := p.ops[i];
        var (env, choice) := handler(op.opcode, See(mode, p, i, op.op1, Jumps1(op)),
                                     See(mode, p, i, op.op2, Jumps2(op)), op.result, op.extended, m.env);
        Follow(mode, p, i, op, env, choice)
      else Lost
  }

  function Run<V, E>(mode: Mode, p: Program<V>, handler: Handler<V, E>, m: Machine<E>, steps: nat): Machine<E>
    decreases steps
  {
    if steps == 0 then m else Run(mode, p, handler, Step(mode, p, handler, m), steps - 1)
  }

  /** The same machine with its program counter carried over to the copy. */
  function Carried<E>(from: Place, to: Place, m: Machine<E>): Machine<E> {
    if m.Running? then Running(m.pc + to.opcodes - from.opcodes, m.env) else m
  }

  // ---- Meaning is preserved -------------------------------------------------

  /** A handler sees the same operand. */
  lemma SeenAlike<V>(mode: Mode, p: Program<V>, q: Program<V>, i: int, o: Operand, jumps: bool)
    requires q.literals == p.literals
    requires OperandOk(mode, p, i, o, jumps) && OperandInReach(mode, p, q.at, i, o)
    ensures See(mode, q, i, MovedOperand(mode, p.at, q.at, i, o, jumps), jumps) == See(mode, p, i, o, jumps)
  {
    if o.isConst {
      var k :| 0 <= k < |p.literals| && IsLiteral(mode, p.at, i, o.word, k);
      ConstantExact(mode, p.at, q.at, i, o.word, k);
    }
  }

  /** A jump goes to the same instruction. */
  lemma JumpedAlike<V>(mode: Mode, p: Program<V>, q: Program<V>, i: int, o: Operand)
    requires OperandOk(mode, p, i, o, true)
    ensures Denotes(mode, q.at, i, MovedOperand(mode, p.at, q.at, i, o, true).word)
         == Denotes(mode, p.at, i, o.word) + q.at.opcodes - p.at.opcodes
  {
    var t :| 0 <= t < |p.ops| && IsTarget(mode, p.at, i, o.word, t);
    JumpExact(mode, p.at, q.at, i, o.word, t);
  }

  lemma FollowedAlike<V, E>(mode: Mode, p: Program<V>, q: Program<V>, i: int, op: Op, env: E, choice: Choice)
    requires OpOk(mode, p, i, op)
    requires (choice == First ==> Jumps1(op)) && (choice == Second ==> Jumps2(op))
    ensures Follow(mode, q, i, MovedOp(mode, p.at, q.at, i, op), env, choice)
         == Carried(p.at, q.at, Follow(mode, p, i, op, env, choice))
  {
    CopierKnowsJumps(op);
    if Jumps1(op) {
      JumpedAlike(mode, p, q, i, op.op1);
    }
    if Jumps2(op) {
      JumpedAlike(mode, p, q, i, op.op2);
    }
  }

  lemma StepsAlike<V(!new), E(!new)>(mode: Mode, p: Program<V>, q: Program<V>, handler: Handler<V, E>, m: Machine<E>)
    requires WellFormed(mode, p) && IsCopy(mode, p, q) && AllInReach(mode, p, q.at) && Proper(handler)
    ensures Step(mode, q, handler, Carried(p.at, q.at, m)) == Carried(p.at, q.at, Step(mode, p, handler, m))
  {
    if m.Running? {
      var i := (m.pc - p.at.opcodes) / OpSize(mode);
      if 0 <= i < |p.ops| && m.pc == OpAddress(mode, p.at, i) {
        var op := p.ops[i];
        assert OpOk(mode, p, i, op);
        CopierKnowsJumps(op);
        SeenAlike(mode, p, q, i, op.op1, Jumps1(op));
        SeenAlike(mode, p, q, i, op.op2, Jumps2(op));
        var (env, choice) := handler(op.opcode, See(mode, p, i, op.op1, Jumps1(op)),
                                     See(mode, p, i, op.op2, Jumps2(op)), op.result, op.extended, m.env);
        FollowedAlike(mode, p, q, i, op, env, choice);
      }
    }
  }

  /**
   Whatever the instruction handlers do, the copy runs exactly as the original for any number of
   steps, from any program counter.
   */
  lemma {:induction false} RunsAlike<V(!new), E(!new)>(mode: Mode, p: Program<V>, q: Program<V>, handler: Handler<V, E>,
                                           m: Machine<E>, steps: nat)
    requires WellFormed(mode, p) && IsCopy(mode, p, q) && AllInReach(mode, p, q.at) && Proper(handler)
    ensures Run(mode, q, handler, Carried(p.at, q.at, m), steps) == Carried(p.at, q.at, Run(mode, p, handler, m, steps))
    decreases steps
  {
    if steps > 0 {
      StepsAlike(mode, p, q, handler, m);
      RunsAlike(mode, p, q, handler, Step(mode, p, handler, m), steps - 1);
    }
  }

  /** A copy made in one block is well formed in its turn, so copies of copies run alike too. */
  lemma CopyIsWellFormed<V>(mode: Mode, p: Program<V>, q: Program<V>)
    requires WellFormed(mode, p) && IsCopy(mode, p, q) && AllInReach(mode, p, q.at)
    ensures WellFormed(mode, q)
  {
    forall i | 0 <= i < |q.ops|
      ensures OpOk(mode, q, i, q.ops[i])
    {
      var op := p.ops[i];
      assert OpOk(mode, p, i, op);
      CopierKnowsJumps(op);
      OperandStaysOk(mode, p, q, i, op.op1, Jumps1(op));
      OperandStaysOk(mode, p, q, i, op.op2, Jumps2(op));
    }
  }

  lemma OperandStaysOk<V>(mode: Mode, p: Program<V>, q: Program<V>, i: int, o: Operand, jumps: bool)
    requires |q.literals| == |p.literals| && |q.ops| == |p.ops|
    requires OperandOk(mode, p, i, o, jumps) && OperandInReach(mode, p, q.at, i, o)
    ensures OperandOk(mode, q, i, MovedOperand(mode, p.at, q.at, i, o, jumps), jumps)
  {
    if o.isConst {
      var k :| 0 <= k < |p.literals| && IsLiteral(mode, p.at, i, o.word, k);
      ConstantExact(mode, p.at, q.at, i, o.word, k);
    }
    if jumps {
      var t :| 0 <= t < |p.ops| && IsTarget(mode, p.at, i, o.word, t);
      JumpExact(mode, p.at, q.at, i, o.word, t);
    }
  }
}
