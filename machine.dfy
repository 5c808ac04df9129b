/**
 * The Reduced Machine: Turing's reduced order code for the Manchester Mark I,
 * run over the electronic store.
 *
 * The state is the accumulator A, the control number C (the address of the
 * instruction last fetched) and the present instruction S. A cycle fetches the
 * line after C into S and executes it: the low ten bits of S address a line of
 * the store, the next ten bits select the function.
 */
module Machine {

  import Arith
  import opened Codec
  import opened Store

  /** The machine's registers and the lines its store holds. */
  datatype Config = Config(A: int, C: int, S: int, mem: map<int, string>)

  /** The function codes applyInstruction recognises, and every other code. */
  datatype Op =
    | BranchUnlessNegative  // /H
    | Branch                // /P
    | Write                 // /S
    | Load                  // T/
    | Clear                 // T:
    | Add                   // TI
    | Subtract              // TN
    | Negate                // TF
    | Double                // TK
    | Pass                  // T£
    | Unknown

  /** The two symbols that name a function. */
  function OpCode(op: Op): string
    requires !op.Unknown?
  {
    match op
    case BranchUnlessNegative => "/H"
    case Branch => "/P"
    case Write => "/S"
    case Load => "T/"
    case Clear => "T:"
    case Add => "TI"
    case Subtract => "TN"
    case Negate => "TF"
    case Double => "TK"
    case Pass => "T£"
  }

  /** The value of each function code, as the high ten bits of an instruction. */
  function OpValue(op: Op): nat
    requires !op.Unknown?
  {
    match op
    case BranchUnlessNegative => 640
    case Branch => 704
    case Write => 160
    case Load => 16
    case Clear => 144
    case Add => 208
    case Subtract => 400
    case Negate => 432
    case Double => 496
    case Pass => 1008
  }

  /** The case split of applyInstruction: which function two symbols name. */
  function DecodeOp(f: string): (op: Op)
    ensures !op.Unknown? ==> OpCode(op) == f
  {
    if f == "/H" then BranchUnlessNegative
    else if f == "/P" then Branch
    else if f == "/S" then Write
    else if f == "T/" then Load
    else if f == "T:" then Clear
    else if f == "TI" then Add
    else if f == "TN" then Subtract
    else if f == "TF" then Negate
    else if f == "TK" then Double
    else if f == "T£" then Pass
    else Unknown
  }

  /** Every function's code decodes to that function: the ten codes are distinct. */
  lemma OpCodeDecodes(op: Op)
    requires !op.Unknown?
    ensures DecodeOp(OpCode(op)) == op
  {
    match op
    case BranchUnlessNegative =>
    case Branch =>
    case Write =>
    case Load =>
    case Clear =>
    case Add =>
    case Subtract =>
    case Negate =>
    case Double =>
    case Pass =>
  }

  /** Each function code is a two-symbol numeral of the value OpValue gives. */
  lemma OpCodeValue(op: Op)
    requires !op.Unknown?
    ensures |OpCode(op)| == ShortSymbols && IsSymbols(OpCode(op))
    ensures SymbolsToInt(OpCode(op)) == OpValue(op)
  {
    var f := OpCode(op);
    match op
    case BranchUnlessNegative => TwoSymbols(f, 0, 20);
    case Branch => TwoSymbols(f, 0, 22);
    case Write => TwoSymbols(f, 0, 5);
    case Load => TwoSymbols(f, 16, 0);
    case Clear => TwoSymbols(f, 16, 4);
    case Add => TwoSymbols(f, 16, 6);
    case Subtract => TwoSymbols(f, 16, 12);
    case Negate => TwoSymbols(f, 16, 13);
    case Double => TwoSymbols(f, 16, 15);
    case Pass => TwoSymbols(f, 16, 31);
  }

  /** The two-symbol numeral of the symbols at positions lo and hi has the value lo + 32 * hi. */
  lemma TwoSymbols(f: string, lo: nat, hi: nat)
    requires |f| == 2 && lo < 32 && hi < 32 && f[0] == Symbols[lo] && f[1] == Symbols[hi]
    ensures IsSymbols(f)
    ensures SymbolsToInt(f) == lo + 32 * hi
  {
    IndexOfSymbol(lo);
    IndexOfSymbol(hi);
    assert f[1..] == [f[1]] && f[1..][1..] == [];
  }

  /** The address part of an instruction: S modulo 1024. */
  function Operand(s: int): (a: int)
    ensures 0 <= a < 1024
  {
    s % 1024
  }

  /** The instruction S as applyInstruction writes it: four symbols, the low 20 bits of S. */
  function Instruction(s: int): (instr: string)
    ensures |instr| == LineSymbols && IsSymbols(instr)
    ensures SymbolsToInt(instr) == s % LineModulus
  {
    IntToSymbolsRoundTrip(s, LineSymbols);
    IntToSymbols(s, LineSymbols)
  }

  /** line_pair: the first two symbols of the instruction, naming the operand address. */
  function LinePair(s: int): (p: string)
    ensures |p| == ShortSymbols && IsSymbols(p)
    ensures SymbolsToInt(p) == Operand(s)
  {
    InstructionSplit(s);
    Instruction(s)[..2]
  }

  /** func_sym: the last two symbols of the instruction, naming the function. */
  function FunctionCode(s: int): (f: string)
    ensures |f| == ShortSymbols && IsSymbols(f)
    ensures SymbolsToInt(f) == (s % LineModulus) / 1024
  {
    InstructionSplit(s);
    Instruction(s)[2..]
  }

  /**
   * The function the instruction S selects, read from bits 10 to 19 of S.
   * DecodeAgrees shows this is the function applyInstruction's comparisons
   * of func_sym select.
   */
  function OpOf(s: int): (op: Op)
    ensures op != Unknown ==> (s % LineModulus) / 1024 == OpValue(op)
  {
    var code := (s % LineModulus) / 1024;
    if code == 640 then BranchUnlessNegative
    else if code == 704 then Branch
    else if code == 160 then Write
    else if code == 16 then Load
    else if code == 144 then Clear
    else if code == 208 then Add
    else if code == 400 then Subtract
    else if code == 432 then Negate
    else if code == 496 then Double
    else if code == 1008 then Pass
    else Unknown
  }

  /** The two halves of an instruction encode S mod 1024 and the next ten bits of S. */
  lemma InstructionSplit(s: int)
    ensures IsSymbols(Instruction(s)[..2]) && IsSymbols(Instruction(s)[2..])
    ensures SymbolsToInt(Instruction(s)[..2]) == s % 1024
    ensures SymbolsToInt(Instruction(s)[2..]) == (s % LineModulus) / 1024
  {
    var instr := Instruction(s);
    SplitValue(instr, 2);
    FieldModuli();
    var lo, hi := SymbolsToInt(instr[..2]), SymbolsToInt(instr[2..]);
    Arith.DivModUnique(s % 1048576, 1024, hi, lo);
    LowBits(s);
  }

  /** Reducing modulo 2^20 keeps the low ten bits. */
  lemma LowBits(s: int)
    ensures (s % 1048576) % 1024 == s % 1024
  {
    var q, r := s / 1048576, s % 1048576;
    assert s == 1024 * (1024 * q + r / 1024) + r % 1024;
    Arith.DivModUnique(s, 1024, 1024 * q + r / 1024, r % 1024);
  }

  /**
   * The machine code of each function: func_sym names op exactly when bits 10
   * to 19 of S hold OpValue(op).
   */
  lemma FunctionNumber(s: int, op: Op)
    requires !op.Unknown?
    ensures DecodeOp(FunctionCode(s)) == op <==> (s % LineModulus) / 1024 == OpValue(op)
  {
    var f := FunctionCode(s);
    OpCodeValue(op);
    if (s % LineModulus) / 1024 == OpValue(op) {
      SymbolsToIntRoundTrip(f);
      SymbolsToIntRoundTrip(OpCode(op));
      OpCodeDecodes(op);
    }
  }

  /** Comparing func_sym with the ten codes selects the same function as OpOf. */
  lemma DecodeAgrees(s: int)
    ensures DecodeOp(FunctionCode(s)) == OpOf(s)
  {
    var op := DecodeOp(FunctionCode(s));
    if op.Unknown? {
      DecodeUnknown(s);
    } else {
      FunctionNumber(s, op);
      OpOfValue(s, op);
    }
  }

  /** Bits 10 to 19 of S holding a function's code select that function. */
  lemma OpOfValue(s: int, op: Op)
    requires !op.Unknown? && (s % LineModulus) / 1024 == OpValue(op)
    ensures OpOf(s) == op
  {
  }

  /** A func_sym that is none of the ten codes holds none of their values. */
  lemma DecodeUnknown(s: int)
    requires DecodeOp(FunctionCode(s)).Unknown?
    ensures OpOf(s) == Unknown
  {
    FunctionNumber(s, BranchUnlessNegative);
    FunctionNumber(s, Branch);
    FunctionNumber(s, Write);
    FunctionNumber(s, Load);
    FunctionNumber(s, Clear);
    FunctionNumber(s, Add);
    FunctionNumber(s, Subtract);
    FunctionNumber(s, Negate);
    FunctionNumber(s, Double);
    FunctionNumber(s, Pass);
  }

  /** The two reads applyInstruction makes before it dispatches. */
  datatype Operands = Operands(word: nat, pair: nat, mem: map<int, string>)

  /**
   * s_data, the value of the line at a, then s_pair_data, the lines at a and
   * after it as one number, the second line high; and the store as both reads
   * leave it. ReadOneValue and ReadTwoValue show these are the values get
   * returns in int mode.
   */
  function ReadOperands(m: map<int, string>, a: int): (o: Operands)
    ensures o.pair < AccModulus && o.pair % LineModulus == o.word
  {
    var word, high := LineValue(m, a), LineValue(m, a + 1);
    Arith.DivModUnique(word + LineModulus * high, LineModulus, high, word);
    Operands(word, word + LineModulus * high, Materialize(Materialize(m, a, 1), a, 2))
  }

  /** What get returns for the two reads, and the store it leaves, are ReadOperands. */
  lemma ReadsAgree(m: map<int, string>, a: int, m1: map<int, string>, m2: map<int, string>, v1: nat, v2: nat)
    requires ValidMemory(m)
    requires m1 == Materialize(m, a, 1) && IsSymbols(ReadLines(m1, a, 1)) && v1 == SymbolsToInt(ReadLines(m1, a, 1))
    requires m2 == Materialize(m1, a, 2) && IsSymbols(ReadLines(m2, a, 2)) && v2 == SymbolsToInt(ReadLines(m2, a, 2))
    ensures ReadOperands(m, a) == Operands(v1, v2, m2)
  {
    ReadOneValue(m, a);
    ReadTwoValue(m1, a);
    MaterializeValue(m, a, 1, a);
    MaterializeValue(m, a, 1, a + 1);
  }

  /** The two reads add the two lines to the store if unseen and change the value of no line. */
  lemma ReadOperandsKeep(m: map<int, string>, a: int)
    requires ValidMemory(m)
    ensures ValidMemory(ReadOperands(m, a).mem)
    ensures ReadOperands(m, a).mem.Keys == m.Keys + {Addr(a, 0), Addr(a, 1)}
    ensures forall x :: LineValue(ReadOperands(m, a).mem, x) == LineValue(m, x)
  {
    var m1 := Materialize(m, a, 1);
    MaterializeKeep(m, a, 1);
    MaterializeKeep(m1, a, 2);
    assert (set i | 0 <= i < 1 :: Addr(a, i)) == {Addr(a, 0)};
    assert (set i | 0 <= i < 2 :: Addr(a, i)) == {Addr(a, 0), Addr(a, 1)};
  }

  /**
   * The store after /S: the addressed line receives A mod 2^20 and the line
   * after it "////". WriteLines shows this is what set(line_pair, acc_symbols)
   * does: acc_symbols is A in eight symbols, but int_to_symbols keeps only the
   * low 20 bits of A.
   */
  function WriteAccumulator(m: map<int, string>, s: int, acc: int): (r: map<int, string>)
    ensures r.Keys == m.Keys + {Addr(Operand(s), 0), Addr(Operand(s), 1)}
    ensures r[Addr(Operand(s), 1)] == Blank
    ensures forall x | x in m && x != Addr(Operand(s), 0) && x != Addr(Operand(s), 1) :: r[x] == m[x]
  {
    m[Addr(Operand(s), 0) := IntToSymbols(acc, AccSymbols)[..4]][Addr(Operand(s), 1) := Blank]
  }

  /** The store after /S is valid and holds A mod 2^20 at the operand address. */
  lemma WriteAccumulatorEffect(m: map<int, string>, s: int, acc: int)
    requires ValidMemory(m)
    ensures ValidMemory(WriteAccumulator(m, s, acc))
    ensures LineValue(WriteAccumulator(m, s, acc), Operand(s)) == acc % LineModulus
  {
    var low := IntToSymbols(acc, AccSymbols)[..4];
    var a0, a1 := Addr(Operand(s), 0), Addr(Operand(s), 1);
    assert IsLine(low) && SymbolsToInt(low) == acc % LineModulus by {
      AccumulatorLines(acc);
    }
    AddrDistinct(Operand(s), 0, 1);
    BlankIsLine();
    WriteLineValid(m, a0, low);
    WriteLineValid(m[a0 := low], a1, Blank);
  }

  /** The eight symbols of the accumulator are the low 20 bits of A, then a blank line. */
  lemma AccumulatorLines(acc: int)
    ensures Chunks(IntToSymbols(acc, AccSymbols)) == [IntToSymbols(acc, AccSymbols)[..4], Blank]
    ensures IsLine(IntToSymbols(acc, AccSymbols)[..4])
    ensures SymbolsToInt(IntToSymbols(acc, AccSymbols)[..4]) == acc % LineModulus
  {
    var text := IntToSymbols(acc, AccSymbols);
    assert Chunks(text) == [text[..4]] + Chunks(text[4..]);
    assert Chunks(text[4..]) == [text[4..]];
    IntToSymbolsRoundTrip(acc, AccSymbols);
    SplitValue(text, 4);
    FieldModuli();
    var lo, hi := SymbolsToInt(text[..4]), SymbolsToInt(text[4..]);
    Arith.DivModUnique(acc % 1048576, 1048576, hi, lo);
    Arith.DivModUnique(acc % 1048576, 1048576, 0, acc % 1048576);
    SymbolsToIntRoundTrip(text[4..]);
    ZerosAreZero(4);
    assert IntToSymbols(0, 4) == Zeros(4);
    assert text[4..] == Blank;
  }

  /** set(line_pair, acc_symbols) writes the low line of A at the operand address and a blank line after it. */
  lemma WriteLines(m: map<int, string>, s: int, acc: int)
    ensures StoreAll(m, SymbolsToInt(LinePair(s)), Chunks(IntToSymbols(acc, AccSymbols)))
            == m[Addr(Operand(s), 0) := IntToSymbols(acc, AccSymbols)[..4]][Addr(Operand(s), 1) := Blank]
  {
    var low := IntToSymbols(acc, AccSymbols)[..4];
    AccumulatorLines(acc);
    StoreTwo(m, Operand(s), low, Blank);
    assert PadLine(low) == low;
    assert PadLine(Blank) == Blank;
  }

  /** Why applyInstruction raises InvalidInstructionError: TF, or an instruction S naming no function. */
  datatype Fault = Unimplemented | NoSuchInstruction(s: int)

  /** The message the raised InvalidInstructionError carries. */
  function Message(f: Fault): (msg: string)
    ensures f.NoSuchInstruction? ==> |msg| >= 16 && IsSymbols(msg[12..16])
    ensures f.NoSuchInstruction? ==> SymbolsToInt(msg[12..16]) == f.s % LineModulus
  {
    match f
    case Unimplemented => "TF currently unimplemented"
    case NoSuchInstruction(s) =>
      var msg := "Instruction " + Instruction(s) + " does not exist!";
      assert msg[12..16] == Instruction(s);
      msg
  }

  /** Whether an instruction completed or raised. */
  datatype Signal = Normal | InvalidInstructionError(fault: Fault)

  /** The state after an instruction, with the error it raised if any. */
  datatype Executed = Executed(after: Config, signal: Signal)

  /** s_data: the value of the line the instruction addresses. */
  function Word(c: Config): nat {
    LineValue(c.mem, Operand(c.S))
  }

  /** s_pair_data: that line and the next as one number, the next line the high half. */
  function Pair(c: Config): (p: nat)
    ensures p < AccModulus
  {
    LineValue(c.mem, Operand(c.S)) + LineModulus * LineValue(c.mem, Operand(c.S) + 1)
  }

  /** Word and Pair are the s_data and s_pair_data the two reads of applyInstruction return. */
  lemma OperandsAgree(c: Config)
    ensures ReadOperands(c.mem, Operand(c.S)).word == Word(c)
    ensures ReadOperands(c.mem, Operand(c.S)).pair == Pair(c)
  {
  }

  /**
   * I: C steps to the next address modulo 1024 and S becomes the line held
   * there, read as a number; the read adds that line to the store if unseen.
   */
  function Fetch(c: Config): (d: Config)
    ensures d.A == c.A && 0 <= d.C < 1024 && d.C in d.mem
    ensures ValidMemory(c.mem) ==> d.S == LineValue(d.mem, d.C)
  {
    var next := (c.C + 1) % 1024;
    assert ValidMemory(c.mem) ==> LineValue(Materialize(c.mem, next, 1), next) == LineValue(c.mem, next) by {
      if ValidMemory(c.mem) {
        MaterializeValue(c.mem, next, 1, next);
      }
    }
    c.(C := next, S := LineValue(c.mem, next), mem := Materialize(c.mem, next, 1))
  }

  /** The fetch adds the line it reads to the store if unseen and changes the value of no line. */
  lemma FetchKeep(c: Config)
    requires ValidMemory(c.mem)
    ensures ValidMemory(Fetch(c).mem)
    ensures Fetch(c).mem.Keys == c.mem.Keys + {Fetch(c).C}
    ensures forall x :: LineValue(Fetch(c).mem, x) == LineValue(c.mem, x)
  {
    var next := (c.C + 1) % 1024;
    MaterializeKeep(c.mem, next, 1);
    assert (set i | 0 <= i < 1 :: Addr(next, i)) == {next};
  }


  /**
   * applyInstruction: reads the operand line and line pair, then applies the
   * function the instruction names. TF and any unknown code raise
   * InvalidInstructionError once both reads are done.
   */
  function Execute(c: Config): (e: Executed)
    ensures e.signal.InvalidInstructionError? ==> e.after.A == c.A && e.after.C == c.C && e.after.S == c.S
  {
    Dispatch(c, OpOf(c.S), ReadOperands(c.mem, Operand(c.S)))
  }

  /** An instruction keeps the store valid and adds exactly the two lines it reads. */
  lemma ExecuteKeep(c: Config)
    requires ValidMemory(c.mem)
    ensures ValidMemory(Execute(c).after.mem)
    ensures Execute(c).after.mem.Keys == c.mem.Keys + {Addr(Operand(c.S), 0), Addr(Operand(c.S), 1)}
  {
    var operands := ReadOperands(c.mem, Operand(c.S));
    assert ValidMemory(operands.mem) && operands.mem.Keys == c.mem.Keys + {Addr(Operand(c.S), 0), Addr(Operand(c.S), 1)} by {
      ReadOperandsKeep(c.mem, Operand(c.S));
    }
    DispatchMemory(c, OpOf(c.S), operands);
    if OpOf(c.S) == Write {
      WriteAccumulatorEffect(operands.mem, c.S, c.A);
    }
  }

  /** Only /S changes the store beyond the two reads, and it does so by WriteAccumulator. */
  lemma DispatchMemory(c: Config, op: Op, operands: Operands)
    ensures op != Write ==> Dispatch(c, op, operands).after.mem == operands.mem
    ensures op == Write ==> Dispatch(c, op, operands).after.mem == WriteAccumulator(operands.mem, c.S, c.A)
  {
  }

  /** The case split of applyInstruction, once the function is decoded and both reads are done. */
  function Dispatch(c: Config, op: Op, operands: Operands): (r: Executed)
    ensures r.signal.InvalidInstructionError? ==> r.after == c.(mem := operands.mem)
  {
    var d := c.(mem := operands.mem);
    match op
    case BranchUnlessNegative =>
      if !(AccModulus > c.A >= SignBoundary) then Executed(d.(C := operands.word % 1024), Normal)
      else Executed(d, Normal)
    case Branch => Executed(d.(C := operands.word % 1024), Normal)
    case Write => Executed(d.(S := c.A % LineModulus, mem := WriteAccumulator(d.mem, c.S, c.A)), Normal)
    case Load => Executed(d.(A := operands.pair % AccModulus), Normal)
    case Clear => Executed(d.(A := 0), Normal)
    case Add => Executed(d.(A := c.A + operands.pair % AccModulus), Normal)
    case Subtract => Executed(d.(A := c.A - operands.pair % AccModulus), Normal)
    case Negate => Executed(d, InvalidInstructionError(Unimplemented))
    case Double => Executed(d.(A := (operands.pair * 2) % AccModulus), Normal)
    case Pass => Executed(d, Normal)
    case Unknown => Executed(d, InvalidInstructionError(NoSuchInstruction(c.S)))
  }


  /** Only TF and an unknown function raise, each with the message the source gives. */
  lemma ExecuteFaults(c: Config)
    ensures Execute(c).signal.Normal? <==> OpOf(c.S) != Negate && OpOf(c.S) != Unknown
    ensures OpOf(c.S) == Negate ==> Message(Execute(c).signal.fault) == "TF currently unimplemented"
    ensures OpOf(c.S) == Unknown ==>
              Message(Execute(c).signal.fault) == "Instruction " + Instruction(c.S) + " does not exist!"
  {
    DispatchFaults(c, OpOf(c.S), ReadOperands(c.mem, Operand(c.S)));
  }

  lemma DispatchFaults(c: Config, op: Op, operands: Operands)
    ensures Dispatch(c, op, operands).signal.Normal? <==> op != Negate && op != Unknown
    ensures op == Negate ==> Dispatch(c, op, operands).signal == InvalidInstructionError(Unimplemented)
    ensures op == Unknown ==> Dispatch(c, op, operands).signal == InvalidInstructionError(NoSuchInstruction(c.S))
  {
  }

  /**
   * The control functions: /P sets C to s_data mod 1024, /H does so unless A
   * lies in [2^39, 2^40), and every other function leaves C as the fetch left it.
   */
  lemma ExecuteControl(c: Config)
    ensures OpOf(c.S) != Branch && OpOf(c.S) != BranchUnlessNegative ==> Execute(c).after.C == c.C
    ensures OpOf(c.S) == Branch ==> Execute(c).after.C == Word(c) % 1024
    ensures OpOf(c.S) == BranchUnlessNegative ==>
              Execute(c).after.C == if SignBoundary <= c.A < AccModulus then c.C else Word(c) % 1024
  {
    var operands := ReadOperands(c.mem, Operand(c.S));
    OperandsAgree(c);
    DispatchControl(c, OpOf(c.S), operands);
  }

  lemma DispatchControl(c: Config, op: Op, operands: Operands)
    ensures op != Branch && op != BranchUnlessNegative ==> Dispatch(c, op, operands).after.C == c.C
    ensures op == Branch ==> Dispatch(c, op, operands).after.C == operands.word % 1024
    ensures op == BranchUnlessNegative ==>
              Dispatch(c, op, operands).after.C == if SignBoundary <= c.A < AccModulus then c.C else operands.word % 1024
  {
  }

  /**
   * The arithmetic functions, on the exact integer A: T/ loads s_pair_data, T:
   * clears, TI and TN add and subtract s_pair_data with no reduction of the
   * result, TK loads twice s_pair_data modulo 2^40; the rest keep A.
   */
  lemma ExecuteAccumulator(c: Config)
    ensures OpOf(c.S) == Load ==> Execute(c).after.A == Pair(c)
    ensures OpOf(c.S) == Clear ==> Execute(c).after.A == 0
    ensures OpOf(c.S) == Add ==> Execute(c).after.A == c.A + Pair(c)
    ensures OpOf(c.S) == Subtract ==> Execute(c).after.A == c.A - Pair(c)
    ensures OpOf(c.S) == Double ==> Execute(c).after.A == 2 * Pair(c) % AccModulus
    ensures OpOf(c.S) in {BranchUnlessNegative, Branch, Write, Negate, Pass, Unknown} ==> Execute(c).after.A == c.A
  {
    var operands := ReadOperands(c.mem, Operand(c.S));
    OperandsAgree(c);
    DispatchAccumulator(c, OpOf(c.S), operands);
  }

  lemma DispatchAccumulator(c: Config, op: Op, operands: Operands)
    requires operands.pair < AccModulus
    ensures op == Load ==> Dispatch(c, op, operands).after.A == operands.pair
    ensures op == Clear ==> Dispatch(c, op, operands).after.A == 0
    ensures op == Add ==> Dispatch(c, op, operands).after.A == c.A + operands.pair
    ensures op == Subtract ==> Dispatch(c, op, operands).after.A == c.A - operands.pair
    ensures op == Double ==> Dispatch(c, op, operands).after.A == 2 * operands.pair % AccModulus
    ensures op in {BranchUnlessNegative, Branch, Write, Negate, Pass, Unknown} ==> Dispatch(c, op, operands).after.A == c.A
  {
    Arith.SmallMod(operands.pair, AccModulus);
  }

  /**
   * Every function but /S keeps S and the value of every line; /S sets S to
   * A mod 2^20.
   */
  lemma ExecuteInstruction(c: Config)
    requires ValidMemory(c.mem)
    ensures OpOf(c.S) != Write ==> Execute(c).after.S == c.S
    ensures OpOf(c.S) != Write ==> forall x :: LineValue(Execute(c).after.mem, x) == LineValue(c.mem, x)
    ensures OpOf(c.S) == Write ==> Execute(c).after.S == c.A % LineModulus
  {
    var operands := ReadOperands(c.mem, Operand(c.S));
    assert forall x :: LineValue(operands.mem, x) == LineValue(c.mem, x) by {
      ReadOperandsKeep(c.mem, Operand(c.S));
    }
    DispatchMemory(c, OpOf(c.S), operands);
    DispatchInstruction(c, OpOf(c.S), operands);
  }

  lemma DispatchInstruction(c: Config, op: Op, operands: Operands)
    ensures op != Write ==> Dispatch(c, op, operands).after.S == c.S
    ensures op == Write ==> Dispatch(c, op, operands).after.S == c.A % LineModulus
  {
  }

  /**
   * /S writes the low 20 bits of A at the operand address and a blank line
   * after it, and touches no other line the store holds.
   */
  lemma WriteEffect(c: Config)
    requires ValidMemory(c.mem) && OpOf(c.S) == Write
    ensures LineValue(Execute(c).after.mem, Operand(c.S)) == c.A % LineModulus
    ensures Execute(c).after.mem[Addr(Operand(c.S), 1)] == Blank
    ensures forall x | x in c.mem && x != Addr(Operand(c.S), 0) && x != Addr(Operand(c.S), 1) ::
              Execute(c).after.mem[x] == c.mem[x]
  {
    var operands := ReadOperands(c.mem, Operand(c.S));
    assert ValidMemory(operands.mem) by { ReadOperandsKeep(c.mem, Operand(c.S)); }
    DispatchMemory(c, Write, operands);
    WriteAccumulatorEffect(operands.mem, c.S, c.A);
    var once := Materialize(c.mem, Operand(c.S), 1);
    assert operands.mem == Materialize(once, Operand(c.S), 2);
    assert forall x | x in c.mem :: x in once && once[x] == c.mem[x];
  }

  /**
   * A store followed by a load from the same address gives back A modulo 2^20,
   * not modulo 2^40: the line after the address holds zero.
   */
  lemma WriteThenLoad(c: Config)
    requires ValidMemory(c.mem) && OpOf(c.S) == Write
    ensures var d := Execute(c).after;
      LineValue(d.mem, Operand(c.S)) + LineModulus * LineValue(d.mem, Operand(c.S) + 1) == c.A % LineModulus
  {
    var d := Execute(c).after;
    WriteEffect(c);
    BlankIsLine();
    ZerosAreZero(4);
    assert Addr(Operand(c.S) + 1, 0) == Addr(Operand(c.S), 1);
    assert Blank == Zeros(4);
  }

  /** The fetch and execution of one instruction: next. */
  function Cycle(c: Config): (r: Executed)
    ensures r.signal.InvalidInstructionError? ==> r.after.C == Fetch(c).C && r.after.A == c.A
  {
    Execute(Fetch(c))
  }

  /** A cycle keeps the store valid. */
  lemma CycleValid(c: Config)
    requires ValidMemory(c.mem)
    ensures ValidMemory(Cycle(c).after.mem)
  {
    FetchKeep(c);
    ExecuteKeep(Fetch(c));
  }

  /** A machine started with the default C of 1023 fetches its first instruction from address 0. */
  lemma FirstFetch(A: int, m: map<int, string>)
    ensures Fetch(Config(A, 1023, 0, m)).C == 0
    ensures Fetch(Config(A, 1023, 0, m)).S == LineValue(m, 0)
  {
  }

  /** The fetch always moves C: 1024 addresses never wrap round to the same one in one step. */
  lemma FetchMoves(c: Config)
    ensures Fetch(c).C != c.C
  {
    if 0 <= c.C < 1023 {
      Arith.SmallMod(c.C + 1, 1024);
    } else if c.C == 1023 {
      assert (c.C + 1) % 1024 == 0;
    }
  }

  /**
   * The fetch sees only C, A and the values of the lines: two configurations
   * that agree on them fetch the same instruction, whose operand line holds
   * the same word.
   */
  lemma FetchAgrees(c: Config, d: Config)
    requires ValidMemory(c.mem) && ValidMemory(d.mem)
    requires c.C == d.C && c.A == d.A
    requires forall x :: LineValue(c.mem, x) == LineValue(d.mem, x)
    ensures Fetch(d).C == Fetch(c).C && Fetch(d).S == Fetch(c).S && Fetch(d).A == Fetch(c).A
    ensures Word(Fetch(d)) == Word(Fetch(c))
  {
    FetchKeep(c);
    FetchKeep(d);
  }

  /**
   * A cycle that completes and leaves C where it was executed /P or /H: the
   * fetch moved C, so only a branch can have moved it back. Such a cycle keeps
   * A, the fetched S and the value of every line.
   */
  lemma HaltingBranch(c: Config)
    requires ValidMemory(c.mem)
    requires Cycle(c).signal.Normal? && Cycle(c).after.C == c.C
    ensures OpOf(Fetch(c).S) == Branch || OpOf(Fetch(c).S) == BranchUnlessNegative
    ensures OpOf(Fetch(c).S) == BranchUnlessNegative ==> !(SignBoundary <= c.A < AccModulus)
    ensures Word(Fetch(c)) % 1024 == c.C
    ensures Cycle(c).after.A == c.A && Cycle(c).after.S == Fetch(c).S
    ensures ValidMemory(Cycle(c).after.mem)
    ensures forall x :: LineValue(Cycle(c).after.mem, x) == LineValue(c.mem, x)
  {
    var f := Fetch(c);
    FetchMoves(c);
    FetchKeep(c);
    ExecuteControl(f);
    ExecuteAccumulator(f);
    ExecuteInstruction(f);
    ExecuteKeep(f);
  }

  /**
   * The loop check of run is sound: a cycle that leaves C where it was is a
   * branch to the address before itself, and the cycle after it does the same
   * again with the same registers.
   */
  lemma HaltingIsLoop(c: Config)
    requires ValidMemory(c.mem)
    requires Cycle(c).signal.Normal? && Cycle(c).after.C == c.C
    ensures OpOf(Fetch(c).S) == Branch || OpOf(Fetch(c).S) == BranchUnlessNegative
    ensures var d := Cycle(c).after;
      Cycle(d).signal.Normal? && Cycle(d).after.C == d.C && Cycle(d).after.A == d.A && Cycle(d).after.S == d.S
  {
    HaltingBranch(c);
    var f := Fetch(c);
    var d := Cycle(c).after;
    FetchAgrees(c, d);
    var g := Fetch(d);
    assert g.C == f.C && g.S == f.S && g.A == c.A && Word(g) == Word(f);
    assert ValidMemory(g.mem) by { FetchKeep(d); }
    ExecuteFaults(g);
    ExecuteControl(g);
    ExecuteControl(f);
    ExecuteAccumulator(g);
    ExecuteInstruction(g);
  }

  /**
   * A /P whose target is the address it was fetched from does not stop run:
   * the loop check compares C with its value before the fetch, so only a
   * branch to the address before its own is a halting loop.
   */
  lemma OwnAddressBranch(c: Config)
    requires OpOf(Fetch(c).S) == Branch && Word(Fetch(c)) % 1024 == Fetch(c).C
    ensures Cycle(c).after.C == Fetch(c).C
    ensures Cycle(c).after.C != c.C
  {
    FetchMoves(c);
    ExecuteControl(Fetch(c));
  }

  /** How run ended. */
  datatype Outcome =
    | Finished      // the loop condition n < steps or steps == 0 failed
    | HaltingLoop   // a cycle left C unchanged
    | Raised(fault: Fault)  // an instruction raised InvalidInstructionError
    | OutOfFuel     // steps == 0 and the model's bound on cycles ran out

  /** The state run leaves, how it ended, and how many cycles it began. */
  datatype RunResult = RunResult(final: Config, outcome: Outcome, cycles: nat)

  /**
   * run from loop counter n, with step as the cycle: cycles while n < steps,
   * or without bound when steps == 0, stopping after a cycle that leaves C
   * unchanged or raises. The unbounded loop is cut off after fuel further
   * cycles. The machine's run is RunFrom(Cycle, c, steps, 0, fuel); the
   * properties of the loop itself hold for any step.
   */
  function RunFrom(step: Config -> Executed, c: Config, steps: int, n: nat, fuel: nat): (r: RunResult)
    ensures r.outcome == HaltingLoop || r.outcome.Raised? ==> n < r.cycles
    decreases if steps > 0 then steps - n else 0, fuel
  {
    if !(n < steps || steps == 0) then RunResult(c, Finished, n)
    else if steps == 0 && fuel == 0 then RunResult(c, OutOfFuel, n)
    else
      var r := step(c);
      if r.signal.InvalidInstructionError? then RunResult(r.after, Raised(r.signal.fault), n + 1)
      else if r.after.C == c.C then RunResult(r.after, HaltingLoop, n + 1)
      else RunFrom(step, r.after, steps, n + 1, if steps == 0 then fuel - 1 else fuel)
  }

  /**
   * run begins at most steps cycles when steps is positive, none at all when it
   * is negative, and at most fuel of them when it is zero.
   */
  lemma {:induction false} RunBounded(step: Config -> Executed, c: Config, steps: int, n: nat, fuel: nat)
    ensures n <= RunFrom(step, c, steps, n, fuel).cycles
    ensures steps > 0 && n <= steps ==> RunFrom(step, c, steps, n, fuel).cycles <= steps
    ensures steps == 0 ==> RunFrom(step, c, steps, n, fuel).cycles <= n + fuel
    ensures steps != 0 && n >= steps ==> RunFrom(step, c, steps, n, fuel) == RunResult(c, Finished, n)
    decreases if steps > 0 then steps - n else 0, fuel
  {
    if (n < steps || steps == 0) && !(steps == 0 && fuel == 0) {
      var r := step(c);
      if r.signal.Normal? && r.after.C != c.C {
        RunBounded(step, r.after, steps, n + 1, if steps == 0 then fuel - 1 else fuel);
      }
    }
  }

  /**
   * run finishes normally only after all its steps; with steps == 0 it never
   * finishes on its own, and only that mode can run out of fuel.
   */
  lemma {:induction false} RunOutcome(step: Config -> Executed, c: Config, steps: int, n: nat, fuel: nat)
    ensures RunFrom(step, c, steps, n, fuel).outcome == Finished ==>
              steps != 0 && RunFrom(step, c, steps, n, fuel).cycles == if n < steps then steps else n
    ensures RunFrom(step, c, steps, n, fuel).outcome == OutOfFuel ==> steps == 0
    decreases if steps > 0 then steps - n else 0, fuel
  {
    if (n < steps || steps == 0) && !(steps == 0 && fuel == 0) {
      var r := step(c);
      if r.signal.Normal? && r.after.C != c.C {
        RunOutcome(step, r.after, steps, n + 1, if steps == 0 then fuel - 1 else fuel);
      }
    }
  }

  /** One turn of run's loop, told by what step does. */
  lemma RunStep(step: Config -> Executed, c: Config, r: Executed, steps: int, n: nat, fuel: nat)
    requires (n < steps || steps == 0) && !(steps == 0 && fuel == 0) && step(c) == r
    ensures r.signal.InvalidInstructionError? ==>
              RunFrom(step, c, steps, n, fuel) == RunResult(r.after, Raised(r.signal.fault), n + 1)
    ensures r.signal.Normal? && r.after.C == c.C ==>
              RunFrom(step, c, steps, n, fuel) == RunResult(r.after, HaltingLoop, n + 1)
    ensures r.signal.Normal? && r.after.C != c.C ==>
              RunFrom(step, c, steps, n, fuel) == RunFrom(step, r.after, steps, n + 1, if steps == 0 then fuel - 1 else fuel)
  {
  }

  /** The complete state of a Reduced Machine: the registers and the store. */
  class State {
    var A: int
    var C: int
    var S: int
    const eStore: EStore

    /** C defaults to 1023, so the first fetch reads address 0; S defaults to 0. */
    constructor (A: int, eStore: EStore, C: int := 1023, S: int := 0)
      ensures this.A == A && this.eStore == eStore && this.C == C && this.S == S
    {
      this.A := A;
      this.eStore := eStore;
      this.C := C;
      this.S := S;
    }
  }

  /** The machine: fetch, execute and run over one State. */
  class ReducedMachine {
    const state: State

    constructor (state: State)
      ensures this.state == state
    {
      this.state := state;
    }

    ghost predicate Valid()
      reads state, state.eStore
    {
      state.eStore.Valid()
    }

    /** The registers and store as a value. */
    function Snapshot(): Config
      reads state, state.eStore
    {
      Config(state.A, state.C, state.S, state.eStore.memory)
    }

    /** I: fetch the next instruction into S. */
    method I() returns (s: State)
      requires Valid()
      modifies state, state.eStore
      ensures Valid() && s == state
      ensures Snapshot() == Fetch(old(Snapshot()))
    {
      ghost var before := state.eStore.memory;
      state.C := (state.C + 1) % 1024;
      var r := state.eStore.GetInt(state.C, 1);
      assert r.Ok?;
      ReadOneValue(before, state.C);
      state.S := r.value;
      return state;
    }

    /** applyInstruction: execute S, returning the error it raises instead of raising it. */
    method ApplyInstruction() returns (signal: Signal)
      requires Valid()
      modifies state, state.eStore
      ensures Valid()
      ensures Executed(Snapshot(), signal) == Execute(old(Snapshot()))
    {
      ghost var c := Snapshot();
      var instr := IntToSymbols(state.S, LineSymbols);
      var linePair := instr[..2];
      var funcSym := instr[2..];
      assert linePair == LinePair(c.S) && funcSym == FunctionCode(c.S);
      Arith.SmallMod(state.S % 1024, LineModulus);
      var sData := state.eStore.GetInt(state.S % 1024, 1);
      ghost var between := state.eStore.memory;
      var sPairData := state.eStore.GetInt(state.S % 1024, 2);
      ReadsAgree(c.mem, Operand(c.S), between, state.eStore.memory, sData.value, sPairData.value);
      DecodeAgrees(c.S);
      signal := Perform(funcSym, linePair, sData.value, sPairData.value, c);
    }

    /**
     * The case split of applyInstruction, once S is decoded into line_pair and
     * func_sym and s_data and s_pair_data are read; before holds the registers
     * as they were before the reads.
     */
    method Perform(funcSym: string, linePair: string, sData: nat, sPairData: nat, ghost before: Config)
      returns (signal: Signal)
      requires Valid() && linePair == LinePair(state.S)
      requires before.A == state.A && before.C == state.C && before.S == state.S
      modifies state, state.eStore
      ensures Valid()
      ensures Executed(Snapshot(), signal)
              == Dispatch(before, DecodeOp(funcSym), Operands(sData, sPairData, old(state.eStore.memory)))
    {
      ghost var op := DecodeOp(funcSym);
      var accSymbols := IntToSymbols(state.A, AccSymbols);
      if funcSym == "/H" {
        assert op == BranchUnlessNegative;
        if !(AccModulus > state.A >= SignBoundary) {
          state.C := sData % 1024;
        }
        return Normal;
      } else if funcSym == "/P" {
        assert op == Branch;
        state.C := sData % 1024;
        return Normal;
      } else if funcSym == "/S" {
        assert op == Write;
        WriteLines(state.eStore.memory, state.S, state.A);
        state.S := state.A % LineModulus;
        var stored := state.eStore.Set(linePair, accSymbols);
        assert stored.Ok?;
        return Normal;
      } else {
        signal := PerformAccumulator(funcSym, sData, sPairData, before);
      }
    }

    /**
     * The rest of the case split: the functions that change only A, TF, and a
     * code naming no function.
     */
    method PerformAccumulator(funcSym: string, sData: nat, sPairData: nat, ghost before: Config)
      returns (signal: Signal)
      requires Valid() && funcSym != "/H" && funcSym != "/P" && funcSym != "/S"
      requires before.A == state.A && before.C == state.C && before.S == state.S
      modifies state
      ensures Valid()
      ensures Executed(Snapshot(), signal)
              == Dispatch(before, DecodeOp(funcSym), Operands(sData, sPairData, state.eStore.memory))
    {
      ghost var op := DecodeOp(funcSym);
      if funcSym == "T/" {
        assert op == Load;
        state.A := sPairData % AccModulus;
        return Normal;
      } else if funcSym == "T:" {
        assert op == Clear;
        state.A := 0;
        return Normal;
      } else if funcSym == "TI" {
        assert op == Add;
        state.A := state.A + sPairData % AccModulus;
        return Normal;
      } else if funcSym == "TN" {
        assert op == Subtract;
        state.A := state.A - sPairData % AccModulus;
        return Normal;
      } else if funcSym == "TF" {
        assert op == Negate;
        return InvalidInstructionError(Unimplemented);
      } else if funcSym == "TK" {
        assert op == Double;
        state.A := (sPairData * 2) % AccModulus;
        return Normal;
      } else if funcSym == "T£" {
        assert op == Pass;
        return Normal;
      } else {
        assert op == Unknown;
        return InvalidInstructionError(NoSuchInstruction(state.S));
      }
    }

    /** next: fetch, then execute. */
    method Next() returns (signal: Signal)
      requires Valid()
      modifies state, state.eStore
      ensures Valid()
      ensures Executed(Snapshot(), signal) == Cycle(old(Snapshot()))
    {
      var _ := I();
      signal := ApplyInstruction();
    }

    /**
     * One pass of run's loop body: a cycle, then the checks for a raised error
     * and for an unchanged C. done says run returns here, with outcome; when
     * done is false the loop goes on and outcome carries no meaning.
     */
    method Advance(steps: int, n: nat, fuelLeft: nat) returns (done: bool, outcome: Outcome, fuelNext: nat)
      requires Valid() && (n < steps || steps == 0) && !(steps == 0 && fuelLeft == 0)
      modifies state, state.eStore
      ensures Valid()
      ensures done ==> RunFrom(Cycle, old(Snapshot()), steps, n, fuelLeft) == RunResult(Snapshot(), outcome, n + 1)
      ensures !done ==> RunFrom(Cycle, old(Snapshot()), steps, n, fuelLeft) == RunFrom(Cycle, Snapshot(), steps, n + 1, fuelNext)
      ensures fuelNext == if steps == 0 then fuelLeft - 1 else fuelLeft
    {
      ghost var before := Snapshot();
      var C := state.C;
      var signal := Next();
      RunStep(Cycle, before, Executed(Snapshot(), signal), steps, n, fuelLeft);
      fuelNext := if steps == 0 then fuelLeft - 1 else fuelLeft;
      if signal.InvalidInstructionError? {
        return true, Raised(signal.fault), fuelNext;
      }
      if C == state.C {
        return true, HaltingLoop, fuelNext;
      }
      return false, Finished, fuelNext;
    }

    /**
     * run: cycle while n < steps, or without bound when steps == 0 (here at
     * most fuel cycles), until a cycle leaves C unchanged or raises. The
     * default of -1 steps begins no cycle.
     */
    method Run(fuel: nat, steps: int := -1) returns (outcome: Outcome, cycles: nat)
      requires Valid()
      modifies state, state.eStore
      ensures Valid()
      ensures RunFrom(Cycle, old(Snapshot()), steps, 0, fuel) == RunResult(Snapshot(), outcome, cycles)
    {
      var n: nat := 0;
      var fuelLeft := fuel;
      while n < steps || steps == 0
        invariant Valid()
        invariant RunFrom(Cycle, old(Snapshot()), steps, 0, fuel) == RunFrom(Cycle, Snapshot(), steps, n, fuelLeft)
        decreases if steps > 0 then steps - n else 0, fuelLeft
      {
        if steps == 0 && fuelLeft == 0 {
          return OutOfFuel, n;
        }
        var done, last, fuelNext := Advance(steps, n, fuelLeft);
        if done {
          return last, n + 1;
        }
        n, fuelLeft := n + 1, fuelNext;
      }
      return Finished, n;
    }
  }
}
