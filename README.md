# Reduced Machine in Dafny

A model of the core of `reducedmachine.py`, a simulator of Turing's Reduced
Machine, a cut-down Manchester Mark I. The model has three parts:

- **Codec** (`codec.dfy`). These are `int_to_symbols` and `symbols_to_int`.
  - Numbers are written in base 32 over the alphabet ``/E@A:SIU8DRJNFCKTZLWHYPQOBG"MXV£``, least-significant symbol first.
  - An encoding first reduces its value modulo 2^20 and then pads with `/`.
  - Both are pure functions. The round trips between them are proved.
- **Electronic store** (`store.dfy`). The class `EStore` holds one map from addresses to four-symbol lines and updates it in place.
  - `set` writes a value of up to eight symbols, four symbols per line, at consecutive addresses. Addresses wrap round after 1023.
  - `get` reads consecutive lines. A line that was never seen is first filled with `////`, and that line stays in the store.
  - `valid` checks the length of a field and that every symbol is in the alphabet.
- **Machine** (`machine.dfy`). The classes `State` and `ReducedMachine` hold the registers A, C and S and the store.
  - `I` fetches the next instruction.
  - `applyInstruction` decodes S into an operand address (the low ten bits) and a function code (the next ten bits). It reads `s_data` and `s_pair_data`, then applies one of the ten functions.
  - `next` runs one fetch and one execution.
  - `run` repeats `next` until the step bound is reached, a cycle leaves C where it was (a halting loop), or an instruction raises.

Each method is proved against a function on values:
- `Fetch` for `I`, `Execute` for `applyInstruction`, `Cycle` for `next`.
- `RunFrom` for `run`.
- `Materialize` and `ReadLines` for `get`.
- `StoreAll` and `Chunks` for `set`.

The lemmas state what those functions promise: round trips, the effect of each function code, store validity, the frame of every write, and the soundness of the halting-loop check.

Where the repository's own description and the code disagree, the model follows the code:

- `/S` writes `int_to_symbols(A, 8)`. Because `int_to_symbols` reduces modulo 2^20 first, the stored line holds A mod 2^20 and the line after it holds `////`. A store followed by a load therefore restores A mod 2^20, not A mod 2^40 (`WriteThenLoad`).
- `TI` and `TN` add and subtract `s_pair_data` without reducing the result modulo 2^40. A can become negative or reach 2^40 or more.
- `int_to_symbols` pads but never truncates. When the reduced value needs more symbols than asked for, the result is longer (`IntToSymbolsLength`), and `get` then fails its assert.
- The halting check compares C with its value before the fetch. A branch to its own address therefore does not stop `run` (`OwnAddressBranch`); only a branch to the address before its own does (`HaltingBranch`).

## Model

| member | source | states |
|---|---|---|
| Codec.FieldModuli | reducedmachine.py:29-39 | 32^2, 32^4 and 32^8 are 2^10, 2^20 and 2^40: the short field, line and accumulator moduli |
| Codec.SymbolsDistinct | reducedmachine.py:25-27 | the alphabet has 32 symbols and no symbol twice, so `symbols.index` is a bijection |
| Codec.IndexOfSymbol | reducedmachine.py:25-27 | the symbol at position k is in the alphabet and `symbols.index` gives back k |
| Codec.IntToSymbols | reducedmachine.py:43-51 | the encoding uses only alphabet symbols, has at least `size` symbols, and has exactly `size` when `size` is at least a line |
| Codec.IntToSymbolsLength | reducedmachine.py:43-51 | the encoding has exactly `size` symbols iff n mod 2^20 < 32^size; otherwise it is longer, never truncated |
| Codec.DigitsValue | reducedmachine.py:46-49 | the `divmod` loop emits a numeral whose value is the reduced n |
| Codec.DigitsLength | reducedmachine.py:46-49 | the loop emits at most k symbols iff the value is below 32^k |
| Codec.Digits | reducedmachine.py:46-49 | the loop emits no symbol for 0 and otherwise ends with a non-zero symbol: no trailing `/` |
| Codec.PadRight | reducedmachine.py:51 | `ljust` never truncates: the result has max(len(s), size) symbols |
| Codec.PadRightContents | reducedmachine.py:51 | `ljust` keeps s as the prefix and fills the rest with the zero symbol `/` |
| Codec.ZerosValue | reducedmachine.py:51 | padding with the zero symbol `/` keeps a numeral's value |
| Codec.IntToSymbolsRoundTrip | reducedmachine.py:43-62 | `symbols_to_int(int_to_symbols(n, size)) == n mod 2^20` for every n and size |
| Codec.SymbolsToIntRoundTrip | reducedmachine.py:43-62 | `int_to_symbols(symbols_to_int(s), len(s)) == s` for every numeral of at most four symbols |
| Codec.SymbolsToInt | reducedmachine.py:55-62 | the value of a numeral of k symbols is below 32^k |
| Codec.SymbolsToIntConcat | reducedmachine.py:55-62 | the positional sum: appending t adds t's value times 2^(5·len(s)) |
| Codec.SplitValue | reducedmachine.py:55-62 | a numeral is its low part plus its high part shifted by the low part's width |
| Codec.SymbolsEverywhere | reducedmachine.py:79-80 | "every character is in the alphabet" holds iff it holds at each position |
| Store.EStore.constructor | reducedmachine.py:67 | a new store holds no line and is valid |
| Store.EStore.IsValid | reducedmachine.py:76-81 | `valid(val, length)` is true exactly when len(val) <= length and every symbol is in the alphabet |
| Store.EStore.Set | reducedmachine.py:85-92 | fails with AssertionError and leaves the store unchanged unless the address has at most 2 alphabet symbols and the value at most 8; otherwise the store becomes StoreAll of the value's chunks and stays valid |
| Store.Chunks | reducedmachine.py:88 | `wrap(val, 4)` makes chunks of 1 to 4 symbols, all but the last exactly 4 |
| Store.StoreAll | reducedmachine.py:90-92 | the write loop keeps every address already present and adds the address of every chunk |
| Store.ChunksJoin | reducedmachine.py:88 | `wrap(val, 4)` loses no symbol: joining its chunks gives back val |
| Store.ChunkAt | reducedmachine.py:88 | chunk i is symbols 4i up to 4i+4 of val (the last one possibly shorter) |
| Store.ChunksCount | reducedmachine.py:88 | a value of n symbols makes ceil(n/4) chunks, none for the empty value |
| Store.StoreAllWritten | reducedmachine.py:90-92 | chunk i, padded with `/` to a full line, lands at address (loc + i) mod 1024 |
| Store.StoreAllOther | reducedmachine.py:90-92 | every address outside the written range keeps what it held, or stays absent |
| Store.StoreAllValid | reducedmachine.py:90-92 | writing numerals keeps every line of the store a complete four-symbol line |
| Store.AddrDistinct | reducedmachine.py:91 | fewer than 1024 consecutive wrapped addresses are distinct, so no chunk overwrites another |
| Store.KeyEncoding | reducedmachine.py:91 | the two-symbol dictionary key of an address decodes back to that address |
| Store.KeyDecoding | reducedmachine.py:110 | every two-symbol key is the key of the address it decodes to, so keying by address loses nothing |
| Store.EStore.Access | reducedmachine.py:108-115 | the read loop fills each unseen address with `////`, giving Materialize, and returns the lines in order, giving ReadLines |
| Store.Materialize | reducedmachine.py:112-113 | the fill keeps every line present, makes each of the n addresses present, and every added line is `////` |
| Store.AccessStep | reducedmachine.py:110-115 | one pass of the read loop extends the fill by one address, keeps the store valid, and appends that address's line to the text |
| Store.ReadLines | reducedmachine.py:108-115 | from a valid store the n lines read have exactly 4n symbols |
| Store.ReadLinesSymbols | reducedmachine.py:108-115 | from a valid store the text read is all alphabet symbols, so `symbols_to_int` accepts it |
| Store.MaterializeKeep | reducedmachine.py:112-113 | the fill keeps the store valid, adds exactly the addresses read, and changes no line's value |
| Store.MaterializeIdempotent | reducedmachine.py:112-113 | the fill is persisted: reading the same lines again changes nothing |
| Store.ReadLinesAt | reducedmachine.py:115 | line i of the returned text is the line held at address base + i |
| Store.EStore.GetText | reducedmachine.py:96-120 | for a symbolic address: succeeds exactly when every character is a symbol, the address has at most 2 symbols and lines >= 1; ValueError on an unknown symbol, AssertionError on an address longer than 2 symbols or lines < 1, and the store unchanged on either; otherwise the lines read |
| Store.EStore.GetInt | reducedmachine.py:96-120 | for an integer address: succeeds iff loc mod 2^20 < 1024 and lines >= 1, and the store is unchanged on failure; otherwise the decoded lines |
| Store.ReadOneValue | reducedmachine.py:117-118 | a one-line integer read returns the value of the line at the address |
| Store.ReadTwoValue | reducedmachine.py:117-118 | a two-line integer read returns the first line's value plus 2^20 times the second's |
| Store.LineValue | reducedmachine.py:117-118 | the integer value of one stored line is below 2^20 |
| Machine.State.constructor | reducedmachine.py:145-149 | the registers take the given values, with C defaulting to 1023 and S to 0 |
| Machine.FirstFetch | reducedmachine.py:145-149 | with the default C of 1023 the first fetch reads address 0 |
| Machine.ReducedMachine.constructor | reducedmachine.py:161-168 | the machine holds the state it is given |
| Machine.Fetch | reducedmachine.py:190-194 | the fetch keeps A, leaves C an address below 1024 that is now in the store, and on a valid store S is the value of the line now at C |
| Machine.ReducedMachine.I | reducedmachine.py:190-194 | the machine becomes Fetch of its old state: C steps to (C + 1) mod 1024 and S becomes the value of the line there, which is filled in if unseen |
| Machine.FetchKeep | reducedmachine.py:192-193 | the fetch keeps the store valid, adds only the line it reads, and changes no line's value |
| Machine.FetchMoves | reducedmachine.py:192 | the fetch always moves C |
| Machine.FetchAgrees | reducedmachine.py:192-193 | two states that agree on C, A and every line's value fetch the same S, with the same operand word |
| Machine.InstructionSplit | reducedmachine.py:200-202 | `line_pair` encodes S mod 1024 and `func_sym` encodes bits 10 to 19 of S |
| Machine.Instruction | reducedmachine.py:200 | `instr` is four alphabet symbols encoding S mod 2^20 |
| Machine.LinePair | reducedmachine.py:201 | `line_pair` is two alphabet symbols encoding S mod 1024, the operand address |
| Machine.FunctionCode | reducedmachine.py:202 | `func_sym` is two alphabet symbols encoding bits 10 to 19 of S |
| Machine.DecodeOp | reducedmachine.py:213-247 | a `func_sym` the case split recognises is that function's code |
| Machine.OpOf | reducedmachine.py:213-247 | a function read from S has its code's value in bits 10 to 19 of S |
| Machine.OpCodeDecodes | reducedmachine.py:213-243 | each of the ten codes selects its own branch of the case split |
| Machine.OpCodeValue | reducedmachine.py:213-243 | each code is a two-symbol numeral with the listed value (/H 640, /P 704, /S 160, T/ 16, T: 144, TI 208, TN 400, TF 432, TK 496, T£ 1008) |
| Machine.FunctionNumber | reducedmachine.py:202-243 | `func_sym` names a function iff bits 10 to 19 of S hold that function's value |
| Machine.DecodeAgrees | reducedmachine.py:202-247 | comparing `func_sym` with the ten strings selects the function OpOf reads from the bits of S |
| Machine.ReadsAgree | reducedmachine.py:203-204 | the two `get` calls return `s_data` and `s_pair_data` and leave the store as ReadOperands says |
| Machine.ReadOperandsKeep | reducedmachine.py:203-204 | the two reads keep the store valid, add the two lines read, and change no line's value |
| Machine.ReadOperands | reducedmachine.py:203-204 | `s_pair_data` is below 2^40 and its low 20 bits are `s_data` |
| Machine.OperandsAgree | reducedmachine.py:203-204 | `Word` and `Pair`, the s_data and s_pair_data the effect lemmas are stated with, are the values the two reads return |
| Machine.ReducedMachine.ApplyInstruction | reducedmachine.py:198-247 | the machine becomes Execute of its old state, and the returned signal is the error Execute raises, if any |
| Machine.ReducedMachine.Perform | reducedmachine.py:213-247 | after the reads, each branch of the case split (from T/ on by way of PerformAccumulator) updates the registers and store as Dispatch says for the decoded function |
| Machine.ReducedMachine.PerformAccumulator | reducedmachine.py:225-247 | the branches from T/ onwards, and the final else, update A or raise as Dispatch says |
| Machine.Dispatch | reducedmachine.py:213-247 | a raise leaves the registers as they were, with the store as the two reads left it |
| Machine.Execute | reducedmachine.py:198-247 | an instruction that raises changes none of A, C and S |
| Machine.Message | reducedmachine.py:238-247 | the unknown-instruction message carries `instr` at characters 12 to 15, which decodes to S mod 2^20 |
| Machine.DispatchFaults | reducedmachine.py:237-247 | only TF and an unknown code raise: TF with Unimplemented, an unknown code with NoSuchInstruction(S) |
| Machine.ExecuteFaults | reducedmachine.py:237-247 | an instruction raises iff it is TF or unknown, with the messages "TF currently unimplemented" and "Instruction <instr> does not exist!" |
| Machine.DispatchControl | reducedmachine.py:213-218 | /P sets C to `s_data` mod 1024; /H does so unless 2^39 <= A < 2^40; every other function keeps C |
| Machine.ExecuteControl | reducedmachine.py:213-218 | the same, for the instruction in S with `s_data` read from the store |
| Machine.DispatchAccumulator | reducedmachine.py:225-244 | T/ loads `s_pair_data`, T: clears, TI adds, TN subtracts, TK doubles mod 2^40, and the other functions keep A |
| Machine.ExecuteAccumulator | reducedmachine.py:225-244 | the same, for the instruction in S, with `s_pair_data` the two lines at the operand address |
| Machine.DispatchInstruction | reducedmachine.py:220-221 | /S sets S to A mod 2^20; every other function keeps S |
| Machine.ExecuteInstruction | reducedmachine.py:220-221 | every function but /S keeps S and the value of every line; /S sets S to A mod 2^20 |
| Machine.DispatchMemory | reducedmachine.py:203-222 | only /S changes the store beyond the two reads |
| Machine.WriteAccumulator | reducedmachine.py:220-222 | /S adds exactly the operand address and the next one to the store, leaves `////` at the second, and keeps every other line |
| Machine.ExecuteKeep | reducedmachine.py:203-222 | an instruction keeps the store valid and adds exactly the two lines it reads |
| Machine.AccumulatorLines | reducedmachine.py:210-222 | `acc_symbols` wraps into two lines: A mod 2^20, then `////` |
| Machine.WriteLines | reducedmachine.py:222 | `set(line_pair, acc_symbols)` writes those two lines at the operand address and the next one |
| Machine.WriteAccumulatorEffect | reducedmachine.py:220-222 | after /S the store is valid and holds A mod 2^20 at the operand address |
| Machine.WriteEffect | reducedmachine.py:220-222 | the same, for the instruction in S after its reads |
| Machine.WriteThenLoad | reducedmachine.py:220-226 | after /S, the two lines a T/ from the same address reads hold A mod 2^20 |
| Machine.ReducedMachine.Next | reducedmachine.py:253-255 | the machine becomes Cycle (fetch, then execute) of its old state |
| Machine.Cycle | reducedmachine.py:253-255 | a cycle that raises still leaves C at the fetched address and keeps A |
| Machine.CycleValid | reducedmachine.py:253-255 | a cycle keeps the store valid |
| Machine.RunStep | reducedmachine.py:265-280 | one turn of the loop: a raise ends run, an unchanged C ends it as a halting loop, otherwise the loop goes on from the new state with n + 1 |
| Machine.RunFrom | reducedmachine.py:259-282 | run ends on a halting loop or a raise only after beginning at least one cycle |
| Machine.ReducedMachine.Advance | reducedmachine.py:273-280 | one turn of run's loop body moves the machine along RunFrom |
| Machine.ReducedMachine.Run | reducedmachine.py:259-282 | the final state, the way the loop ended and the number of cycles begun are those of RunFrom(Cycle, old state, steps, 0, fuel); steps defaults to -1, as in the source |
| Machine.RunBounded | reducedmachine.py:264-280 | run begins at most `steps` cycles for positive steps, none for negative steps, and at most `fuel` when steps is 0 |
| Machine.RunOutcome | reducedmachine.py:264-280 | run finishes normally only after exactly `steps` cycles; with steps 0 it stops only on a halting loop, a raise, or the fuel bound |
| Machine.HaltingBranch | reducedmachine.py:273-278 | a cycle that completes with C unchanged executed /P or /H with the branch taken to the address before the instruction's own, and kept A, the fetched S and every line's value |
| Machine.HaltingIsLoop | reducedmachine.py:273-278 | the halting check is sound: the cycle after a halting one would again complete, leave C where it was, and keep A and S |
| Machine.OwnAddressBranch | reducedmachine.py:273-278 | a /P whose target is its own address moves C, so it does not end run |

## Left out

- The command line and argument parsing (lines 285 onwards), `EStore.init` and `EStore.load`: file input is not part of this model.
- `EStore.dump`, the `memdump` file and every print (`printv`, `printn`, `printq`, "Halting loop detected.", "HALT"): output only.
- The `n` argument of `applyInstruction` and `next` is used only in the printed trace, so the model drops it. The same goes for the `verbose`, `quiet` and `memdump` arguments of the `ReducedMachine` constructor and its `isinstance` asserts, whose checks Dafny's types make.
- Floating point: the source computes with `math.pow`, so several intermediate values are floats. The model uses exact integers.
  - The two agree while values stay below 2^53.
  - In the machine's own calls (the fetch, the two operand reads, the /S write) only A can pass that bound, since TI and TN never reduce it. There the source's float arithmetic would round, also when `int_to_symbols(A, 8)` reduces A modulo 2^20.
- Store.EStore.GetInt: the model is exact for every input. The source rounds where its floats pass 2^53. A read of three or more lines sums 12 or more symbols as floats at lines 58-62 and rounds above 2^53; from 52 lines on, `math.pow(2, 1025)` raises OverflowError where the model returns `Ok`. An address of 2^53 or more is turned into a float at line 44 and line 110 and may land on a different line. The machine itself reads at most two lines, from addresses below 1024.
- Store.EStore.GetText: an address of 206 or more alphabet symbols makes `symbols_to_int` raise OverflowError at line 103 in the source, before the assert at line 105; the model returns `Err(AssertionError)`.
- Codec.IntToSymbols: the model reduces every n exactly modulo 2^20, so `IntToSymbolsRoundTrip` holds for every n. The source's `n % math.pow(2, linesize)` at line 44 is float arithmetic and rounds for n of 2^53 or more.
- `get` with a non-integral float address. Every `get` inside the machine passes a float with an integral value (C at line 192, `S % max_short_line_size` at lines 203-204); `GetInt` takes that same integer value. Only a fractional float address, which the machine never produces, is not modelled.
- The source's `memory` is a class attribute, so every `EStore` shares one dictionary. The model gives each store its own map and treats one store as the whole memory.
- The source keys the store by two-symbol strings; the model keys it by the address (0 to 1023). `KeyEncoding` and `KeyDecoding` show the two keyings correspond one to one.
- Python exceptions become values:
  - `Set`, `GetText` and `GetInt` return `Err(AssertionError)` or `Err(ValueError)` where the source raises. They leave the store as it was when the source raises before its first write.
  - `applyInstruction` returns `InvalidInstructionError(fault)` instead of raising. The changes made before the raise (the fetch and the two reads) are kept. `Message` gives the exception's text.
- Machine.ReducedMachine.Run: with `steps == 0` the source loops without bound. The model stops after `fuel` cycles with the outcome `OutOfFuel`. It returns how the loop ended and the number of cycles begun instead of printing.
- Machine.ReducedMachine.ApplyInstruction: the case split is the separate method `Perform`, called after the decode and the two reads; `Perform` hands the branches from T/ onwards to `PerformAccumulator`.
- Store.LineValue: an address the store does not hold counts as zero. The model never reads such an address before filling it in, and a valid store holds only complete lines.
