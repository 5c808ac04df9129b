/**
 * The electronic store of the Reduced Machine.
 *
 * The store maps two-symbol addresses to four-symbol lines. It holds only the
 * lines that have been written or read: reading an address for the first time
 * fills it with the blank line "////", and that line stays in the store.
 */
module Store {

  import Arith
  import opened Codec

  /** The Python exceptions the store raises: a failed assert, or list.index on an unknown symbol. */
  datatype Error = AssertionError | ValueError

  datatype Result<T> = Ok(value: T) | Err(error: Error)

  /** The line a never-written address reads as. */
  const Blank: string := "////"

  /** At most length symbols, all from the alphabet: what EStore.valid accepts. */
  predicate WellFormed(val: string, length: int) {
    |val| <= length && IsSymbols(val)
  }

  /** A complete line of the store. */
  predicate IsLine(v: string) {
    |v| == LineSymbols && IsSymbols(v)
  }

  /**
   * Every line held by the store is complete, at an address below 1024.
   * The store is keyed by the address itself; the source keys its dictionary
   * by the address's two-symbol encoding, which KeyOf gives.
   */
  predicate ValidMemory(m: map<int, string>) {
    forall a | a in m :: 0 <= a < 1024 && IsLine(m[a])
  }

  /** The address of the i-th line from base, wrapping round after 1023. */
  function Addr(base: int, i: int): (a: int)
    ensures 0 <= a < 1024
  {
    (base + i) % 1024
  }

  /** The source's dictionary key for address a. */
  function KeyOf(a: int): string
    requires 0 <= a < 1024
  {
    IntToSymbols(a, ShortSymbols)
  }

  /** The key of an address is a two-symbol numeral whose value is the address. */
  lemma KeyEncoding(a: int)
    requires 0 <= a < 1024
    ensures IsSymbols(KeyOf(a)) && |KeyOf(a)| == ShortSymbols
    ensures SymbolsToInt(KeyOf(a)) == a
  {
    FieldModuli();
    Arith.SmallMod(a, LineModulus);
    IntToSymbolsLength(a, ShortSymbols);
    IntToSymbolsRoundTrip(a, ShortSymbols);
  }

  /** Every two-symbol numeral is the key of the address it encodes. */
  lemma KeyDecoding(k: string)
    requires IsSymbols(k) && |k| == ShortSymbols
    ensures 0 <= SymbolsToInt(k) < 1024
    ensures KeyOf(SymbolsToInt(k)) == k
  {
    FieldModuli();
    SymbolsToIntRoundTrip(k);
  }

  /** Fewer than 1024 consecutive addresses are distinct. */
  lemma AddrDistinct(base: int, i: int, j: int)
    requires 0 <= i < j < 1024
    ensures Addr(base, i) != Addr(base, j)
  {
    Arith.DistinctResidues(base, i, j, 1024);
  }

  /** The concatenation of a sequence of strings. */
  function Join(r: seq<string>): string {
    if r == [] then [] else r[0] + Join(r[1..])
  }

  /**
   * textwrap.wrap(val, 4): val cut into lines of four symbols, the last one
   * possibly shorter; the empty string gives no line at all. (The alphabet
   * holds no blank or hyphen, so wrap never breaks anywhere else.)
   */
  function Chunks(val: string): (r: seq<string>)
    ensures forall i | 0 <= i < |r| :: 0 < |r[i]| <= 4
    ensures forall i | 0 <= i < |r| - 1 :: |r[i]| == 4
    decreases |val|
  {
    if val == [] then []
    else if |val| <= 4 then [val]
    else [val[..4]] + Chunks(val[4..])
  }

  /** Joining the chunks gives back the value: wrap loses no symbol. */
  lemma {:induction false} ChunksJoin(val: string)
    ensures Join(Chunks(val)) == val
    decreases |val|
  {
    if |val| > 4 {
      var r := Chunks(val);
      ChunksJoin(val[4..]);
      assert r[1..] == Chunks(val[4..]);
      assert val == val[..4] + val[4..];
    } else if val != [] {
      assert Join([val]) == val + Join([]);
    }
  }

  /** The i-th chunk is the i-th group of four symbols. */
  lemma {:induction false} ChunkAt(val: string, i: nat)
    requires i < |Chunks(val)|
    ensures 4 * i < |val|
    ensures Chunks(val)[i] == val[4 * i .. if 4 * i + 4 <= |val| then 4 * i + 4 else |val|]
  {
    if |val| > 4 && i > 0 {
      ChunkAt(val[4..], i - 1);
      assert Chunks(val)[i] == Chunks(val[4..])[i - 1];
    }
  }

  /** A value of n symbols makes ceil(n / 4) lines. */
  lemma {:induction false} ChunksCount(val: string)
    ensures |Chunks(val)| == (|val| + 3) / 4
  {
    if |val| > 4 {
      ChunksCount(val[4..]);
    }
  }

  /** The chunks of a numeral are numerals. */
  lemma ChunksSymbols(val: string, i: nat)
    requires IsSymbols(val) && i < |Chunks(val)|
    ensures IsSymbols(Chunks(val)[i])
  {
    ChunkAt(val, i);
    SymbolsOfSlice(val, 4 * i, if 4 * i + 4 <= |val| then 4 * i + 4 else |val|);
  }

  /** A chunk padded to a full line. */
  function PadLine(chunk: string): (line: string)
    requires |chunk| <= 4
    ensures |line| == 4
    ensures line[..|chunk|] == chunk
  {
    PadRight(chunk, 4)
  }

  lemma PadLineIsLine(chunk: string)
    requires |chunk| <= 4 && IsSymbols(chunk)
    ensures IsLine(PadLine(chunk))
  {
    PadRightSymbols(chunk, 4);
  }

  /**
   * The store after writing chunk i, padded to a full line, at the key of
   * base + i, for every i in order.
   */
  function StoreAll(m: map<int, string>, base: int, chunks: seq<string>): (r: map<int, string>)
    requires forall i | 0 <= i < |chunks| :: |chunks[i]| <= 4
    ensures forall k | k in m :: k in r
    ensures forall i | 0 <= i < |chunks| :: Addr(base, i) in r
    decreases |chunks|
  {
    if chunks == [] then m
    else
      var n := |chunks| - 1;
      StoreAll(m, base, chunks[..n])[Addr(base, n) := PadLine(chunks[n])]
  }

  /** Writing two chunks puts the first, padded, at base and the second after it. */
  lemma StoreTwo(m: map<int, string>, base: int, first: string, second: string)
    requires |first| <= 4 && |second| <= 4
    ensures StoreAll(m, base, [first, second])
            == m[Addr(base, 0) := PadLine(first)][Addr(base, 1) := PadLine(second)]
  {
    var chunks := [first, second];
    assert chunks[..1] == [first] && chunks[..1][..0] == [];
    assert StoreAll(m, base, [first]) == StoreAll(m, base, [])[Addr(base, 0) := PadLine(first)];
  }

  /** Writing numerals keeps every line of the store complete. */
  lemma {:induction false} StoreAllValid(m: map<int, string>, base: int, chunks: seq<string>)
    requires ValidMemory(m)
    requires forall i | 0 <= i < |chunks| :: |chunks[i]| <= 4 && IsSymbols(chunks[i])
    ensures ValidMemory(StoreAll(m, base, chunks))
    decreases |chunks|
  {
    if chunks != [] {
      StoreAllValid(m, base, chunks[..|chunks| - 1]);
      PadLineIsLine(chunks[|chunks| - 1]);
    }
  }

  /** Chunk i of at most 1024 lands, padded, at the key of base + i. */
  lemma {:induction false} StoreAllWritten(m: map<int, string>, base: int, chunks: seq<string>, i: nat)
    requires |chunks| <= 1024 && i < |chunks|
    requires forall j | 0 <= j < |chunks| :: |chunks[j]| <= 4
    ensures Addr(base, i) in StoreAll(m, base, chunks)
    ensures StoreAll(m, base, chunks)[Addr(base, i)] == PadLine(chunks[i])
    decreases |chunks|
  {
    var n := |chunks| - 1;
    if i < n {
      StoreAllWritten(m, base, chunks[..n], i);
      AddrDistinct(base, i, n);
    }
  }

  /** An address outside the written range keeps what it held, or stays absent. */
  lemma {:induction false} StoreAllOther(m: map<int, string>, base: int, chunks: seq<string>, a: int)
    requires forall j | 0 <= j < |chunks| :: |chunks[j]| <= 4
    requires forall j | 0 <= j < |chunks| :: Addr(base, j) != a
    ensures a in StoreAll(m, base, chunks) <==> a in m
    ensures a in m ==> StoreAll(m, base, chunks)[a] == m[a]
    decreases |chunks|
  {
    if chunks != [] {
      StoreAllOther(m, base, chunks[..|chunks| - 1], a);
    }
  }

  /**
   * The store after a read of n lines from base: every address read that the
   * store did not hold now holds the blank line, and nothing else changes.
   */
  function Materialize(m: map<int, string>, base: int, n: nat): (r: map<int, string>)
    ensures forall k | k in m :: k in r && r[k] == m[k]
    ensures forall i | 0 <= i < n :: Addr(base, i) in r
    ensures forall k | k in r && k !in m :: r[k] == Blank
  {
    if n == 0 then m
    else
      var p := Materialize(m, base, n - 1);
      var k := Addr(base, n - 1);
      if k in p then p else p[k := Blank]
  }

  lemma BlankIsLine()
    ensures IsLine(Blank)
  {
    IndexOfSymbol(0);
  }

  /** Writing a complete line at an address below 1024 keeps the store valid. */
  lemma WriteLineValid(m: map<int, string>, a: int, line: string)
    requires ValidMemory(m) && 0 <= a < 1024 && IsLine(line)
    ensures ValidMemory(m[a := line])
  {
  }

  /** Filling in blank lines keeps every line of the store complete. */
  lemma MaterializeValid(m: map<int, string>, base: int, n: nat)
    requires ValidMemory(m)
    ensures ValidMemory(Materialize(m, base, n))
  {
    BlankIsLine();
  }

  /** A read adds no address other than those it reads. */
  lemma {:induction false} MaterializeOnly(m: map<int, string>, base: int, n: nat, a: int)
    requires forall i | 0 <= i < n :: Addr(base, i) != a
    ensures a in Materialize(m, base, n) <==> a in m
  {
    if n > 0 {
      MaterializeOnly(m, base, n - 1, a);
    }
  }

  /** A read fills the store only once: reading the same lines again changes nothing. */
  lemma MaterializeIdempotent(m: map<int, string>, base: int, n: nat)
    ensures Materialize(Materialize(m, base, n), base, n) == Materialize(m, base, n)
  {
    var once := Materialize(m, base, n);
    var twice := Materialize(once, base, n);
    forall a | a in twice
      ensures a in once
    {
      if a !in once {
        MaterializeOnly(once, base, n, a);
        assert false;
      }
    }
    assert twice.Keys == once.Keys;
  }

  /** The n lines from base, in address order: four symbols per line from a valid store. */
  function ReadLines(m: map<int, string>, base: int, n: nat): (r: string)
    requires forall i | 0 <= i < n :: Addr(base, i) in m
    ensures ValidMemory(m) ==> |r| == 4 * n
  {
    if n == 0 then [] else ReadLines(m, base, n - 1) + m[Addr(base, n - 1)]
  }

  /** A read from a valid store is all symbols of the alphabet. */
  lemma {:induction false} ReadLinesSymbols(m: map<int, string>, base: int, n: nat)
    requires ValidMemory(m)
    requires forall i | 0 <= i < n :: Addr(base, i) in m
    ensures IsSymbols(ReadLines(m, base, n))
  {
    if n > 0 {
      ReadLinesSymbols(m, base, n - 1);
      SymbolsOfConcat(ReadLines(m, base, n - 1), m[Addr(base, n - 1)]);
    }
  }

  /** One pass of get's loop: the line at base + i is added if unseen, then read. */
  lemma AccessStep(m: map<int, string>, mem: map<int, string>, base: int, i: nat)
    requires ValidMemory(m) && mem == Materialize(m, base, i)
    ensures var key := Addr(base, i);
            var next := if key in mem then mem else mem[key := Blank];
            next == Materialize(m, base, i + 1) && ValidMemory(next) &&
            ReadLines(next, base, i + 1) == ReadLines(mem, base, i) + next[key]
  {
    ReadStep(m, base, i);
    MaterializeValid(m, base, i + 1);
  }

  /** Line i of a read is the line held at the key of base + i. */
  lemma {:induction false} ReadLinesAt(m: map<int, string>, base: int, n: nat, i: nat)
    requires ValidMemory(m) && i < n
    requires forall j | 0 <= j < n :: Addr(base, j) in m
    ensures |ReadLines(m, base, n)| == 4 * n
    ensures ReadLines(m, base, n)[4 * i .. 4 * i + 4] == m[Addr(base, i)]
  {
    var p, line := ReadLines(m, base, n - 1), m[Addr(base, n - 1)];
    assert |line| == 4 by { assert IsLine(m[Addr(base, n - 1)]); }
    assert ReadLines(m, base, n) == p + line;
    if i < n - 1 {
      ReadLinesAt(m, base, n - 1, i);
      SliceOfConcat(p, line, 4 * i, 4 * i + 4);
    } else {
      SliceOfConcat(p, line, |p|, |p| + 4);
    }
  }

  /** A slice of p + q that lies within p, or is exactly q. */
  lemma SliceOfConcat(p: string, q: string, lo: nat, hi: nat)
    requires lo <= hi <= |p| || (lo == |p| && hi == |p| + |q|)
    ensures hi <= |p| ==> (p + q)[lo..hi] == p[lo..hi]
    ensures lo == |p| && hi == |p| + |q| ==> (p + q)[lo..hi] == q
  {
  }

  /** A read sees only the lines it reads: a store that agrees on them reads the same. */
  lemma {:induction false} ReadLinesFrame(m: map<int, string>, m': map<int, string>, base: int, n: nat)
    requires forall i | 0 <= i < n :: Addr(base, i) in m && Addr(base, i) in m' && m'[Addr(base, i)] == m[Addr(base, i)]
    ensures ReadLines(m', base, n) == ReadLines(m, base, n)
  {
    if n > 0 {
      ReadLinesFrame(m, m', base, n - 1);
    }
  }

  /** Reading one more line appends the line at the next address, blank if it was unseen. */
  lemma ReadStep(m: map<int, string>, base: int, i: nat)
    ensures ReadLines(Materialize(m, base, i + 1), base, i + 1)
            == ReadLines(Materialize(m, base, i), base, i) + Materialize(m, base, i + 1)[Addr(base, i)]
  {
    var before, after := Materialize(m, base, i), Materialize(m, base, i + 1);
    assert ReadLines(after, base, i) == ReadLines(before, base, i) by {
      assert forall j | 0 <= j < i :: Addr(base, j) in before && Addr(base, j) in after && after[Addr(base, j)] == before[Addr(base, j)];
      ReadLinesFrame(before, after, base, i);
    }
  }

  /**
   * The value of the line at address a, an address never written counting as
   * zero. A valid store holds only lines of symbols, so the last case does not
   * arise there.
   */
  function LineValue(m: map<int, string>, a: int): (v: nat)
    ensures v < LineModulus
  {
    FieldModuli();
    if Addr(a, 0) in m && IsLine(m[Addr(a, 0)]) then SymbolsToInt(m[Addr(a, 0)]) else 0
  }

  /** Filling in blank lines changes the value of no line. */
  lemma MaterializeValue(m: map<int, string>, base: int, n: nat, a: int)
    requires ValidMemory(m)
    ensures ValidMemory(Materialize(m, base, n))
    ensures LineValue(Materialize(m, base, n), a) == LineValue(m, a)
  {
    MaterializeValid(m, base, n);
    var r := Materialize(m, base, n);
    if Addr(a, 0) in r && Addr(a, 0) !in m {
      assert r[Addr(a, 0)] == Zeros(4);
      ZerosAreZero(4);
    }
  }

  /** A read changes the value of no line and adds exactly the addresses it reads. */
  lemma MaterializeKeep(m: map<int, string>, base: int, n: nat)
    requires ValidMemory(m)
    ensures ValidMemory(Materialize(m, base, n))
    ensures Materialize(m, base, n).Keys == m.Keys + (set i | 0 <= i < n :: Addr(base, i))
    ensures forall x :: LineValue(Materialize(m, base, n), x) == LineValue(m, x)
  {
    var r := Materialize(m, base, n);
    MaterializeValid(m, base, n);
    forall x
      ensures LineValue(r, x) == LineValue(m, x)
    {
      MaterializeValue(m, base, n, x);
    }
    forall a | a in r && a !in m
      ensures exists i | 0 <= i < n :: Addr(base, i) == a
    {
      if forall i | 0 <= i < n :: Addr(base, i) != a {
        MaterializeOnly(m, base, n, a);
        assert false;
      }
    }
  }

  /** A one-line read in int mode gives the value of that line. */
  lemma ReadOneValue(m: map<int, string>, a: int)
    requires ValidMemory(m)
    ensures ValidMemory(Materialize(m, a, 1))
    ensures IsSymbols(ReadLines(Materialize(m, a, 1), a, 1))
    ensures SymbolsToInt(ReadLines(Materialize(m, a, 1), a, 1)) == LineValue(m, a)
  {
    var r := Materialize(m, a, 1);
    MaterializeValue(m, a, 1, a);
    assert ReadLines(r, a, 1) == [] + r[Addr(a, 0)];
    assert ReadLines(r, a, 1) == r[Addr(a, 0)];
  }

  /**
   * A two-line read in int mode gives the first line's value plus 2^20 times
   * the second's: the second line holds the high bits.
   */
  lemma ReadTwoValue(m: map<int, string>, a: int)
    requires ValidMemory(m)
    ensures ValidMemory(Materialize(m, a, 2))
    ensures IsSymbols(ReadLines(Materialize(m, a, 2), a, 2))
    ensures SymbolsToInt(ReadLines(Materialize(m, a, 2), a, 2))
            == LineValue(m, a) + LineModulus * LineValue(m, a + 1)
  {
    var r := Materialize(m, a, 2);
    MaterializeValid(m, a, 2);
    var lo, hi := r[Addr(a, 0)], r[Addr(a, 1)];
    assert ReadLines(r, a, 2) == lo + hi by {
      assert ReadLines(r, a, 1) == [] + lo;
    }
    assert SymbolsToInt(lo) == LineValue(m, a) by {
      MaterializeValue(m, a, 2, a);
    }
    assert SymbolsToInt(hi) == LineValue(m, a + 1) by {
      MaterializeValue(m, a, 2, a + 1);
    }
    SymbolsToIntConcat(lo, hi);
    FieldModuli();
  }

  /** The electronic store: one map from addresses to lines, updated in place. */
  class EStore {

    var memory: map<int, string>

    ghost predicate Valid()
      reads this
    {
      ValidMemory(memory)
    }

    /** Each store owns its map (the source's class-level dict is shared; see README). */
    constructor ()
      ensures Valid() && memory == map[]
    {
      memory := map[];
    }

    /** valid: val has at most length symbols, every one of them from the alphabet. */
    method IsValid(val: string, length: int) returns (correct: bool)
      ensures correct == WellFormed(val, length)
    {
      correct := |val| <= length;
      if correct {
        for i := 0 to |val|
          invariant correct == forall j | 0 <= j < i :: IsSymbol(val[j])
        {
          correct := correct && IsSymbol(val[i]);
        }
        SymbolsEverywhere(val);
      }
    }

    /**
     * set: after checking the address (at most 2 symbols) and the value (at
     * most 8), writes the value's lines at consecutive addresses, wrapping
     * round after address 1023. A check that fails raises before any write.
     */
    method Set(loc: string, val: string) returns (r: Result<()>)
      requires Valid()
      modifies this
      ensures Valid()
      ensures r == if WellFormed(loc, ShortSymbols) && WellFormed(val, 2 * LineSymbols)
                   then Ok(()) else Err(AssertionError)
      ensures memory == if r.Ok? then StoreAll(old(memory), SymbolsToInt(loc), Chunks(val))
                        else old(memory)
    {
      var ok := IsValid(loc, ShortSymbols);
      if !ok {
        return Err(AssertionError);
      }
      ok := IsValid(val, 2 * LineSymbols);
      if !ok {
        return Err(AssertionError);
      }
      var lines := Chunks(val);
      var locInt := SymbolsToInt(loc);
      for i := 0 to |lines|
        invariant memory == StoreAll(old(memory), locInt, lines[..i])
      {
        assert lines[..i + 1][..i] == lines[..i];
        memory := memory[Addr(locInt, i) := PadLine(lines[i])];
      }
      assert lines[..|lines|] == lines;
      forall i | 0 <= i < |lines|
        ensures |lines[i]| <= 4 && IsSymbols(lines[i])
      {
        ChunksSymbols(val, i);
      }
      StoreAllValid(old(memory), locInt, lines);
      return Ok(());
    }

    /**
     * The loop shared by both forms of get: fills every unseen address of the
     * n lines from base with the blank line and concatenates the lines.
     */
    method Access(base: int, n: nat) returns (output: string)
      requires Valid()
      modifies this
      ensures Valid()
      ensures memory == Materialize(old(memory), base, n)
      ensures output == ReadLines(memory, base, n)
    {
      output := "";
      for i := 0 to n
        invariant Valid()
        invariant memory == Materialize(old(memory), base, i)
        invariant output == ReadLines(memory, base, i)
      {
        var key := Addr(base, i);
        AccessStep(old(memory), memory, base, i);
        if key !in memory {
          memory := memory[key := Blank];
        }
        output := output + memory[key];
      }
    }

    /**
     * get with a symbolic address: the n lines from loc as one string.
     * An unknown symbol in loc raises ValueError (from symbols_to_int), then
     * an address longer than 2 symbols or fewer than one line fails an assert.
     */
    method GetText(loc: string, lines: int := 1) returns (r: Result<string>)
      requires Valid()
      modifies this
      ensures Valid()
      ensures r.Ok? <==> IsSymbols(loc) && |loc| <= ShortSymbols && lines >= 1
      ensures !IsSymbols(loc) ==> r == Err(ValueError)
      ensures IsSymbols(loc) && !(|loc| <= ShortSymbols && lines >= 1) ==> r == Err(AssertionError)
      ensures r.Err? ==> memory == old(memory)
      ensures r.Ok? ==> IsSymbols(loc) && |loc| <= ShortSymbols && lines >= 1 &&
                        memory == Materialize(old(memory), SymbolsToInt(loc), lines) &&
                        r.value == ReadLines(memory, SymbolsToInt(loc), lines)
    {
      if !IsSymbols(loc) {
        return Err(ValueError);
      }
      var locInt := SymbolsToInt(loc);
      var ok := IsValid(loc, ShortSymbols);
      if !ok || lines < 1 {
        return Err(AssertionError);
      }
      var output := Access(locInt, lines);
      return Ok(output);
    }

    /**
     * get with an integer address: the n lines from loc, decoded as one
     * number. The address must encode in 2 symbols, that is loc mod 2^20 must
     * be below 1024, and at least one line must be read.
     */
    method GetInt(loc: int, lines: int := 1) returns (r: Result<nat>)
      requires Valid()
      modifies this
      ensures Valid()
      ensures r.Ok? <==> loc % LineModulus < ShortModulus && lines >= 1
      ensures r.Err? ==> r.error == AssertionError && memory == old(memory)
      ensures r.Ok? ==> memory == Materialize(old(memory), loc, lines) &&
                        IsSymbols(ReadLines(memory, loc, lines)) &&
                        r.value == SymbolsToInt(ReadLines(memory, loc, lines))
    {
      var locSymbols := IntToSymbols(loc, ShortSymbols);
      var ok := IsValid(locSymbols, ShortSymbols);
      IntToSymbolsLength(loc, ShortSymbols);
      FieldModuli();
      if !ok || lines < 1 {
        return Err(AssertionError);
      }
      var output := Access(loc, lines);
      ReadLinesSymbols(memory, loc, lines);
      return Ok(SymbolsToInt(output));
    }
  }
}
