# rsfunge execution engine in Dafny

This project models the execution engine of rsfunge (`src/funge.rs`), an
interpreter for a Befunge-93-style two-dimensional stack language, and
proves properties of that model. The modelled parts are:

- **Decoder.** `Instruction::from_raw` maps a cell value and the string-mode
  flag to one instruction.
- **Arithmetic kernels.** The `ops` functions compute on 64-bit `usize` values.
- **Operand stack.** `Stack` is a LIFO: `pop` on an empty stack returns 0,
  and it has `dupe`, `swap` and an n-ary `apply`.
- **Program grid.** `Space` is built from the source text and padded with
  blanks (32). `get` wraps its coordinates and `set` does not.
- **Instruction pointer.** `Location` takes a unit step with `go` and wraps
  back into the grid with `constrain`.
- **VM.** `Vm` runs one tick as decode, execute, and advance unless stopped.
  `run_for` ticks until the machine stops or a tick limit is reached.

The model follows the code's own form:

- The decoder, the kernels and the semantics of one tick are functions.
- `Stack`, `Space`, `Location` and `Vm` are classes whose methods change their
  fields. Each method is proved against those functions.
- `Stack::apply`, `Space::new` and `run_for` keep their loops.

Module layout:

- `Ints` holds the machine integers: `usize`, `i64`, the casts between them,
  Rust's truncating `%`, and `as u8`.
- `Text` holds the pieces of Rust's standard library that the engine uses:
  `str::lines` and `str::len`, which the grid builder uses, and the decimal
  formatting that `.` prints with.
- `Runs` holds the run of a step function, independent of the VM: the outcome
  after k steps, and the trace handed to the observer.
- `Engine` defines the abstract machine state `State`, one tick (`Execute`,
  `Advance`, `Step`), and the `Vm` class. `Vm.Abs()` ties the class to the
  abstract state.

Every integer is unbounded in Dafny. Where `src/funge.rs` would panic in a
debug build, the model makes the panic a precondition:

- `usize` overflow or underflow in an operator;
- division or remainder by zero;
- an index outside a `Vec`;
- `i64` overflow in location arithmetic.

`Engine.Safe` collects these for one tick.

Where the code and the language's usual description differ, the model follows
the code:

- A fresh VM is at (0, 0) heading **West** (`Engine.Init`).
- `swap` pops two values and pushes them back in the order they had. A stack
  of two or more items is therefore unchanged (`Stacks.SwapAsWritten`).
- `apply` puts the first value popped, the top of the stack, into
  `terms[0]`, the left operand. So `-` on `... a b` (b on top) pushes
  `b - a`, `/` pushes `b / a`, and `` ` `` pushes 1 iff `b > a`
  (`Engine.BinaryComputes`).
- Because of the West start, the program `"94+.@"` does not print 13.
  This is read from the code (src/funge.rs:371-372, 347, 439-441); no lemma
  states the two-tick run:
  - The first tick reads `9` at column 0. `Examples.AddLayout` proves the
    start state.
  - The pointer then wraps West to the `@` in the last column. The general
    facts are `Engine.StepMoves` and `Grid.WrapMinusOne`.
  - The second tick stops the machine, so `run_for` counts one tick, not four.

## Model

| member | source | states |
|---|---|---|
| Ints.UsizeToI64 | src/funge.rs:501 | `x as i64` on a `usize`: an `i64`, equal to x or x - 2^64, non-negative exactly when x fits in `i64` |
| Ints.I64ToUsize | src/funge.rs:280 | `v as usize` on an `i64`: a `usize`, equal to v or v + 2^64, at most `i64::MAX` exactly when v is non-negative |
| Ints.CastRoundTrip | src/funge.rs:499-502 | a popped `usize` cast to `i64` and back (as `set` does with `p`'s coordinates) is the value popped |
| Ints.Rem | src/funge.rs:347-348 | Rust's `%` on `i64`: the dividend is the quotient truncated toward zero times b plus the remainder, which lies in [0, b) for a non-negative dividend and in (-b, 0] for a negative one |
| Ints.RemSmall | src/funge.rs:347-348 | a dividend of smaller size than the divisor is its own remainder |
| Ints.SmallMod | src/funge.rs:347-348 | proof helper for `RemSmall`: a natural below the divisor is its own Euclidean remainder |
| Ints.LowByte | src/funge.rs:55 | `as u8`: a value below 256 that differs from the input by a multiple of 256 |
| Code.FromRaw | src/funge.rs:53-94 | decoding never pushes more than the cell holds |
| Code.StringModeDecoding | src/funge.rs:54-58 | in string mode, a cell decodes to StringMode iff its low byte is `"`; every other cell pushes its low byte, which is below 256 |
| Code.DigitDecoding | src/funge.rs:89-91 | outside string mode, a cell whose low byte is `'0'`..`'9'` pushes that digit's value, 0..9 |
| Code.TableDecoding | src/funge.rs:61-88 | outside string mode, the decoder agrees with the instruction table in both directions: a tabulated low byte gives its instruction, and every instruction other than a push comes from a tabulated low byte |
| Code.FallbackDecoding | src/funge.rs:92 | outside string mode, a cell that is neither tabulated nor a digit pushes its whole raw value |
| Ops.Arity | src/funge.rs:110-133 | `not` is the only unary operator; all others take two operands |
| Ops.Add | src/funge.rs:136-138 | `_add`: a `usize` from which subtracting either operand gives the other |
| Ops.Sub | src/funge.rs:139-141 | `_sub` without underflow: a `usize` that gives `terms[0]` back when `terms[1]` is added |
| Ops.Times | src/funge.rs:142-144 | `_times` without overflow: a multiple of a non-zero `terms[1]` that divided by it gives `terms[0]` back, and 0 when `terms[1]` is 0 |
| Ops.Divide | src/funge.rs:145-147 | `_divide`: the quotient q with q·d <= n < (q+1)·d |
| Ops.Mod | src/funge.rs:148-150 | `_mod`: a remainder below the divisor that, with the quotient, rebuilds the dividend |
| Ops.DivisionBounds | src/funge.rs:145-147 | the Euclidean quotient brackets the dividend and does not exceed it |
| Ops.MulGrows | src/funge.rs:145-147 | proof helper for `DivisionBounds`: a product with a non-zero factor is not smaller than the other factor |
| Ops.Gt | src/funge.rs:151-156 | `_gt` is 1 iff `terms[0] > terms[1]`, and 0 otherwise |
| Ops.Not | src/funge.rs:157-163 | `_not` is 1 iff its operand is 0, and 0 otherwise |
| Ops.Eval | src/funge.rs:102-104 | evaluating a defined operator gives a `usize` |
| Stacks.Drop | src/funge.rs:176-178 | n pops leave n fewer items, or none |
| Stacks.Args | src/funge.rs:175-178 | the argument array has exactly the operator's arity |
| Stacks.Applied | src/funge.rs:174-183 | `apply` leaves a stack of `usize` values, with the operands replaced by one result (a short stack yields one item) |
| Stacks.ArgsUsize | src/funge.rs:175-178 | values popped from a `usize` stack are `usize` values |
| Stacks.PopUsize | src/funge.rs:213-218 | a pop from a `usize` stack returns a `usize` and leaves a `usize` stack |
| Stacks.PushUsize | src/funge.rs:208-211 | pushing `usize` values keeps a `usize` stack |
| Stacks.PopAfterPush | src/funge.rs:207-219 | popping right after pushing v returns v and restores the stack |
| Stacks.PushAfterPop | src/funge.rs:207-219 | pushing back the value popped from a non-empty stack restores it |
| Stacks.DuplicateShape | src/funge.rs:185-191 | `dupe` turns `s + [a]` into `s + [a, a]`, and an empty stack into `[0, 0]` |
| Stacks.SwapAsWritten | src/funge.rs:193-199 | `swap` as written leaves a stack of two or more unchanged, turns `[a]` into `[0, a]` and `[]` into `[0, 0]` |
| Stacks.ApplyBinary | src/funge.rs:174-183 | on `s + [a, b]` with b on top, the operands are `[b, a]` and the stack becomes `s + [op(b, a)]` |
| Stacks.ApplyNot | src/funge.rs:174-183 | `not` on `s + [v]` gives `s + [1]` when v is 0 and `s + [0]` otherwise |
| Stacks.PopStep | src/funge.rs:176-178 | each loop iteration of `apply` pops the next value into the next slot of the array |
| Stacks.Stack.constructor | src/funge.rs:170-172 | a new stack is empty |
| Stacks.Stack.Push | src/funge.rs:208-211 | push appends exactly the one item |
| Stacks.Stack.Pop | src/funge.rs:213-218 | pop on an empty stack returns 0 and leaves it empty; otherwise it returns the last item and removes exactly that item |
| Stacks.Stack.Apply | src/funge.rs:174-183 | the argument loop and the push leave the stack `Applied` describes |
| Stacks.Stack.Dupe | src/funge.rs:185-191 | the new stack is the duplicated one (see DuplicateShape) |
| Stacks.Stack.Swap | src/funge.rs:193-199 | the new stack is the swapped one (see SwapAsWritten) |
| Text.Utf8Width | src/funge.rs:290-291 | a character takes 1 to 4 bytes, and exactly 1 iff it is ASCII |
| Text.ByteLen | src/funge.rs:290-291 | `str::len` lies between the character count and four times it |
| Text.ByteLenAppend | src/funge.rs:290-291 | the byte length of a concatenation is the sum of the byte lengths |
| Text.FindNewline | src/funge.rs:289 | the first newline, or the end of the text when there is none: no newline comes before it |
| Text.StripCr | src/funge.rs:289 | a line ending in a carriage return loses exactly that character; any other line is unchanged |
| Text.Lines | src/funge.rs:289 | `str::lines`: no more lines than characters, no line holds a newline, and no line is longer in bytes than the text |
| Text.RawLines | src/funge.rs:289 | the pieces of a text between its newlines are no more than its characters |
| Text.LinesStrip | src/funge.rs:289 | the lines are the pieces between newlines; a piece followed by a newline loses its final carriage return, and an unterminated last piece is kept whole |
| Text.RawLinesJoin | src/funge.rs:289 | the pieces joined with newlines, plus the final newline if there is one, give back the text |
| Text.LinesJoin | src/funge.rs:289 | for text without carriage returns, the lines joined with newlines, plus the final newline if there is one, give back the text |
| Text.RawLinesPieces | src/funge.rs:289 | every character of a piece occurs in the text |
| Text.NoLines | src/funge.rs:289 | only the empty text has no lines |
| Text.LinesCut | src/funge.rs:289 | the first line is the text before the first newline, minus a final carriage return; the rest of the lines come from the text after it |
| Text.NewlineCut | src/funge.rs:289 | the first piece is the text before the first newline; the rest of the pieces come from the text after it |
| Text.LastNewline | src/funge.rs:289 | a text whose only newline is its last character is one line followed by that newline |
| Text.EndingCut | src/funge.rs:289 | the text after a cut ends in a newline exactly when the whole text does |
| Text.Ending | src/funge.rs:289 | the final newline is present exactly when the text ends with one |
| Text.JoinCons | src/funge.rs:289 | proof helper for `RawLinesJoin`: joining one more line in front puts a newline between it and the rest |
| Text.Cut | src/funge.rs:289 | proof helper for `RawLinesJoin`: a text is its part before position i, the character at i, and its part after i |
| Text.LineBytes | src/funge.rs:289-291 | the line before a newline, and the text after it, fit in the text's bytes |
| Text.SplitBytes | src/funge.rs:289-291 | cutting a text around one character splits its bytes into three parts |
| Text.StripCrBytes | src/funge.rs:289-291 | dropping a carriage return adds no bytes |
| Text.Count | src/funge.rs:293 | proof helper for `LineCount`: a character occurs no more often than the text is long |
| Text.CountAppend | src/funge.rs:293 | occurrences in a concatenation add up |
| Text.CountAbsent | src/funge.rs:293 | a character that does not occur is counted zero times |
| Text.LineCount | src/funge.rs:289-294 | the grid's height: the number of lines is the number of newlines, plus one for a final line with no newline after it |
| Text.NewlineSplit | src/funge.rs:289-294 | the first newline contributes one to the newline count |
| Text.DigitChar | src/funge.rs:490 | a digit's character is `'0'`..`'9'` and reads back as the digit |
| Text.Decimal | src/funge.rs:490 | `{}` on a `usize` gives a non-empty string of digits with no leading zero |
| Text.DecimalRoundTrip | src/funge.rs:490 | reading the printed decimal text back gives the printed value |
| Grid.MaxByteLen | src/funge.rs:285-294 | the width: no line is longer in bytes, and some line reaches it when there is one |
| Grid.PartialRow | src/funge.rs:303-310 | a row being filled is as wide as the grid |
| Grid.BlankRow | src/funge.rs:297 | before any character is written, a row is all blanks |
| Grid.Layout | src/funge.rs:284-315 | one row per line |
| Grid.LayoutRows | src/funge.rs:299-312 | a grid whose every row holds its line's row is the layout |
| Grid.LayoutCells | src/funge.rs:284-315 | height is the number of lines and width the longest line; cell (x, y) holds character x of line y when there is one and 32 otherwise |
| Grid.LayoutWellFormed | src/funge.rs:284-315 | the laid-out grid is rectangular and every cell is a `usize` |
| Grid.Delta | src/funge.rs:327-332 | every heading is a unit step |
| Grid.Wrap | src/funge.rs:347-348 | `constrain` on one coordinate of at least -d lands in [0, d) and keeps a coordinate already inside; one below -d ends up in (-d, 0] |
| Grid.ShiftMod | src/funge.rs:347-348 | proof helper for `Wrap`: shifting by the dimension does not change an in-range coordinate's remainder |
| Grid.WrapMinusOne | src/funge.rs:346-349 | one step below zero wraps to the last column or row |
| Grid.WrapPastEnd | src/funge.rs:346-349 | one step past the end wraps to zero |
| Grid.FillStep | src/funge.rs:304-310 | writing character x of the line extends the filled prefix of the row by one |
| Grid.Fetch | src/funge.rs:272-277 | `get` returns a `usize` |
| Grid.FetchWraps | src/funge.rs:272-277 | for every x >= -w and y >= -h for which `x + w` and `y + h` fit in `i64`, `get(x, y)` reads cell ((x+w) mod w, (y+h) mod h) |
| Grid.FetchMinusOne | src/funge.rs:272-277 | `get(-1, y)` reads the same cell as `get(w-1, y)`, the last of row y |
| Grid.Written | src/funge.rs:279-282 | `set`: the same shape, v at (x, y), and every other cell unchanged |
| Grid.WrittenWellFormed | src/funge.rs:279-282 | writing a `usize` keeps the grid well formed with the same dimensions |
| Grid.Location.constructor | src/funge.rs:319 | a location holds the given coordinates |
| Grid.Location.Go | src/funge.rs:326-336 | `go` adds the heading's unit step, without wrapping |
| Grid.Location.Constrain | src/funge.rs:346-349 | `constrain` wraps both coordinates; coordinates of at least -w and -h land inside the grid |
| Grid.Measure | src/funge.rs:285-294 | the sizing loop finds the longest line in bytes and the number of lines |
| Grid.WriteLine | src/funge.rs:302-311 | the fill loop turns a blank row into that line's row and leaves the other rows alone |
| Grid.Space.constructor | src/funge.rs:284-315 | `Space::new` builds exactly the layout of the source text's lines |
| Grid.Space.Dims | src/funge.rs:268-270 | the height is the number of rows, and every row has the width |
| Grid.Space.Get | src/funge.rs:272-277 | `get` returns the wrapped cell |
| Grid.Space.Set | src/funge.rs:279-282 | `set` writes the one cell at the unwrapped location and nothing else |
| Runs.RunFromLast | src/funge.rs:419-434 | one more step of a run is taken from where the run stands, unless it has ended |
| Runs.RunLast | src/funge.rs:419-434 | tick k is taken from where the first k ticks left the machine |
| Runs.Trace | src/funge.rs:422-423 | the observer has been handed one state per counted tick, the last being the current one |
| Runs.RunningPrefix | src/funge.rs:419-434 | a run still going after k ticks was going after every j <= k ticks |
| Runs.HaltedStays | src/funge.rs:419-434 | once halted, a run stays halted in the same state |
| Runs.NotFailedBefore | src/funge.rs:419-434 | a run with no panic in k ticks had none in fewer |
| Runs.RunningBeforeHalt | src/funge.rs:419-434 | a run halts only after every tick at which it was still going |
| Runs.TraceExtend | src/funge.rs:421-424 | a counted tick adds the state it leaves to the observer's trace |
| Engine.Init | src/funge.rs:367-381 | a fresh machine is well typed |
| Engine.OpOf | src/funge.rs:482-488 | `!` is the only instruction that applies the unary operator |
| Engine.ExecuteTyped | src/funge.rs:436-526 | every instruction keeps the stack of `usize` values, the grid well formed with its dimensions, and the coordinates in `i64` |
| Engine.ExecutePlace | src/funge.rs:436-526 | only `#` moves the pointer, by one step; only `@` sets the stop flag; only `p` changes the grid |
| Engine.StepTyped | src/funge.rs:402-413 | a tick keeps every value in its Rust type and the grid's dimensions |
| Engine.StepStops | src/funge.rs:402-413 | a running machine stops exactly on `@`, and that tick changes nothing else, the location included |
| Engine.StepMoves | src/funge.rs:402-413 | any other tick moves one step along the resulting heading (two for `#`) and wraps; a pointer in the grid stays in it |
| Engine.StoppedIsFixed | src/funge.rs:439-442 | a machine stopped on `@` is a fixed point of the tick |
| Engine.PutStores | src/funge.rs:499-502 | `p` pops y, x, v and stores v at (x, y), which must lie in the grid; all other cells keep their values |
| Engine.GetFetches | src/funge.rs:503-507 | `g` pops y, x and pushes the wrapped cell; in-grid coordinates read their own cell |
| Engine.BinaryComputes | src/funge.rs:482-487 | on `rest + [a, b]`: `+ - * / %` and `` ` `` push `b op a`, with `b >= a` for `-` and `a != 0` for `/ %` |
| Engine.NotComputes | src/funge.rs:488 | `!` replaces the top v by 1 iff v is 0 |
| Engine.Vm.constructor | src/funge.rs:367-381 | `Vm::new` is the fresh machine `Init` describes, with nothing observed |
| Engine.Vm.NextLocation | src/funge.rs:395-400 | `next_location` is one step along the heading, then wrapped |
| Engine.Vm.Consume | src/funge.rs:436-526 | `consume` changes the machine as `Execute` says |
| Engine.Vm.Branch | src/funge.rs:455-468 | `_` pops and heads East on 0, West otherwise; the vertical bar pops and heads North on 0, South otherwise |
| Engine.Vm.Operate | src/funge.rs:482-488 | an operator instruction applies its operator to the stack |
| Engine.Vm.Emit | src/funge.rs:489-498 | `.` and `,` pop, then append the decimal text or the low byte to the output |
| Engine.Vm.Store | src/funge.rs:499-502 | `p` as `Execute` describes it |
| Engine.Vm.Load | src/funge.rs:503-507 | `g` as `Execute` describes it |
| Engine.Vm.Tick | src/funge.rs:402-413 | `tick` takes the machine to `Step` of its state, and returns whether it has stopped |
| Engine.Vm.Observe | src/funge.rs:422-423 | the observer is handed the current state and changes nothing |
| Engine.Vm.TickOf | src/funge.rs:421 | a tick taken as tick j of a run leads to run outcome j + 1 |
| Engine.Vm.RunFor | src/funge.rs:419-434 | it returns `Err` iff the first tick halts; otherwise `Ok(n)` with 0 < n and n <= the limit; the machine ran n ticks without stopping and then either stopped on tick n + 1 or hit the limit; the observer was handed exactly the n states after the counted ticks |
| Examples.StopAtOnce | src/funge.rs:430-431 | on the program `"@"` the first tick halts, so `run_for` returns `Err` |
| Examples.AddLayout | src/funge.rs:367-381 | `"94+.@"` starts as one row of five cells at (0, 0), heading West |

## Left out

- `&` (ReadInt, src/funge.rs:508-522) reads all of standard input. A tick that decodes `&` is outside the model: `Engine.CanExecute` is false for it.
- `~` (ReadChr, src/funge.rs:523) is a no-op in the code, and the model keeps it a no-op.
- The stdout writes of `.` and `,` (src/funge.rs:489-498) are not modelled as I/O. The printed text is appended to the ghost field `Vm.output` instead.
- The `ThreadRng` draw behind `?` (src/funge.rs:469-476) is replaced by the `Env.roll` value supplied to each tick. The match on the roll is kept: 0 North, 1 East, 2 South, anything else West.
- The boxed `on_tick` closure, its default `println!` and `set_tick_callback` (src/funge.rs:360, 376-379, 383-385) are left out. The observer is modelled as the ghost trace `Vm.observed`, which gets one entry per counted tick.
- The `get_state`, `get_stack`, `get_space`, `get_location` and `clone` snapshot plumbing (src/funge.rs:221-264, 387-393, 415-417, 529-545) is left out. The observer gets the abstract state rather than a `VmState` rebuilt through a string. The panic this snapshot can raise is described in the `Engine.Vm.RunFor` line below.
- The `NAry` wrapper and the generic `PrimInt` parameter (src/funge.rs:99-134) are replaced by an operator enum over `usize` values, the only instance the VM uses.
- In `Space::new`, the fallback for a character that `T::from` cannot represent (src/funge.rs:307) is not modelled. It cannot happen for `usize`.
- Debug-build panics are modelled as preconditions rather than as behaviour:
  - operator overflow, underflow and zero divisors;
  - a `p` outside the grid;
  - a `g` whose wrapped coordinate is still negative (below -w or -h);
  - a read of an empty grid;
  - `i64` overflow in `go`;
  - `usize` overflow of the tick counter.
- Engine.Vm.RunFor: does not model the panic of the observer's snapshot. After every counted tick `run_for` calls `get_state` (src/funge.rs:423). Its `Space::clone` converts every cell with `to_u8().unwrap()` (src/funge.rs:257). So a grid holding any cell above 255 makes the code panic at the first counted tick. Such a grid comes from a source character above U+00FF or from a `p` that stores a value over 255. `RunFor`'s contract instead promises the run's result there: on `"1@€"` the row is five cells wide, because the width counts bytes and `€` takes three (src/funge.rs:290-291). Run with no limit, or with any limit of 4 or more, the code panics after tick 1, while the contract promises `Ok(4)`: ticks 2 and 3 cross the two blank cells the West wrap reaches, tick 4 pushes 8364, and tick 5 stops on `@`.
- Engine.Vm.RunFor: an unlimited run (limit 0) is only modelled for a program that halts. The caller supplies a ghost bound within which the run halts, so non-terminating programs are outside its contract.
- src/main.rs is not part of this model: it only prints a greeting, and its inline module is an unused earlier draft.
