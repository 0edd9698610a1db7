# push_swap visualizer — a Dafny model of its core

The visualizer loads a list of integers into stack A, leaves stack B empty,
and then reads push_swap instructions (`sa`, `sb`, `ss`, `pa`, `pb`, `ra`,
`rb`, `rr`, `rra`, `rrb`, `rrr`) one byte at a time from its standard input.
It applies each instruction to the two stacks and redraws both stacks as
horizontal bar charts in the terminal.

This project models the logic of `main.c`:

- `cint.dfy` (module `CInt`): the 32-bit `int` range, C's truncating
  division, and the narrowing of a `long` to an `int`. `draw_bar` uses all
  three.
- `stack_ops.dfy` (module `StackOps`): what `swap`, `push`, `rotate` and
  `rev_rotate` do to a stack read top first (index 0 is the top). Each one
  is a function on sequences, with its inverse laws.
- `stack.dfy` (module `Stacks`): `t_stack` as a class over an `int` array.
  It covers `init_stack` and `parse_and_add_values`, whose array doubles
  when full. It also has the four in-place shifting operations. Each is
  proved to compute the matching `StackOps` function.
- `commands.dfy` (module `Commands`): `exec_cmd`'s dispatch from a token to
  an operation. A whole command stream is modelled as a fold. The module
  proves that no command creates, destroys or duplicates a value.
- `tokenizer.dfy` (module `Tokenizer`): `read_command_nonblocking` as a
  class that owns the static `buf[100]` and `pos`. Each `Feed` call takes
  the result of one read.
- `render.dfy` (module `Render`): the numbers that `draw_bar` and
  `render_screen` hand to the terminal. These are the placeholder cut-off,
  the column and bar widths, the scaling range, the truncated rows and
  each bar's length.
- `visualizer.dfy` (module `Visualizer`): the start-up part of `main`,
  and two program-wide facts. First, every bar drawn has between one and
  `bar_width` cells, even though the extrema are never refreshed. Second,
  B's fixed capacity can be too small (see Findings).

The model keeps these behaviours of the code, which a reader might not
expect:

- `min_val`/`max_val` are set only while loading and are never refreshed
  after a mutation. B keeps its INT_MIN/INT_MAX sentinels for good.
- `push` never grows its destination. `Stacks.Push` and
  `Commands.ExecCmd` therefore require room in the destination.
- A zero-byte read reports end of stream without emitting the partial
  token. The tokenizer itself is not idempotent at end of stream: `main`
  stops calling it once it has seen -1 (main.c:289-290).
- The wait for the start signal is always on.

## Model

| member | source | states |
|---|---|---|
| `CInt.Quot` | main.c:119 | C's `/` truncates toward zero: the remainder is smaller than the divisor and takes the dividend's sign; it agrees with Euclidean division for a non-negative dividend and a positive divisor |
| `CInt.ToInt` | main.c:119 | the `(int)` cast yields a 32-bit value congruent to its operand modulo 2^32, and leaves values already in range unchanged |
| `StackOps.Swapped` | main.c:62-67 | swap exchanges elements 0 and 1, keeps every other element, the length and the multiset; it does nothing below two elements |
| `StackOps.Transferred` | main.c:69-81 | push moves the top of src onto dest: sizes change by -1 and +1, the moved value becomes dest's top, and the combined multiset is unchanged; the rest of src and all of dest keep their order; nothing happens when src is empty |
| `StackOps.Rotated` | main.c:83-90 | rotate shifts every element one place towards the top and puts the old top at the bottom; length and multiset are kept |
| `StackOps.RevRotated` | main.c:92-99 | rev_rotate shifts every element one place towards the bottom and puts the old bottom on top; length and multiset are kept |
| `StackOps.SwapTwice` | main.c:62-67 | swapping twice restores the original order, for every stack |
| `StackOps.RotateThenRevRotate` | main.c:83-99 | rev_rotate undoes rotate, for every stack |
| `StackOps.RevRotateThenRotate` | main.c:83-99 | rotate undoes rev_rotate, for every stack |
| `StackOps.TransferBack` | main.c:69-81 | `pb` followed by `pa` restores both stacks whenever A was not empty (and symmetrically `pa` then `pb`) |
| `Stacks.GrownCapacity` | main.c:50-53 | the capacity after appending values one by one, doubling whenever the array is full; it never shrinks |
| `Stacks.GrownCapacityBounds` | main.c:50-53 | after loading, the capacity holds every value, and it is less than twice the value count unless it never grew |
| `Stacks.GrownCapacityDoubles` | main.c:50-53 | the capacity after loading is the initial capacity doubled some number of times |
| `Stacks.Stack.Contents` | main.c:17-23 | the stack's contents are the first `size` array cells, top first |
| `Stacks.Stack.constructor` | main.c:38-44 | init_stack gives an empty stack of the requested capacity with the INT_MIN/INT_MAX sentinels as maximum/minimum |
| `Stacks.Stack.Reallocate` | main.c:51-52 | realloc gives a fresh array of the new capacity with the same contents |
| `Stacks.Stack.AppendValue` | main.c:49-57 | one loading round doubles a full array, appends the value at the bottom and widens the extrema to include it |
| `Stacks.Stack.ParseAndAddValues` | main.c:46-60 | loading appends the values at the bottom in input order, grows the capacity as `GrownCapacity` says, keeps size within capacity, and leaves extrema that bound every loaded value and are either the old extrema or loaded values |
| `Stacks.Stack.Swap` | main.c:62-67 | the in-place swap leaves exactly `Swapped` of the old contents; size and capacity are untouched |
| `Stacks.Stack.Rotate` | main.c:83-90 | the shifting loop leaves exactly `Rotated` of the old contents |
| `Stacks.Stack.RevRotate` | main.c:92-99 | the shifting loop leaves exactly `RevRotated` of the old contents |
| `Stacks.Stack.RemoveTop` | main.c:71-75 | push's first loop returns the old top and leaves the source holding the rest of its values, in order |
| `Stacks.Stack.InsertTop` | main.c:76-80 | push's second loop leaves the value on top of the old contents, given room in the array |
| `Stacks.Push` | main.c:69-81 | the two shifting loops leave exactly `Transferred` of the old contents of both stacks, given room in the destination whenever the source is non-empty |
| `Commands.Parse` | main.c:101-113 | a token selects the instruction whose spelling it equals exactly, and no instruction when it equals none |
| `Commands.ParseName` | main.c:101-113 | each instruction's spelling selects that instruction |
| `Commands.Apply` | main.c:102-112 | every instruction preserves \|A\| + \|B\| and the multiset union of A and B |
| `Commands.Exec` | main.c:101-113 | every token preserves \|A\| + \|B\| and the multiset union; a token outside the eleven changes nothing |
| `Commands.ExecCmd` | main.c:101-113 | exec_cmd on the two stack objects leaves exactly `Exec` of their old contents, given room for a push |
| `Commands.ApplyOp` | main.c:102-112 | each branch of exec_cmd leaves exactly `Apply` of the old contents |
| `Commands.ExecAll` | main.c:101-113 | a whole command stream preserves \|A\| + \|B\| and the multiset union of A and B |
| `Commands.RoomyTraceFits` | main.c:76-80 | when both arrays can hold every value, no push in any command stream writes past the end of its destination |
| `Commands.ExecAllKeepsBounds` | main.c:101-113 | bounds that hold for every value before a command stream hold for every value after it |
| `Tokenizer.Code` | main.c:186-196 | the return code is 1 exactly for a token and -1 exactly for end of stream |
| `Tokenizer.Step` | main.c:172-197 | whitespace with a non-empty buffer emits exactly the buffered bytes and empties the buffer; a non-space byte is appended only below 99 bytes; whitespace on an empty buffer or no data changes nothing; a zero-byte read reports end of stream and drops nothing |
| `Tokenizer.CommandReader.Pending` | main.c:173-174 | the bytes buffered so far are `buf[..pos]` |
| `Tokenizer.CommandReader.constructor` | main.c:173-174 | the static buffer starts empty |
| `Tokenizer.CommandReader.Feed` | main.c:172-197 | one call updates `buf`/`pos` and reports exactly what `Step` says |
| `Tokenizer.RunWord` | main.c:188-192 | a run of non-space bytes reports nothing and leaves the first 99 bytes of the token buffered, dropping the excess |
| `Tokenizer.WordThenSpace` | main.c:180-192 | a word followed by whitespace is reported as one token, its first 99 bytes, and leaves the buffer empty |
| `Tokenizer.RunConcat` | main.c:172-197 | feeding two runs of reads in turn equals feeding their concatenation |
| `Render.BarLength` | main.c:115-120 | the bar length is never 0 and fits in an `int` |
| `Render.BarLengthInRange` | main.c:115-120 | a value between min and max gets a bar of at least 1 and at most max_width cells |
| `Render.BarLengthAtMax` | main.c:115-120 | the maximum value fills the whole width when the range is not degenerate |
| `Render.BarLengthMonotone` | main.c:115-120 | inside the range, a larger value never gets a shorter bar |
| `Render.Scale` | main.c:151-156 | the scaling range is A's own extrema while B is empty, otherwise the smaller minimum and the larger maximum of the two stacks |
| `Render.ScaleWithSentinelB` | main.c:151-156 | while B holds its INT_MIN/INT_MAX sentinels, the scaling range is A's own, even when B is not empty |
| `Render.Column` | main.c:158-168 | row `i` is drawn at screen row 3 + i only when 3 + i < max_h, and the loop stops at the first row that does not fit; each drawn row shows the stack's i-th value with its bar |
| `Render.RenderScreen` | main.c:130-170 | only the placeholder is drawn when max_h < 15 or max_w < 32; otherwise the columns are max_w/2 wide, bars max_w/2 - 10 (at least 6), the scaling range is `Scale`, and each column is `Column` |
| `Render.FrameBarsFit` | main.c:148-168 | when every value lies in the scaling range, every drawn bar has 1 to bar_width cells and lies above the bottom of the screen |
| `Visualizer.GrownCapacityCompose` | main.c:209-215 | loading the arguments one after the other grows A exactly as loading all their numbers at once |
| `Visualizer.Startup` | main.c:199-215 | no argument is a usage error; otherwise A holds every number in argument order with exact extrema (or the sentinels if none), and B is empty with capacity 2 * argc and the sentinels |
| `Visualizer.LoadedExtrema` | main.c:56-57 | after each loading round the recorded extrema bound all of A and are values of A, or the sentinels while A is empty |
| `Visualizer.PbsNeedRoom` | main.c:76-80 | `n` successive `pb` from an A of at least `n` values fit only when B has room for `n` more values |
| `Visualizer.SmallBOverflows` | main.c:205-207 | with one argument of five numbers, B has room for four, so five `pb` do not fit, whatever A's capacity |
| `Visualizer.SafeCapacity` | main.c:205-207 | the corrected capacity for B is at least 2 * argc and at least the number of loaded values |
| `Visualizer.SafeCapacityFitsEveryTrace` | main.c:205-207 | with B sized by `SafeCapacity`, no command stream pushes past the end of either array |
| `Visualizer.BarsFitAfterAnyCommands` | main.c:151-167 | the extrema are fixed at loading and B keeps its sentinels, yet after any command stream every drawn bar still has 1 to bar_width cells |

## Left out

- Every ncurses call (`initscr`, colours, `clear`, `mvprintw`, `mvhline`, `addch`, `refresh`, `endwin`) is left out. `Render` returns what would be drawn, not the text of the labels.
- The signal handlers and their `sig_atomic_t` flags (main.c:14-15, 28-36, 225-230) are left out. They are asynchronous notification.
- The `/dev/tty` open and its failure exit, the `fcntl` non-blocking setup, the `read` calls and the `usleep` delays are left out. The tokenizer instead takes each read's result as a `ReadResult` parameter.
- The start-wait loop and the run loop of `main` (main.c:247-296) are left out because they are driven by signals and I/O. In the run loop, `pipe_open` becomes 0 on -1 and is never reset, so the tokenizer is not called again after end of stream.
- `atoi` and `strtok` are not modelled. Arguments arrive as already-parsed numbers, one sequence per argument.
- `strdup`, `malloc` and `realloc` failures are not modelled: allocation always succeeds. `free` at exit is left out.
- `Stacks.Stack.Reallocate` copies only the occupied cells, where `realloc` copies the whole old block. The cells beyond `size` are never read.
- The `strncpy` copies into `cmd_buf` (19 bytes) and `last_cmd` (9 bytes) are not modelled. Neither is the fact that `exec_cmd` sees a token only up to its first NUL byte. `ExecCmd` compares the whole token.
- `Render.BarLength` assumes a 64-bit `long`, as on LP64 platforms, so the subtraction and the product of two `int` values never overflow. The implementation-defined `(int)` narrowing of the quotient is modelled as wrap-around modulo 2^32 (`CInt.ToInt`).
- `Render.FrameBarsFit` and `Visualizer.BarsFitAfterAnyCommands` bound the number of cells in each bar, not where the bar ends on its row. `draw_bar` first prints the value with `"%d "` (main.c:123), and the width of that label is not modelled. With labels longer than about ten characters, A's bars can reach into B's column and B's bars can run past the right edge.
- `IsSpace` covers the six C-locale whitespace bytes. The signedness of `char` is not modelled, and bytes are modelled as `char`.
- The "Window too small!" text, the title strings and the `last_cmd` label appear in the model only as the `Title` choice and the placeholder's position.

## Findings

| source | as written | input that shows it | evidently intended | confidence | as-written member | corrected member |
|---|---|---|---|---|---|---|
| main.c:205-207 | B is allocated for `argc * 2` values, and `push` (main.c:76-80) writes `dest->values[dest->size]` without a capacity check | one argument holding five numbers (`"1 2 3 4 5"`, so argc = 2 and B has room for 4) followed by five `pb` instructions: the fifth writes past B's array | B can hold every loaded value | high; not executed | `Visualizer.SmallBOverflows` | `Visualizer.SafeCapacityFitsEveryTrace` |

`Visualizer.Startup` keeps the as-written capacity because it models
`main`. `Commands.ExecCmd` states the room that each push needs, and
`Visualizer.SafeCapacity` is the sizing under which every command stream
meets that demand.
