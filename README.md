# fish-shell redirection planner and screen buffer containers, in Dafny

This project models two pieces of sequential logic from the fish shell.

**The redirection planner** (`src/redirection.cpp`). A redirection directive has a
target slot, a mode and a target text. The planner derives the `open(2)` flags for a file
redirection and the literal descriptor number for a duplication. It translates an ordered
I/O chain into a plan of primitive `dup2`/`close` actions. The chain has five entry kinds:
file, close, fd, pipe and buffer-fill. It also answers "what will descriptor N refer
to once the plan has run" by walking the plan backwards. The model proves these things:

- the planner is a homomorphism on chain concatenation;
- every entry's actions appear in place and in order;
- a plan has one action per file/close/fd entry and two per pipe/buffer-fill entry;
- each pipe or buffer duplicate is closed right after it is duplicated;
- the backward walk agrees with a forward, POSIX-style execution of the plan.

The forward execution is a map from slot to the original descriptor it holds, or to
"closed".

**The screen buffer containers** (`src/screen.h`):

- `Line` keeps parallel text and colour lists that always have the same length.
- `ScreenData` is a growable list of lines. The list holds lines by value, so no two
  slots share a line object.
- `LayoutCache` caches escape sequences in a strictly sorted list. It has a sorted insert
  and a binary-search lookup of the cached sequence that begins a string.

Strings are `seq<char>`, ordered lexicographically by character code (module
`WideString`). Colours are an abstract type.

Files: `wrappers.dfy` (the optional value standing for `maybe_t`), `redirection.dfy`,
`wide_string.dfy`, `screen.dfy`.

Notes on the reading of the code:

- `redirection.h` is not part of this model. The model encodes an action as a
  `(src, target)` pair. A close of `fd` is encoded as `(fd, -1)`. The code only ever tests
  `target < 0` (`src/redirection.cpp:87`).
- The planner does not realise a descriptor swap, because it never uses a scratch
  descriptor. The chain `[1 <- 2, 2 <- 1]` leaves both slots on descriptor 2. The backward
  walk reports exactly that, in agreement with forward execution (`SwapRegression`).
- A chain with no entry targeting `f` need not resolve `f` to `f`. A pipe or buffer entry
  whose own descriptor is `f` makes the plan close `f`, so the query gives -1.
  `WalkUntouched` states what the code does: the result is `f` unless the plan closes `f`.
  `PipeClosesOwnDescriptor` shows the case `[pipe 1 <- 5]`, which resolves slot 5 to -1.
- `std::vector::at` throws `std::out_of_range` past the end. `CharAt`, `ColorAt` and
  `LineAt` return `None` in that case.

## Model

| member | source | states |
|---|---|---|
| `Redirection.OFlags` | src/redirection.cpp:19-32 | Requires a file mode, never the fd mode. Write and create are present iff the mode is not input. Read-only is present iff the mode is input. Truncate iff overwrite, exclusive iff no-clobber, append iff append. Write and read-only never occur together. |
| `Redirection.GetTargetAsFd` | src/redirection.cpp:12-17 | Gives a value iff the parser left errno at 0 and read a non-negative number. That value is the number read, so the result is never negative. |
| `Redirection.EntryActions` | src/redirection.cpp:39-70 | A close entry emits one close of its slot. Any other entry emits a dup2 of its source descriptor into its slot. A pipe or buffer-fill entry then emits a second action, a close of that same source. |
| `Redirection.PlanOf` | src/redirection.cpp:38-72 | The plan of a chain is its entries' actions in chain order. It has at least one and at most two actions per entry. |
| `Redirection.ResolveChain` | src/redirection.cpp:35-74 | Always succeeds, and the plan it returns is `PlanOf(chain)`: each entry's actions concatenated in chain order. |
| `Redirection.PlanConcat` | src/redirection.cpp:37-73 | The plan of `a + b` is the plan of `a` followed by the plan of `b`. |
| `Redirection.PlanLength` | src/redirection.cpp:40-69 | Plan length = #file + #close + #fd + 2 * (#pipe + #bufferfill). |
| `Redirection.EntryPlacement` | src/redirection.cpp:38-72 | Entry j's actions occupy the plan slice that starts where the actions of entries 0..j-1 end, unchanged and in order. |
| `Redirection.PipeIsClosedAfterDup` | src/redirection.cpp:58-69 | A pipe or buffer-fill entry emits `dup2(p, fd)`, and the very next action is a close of that same `p`. |
| `Redirection.PipeExample` | src/redirection.cpp:58-63 | The chain `[pipe 1 <- 7]` plans exactly `[dup2(7, 1), close(7)]`. |
| `Redirection.Walk` | src/redirection.cpp:83-92 | The reverse loop as a recursion from the last action. Its result is the starting cursor, -1, or the source of some action of the plan. |
| `Redirection.Step` | src/redirection.cpp:84-90 | POSIX meaning of one action. `dup2(src, t)` makes `t` hold what `src` holds. `close(fd)` empties `fd`. No other slot changes. |
| `Redirection.FdForTargetFd` | src/redirection.cpp:76-94 | A negative target comes back unchanged. Otherwise the result is the backward walk. For a plan with non-negative sources, that equals what forward execution leaves in the slot: -1 if it is closed. |
| `Redirection.WalkMatchesRun` | src/redirection.cpp:81-93 | Walking the plan backwards from a non-negative slot gives what forward execution of the plan leaves there: its original descriptor, or -1 when it is closed. |
| `Redirection.WalkUntouched` | src/redirection.cpp:82-92 | If no action writes into slot `t`, the result is `t`, unless some action closes `t`, in which case it is -1. |
| `Redirection.PlanWellFormed` | src/redirection.cpp:40-69 | A chain of non-negative descriptors gives a plan whose sources are all non-negative. The first action of each entry is read as a close exactly when that entry is a close entry, so no dup2 of such a chain is mistaken for a close. |
| `Redirection.ChainQueryMatchesRun` | src/redirection.cpp:35-94 | For a chain of real descriptors, querying its plan agrees with forward execution of that plan. |
| `Redirection.SwapRegression` | src/redirection.cpp:81-93 | The chain `[1 <- 2, 2 <- 1]` plans `[dup2(2,1), dup2(1,2)]`. Both slots resolve to 2, by the walk and by forward execution. |
| `Redirection.SingleEntryExamples` | src/redirection.cpp:46-56 | `[2 <- 1]` resolves slot 2 to 1. `[close 5]` resolves slot 5 to -1. |
| `Redirection.PipeClosesOwnDescriptor` | src/redirection.cpp:58-62 | After `[pipe 1 <- 5]`, slot 5 is closed: the walk reports -1, and so does forward execution. |
| `Redirection.EmptyChain` | src/redirection.cpp:76-93 | The empty chain plans nothing, and every query on that plan answers its own argument. |
| `WideString.Less` | src/screen.h:241-252 | The `<` on wide strings that both upper-bound searches use, lexicographic by character code. It never holds between equal strings, and a proper prefix sorts before the strings it begins. |
| `WideString.IsPrefix` | src/screen.h:257 | The prefix test on a candidate code: holds iff the candidate is no longer than the entry and agrees with it character by character. |
| `WideString.PrefixNotGreater` | src/screen.h:248-257 | A cached code that begins `entry` never sorts after `entry`. |
| `WideString.BetweenPrefixAndString` | src/screen.h:249-254 | A string sorting strictly after a prefix `p` of `s` and not after `s` also begins with `p`. This is why the upper-bound candidate is the only one to try. |
| `WideString.LessTotal` | src/screen.h:224-226 | Lexicographic order is total: two strings are equal or one sorts first. |
| `WideString.LessTransitive` | src/screen.h:224-226 | Lexicographic order is transitive. |
| `Screen.CStringOf` | src/screen.h:49-54 | The characters of a C string: a NUL-free prefix of the buffer, followed in the buffer by a NUL. |
| `Screen.Line.constructor` | src/screen.h:37 | A new line is empty, not soft-wrapped, has indentation 0, and has as many colours as characters. |
| `Screen.Line.Copy` | src/screen.h:107-109 | A copied line has the same text, colours, wrap flag and indentation as the original. |
| `Screen.Line.Clear` | src/screen.h:39-42 | Empties the text and the colours. The wrap flag and the indentation are unchanged. |
| `Screen.Line.Append` | src/screen.h:44-47 | Appends one character and its colour. The two lists stay the same length. |
| `Screen.Line.AppendString` | src/screen.h:49-54 | Appends exactly the characters before the first NUL, each with the given colour. Earlier content and the other fields are unchanged. |
| `Screen.Line.Size` | src/screen.h:56 | The number of characters, which equals the number of colours. |
| `Screen.Line.CharAt` | src/screen.h:58 | The idx-th character when idx is below the size, an out-of-range error otherwise. |
| `Screen.Line.ColorAt` | src/screen.h:60 | The idx-th colour when idx is below the size, an out-of-range error otherwise. |
| `Screen.Line.AppendLine` | src/screen.h:62-65 | Concatenates the other line's text and colours onto this line's. |
| `Screen.Line.ToString` | src/screen.h:67 | A string as long as the line whose i-th character is `CharAt(i)`. |
| `Screen.ScreenData.constructor` | src/screen.h:71-80 | A new screen has no lines and its cursor at (0, 0). |
| `Screen.ScreenData.Resize` | src/screen.h:87 | The count becomes `size`. Lines that stay are the same lines. New lines are fresh default lines. |
| `Screen.ScreenData.AddLine` | src/screen.h:82-85 | The count goes up by one. The returned new last line is a fresh default line. Earlier lines are unchanged. |
| `Screen.ScreenData.CreateLine` | src/screen.h:89-94 | Afterwards the count is greater than idx, and it is unchanged if idx was already in range. Existing lines are unchanged, added lines are default, and line idx is returned. |
| `Screen.ScreenData.InsertLineAtIndex` | src/screen.h:96-99 | Requires idx <= count. A fresh default line sits at idx, lines before idx are unchanged, and lines from idx on move down by one. |
| `Screen.ScreenData.LineAt` | src/screen.h:101-103 | Line idx when idx is below the count, an out-of-range error otherwise. |
| `Screen.ScreenData.LineCount` | src/screen.h:105 | The number of lines. |
| `Screen.ScreenData.AppendLines` | src/screen.h:107-109 | Appends fresh copies of the other screen's lines after the existing ones, which are unchanged. |
| `Screen.ScreenData.Empty` | src/screen.h:111 | True iff the line count is 0. |
| `Screen.UpperBound` | src/screen.h:241-252 | On a strictly sorted list, the first position whose entry sorts after the key: entries before it do not sort after the key, and entries from it on all do. |
| `Screen.LayoutCache.constructor` | src/screen.h:222-226 | A new cache holds no escape codes. |
| `Screen.LayoutCache.EscCacheSize` | src/screen.h:237 | The number of cached escape codes. |
| `Screen.LayoutCache.AddEscapeCode` | src/screen.h:239-245 | Keeps the cache strictly sorted, and `str` is cached afterwards. If it was already cached, the cache is unchanged. Otherwise it holds exactly the old codes plus `str`, and its size has grown by one. |
| `Screen.LayoutCache.FindEscapeCode` | src/screen.h:247-260 | The result is 0 or the length of a cached code that begins `entry`. On a prefix-free cache, when some cached code begins `entry`, the result is that code's length. |
| `Screen.LayoutCache.Clear` | src/screen.h:268-271 | The escape-code cache is empty (and stays sorted). |

## Left out

- Executing a plan in the forked child is not modelled: the `dup2`/`close` calls and their fatal failure handling. Forward execution is an abstract simulation used as the reference for the query.
- Redirection.Step: a `dup2` whose source is closed empties the target. A real `dup2` fails with EBADF there, and the child then exits instead.
- Redirection.FdForTargetFd: agreement with forward execution is stated only for plans whose every source is non-negative. On other plans the contract gives only the backward walk, because a negative source names no descriptor.
- Parsing the target text (`fish_wcstoi` and its errno) is represented by a parser function passed in. Its internals are not part of this model.
- The not-in-forked-child assertion is a process-context check with no data meaning. The trivial destructor of the plan is not modelled either.
- The producers of the I/O chain are not modelled (opening files, creating pipes and capture buffers). The chain is an input value.
- The code has a single plan type, so the model has no separate pre-fork and post-fork plan types.
- `screen_t`, `s_write`, `s_reset`, `s_save_status`, `screen_force_clear_to_end` and `escape_code_length` are declared without bodies in `src/screen.h` (terminal output and `stat` polling), so they are not modelled.
- The prompt-layout LRU cache (`find_prompt_layout`, `add_prompt_layout`, `prompt_cache_`) has no bodies in the header, so it is not modelled.
- Screen.LayoutCache.Clear: the source also empties the prompt-layout cache, which this model leaves out.
- Highlight specifications and the wide-character encoding are abstract. Characters compare by code point.
- Lengths and indices (`size_t`) are unbounded naturals.
- Screen.ScreenData.CreateLine: does not model `size_t` wrap-around. With `idx` equal to `SIZE_MAX`, `idx + 1` wraps to 0, so the source resizes to no lines and `at(idx)` then throws. The model instead grows the list to `idx + 1` lines.
- Screen.ScreenData.Resize: does not model `std::length_error`, which the source throws when `size` exceeds the vector's `max_size()`. The model always reaches `size` lines.
- A vector reallocation invalidates references the source returned earlier. The model's line objects stay valid instead.
- The const and non-const `line(idx)` accessors are one function here.
- Screen.ScreenData.AppendLines: requires the other screen to be a different object. In the source, `append_lines` on itself inserts a vector's own range into it, which is undefined behaviour.
- Screen.Line.AppendLine accepts the line itself as argument and doubles it. In the source, inserting a vector's own range into it is undefined behaviour.
