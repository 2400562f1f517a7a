# LL1LL front end in Dafny

This project models the front half of the LL1LL toolchain and proves
properties of it. The front half is the scope table, the lexer, the
recursive-descent compiler, the bytecode buffer it emits into, and the
mark-and-sweep object heap. The virtual machine is not modelled.

Modules, following the C files:

- `Share`: the shared constants and value types of share.h.
- `Results`: the `Result` and `Option` types. Every fatal exit of the C
  code (`exit(1)`, `compile_error`) becomes an `Err`.
- **table.c**
  - `Table`: the name table as a state value, with one function per C
    entry point.
  - `TableStore.NameTable`: a class with the C globals as fields and arrays.
    Each of its methods is proved to do what the matching `Table` function
    says.
  - `TableProperties`: the lemmas about lookup, addresses, parameters and
    block scoping.
- **heap.c**
  - `Heap`: the heap as an arena of objects addressed by handle. The
    management list is the sequence of handles from `heap_head` on.
  - `HeapStore.ManagedHeap`: the same heap as a class whose fields are
    updated in place, with one method per C function.
  - `HeapAsWritten`: `deleteHeapEntry`, `array_sweep` and `gc_sweep` as
    written, pointer walk included, and the places where they go wrong.
- **lexical.c**
  - `Lexical`: the lexer as functions over an in-memory source with a
    cursor. The end of the source plays the role of EOF.
  - `LexicalStore.Lexer`: a class holding the cursor, the `char_kind` array
    and the previous and current token, with one loop per C loop.
  - `LexicalProperties`: the lemmas about what a scan yields.
- **generate.h / generate.c**
  - `Bytecode`: the opcodes, instructions and patching.
  - `Bytecode.CodeBuffer`: the append-only `code[]` array with its size
    counter.
- **compile.c**
  - `Compile`: the parser and code generator as functions over the token
    sequence. A state holds the lookahead position, the code, the name
    table, the heap and the pending break and continue jumps. Places where
    the C does not compile, or contradicts its own structure, are marked
    `DEVIATION` in the model.
  - `CompileProperties`: the lemmas about the code that expressions, branch
    heads and loop ends produce.
  - `CompileExamples`: the precedence table and one expression compiled end
    to end.
  - `CompileFindings`: the defects of compile.c shown on concrete inputs.

Three places where the code differs from what one might expect:

- `for` sends `continue` to the label taken before the condition, not to the
  update expression (compile.c:603, 631). The update is compiled where it
  stands, before the body (compile.c:614-620).
- `MAX_CODE_SIZE` is 500, because generate.c:4 redefines the value 1000 of
  generate.h:12.
- A name missing from the table is declared on the spot only when a variable
  was looked for. Any other kind gives index 0 (table.c:127-135).

## Model

Some terms used in the Compile rows:

- "Only appends code": the earlier code is a prefix of the new code, and the table, the heap and the pending jumps are unchanged.
- "Keeps the code before": every instruction emitted earlier is unchanged, except at the labels named.
- "Pending jumps": the `break` and `continue` jumps that still wait for their target.
- A "tree" is an expression tree of `CompileProperties`. Its tokens are written out in order, and `Postfix` is its code in post order.

| member | source | states |
|---|---|---|
| Table.Initial | table.c:18-29 | The zero-initialised globals, with `current_block_level` at -1, form a well-formed table. |
| Table.AddName | table.c:32-43 | Succeeds iff `table_index + 1` is below MAX_TABLE_SIZE, otherwise fails with TableFull. `table_index` grows by one and the new slot holds the name. |
| Table.AddFunc | table.c:46-56 | Same capacity condition. The new slot is a function at the current level with the given address and 0 parameters, and it becomes the current function. Every other slot, the level and `local_addr` stay. |
| Table.AddParam | table.c:59-66 | Same capacity condition. The new slot is a parameter at the current level. The current function's parameter count grows by one, and every other slot stays. |
| Table.AddVar | table.c:69-76 | Same capacity condition. The new slot is a variable at `RelAddr(level, local_addr)` and `local_addr` grows by one. The rest of the state is unchanged. |
| Table.AddConst | table.c:79-85 | Same capacity condition. The new slot is a constant holding the given value, and every other slot stays. |
| Table.ParEnd | table.c:88-102 | The table stays well formed. The addresses are stated by `TableProperties.ParEndAssigns`. |
| Table.Search | table.c:111-137 | The table stays well formed and the index is at most the new top. What is found is stated by `TableProperties.SearchFindsNewest` and `SearchMissing`. |
| Table.ChangeFuncAddr | table.c:105-108 | Succeeds iff the index is inside the array. The entry's address becomes the new address. |
| Table.Latest | table.c:118-123 | The result is at most the top. A nonzero result names a matching slot, and no slot above it matches. |
| Table.LatestIs | table.c:121-123 | The `while` scan from the top, with the sentinel at 0, stops exactly at `Latest`. |
| Table.BlockBegin | table.c:165-203 | Fails iff the level is MAX_BLOCK_LEVEL - 1. The level grows by one and `local_addr` becomes the first address. `table_index` is reset to 0 on the first call and kept otherwise. |
| Table.BlockEnd | table.c:207-215 | Succeeds iff the level is at least 1 (at level 0 the C reads `last_index[-1]`). The level drops by one. |
| Table.GetBlockKind | table.c:249-252 | Succeeds iff the level allows reading `block_kind[level - 1]`. |
| Table.GetBreakCount | table.c:218-221 | Succeeds iff the current level indexes the counter array. |
| Table.GetContinueCount | table.c:230-233 | Succeeds iff the current level indexes the counter array. |
| Table.IncBreakCount | table.c:224-227 | Succeeds iff the current level indexes the counter array, keeping the table well formed. |
| Table.IncContinueCount | table.c:236-239 | Succeeds iff the current level indexes the counter array, keeping the table well formed. |
| TableProperties.LatestAgree | table.c:111-126 | Two tables that agree on slots 1..top find the same newest match for every name. |
| TableProperties.SearchFindsNewest | table.c:111-126 | For a declared name, `searchTable` returns the newest declaration whatever kind was asked for. It changes nothing but the sentinel's name. |
| TableProperties.SearchMissing | table.c:127-135 | For a name never declared: a variable search declares it at the next local address, or fails when the table is full. Any other kind gives 0. |
| TableProperties.SearchAfterDeclare | table.c:111-126 | A later declaration shadows an earlier one with the same name. |
| TableProperties.AddVars | table.c:69-76 | A run of `addTableVar` calls returns one index per name and keeps the table well formed. |
| TableProperties.VarsConsecutive | table.c:69-76 | The k-th variable of a run gets slot top+1+k and local address `local_addr + k`. `table_index` and `local_addr` grow by the run's length. |
| TableProperties.VarsKeepBelow | table.c:69-76 | A run of `addTableVar` calls never touches a slot at or below the old top. |
| TableProperties.AddParams | table.c:59-66 | A run of `addTableParam` calls returns one index per name and keeps the table well formed. |
| TableProperties.ParamsCounted | table.c:59-66 | With the current function at or below the top, n parameters raise its count by n. They land in consecutive slots, and no other old slot changes. |
| TableProperties.ParEndAssigns | table.c:88-102 | With a function f of n parameters in range, `parEnd` gives slot f+k (1 <= k <= n) the address k-1-n and leaves every other slot as it was. |
| TableProperties.FunctionParameters | table.c:46-102 | `addTableFunc`, then n `addTableParam` calls, then `parEnd`: the function records n parameters, and the k-th parameter (from 0) has address k - n at the function's level. |
| TableProperties.Step | table.c:32-239 | Every table operation the compiler makes keeps the table well formed. |
| TableProperties.Run | table.c:32-239 | Every sequence of such operations keeps the table well formed. |
| TableProperties.StepKeeps | table.c:32-239 | Inside an open block, one operation without parameters keeps the level, the saved levels and every entry up to the top, and the top only grows. |
| TableProperties.RunKeeps | table.c:32-239 | The same holds for a sequence of such operations. |
| TableProperties.BlockKeeps | table.c:190-215 | `blockBegin`, a body and `blockEnd` restore `table_index`, `local_addr` and the level, and keep every visible entry. |
| TableProperties.BlockScoping | table.c:190-215 | After an inner block, every lookup finds what it found before the block, and the next local address is the old one. |
| TableProperties.BeginKinds | table.c:169-193 | The first `blockBegin` starts at level 0 with an empty table, `local_addr` = first address and cleared counters. A begin at MAX_BLOCK_LEVEL - 1 fails. Any other begin makes `getBlockKind` return the given kind. |
| TableProperties.CountersPerLevel | table.c:218-239 | `incBreakCount`/`incContinueCount` pre-increment and return the current level's counter, which the getter then reports. The other counter is untouched. |
| TableProperties.InnerCountersNotCleared | table.c:193-196 | `blockBegin` clears the counters of the level it leaves. The new level's counter keeps what an earlier block at that depth left. |
| TableStore.NameTable.constructor | table.c:18-29 | The fresh object's model is the initial table. |
| TableStore.NameTable.AddTableName | table.c:32-43 | The new state and the result are those of `Table.AddName` on the old state. |
| TableStore.NameTable.AddTableFunc | table.c:46-56 | The new state and the result are those of `Table.AddFunc`. |
| TableStore.NameTable.AddTableParam | table.c:59-66 | The new state and the result are those of `Table.AddParam`. |
| TableStore.NameTable.AddTableVar | table.c:69-76 | The new state and the result are those of `Table.AddVar`. |
| TableStore.NameTable.AddTableConst | table.c:79-85 | The new state and the result are those of `Table.AddConst`. |
| TableStore.NameTable.ParEnd | table.c:88-102 | The `for` loop over the parameter slots leaves the state `Table.ParEnd` describes. |
| TableStore.NameTable.ChangeFuncAddr | table.c:105-108 | The new state is that of `Table.ChangeFuncAddr`. |
| TableStore.NameTable.SearchTable | table.c:111-137 | The decrementing `while` loop returns `Table.Search`'s index and leaves its state. |
| TableStore.NameTable.GetTableKind | table.c:140-143 | The result is the entry's kind. |
| TableStore.NameTable.GetVarRelAddr | table.c:146-149 | The result is the entry's level and address. |
| TableStore.NameTable.GetConstValue | table.c:152-155 | The result is the entry's value. |
| TableStore.NameTable.GetNumParams | table.c:158-161 | The result is the entry's parameter count. |
| TableStore.NameTable.GetCurrentNumParams | table.c:255-258 | The result is the parameter count of the current function. |
| TableStore.NameTable.GetBlockNeedMemory | table.c:261-264 | The result agrees with `Table.GetBlockNeedMemory`. |
| TableStore.NameTable.GetBlockLevel | table.c:243-246 | The result is the current level. |
| TableStore.NameTable.GetBlockKind | table.c:249-252 | The result agrees with `Table.GetBlockKind`. |
| TableStore.NameTable.BlockBegin | table.c:165-203 | The counter-clearing loop and the saves leave `Table.BlockBegin`'s state. |
| TableStore.NameTable.BlockEnd | table.c:207-215 | The new state is that of `Table.BlockEnd`. |
| TableStore.NameTable.GetBreakCount | table.c:218-221 | The result agrees with `Table.GetBreakCount`. |
| TableStore.NameTable.GetContinueCount | table.c:230-233 | The result agrees with `Table.GetContinueCount`. |
| TableStore.NameTable.IncBreakCount | table.c:224-227 | The new state and the result are those of `Table.IncBreakCount`. |
| TableStore.NameTable.IncContinueCount | table.c:236-239 | The new state and the result are those of `Table.IncContinueCount`. |
| Heap.Reach | heap.c:122-145 | The objects `array_mark` reaches from h are live objects, and h is among them iff h is live. |
| Heap.ReachAll | heap.c:129-143 | What the elements of an array reach is a set of live objects. |
| Heap.RootsReach | heap.c:196-209 | What stack slots 0..stack_top-1 reach is a set of live objects. |
| Heap.AllocateValid | heap.c:18-119 | Every allocation (`alloc_string`, `cat_string`, `alloc_array`, each followed by `addHeapEntry`) keeps the heap valid. It adds exactly one fresh, unmarked object with the given body at the head of the list, and the rest of the list and every other object stay. |
| Heap.Unlink | heap.c:36-56 | Succeeds iff the list is non-empty. The empty list fails with DeleteFromEmptyList. |
| Heap.UnlinkExact | heap.c:36-56 | On a list without duplicates, exactly the given entry leaves. The others keep their order and no duplicate appears. |
| Heap.ReachTransitive | heap.c:122-145 | Whatever an object reached from h reaches, h reaches too. |
| Heap.ReachAllTransitive | heap.c:129-143 | The same for the elements of an array. |
| Heap.ReachAllCovers | heap.c:129-143 | Every object-typed element's reach is inside what the elements reach. |
| Heap.ReachClosed | heap.c:122-145 | What an object reaches is closed under array references. |
| Heap.RootsReachClosed | heap.c:196-209 | What the roots reach is closed under array references. |
| Heap.RootsReachCovers | heap.c:196-209 | Every object a root refers to, with all it reaches, is reached from the roots. |
| Heap.MarkResult | heap.c:183-211 | After `gc_mark` the marked objects are exactly those the roots reach, the roots' own objects among them, closed under references. The list and the bodies do not change. |
| Heap.Survivors | heap.c:214-247 | The survivors of a list are no more than the list. |
| Heap.SurvivorsAppend | heap.c:214-247 | The survivors of a concatenation are the concatenation of the survivors, so relative order is kept. |
| Heap.SurvivorsMembers | heap.c:214-247 | The survivors are exactly the marked members of the list, each once. |
| Heap.SweepResult | heap.c:214-247 | After the sweep, over marks closed under references, the heap is valid. It holds exactly the marked objects, unchanged and in their old relative order. |
| Heap.StartGCResult | heap.c:250-254 | `startGC` is safe and complete: afterwards the heap is valid and holds exactly the objects reachable from stack slots 0..stack_top-1. Their contents are unchanged and their order kept. |
| HeapStore.ManagedHeap.constructor | heap.c:15 | The heap starts empty, with an empty list. |
| HeapStore.ManagedHeap.AddHeapEntry | heap.c:18-32 | The entry goes in front of the old head, and nothing else changes. |
| HeapStore.ManagedHeap.Allocate | heap.c:18-32 | The new state and handle are those of `Heap.Allocate`. |
| HeapStore.ManagedHeap.AllocString | heap.c:59-73 | The new state and handle are those of `Heap.AllocString`. |
| HeapStore.ManagedHeap.CatString | heap.c:76-99 | The new state and handle are those of `Heap.CatString`. |
| HeapStore.ManagedHeap.AllocArray | heap.c:102-119 | The new state and handle are those of `Heap.AllocArray`. |
| HeapStore.ManagedHeap.DeleteHeapEntry | heap.c:36-56 | The list becomes `Heap.Unlink`'s result, or the call fails with its error leaving the list alone. No object is freed. |
| HeapStore.ManagedHeap.ArrayMark | heap.c:122-145 | The recursive marking leaves exactly the marks `Heap.MarkArray` gives. |
| HeapStore.ManagedHeap.ClearMarks | heap.c:191-193 | The first loop of `gc_mark` clears every mark and changes nothing else. |
| HeapStore.ManagedHeap.MarkRoots | heap.c:195-209 | The second loop marks exactly the objects the roots reach. |
| HeapStore.ManagedHeap.GcMark | heap.c:183-211 | The new state is `Heap.Mark` of the old one. |
| HeapStore.ManagedHeap.FreeEntry | heap.c:236-243 | An unmarked entry is unlinked as `Heap.Unlink` says and removed from the arena. |
| HeapStore.ManagedHeap.GcSweep | heap.c:214-247 | The walk along the list leaves `Heap.Sweep` of the old state. |
| HeapStore.ManagedHeap.StartGC | heap.c:250-254 | The new state is `Heap.StartGC` of the old one, and the heap stays valid. |
| HeapStore.SweepStep | heap.c:220-245 | One step of the sweep over entry k keeps or unlinks it, and turns the state for the first k entries into the state for k + 1. |
| HeapStore.SweepDone | heap.c:220-245 | After the last entry, the state is the swept heap. |
| HeapStore.PrunedAll | heap.c:214-247 | Once the whole list is passed, exactly the marked objects are left. |
| HeapAsWritten.DeleteAsWritten | heap.c:36-56 | As written, deleting from the empty list fails with DeleteFromEmptyList. |
| HeapAsWritten.DeleteAsWrittenAgrees | heap.c:42-55 | Away from the tail, the code as written agrees with `Heap.Unlink`. At the tail it follows a NULL `next`, even in a one-element list. |
| HeapAsWritten.DeleteTailFails | heap.c:46-50 | Deleting the oldest object, which is at the tail, fails as written, while the intended unlink succeeds. |
| HeapAsWritten.ArraySweepAsWritten | heap.c:148-180 | `array_sweep` only ever removes objects from the live set, and the array stays live iff it is marked. |
| HeapAsWritten.ElementsSweep | heap.c:154-173 | The element loop only ever removes objects from the live set. |
| HeapAsWritten.ArraySweepFreesOnlyUnmarked | heap.c:148-180 | `array_sweep` frees no marked object and nothing outside what the array reaches. It frees the array iff the array is unmarked. |
| HeapAsWritten.ElementsFreesOnlyUnmarked | heap.c:154-173 | The element loop frees only unmarked objects that the array reaches. |
| HeapAsWritten.SweepSkipsNewHead | heap.c:227-230 | Two unreachable strings: the code frees the head and then skips the new head, which stays allocated. The intended sweep frees both. |
| HeapAsWritten.SweepAsWritten | heap.c:214-247 | The walk as written only frees: on success the live set only shrinks and the list keeps only entries it had. Every entry it unlinks was unmarked and is freed. |
| HeapAsWritten.SweepTailFails | heap.c:227-234 | An unmarked oldest object behind a marked head goes through heap.c:232-234 and follows the NULL `next` of heap.c:50. A lone unmarked object goes through heap.c:229 and follows the NULL `next` of heap.c:46. |
| HeapAsWritten.SweepFreesNewHead | heap.c:227-243 | An unmarked array at the head holding the only other, unmarked string: the head is unlinked and `pos` becomes the string, which `array_sweep` then frees, so the loop step reads a freed object. The intended sweep frees both. |
| HeapAsWritten.SweepReadsFreedElement | heap.c:164 | An unreachable array with an unreachable string element: `array_sweep` frees the string while it is still linked, so the walk reads a freed object. |
| Lexical.CharKind | lexical.c:78-112 | Letter iff the character is a letter, Digit iff it is a digit, and otherwise the symbol kind `init_char_kind` gives it (OTHERS if none). |
| Lexical.SymbolTableAgrees | lexical.c:99-110 | Each symbol assignment of `init_char_kind` gives its character the kind `SymbolKind` names, never OTHERS. |
| Lexical.AssignedPrefix | lexical.c:83-110 | After the first m assignments, a character has its symbol kind if one of them named it, and its letter/digit/OTHERS kind otherwise. |
| Lexical.SymbolKindInTable | lexical.c:99-110 | Every character with a symbol kind is named by some assignment. |
| Lexical.AssignedAll | lexical.c:78-112 | After all the assignments, the table is `char_kind`. |
| Lexical.Advance | lexical.c:115-139 | `nextChar` brings the cursor closer to the end unless it is already at EOF, which it keeps. The line count stays equal to the newlines read. |
| Lexical.SkipSpaces | lexical.c:158-164 | The whitespace loop stops at a lookahead that is no space, tab or newline. It keeps the line count. |
| Lexical.ReadWord | lexical.c:177-183 | The identifier loop returns the buffer extended by at least one character, at most MAX_LEN_IDENTIFIER long, and stops at a non-alphanumeric lookahead. It fails only by spinning. |
| Lexical.Keyword | lexical.c:196-213 | The keyword scan returns a kind only if some entry below END_OF_KEYWORD spells the word with that kind. It returns none only if no such entry spells it. |
| Lexical.ReadNumber | lexical.c:223-242 | The number loop extends the buffer, stops at a non-digit, and marks the literal double once a point is read. It fails only by spinning or on a second point. |
| Lexical.Int32Wrap | lexical.c:257 | The conversion of a long to int lands in the 32-bit range and is congruent to its input modulo 2^32. |
| Lexical.NumberToken | lexical.c:247-259 | Fails iff the literal has MAX_LEN_NUMBER_LITERAL characters or more. Otherwise the kind is DOUBLE_LITERAL or INT_LITERAL as a point was read. |
| Lexical.ReadString | lexical.c:439-449 | The string loop extends the buffer with characters other than `"` and stops with `"` as lookahead. It fails only by spinning. |
| Lexical.StringToken | lexical.c:451-466 | Fails iff the buffer has filled up. Otherwise it is a STRING_LITERAL holding exactly the characters read. |
| Lexical.SkipToStar | lexical.c:323-326 | The inner loop of a block comment stops at a `*`, or fails by spinning. |
| Lexical.BlockComment | lexical.c:321-331 | A block comment moves the cursor strictly forward, or fails by spinning. |
| Lexical.LineComment | lexical.c:332-336 | A line comment stops at the newline that ends it, or fails by spinning. |
| Lexical.Scan | lexical.c:142-477 | `st_nextToken` never moves the cursor backwards and keeps the line count. |
| Lexical.Dispatch | lexical.c:172-473 | The case split on the first character's kind never moves the cursor backwards and keeps the line count. |
| Lexical.ScanLetter | lexical.c:175-219 | A scan at a letter is the word case. |
| Lexical.ScanDigit | lexical.c:221-261 | A scan at a digit is the number case. |
| Lexical.ScanQuote | lexical.c:436-466 | A scan at `"` is the string case. |
| Lexical.ScanSlashStar | lexical.c:321-331 | A scan at `/*` skips the block comment and scans again after it. |
| Lexical.ScanSlashSlash | lexical.c:332-336 | A scan at `//` skips the line comment and scans again at its newline. |
| Lexical.ScanSymbol | lexical.c:263-472 | A scan at any other character is the symbol case for its kind. |
| Lexical.NumberFrom | lexical.c:244-259 | Once the number loop has stopped, the token is `NumberToken` of the digits read. |
| Lexical.QuotedFrom | lexical.c:451-466 | Once the string loop has stopped, the token is `StringToken` of the characters read, and the closing quote is consumed. |
| Lexical.NumberFails | lexical.c:223-242 | A failing number loop fails the scan with the same error. |
| LexicalProperties.At | lexical.c:115-139 | The cursor at position i has `src[i]` as lookahead, or EOF at the end, with every newline up to it counted. |
| LexicalProperties.AdvanceAt | lexical.c:133-136 | `nextChar` moves from `src[i]` to `src[i+1]` and bumps the line count iff that character is a newline. |
| LexicalProperties.StartAt | lexical.c:543-550 | After `initSource`, the first character read is `src[0]`. |
| LexicalProperties.ScanAtEnd | lexical.c:166-170 | At EOF every scan yields END_OF_FILE and leaves the cursor where it is. |
| LexicalProperties.SkipSpacesAt | lexical.c:158-164 | From `src[i]`, the whitespace loop stops at the first character at or after i that is no space, tab or newline. |
| LexicalProperties.ReadWordRun | lexical.c:177-183 | Over a run of letters and digits, the identifier loop stores the run and stops at the first other character. |
| LexicalProperties.ReadWordLong | lexical.c:177-183 | A run longer than the identifier buffer makes the loop spin. |
| LexicalProperties.ScanWord | lexical.c:175-219 | A letter followed by letters and digits is one word token, and the scan stops right after it. Beyond MAX_LEN_IDENTIFIER characters the C loops forever. |
| LexicalProperties.KeywordFirstMatch | lexical.c:196-213 | The keyword scan stops at the first entry spelt like the word. |
| LexicalProperties.SymbolEntriesNotWords | lexical.c:33-47 | No entry of the table from index 28 on (the end-of-keyword marker and the symbols) is spelt like a word of letters and digits. |
| LexicalProperties.WordMeaning | lexical.c:195-218 | A word spelt like a `keyword_table` entry has the kind of the first such entry, with `true` and `false` carrying their value. Every other word is an IDENTIFIER naming itself. |
| LexicalProperties.DigitRun | lexical.c:223-242 | Over a run of digits ending at neither a digit nor `.`, the number loop stores the run and stops there. |
| LexicalProperties.PointAfterRun | lexical.c:226-231 | A point after the digits is stored and makes the literal double. The loop goes on iff a digit follows. |
| LexicalProperties.SecondPointRun | lexical.c:232-235 | In a double, a point after the digits is fatal. |
| LexicalProperties.NumberInt | lexical.c:244-259 | A digit run with no point is an INT_LITERAL with the `strtol` value, or fatal at MAX_LEN_NUMBER_LITERAL digits. |
| LexicalProperties.ScanInt | lexical.c:221-261 | The same for a scan from the first digit. |
| LexicalProperties.NumberDouble | lexical.c:221-261 | Digits, one point and digits form a DOUBLE_LITERAL holding that text. |
| LexicalProperties.DoubleRun | lexical.c:223-242 | The number loop over digits, a point and digits stores them all and marks a double. |
| LexicalProperties.ScanDouble | lexical.c:221-261 | The same double literal for a scan from the first digit. |
| LexicalProperties.NumberSecondPoint | lexical.c:232-235 | A second point after the digits of a double is fatal. |
| LexicalProperties.SecondPointStops | lexical.c:232-235 | The number loop fails at that second point. |
| LexicalProperties.ScanSecondPoint | lexical.c:221-261 | A scan over such a literal fails with MultiplePoints. |
| LexicalProperties.IntValueSmall | lexical.c:257 | Below 2^31, the value of an INT_LITERAL is the decimal value of its digits. |
| LexicalProperties.StringRun | lexical.c:439-449 | The string loop stores everything up to the closing quote. |
| LexicalProperties.QuotedString | lexical.c:436-466 | A quote, characters other than a quote and a closing quote form a STRING_LITERAL of exactly the characters between the quotes, the closing quote consumed. |
| LexicalProperties.ScanString | lexical.c:436-466 | The same literal for a scan from the opening quote. A backslash is one of the characters. |
| LexicalProperties.SkipToStarRun | lexical.c:323-326 | The inner comment loop stops at the first `*` at or after the cursor. |
| LexicalProperties.BlockCommentRun | lexical.c:321-331 | A block comment ends right after the first `*/` that follows. |
| LexicalProperties.ScanBlockComment | lexical.c:314-331 | A block comment yields no token: the scan is the scan after its closing `*/`. |
| LexicalProperties.LineCommentRun | lexical.c:332-336 | A line comment stops at the first newline after it. |
| LexicalProperties.ScanLineComment | lexical.c:314-336 | A line comment yields no token: the scan is the scan at its newline. |
| LexicalProperties.ScanPastLineComment | lexical.c:332-336 | A scan over a line comment that has been skipped is the scan after it. |
| LexicalProperties.TableLayout | lexical.c:18-49 | `keyword_table` has 66 entries. Indices 28 to 44 hold the end-of-keyword marker, the assignments and the punctuation, and the operators follow from index 45. |
| LexicalProperties.PunctuationEntry | lexical.c:34-38 | Each assignment and punctuation entry of the table is lexed as the entry says. |
| LexicalProperties.OperatorEntry | lexical.c:39-47 | Each operator entry is lexed as the entry says. |
| LexicalProperties.LogicOperatorEntry | lexical.c:39-43 | `\| & \|\| && == != > >= < <=` are each lexed as their entry says. |
| LexicalProperties.ArithmeticOperatorEntry | lexical.c:44-46 | `+ - * / % ! ** ++ --` are each lexed as their entry says. |
| LexicalProperties.SymbolEntry | lexical.c:33-47 | Entries 29 to 63 of the table spell the symbols and operators, and each is lexed as its entry says. |
| LexicalProperties.SecondSpelled | lexical.c:263-434 | Every two-character operator the lexer forms is spelt in the table. |
| LexicalProperties.SecondIsTable | lexical.c:263-434 | The two-character operators of the lexer are exactly the two-character spellings in the table. |
| LexicalProperties.SymbolChar | lexical.c:98-110 | A symbol character is no letter, digit, white space or double quote, and `char_kind` gives it its symbol kind. |
| LexicalProperties.SymbolOperator | lexical.c:263-434 | The symbol case over a two-character operator from the table yields that operator and consumes both characters. |
| LexicalProperties.ScanOperator | lexical.c:263-434 | A two-character operator spelt in the table is read as one token, by longest match. |
| LexicalProperties.SymbolSingle | lexical.c:356-382 | The symbol case over a character that forms no operator: a lone `\|` or `&` is fatal, and any other character is its own kind. |
| LexicalProperties.ScanSingle | lexical.c:469-472 | Any other single character is read alone: a lone `\|` or `&` is fatal, a symbol is its own kind, and anything else is OTHERS. |
| LexicalStore.ClearKinds | lexical.c:83-85 | The first loop of `init_char_kind` sets every entry to OTHERS. |
| LexicalStore.MarkAlnum | lexical.c:88-96 | The letter and digit loop gives exactly the letters and digits their kinds. |
| LexicalStore.MarkSymbols | lexical.c:99-110 | The symbol assignments leave the whole table equal to `char_kind`. |
| LexicalStore.LookupWord | lexical.c:187-218 | The truncation and the keyword scan loop yield `WordToken` of the buffer. |
| LexicalStore.Lexer.constructor | lexical.c:543-550 | `initSource` puts the cursor at the start, with a newline as lookahead. The two tokens are the zero tokens. |
| LexicalStore.Lexer.InitCharKind | lexical.c:78-112 | Afterwards the `char_kind` array is set up. |
| LexicalStore.Lexer.NextChar | lexical.c:115-139 | The cursor moves as `Lexical.Advance` says, and the tokens stay. |
| LexicalStore.Lexer.KindOf | lexical.c:173 | The result is the kind of the lookahead, OTHERS for EOF. |
| LexicalStore.Lexer.SkipWhitespace | lexical.c:158-164 | The cursor moves as `Lexical.SkipSpaces` says. |
| LexicalStore.Lexer.ReadIdentifier | lexical.c:177-183 | The word and the new cursor are those of `Lexical.ReadWord`. |
| LexicalStore.Lexer.ReadNumberLiteral | lexical.c:223-242 | The digits, the double flag and the new cursor are those of `Lexical.ReadNumber`. |
| LexicalStore.Lexer.ReadStringLiteral | lexical.c:439-449 | The characters and the new cursor are those of `Lexical.ReadString`. |
| LexicalStore.Lexer.SkipBlockComment | lexical.c:321-331 | The cursor moves as `Lexical.BlockComment` says. |
| LexicalStore.Lexer.SkipLineComment | lexical.c:332-336 | The cursor moves as `Lexical.LineComment` says. |
| LexicalStore.Lexer.ReadSymbol | lexical.c:263-434 | The token and the cursor are those of the symbol case. |
| LexicalStore.Lexer.ReadQuoted | lexical.c:436-466 | The token and the cursor are those of the string case. |
| LexicalStore.Lexer.ReadNumberToken | lexical.c:221-261 | The token and the cursor are those of the number case. |
| LexicalStore.Lexer.ReadWordToken | lexical.c:175-219 | The token and the cursor are those of the word case. |
| LexicalStore.Lexer.Round | lexical.c:156-473 | One pass of `st_nextToken` either settles the scan's token, or skips a comment towards the same token. |
| LexicalStore.Lexer.AfterFirst | lexical.c:263-472 | After a symbol or comment character, the pass behaves as `Round` says. |
| LexicalStore.Lexer.BlockPass | lexical.c:321-331 | A block comment pass behaves as `Round` says. |
| LexicalStore.Lexer.LinePass | lexical.c:332-336 | A line comment pass behaves as `Round` says. |
| LexicalStore.Lexer.StNextToken | lexical.c:142-477 | The token and the cursor are those of `Lexical.Scan`, and the two stored tokens stay. |
| LexicalStore.Lexer.NextToken | lexical.c:480-492 | The token is `Lexical.Scan`'s and becomes current, and `prevToken` returns the old current token. |
| LexicalStore.Lexer.CheckGetToken | lexical.c:498-516 | On the expected kind, the next token as `nextToken` gives it. Otherwise a syntax error, or an invalid-character error when OTHERS was expected. |
| LexicalStore.Lexer.CheckGetToken2 | lexical.c:520-538 | The same for two kinds, except that the invalid-character error depends on the token's own kind. |
| Bytecode.Patched | generate.h:71 | Patching keeps the length and instruction p's opcode, sets p's jump target, and leaves every other instruction unchanged. |
| Bytecode.ExtendsTransitive | generate.h:65-72 | The "nothing removed, reordered or re-coded" relation between buffers composes. |
| Bytecode.AppendExtends | generate.h:66-70 | Appending keeps the old buffer as a prefix. |
| Bytecode.PatchExtends | generate.h:71 | Patching removes or reorders nothing and changes only a jump target. |
| Bytecode.CodeBuffer.constructor | generate.c:15-16 | The buffer starts empty. |
| Bytecode.CodeBuffer.Append | generate.c:15-18 | Succeeds iff the size is below MAX_CODE_SIZE. Then it returns the old size as the index and the contents gain exactly the instruction at the end. Otherwise nothing changes. |
| Bytecode.CodeBuffer.GenCodeValue | generate.h:66 | As `Append`, with the opcode and the value. |
| Bytecode.CodeBuffer.GenCodeTable | generate.h:67 | As `Append`, with the opcode and the name-table index. |
| Bytecode.CodeBuffer.GenCodeCalc | generate.h:68 | As `Append`, with the opcode and no operand. |
| Bytecode.CodeBuffer.GenCodeJump | generate.h:69 | As `Append`, with the opcode and the jump target. |
| Bytecode.CodeBuffer.GenCodeReturn | generate.h:70 | As `Append`, with RETURN. |
| Bytecode.CodeBuffer.NextCode | generate.h:72 | Returns the index the next instruction will get, which is the number emitted, and emits nothing. |
| Bytecode.CodeBuffer.BackPatch | generate.h:71 | Instruction p now jumps to the next index, as `Patched` says. |
| Bytecode.CodeBuffer.BackPatchTo | compile.c:631 | Instruction p now jumps to the given target, as `Patched` says. |
| Compile.Expect | lexical.c:498-516 | Succeeds iff the lookahead has the kind, and then steps past it. Otherwise a syntax error, or an invalid-character error when OTHERS was expected. |
| Compile.Expect2 | lexical.c:520-538 | The same for either of two kinds, with the invalid-character error chosen by the lookahead's kind. |
| Compile.Lift | table.c:40 | A fatal table exit becomes a compile failure carrying it. Success is passed through. |
| Compile.Emit | generate.c:18 | A `genCode` call succeeds iff the buffer has room. It appends exactly the instruction and changes nothing else, or fails with CodeOverflow. |
| Compile.Patch | generate.h:71 | `backPatch(p)` on the compiler state patches p to the next index and changes nothing else. |
| Compile.PatchAll | compile.c:487-489 | Patching a list of labels to one target sets exactly those labels' targets, opcodes kept, and leaves every other instruction. |
| Compile.PatchEach | compile.c:578-582 | The same on a whole state. |
| Compile.LoopEnd | compile.c:631-633 | At the end of a loop, every pending break jumps to the next index and every pending continue to the loop label. Nothing else in the code changes, and nothing stays pending. |
| Compile.Expression | compile.c:711-722 | `expression` consumes at least one token and only appends code. |
| Compile.BinaryLevel | compile.c:711-870 | Each level of the chain consumes at least one token and only appends code. |
| Compile.Operand | compile.c:711-870 | The operand of a level consumes at least one token and only appends code. |
| Compile.BinaryRest | compile.c:714-720 | The operator loop of a level only appends code. |
| Compile.BinaryStep | compile.c:716-719 | One turn of that loop consumes the operator and only appends code. |
| Compile.SkipPrefix | compile.c:876-881 | The optional prefix operator is at most one token and changes nothing else. |
| Compile.SkipSuffix | compile.c:887-890 | The optional suffix operator is at most one token and changes nothing else. |
| Compile.UnaryExpression | compile.c:873-892 | Consumes at least one token and only appends code. |
| Compile.Term | compile.c:895-927 | Consumes at least one token and only appends code. |
| Compile.ParenTerm | compile.c:913-917 | The parenthesised case consumes its tokens and only appends code. |
| Compile.CommaExpression | compile.c:691-708 | Consumes at least one token and only appends code. |
| Compile.CommaRest | compile.c:696-707 | The comma loop only appends code. |
| Compile.CommaItem | compile.c:697-698 | One comma and expression only append code. |
| Compile.CommaMore | compile.c:699-706 | The POP-or-stop decision only appends code. |
| Compile.Parenthesised | compile.c:429-431 | `(` expression `)` consumes its tokens and only appends code. |
| Compile.Condition | compile.c:429-435 | The condition and its open JUMP_IF_FALSE only append code, at least one instruction. |
| Compile.AssignStatement | compile.c:360-421 | The assignment or expression statement consumes tokens and only appends code. An assignment operator after a name that is neither a variable nor a parameter is the fatal error AssignToConstant. |
| Compile.AssignValue | compile.c:375-414 | Only appends code. The last instruction is POP_VARIABLE of the target, and for a compound operator the first one is PUSH_VALUE of the target. |
| Compile.AssignStore | compile.c:393-414 | Appends exactly the operator's opcode (none for `=`) and POP_VARIABLE of the target, and nothing else. |
| Compile.Assignment | compile.c:280-286 | The IDENTIFIER case of `statement`: the code only grows and no jump becomes pending. |
| Compile.Statement | compile.c:273-357 | Consumes at least one token, and the code before stays unchanged. |
| Compile.CompoundStatement | compile.c:287-311 | The keyword statements consume tokens and keep the code before. |
| Compile.JumpStatement | compile.c:312-333 | `break`/`continue` append exactly JUMP 0 and record it as a pending break or continue. |
| Compile.ReturnStatement | compile.c:334-344 | `return` consumes its tokens and only appends code. |
| Compile.Block | compile.c:244-270 | A block consumes tokens up to its closing brace and keeps the code before. |
| Compile.BlockItem | compile.c:246-268 | One turn of the block loop keeps the code before. |
| Compile.Item | compile.c:253-267 | A declaration or statement keeps the code before. |
| Compile.StatementList | compile.c:547-552 | The statement loop keeps the code before and stops at one of its stop tokens. |
| Compile.StatementSeq | compile.c:547-552 | One statement of that loop and the rest keep the code before and stop at a stop token. |
| Compile.BranchHead | compile.c:429-438 | The condition, its JUMP_IF_FALSE and the brace only append code, at least one instruction. |
| Compile.BranchEnd | compile.c:446-452 | Appends the branch's JUMP to the end and patches the branch's false jump past it, changing nothing else. |
| Compile.IfStatement | compile.c:424-492 | The if statement consumes tokens and keeps the code before. |
| Compile.IfRest | compile.c:438-489 | After the condition, only the branch's false jump of the code before changes. |
| Compile.IfBody | compile.c:438-442 | The first body keeps the code before. |
| Compile.IfBodyAsWritten | compile.c:439-442 | As written, the first branch fails on every input: its loop stops at no token, so every if statement fails. |
| Compile.ElsifChain | compile.c:455-489 | The elsif chain changes only the end jumps of the code before, and those all land at the end of the statement. |
| Compile.ElsifBranch | compile.c:455-465 | One elsif head, then the rest, retargeting the end jumps to the end. |
| Compile.ElsifRest | compile.c:466-475 | An elsif body, its end jump and false-jump patch, and the rest of the chain. |
| Compile.ElseTail | compile.c:479-489 | The optional else part and the patching of every end jump to the end. |
| Compile.ElseBlock | compile.c:479-484 | The else block keeps the code before. |
| Compile.SwitchStatement | compile.c:495-585 | The switch statement consumes tokens and keeps the code before. |
| Compile.CaseClauses | compile.c:508-583 | The case clauses change only the end jumps of the code before, which all land after the closing brace. |
| Compile.CaseClause | compile.c:508-562 | One clause, then the rest, with the same end-jump guarantee. |
| Compile.CaseHead | compile.c:513-544 | The values, `:` and the jumps keep the code before and append at least one instruction. |
| Compile.CaseJump | compile.c:533-543 | Appends one JUMP 0 (the no-match jump) and patches every true jump of the clause to the next index. |
| Compile.CaseValues | compile.c:513-531 | The values of one clause only append code. The labels returned are the given ones followed by new ones, all inside the code. |
| Compile.CaseValue | compile.c:513-520 | One case value only appends code. Its first instruction is DUPLICATE and its last two are EQUAL and an open JUMP_IF_TRUE. |
| Compile.CaseTest | compile.c:517-520 | Appends exactly EQUAL and an open JUMP_IF_TRUE. |
| Compile.CaseBody | compile.c:546-560 | The clause statements, the end jump and the no-match patch keep the code before except those labels. |
| Compile.SwitchEnd | compile.c:564-583 | The default clause, brace and end-jump patching retarget every end jump to after the switch. |
| Compile.SwitchClose | compile.c:575-582 | The closing brace, then exactly the end jumps patched to the next index. |
| Compile.DefaultClause | compile.c:565-572 | The default clause keeps the code before. |
| Compile.ForStatement | compile.c:588-635 | The for statement consumes tokens and keeps the code before. |
| Compile.ForRest | compile.c:603-634 | The condition, update and body keep the code before. |
| Compile.ForBody | compile.c:612-634 | The update, brace and loop end keep the code before. |
| Compile.ForUpdate | compile.c:610-620 | The JUMP_IF_FALSE, the update and the brace only append code. |
| Compile.ForClause | compile.c:595-609 | One clause of the header only appends code. |
| Compile.WhileStatement | compile.c:638-662 | The while statement consumes tokens and keeps the code before. |
| Compile.LoopTail | compile.c:651-661 | The loop end keeps the code before except the exit jump, which lands after the loop. The enclosing loop's pending jumps are back. |
| Compile.DoWhileStatement | compile.c:665-687 | The do-while statement keeps the code before and the enclosing loop's pending jumps. |
| Compile.DoWhileTail | compile.c:676-682 | `while (e)` and its jump only append code. |
| Compile.LiteralValue | compile.c:89-114 | Only literal tokens succeed, and anything else is a syntax error. Only a string literal touches the heap. |
| Compile.VarDecl | compile.c:70-140 | The code only grows and no jump becomes pending. |
| Compile.VarMore | compile.c:124-131 | The comma decision keeps that guarantee. |
| Compile.VarItem | compile.c:79-122 | One name and initialiser keep that guarantee. |
| Compile.VarName | compile.c:81-83 | The name changes only the position and the table. |
| Compile.Declare | compile.c:83 | `addTableVar` changes only the table. |
| Compile.Initialiser | compile.c:86-121 | An initialiser appends exactly two instructions. |
| Compile.InitialiserCode | compile.c:116-120 | The two instructions are PUSH_IMMEDIATE of the value and POP_VARIABLE of the variable, after one token. |
| Compile.ConstDecl | compile.c:143-206 | A constant declaration emits no code. It changes only the position, the table and the heap. |
| Compile.ConstMore | compile.c:191-205 | The comma decision keeps that guarantee. |
| Compile.ConstItem | compile.c:150-187 | One constant keeps that guarantee. |
| Compile.ConstValue | compile.c:160-187 | The literal and `addTableConst` consume one token and change only the table and the heap. |
| Compile.ConstDeclAsWritten | compile.c:152-158 | As written, a constant declaration always fails: with a syntax error when a name is present, otherwise with the missing-identifier exit. |
| Compile.FuncDecl | compile.c:209-241 | A function declaration keeps the code before. |
| Compile.FuncParams | compile.c:216-236 | The optional parameter list changes only the position. |
| Compile.Params | compile.c:221-231 | The parameter names change only the position. |
| Compile.FuncBody | compile.c:239-240 | The body keeps the code before. |
| Compile.Toplevel | compile.c:45-66 | The corrected top level consumes the whole input and keeps the code before. |
| Compile.TopItem | compile.c:47-64 | One turn of the top-level loop keeps the code before. |
| Compile.TopItemAsWritten | compile.c:47-64 | One turn as written consumes at least one token. |
| Compile.Start | compile.c:36-38 | The first state is at position 0 with empty code and nothing pending. |
| Compile.Compile | compile.c:33-42 | A successful compilation consumes the whole input. |
| CompileProperties.LevelOf | compile.c:711-870 | Every kind has a level of at most 7, where 7 means no binary operator. |
| CompileProperties.LevelOfOp | compile.c:711-870 | A kind is an operator of level n iff n is its level, so each operator belongs to exactly one level. |
| CompileProperties.LevelStep | compile.c:711-870 | A level is its operand followed by its loop. |
| CompileProperties.RestDone | compile.c:714-720 | A level's loop stops at a token that is not one of its operators. |
| CompileProperties.OperandStep | compile.c:711-870 | Below the tightest level, the operand is the next level. |
| CompileProperties.ExpressionStep | compile.c:711-722 | `expression` is the loosest level. |
| CompileProperties.RestTurn | compile.c:716-719 | One turn of a level's loop: the operator, the operand, then the opcode. |
| CompileProperties.UnaryStep | compile.c:873-892 | A term without prefix or suffix operators is a unary expression. |
| CompileProperties.ParenStep | compile.c:913-917 | `(` comma-expression `)` is a term. |
| CompileProperties.CommaStep | compile.c:691-708 | A comma expression of one expression is it with its POP. |
| CompileProperties.ExpressionPostfix | compile.c:711-870 | The main theorem: compiling the tokens of any tree the chain parses gives exactly its post-order code, with both operands before the opcode, the precedence of the levels and left association, whatever the state before. |
| CompileProperties.Chain | compile.c:711-870 | Level m compiles a tree of level m or tighter and leaves its loop after the tree. |
| CompileProperties.ChainBinary | compile.c:711-870 | An operator of level m: its left operand through the loop, then one turn. |
| CompileProperties.TurnOf | compile.c:716-719 | One turn over an operator token and a right operand of a tighter level appends the operand's code, then the opcode. |
| CompileProperties.OperandOf | compile.c:711-892 | The operand of level m compiles a tree of a tighter level whole. |
| CompileProperties.OperandLevel | compile.c:711-870 | Below the tightest level, that operand is the next level, which stops after the tree. |
| CompileProperties.AtomUnary | compile.c:895-905 | An operand token is consumed and emits nothing. |
| CompileProperties.ParenUnary | compile.c:913-917 | A parenthesised tree as a unary expression gives its code with the POP. |
| CompileProperties.ParenOf | compile.c:913-917 | The `(` case of `term` gives the inner code followed by POP. |
| CompileProperties.CommaOf | compile.c:691-708 | A comma expression of one tree gives its code followed by POP. |
| CompileProperties.AssignOf | compile.c:360-414 | An assignment with any operator to a variable or parameter, whose right-hand side is a tree, gives exactly its whole code: PUSH_VALUE of the target for a compound operator, the tree's post-order code, POP, the operator's opcode (none for `=`), then POP_VARIABLE of the target. |
| CompileProperties.AssignStep | compile.c:375-392 | With a variable or parameter target, the assignment is the optional PUSH_VALUE, the comma expression, then the store. |
| CompileProperties.StoreOf | compile.c:393-414 | With room for two instructions, the store appends exactly the opcode and POP_VARIABLE. |
| CompileProperties.CaseValueOf | compile.c:513-520 | A case value that is a tree gives exactly DUPLICATE, the tree's post-order code, EQUAL and JUMP_IF_TRUE 0, and consumes the keyword or comma and the tree. |
| CompileProperties.CaseValueStep | compile.c:513-520 | A case value is DUPLICATE, the expression, then EQUAL and JUMP_IF_TRUE 0. |
| CompileProperties.LoopTailJumps | compile.c:651-661 | The end of while and for, once the body compiles: it fails iff the back jump overflows, with CodeOverflow. Otherwise it appends JUMP to the loop label, patches the exit jump past it, sends every break there and every continue to the loop label, and changes nothing else. |
| CompileProperties.LoopEndJumps | compile.c:654-661 | The back jump, exit patch and LoopEnd together close the loop as that lemma says. |
| CompileProperties.ParenthesisedOf | compile.c:429-431 | A parenthesised condition compiles to its expression's post-order code. |
| CompileProperties.ParenthesisedStep | compile.c:429-431 | `(` expression `)` once the expression is compiled. |
| CompileProperties.BranchHeadOf | compile.c:429-438 | The head of an if, elsif or while is the condition's code, then JUMP_IF_FALSE 0, and the brace is consumed. |
| CompileProperties.DoWhileTailOf | compile.c:676-682 | The tail of a do-while is `while`, the condition's code and JUMP_IF_TRUE to the loop label. |
| CompileExamples.LogicalLevels | compile.c:714-731 | `\|\|` and `or` are level 0 with LOGICAL_OR. `&&` and `and` are level 1 with LOGICAL_AND. |
| CompileExamples.RelationalLevels | compile.c:739-798 | `==` and `!=` are level 2. `>`, `>=`, `<` and `<=` are level 3. |
| CompileExamples.ArithmeticLevels | compile.c:801-870 | `+` and `-` are level 4. `*`, `/`, `%` and `mod` are level 5, with `mod` emitting MOD. `**` is level 6. |
| CompileExamples.LeansLeft | compile.c:801-824 | `(a - b) - c` is a tree the chain parses and `a - (b - c)` unbracketed is not, so a level leans left. |
| CompileExamples.MixedExpression | compile.c:801-857 | `a - a * a + a` compiles to MUL, SUB, ADD. |
| CompileFindings.ToplevelAsWrittenFails | compile.c:47-65 | As written, every program ends in a compile error. |
| CompileFindings.EmptyProgram | compile.c:45-66 | The empty program fails as written, while the corrected top level accepts it and emits nothing. |
| CompileFindings.EmptyIfBody | compile.c:439-442 | The body `}` fails as written, while the corrected loop ends at the brace and consumes it. |
| CompileFindings.ConstDeclAsWrittenRejects | compile.c:158 | `a = 1` is a syntax error as written. |
| CompileFindings.ConstDeclAccepts | compile.c:143-206 | Corrected, `a = 1` makes the constant a with value 1 the newest entry and emits no code. |

## Left out

- The in-memory source differs from the C at the end of a line in two ways:
  - a last line without a final '\n' is lost in the C. `fgets` (lexical.c:121) sets the end-of-file flag while fetching it, so the `feof` test of lexical.c:167 returns END_OF_FILE before the line's first token. The model lexes that line.
  - a line longer than 199 characters overruns the 200-byte line buffer (lexical.c:121, 130). `line_index` is reset only at a '\n', so `nextChar` returns the terminating '\0', which `char_kind` classes as OTHERS, and then reads past the buffer. The model reads the line whole.
- File I/O is replaced by an in-memory source whose end is EOF: `openSource`, `closeSource`, `fgets`, `feof` and the 'End of source file' message (lexical.c:61-75, 120-127). `printToken` (lexical.c:554-577) is debug output. The `printf` of compile.c:35 and every diagnostic on stderr are left out too.
- `strtod` and floating point are not modelled. A double literal keeps its text (lexical.c:255).
- memory.c and `MEM_*`: freeing is removal from the arena, and allocation failure is not modelled.
- The virtual machine (execute.c) and the stack effects documented in generate.h:19-51 are not modelled. The GC roots are a parameter: stack slots 0..stack_top-1.
- `getDisplayAt`/`setDisplayAt` are declared in table.h:70-71, but table.c does not define them.
- The `union` payloads of tokens, values and name-table entries are kept as separate fields. Reading a member other than the one written is not modelled.
- The `Lexer` class and the `Compile` functions are not connected: the compiler reads a token sequence that a lexer run is assumed to have produced.
- compile.c is modelled as functions over an explicit state, not as an imperative procedure over a global `token`: a state value carries the lookahead position, the code and the table.
- `addBreakLabel`, `addContinueLabel`, `backPatchBreakLabels` and `backPatchContinueLabels` are not in the source. They are modelled as lists of pending jumps, which each loop patches for its own body. Break or continue outside a loop is not reported as an error.
- `funcDecl` as written enters nothing into the table and emits no code around the body. The model does the same and adds no function call or frame code.
- `varDecl` takes the variable's name from the token after the identifier, and it leaves the literal of an initialiser as the lookahead (compile.c:80-82, 90-121). The model takes the identifier's own name and consumes the literal.
- The double literal that `varDecl` and `constDecl` store into `int_value` (compile.c:97, 168) keeps its value. The write through the uninitialised `value_temp.u.object` before `alloc_string` (compile.c:101, 172) is left out.
- Code that does not compile as written is modelled as its evident intent:
  - The second `ADD_ASSIGN` case (compile.c:405-407) is taken as `DIV_ASSIGN`.
  - The IDENTIFIER case of `statement` calls `assign_statement` twice, once without an argument (compile.c:281-284). It is taken as one search, one step past the name and one call with the index.
  - `MEM_realloc` is called with a size only in `switch_statement` (compile.c:519, 530, 556). The label lists are taken to grow by one entry.
- `if_statement` reallocates `if_end_labels` before setting it (compile.c:447). The model starts the list empty.
- `cat_string` calls `strcat` into a buffer `malloc` did not zero (heap.c:88-90). The model takes the intended concatenation.
- The getters of table.c read `name_table[index]` without a bounds check. The model requires an index inside the array.
- The lexer loops that spin for ever on an over-long identifier or string, or an unterminated comment, return `Diverges` instead of looping.
- Heaps in which an array holds a newer object are excluded, not only cyclic ones: `Heap.Valid` requires every array to refer only to older objects. `Heap.MarkResult`, `Heap.SweepResult` and `Heap.StartGCResult` therefore cover only such heaps, although storing a newer object into an older array element produces an acyclic heap outside them.
- HeapAsWritten.SweepAsWritten: its contract states that the walk only frees and that every unlinked entry was unmarked and is freed. It does not state which entries survive, because as written that depends on the skipped new head. The four `Sweep` lemmas of `HeapAsWritten` show where it departs from `Heap.Sweep`, each on a concrete input.
- Table.ParEnd: its own contract states only that the table stays well formed. The addresses it assigns are stated by `TableProperties.ParEndAssigns` and `FunctionParameters`.
- Table.Search: its own contract states only well-formedness and a bound on the index. What it finds is stated by `TableProperties.SearchFindsNewest` and `SearchMissing`.
- Table.IncBreakCount: its own contract names only when it succeeds. The returned count is stated by `TableProperties.CountersPerLevel`.
- Table.IncContinueCount: its own contract names only when it succeeds. The returned count is stated by `TableProperties.CountersPerLevel`.
- Lexical.Scan: its own contract states only that the cursor does not move back and the line count is kept. The token each kind of input yields is stated by the `LexicalProperties` lemmas, per token kind of the first character.
- Lexical.Dispatch: like `Lexical.Scan`, its contract states only that the cursor does not move back and the line count is kept. The `LexicalProperties` lemmas state the tokens.
- Compile.Expression: its contract states progress and that code is only appended. The exact code is stated by `CompileProperties.ExpressionPostfix` for inputs that are the tokens of a parse tree.
- Compile.AssignStatement: its contract states progress, that code is only appended and the AssignToConstant error. The exact code is stated by `CompileProperties.AssignOf`, only when the right-hand side is the tokens of one parse tree with no top-level comma.
- Compile.IfStatement: its contract states only that the code before is kept. The parts are stated separately: the branch heads by `BranchHeadOf`, the branch ends by `Compile.BranchEnd`, the end jumps by `Compile.ElsifChain`. There is no single lemma about the code of a whole if statement.
- Compile.SwitchStatement: its contract states only that the code before is kept. The parts are stated separately: one case value by `Compile.CaseValue` and `CompileProperties.CaseValueOf`, the jumps by `Compile.CaseJump` and `Compile.SwitchClose`. There is no single lemma about the code of a whole switch statement.
- Compile.WhileStatement: its contract states only that the code before is kept. The head and the closing jumps are stated by `BranchHeadOf` and `LoopTailJumps`.
- Compile.ForStatement: its contract states only that the code before is kept. The closing jumps are stated by `LoopTailJumps`.
- Compile.DoWhileStatement: its contract states the kept code and pending jumps. The tail jump is stated by `DoWhileTailOf`.
- Compile.Statement: its contract states progress and that the code before is kept, not the code emitted.
- Compile.Block: its contract states progress and that the code before is kept, not the code of the statements inside.
- Compile.VarDecl: its contract states that code only grows and no jump becomes pending. The code of one initialiser is stated by `Compile.InitialiserCode`, and the table entries by `TableProperties.VarsConsecutive`.
- Compile.ConstDecl: its contract states that no code is emitted and only the table and the heap change. The entry made is shown on an example by `CompileFindings.ConstDeclAccepts`.
- Compile.FuncDecl: its contract states only that the code before is kept, because as written a function declaration records nothing.
- Compile.Compile: its contract states only that a successful compilation consumes every token. The code is stated piecewise by the lemmas above.

## Findings

| source | as written | input that shows it | evidently intended | confidence | as-written member | corrected member |
|---|---|---|---|---|---|---|
| compile.c:45-66 | `toplevel` loops `while (1)` with no exit, so the end of the input reaches `statement` and a syntax error | the empty program | stop at END_OF_FILE | not executed | CompileFindings.ToplevelAsWrittenFails | Compile.Toplevel |
| compile.c:439-442 | the if-body loop tests `kind != '}' \|\| kind != 'end'`, which always holds | the body `}` | stop at the closing brace and consume it, as `block` does. With `&&` alone the loop would stop at `}` and leave it, so the tests for `elsif` and `else` that follow would see the `}` and never match | not executed | Compile.IfBodyAsWritten | CompileFindings.EmptyIfBody |
| compile.c:152-158 | `constDecl` calls `checkGetToken(token, ASSIGN)` on the identifier itself | `const a = 1` | check the token after the name | not executed | CompileFindings.ConstDeclAsWrittenRejects | CompileFindings.ConstDeclAccepts |
| heap.c:46-50 | `deleteHeapEntry` writes `entry->next->prev` for the tail, whose `next` is NULL, both for the only entry (line 46) and for a tail behind others (line 50) | deleting the only object, or the oldest one | unlink the tail too | not executed | HeapAsWritten.DeleteTailFails | Heap.UnlinkExact |
| heap.c:227-230 | after deleting the head, `gc_sweep` sets `pos` to the new head, and the loop step moves past it | two unreachable strings | examine the new head too | not executed | HeapAsWritten.SweepSkipsNewHead | Heap.SweepResult |
| heap.c:232-234 | deleting an unreachable tail object steps through a NULL link | a reachable string in front of an unreachable older one | sweep to the end of the list | not executed | HeapAsWritten.SweepTailFails | Heap.SweepResult |
| heap.c:164 | `array_sweep` frees unreachable elements while they are still linked in the heap list, which the walk then reads | an unreachable array holding an unreachable string | free each object once, when the walk reaches it | not executed | HeapAsWritten.SweepReadsFreedElement | Heap.StartGCResult |
| heap.c:227-243 | after unlinking an unmarked head array, `gc_sweep` sets `pos` to the new head and then lets `array_sweep` free it, and the loop step reads `pos->next` from the freed block | an unreachable array at the head holding the only other, unreachable string | free each object once, when the walk reaches it | not executed | HeapAsWritten.SweepFreesNewHead | Heap.SweepResult |
