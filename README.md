# comon debugger commands — a Dafny model

comon is a WinDbg extension that monitors COM objects in a debugged process.
`comon/ext.cpp` is its command layer. It holds three pieces of sequential logic
that every command depends on, and this project models and proves all three:

- **The argument tokenizer** (`split_args`). It is a one-pass state machine. Its only
  control state is "outside quotes" or "inside quotes opened by `"` or `'`". It splits
  on unquoted whitespace and commas, drops the quote delimiters and never emits an
  empty token. It is modelled in `tokenizer.dfy`:
  - `SplitArgs` is the loop.
  - `Step`, `Run` and `Tokens` are the function it is proved against.
  - Lemmas state what the tokens are: their concatenation, that none is empty, the
    quote-free case and the quoting edge cases.
- **The attach filter** (`parse_filter` and the `cofilter` variant
  `no_filter | including_filter | excluding_filter`). It is modelled in `filter.dfy`:
  - `ParseFilter` is the backwards scan with its early returns.
  - It is proved equal to `FilterOf`, a declarative description. The last `-i`/`-e`
    decides the variant. Only the GUIDs to its right count. With no flag, the result
    is an including filter over all GUIDs, or no filter when there are none.
- **The commands** `!comon`, `!cobp`, `!cobl`, `!cobd`, `!coreg` and `!cometa`, plus
  the unload callback. They are modelled in `commands.dfy` as methods of a `Session`
  class. The class stands for the global `g_dbgsession`: an optional active monitor
  plus the metadata store.
  - The monitor's own operations and the store's operations live outside this file,
    so they are opaque. A `Monitor` value keeps the attach filter and the sequence of
    state-changing operations invoked on it. The store keeps the sequence of `index`
    and `save` calls.
  - What these operations return is a parameter (an oracle function).
  - GUID parsing is a parameter `parse: string -> Option<Guid>`, and nothing is
    assumed about it.

`common.dfy` holds the shared `Option`, the 128-bit `Guid` and the C-locale
whitespace set.

Behaviour of the code worth knowing:

- The attach filter is read from the right, and the scan stops at the first flag it
  meets. So `<guid> -i` gives an including filter with an empty set, and `-e <guid>`
  excludes the GUID (`Filter.GuidThenInclude`, `Filter.ExcludeThenGuid`).
- `!comon detach` with no monitor attached returns `E_FAIL` (`Commands.Lifecycle`).
  The unload callback detaches unconditionally, whatever the state
  (`Session.Uninitialize`).

## Model

| member | source | states |
|---|---|---|
| `Tokenizer.SplitArgs` | comon/ext.cpp:41-74 | The character loop returns exactly `Tokens(args)`: the quote state machine run over the whole input, with the last non-empty token flushed at the end. |
| `Tokenizer.TokensNonEmpty` | comon/ext.cpp:47-71 | No token is ever empty. This holds for `""`, `''` and runs of separators, because every flush point checks for an empty token. |
| `Tokenizer.TokensConcat` | comon/ext.cpp:41-74 | The tokens, joined, are the input with exactly the quote delimiters and the unquoted whitespace/commas removed. No other character is lost, duplicated or reordered. |
| `Tokenizer.TokensWithoutQuotes` | comon/ext.cpp:59-66 | For input with no `"` or `'`, the tokens are exactly the maximal runs of non-separator characters, in input order. |
| `Tokenizer.QuotedSegment` | comon/ext.cpp:47-58 | For any prefix `p` that ends outside quotes, followed by a quotation `q` and then `rest`: the opening quote does not end the token `p` left pending, the quoted text joins it literally, and the closing quote ends the token at once. The tokens are those `p` emitted, then the pending token plus `q` (if non-empty), then the tokens of `rest`. |
| `Tokenizer.UnterminatedQuote` | comon/ext.cpp:69-71 | After any prefix `p` that ends outside quotes, a quotation that is never closed runs to the end of the input. Its text joins the pending token, which is still emitted after the tokens `p` emitted. |
| `Tokenizer.ClosingQuoteEndsToken` | comon/ext.cpp:48-53 | `"ab"cd` gives `ab`, `cd`. |
| `Tokenizer.OpeningQuoteKeepsToken` | comon/ext.cpp:57-58 | `ab"cd"` gives the single token `abcd`. |
| `Tokenizer.QuotedSeparatorsKept` | comon/ext.cpp:54-56 | Inside `'...'`, a `"`, a space and a comma are kept literally: `'a" ,b'` gives one token. |
| `Tokenizer.UnterminatedQuoteFlushed` | comon/ext.cpp:69-71 | `x 'y z` gives `x`, `y z`. |
| `Filter.LastFlag` | comon/ext.cpp:284-290 | The backwards scan's stopping point. When it exists, it is a flag and no flag lies to its right. When it does not exist, there is no flag anywhere. |
| `Filter.ParseFilter` | comon/ext.cpp:282-300 | The backwards scan with its early returns computes `FilterOf`. The last flag gives `Including`/`Excluding` over exactly the parseable GUIDs strictly to its right. With no flag, the result is `Including` over all parseable GUIDs, or `NoFilter` if there are none. |
| `Filter.LeftOfFlagIgnored` | comon/ext.cpp:284-290 | Once a flag is present, tokens to the left of the last flag have no effect on the filter. |
| `Filter.SameGuidsSameFilter` | comon/ext.cpp:291-294 | Two flag-free stretches of tokens that parse to the same set of GUIDs can replace each other anywhere without changing the filter. |
| `Filter.UnparsedTokenIgnored` | comon/ext.cpp:291-294 | A token that is neither a flag nor a parseable GUID never changes the filter. |
| `Filter.DuplicateGuidCollapses` | comon/ext.cpp:283-294 | Repeating a GUID token does not change the filter: the set absorbs duplicates. |
| `Filter.GuidThenInclude` | comon/ext.cpp:285-287 | `<guid> -i` gives `Including({})`: the flag is met before the GUID. |
| `Filter.ExcludeThenGuid` | comon/ext.cpp:288-294 | `-e <guid>` gives `Excluding({guid})`: the GUID is collected before the flag ends the scan. |
| `Filter.NoFlagNoGuid` | comon/ext.cpp:296-299 | With no flag and no parseable GUID, the result is `NoFilter`. |
| `Commands.AllDigitsParse` | comon/ext.cpp:194 | A token made only of decimal digits parses as an unsigned number with its full decimal value. |
| `Commands.NoLeadingDigitFails` | comon/ext.cpp:196-198 | A token whose first character is neither a digit, whitespace nor a sign does not parse as a number. |
| `Commands.DigitsSelectIndex` | comon/ext.cpp:193-195 | In `!cobp`, an all-digit third token selects the breakpoint by method index. |
| `Commands.NameSelectsByName` | comon/ext.cpp:196-198 | In `!cobp`, a third token whose first character is neither a digit, whitespace nor a sign (such as `Release`) selects the breakpoint by method name, using the token itself. |
| `Commands.Session.constructor` | comon/ext.cpp:37 | The session starts with no active monitor and an untouched metadata store. |
| `Commands.Session.Detach` | comon/ext.cpp:316-317 | Detaching leaves no active monitor, whatever the state before, and does not touch the metadata store. |
| `Commands.Session.Uninitialize` | comon/ext.cpp:85 | Unloading the extension detaches unconditionally. Afterwards no monitor is active. |
| `Commands.Session.Comon` | comon/ext.cpp:302-348 | No tokens: `E_INVALIDARG`, no change. With a monitor active: `attach` gives `E_FAIL` with the session unchanged; `pause`/`resume` give `S_OK` and record the call on the same monitor; `detach` removes the monitor; `status` changes nothing; any other word gives `E_INVALIDARG`. With no monitor: only `attach` succeeds, installing a monitor with `FilterOf(tokens[1..])`; anything else, `detach` included, gives `E_FAIL`. The metadata store is never touched. |
| `Commands.Session.Cobp` | comon/ext.cpp:176-204 | Fewer than 3 tokens: `E_INVALIDARG`. Then an unparseable CLSID or IID returns the parse failure, before the session is consulted. Neither case changes state. No monitor: `E_FAIL`, no monitor call. Otherwise exactly one `CreateBreakpoint(clsid, iid, Selector(token 3))` is invoked and its result returned. |
| `Commands.Session.Cobl` | comon/ext.cpp:206-219 | `S_OK` exactly when a monitor is active, `E_FAIL` otherwise. Nothing changes. |
| `Commands.Session.Cobd` | comon/ext.cpp:221-231 | No monitor: `E_FAIL`. Otherwise the raw argument text is parsed as a number. A failed parse escapes as `std::invalid_argument` with no change. A successful one invokes `RemoveBreakpoint(id)` once and returns its result. |
| `Commands.Session.Coreg` | comon/ext.cpp:233-256 | Same argument and GUID checks as `!cobp`, made before the session is consulted. No monitor: `E_FAIL`. A third token with no leading digits escapes as `std::invalid_argument`. Otherwise `RegisterVtable(clsid, iid, address, false)` is invoked once, always as 32-bit, and its result returned. |
| `Commands.Session.Cometa` | comon/ext.cpp:87-174 | It never touches the monitor. No tokens: `E_INVALIDARG`. `index` invokes the store's index, with the second token as path when present. `save` needs exactly 2 tokens. `showi`/`showc` need exactly 2 tokens and a parseable GUID, then give `S_OK` and only read the store. Any other subcommand or argument count gives `E_INVALIDARG` with the store unchanged. |
| `Commands.AttachIsExclusive` | comon/ext.cpp:308-311 | On a fresh session, a first `attach` succeeds and installs a monitor with its filter. A second `attach` gives `E_FAIL`, whatever filter either one names. |
| `Commands.Lifecycle` | comon/ext.cpp:308-347 | attach, pause, resume, detach, detach give `S_OK` four times, then `E_FAIL` (nothing left to detach). The monitor saw exactly one pause and one resume, in that order. After unload, nothing is attached. |
| `Commands.NothingWithoutMonitor` | comon/ext.cpp:176-256 | Before any attach, `!cobp` and `!coreg` return only an argument, GUID or "not enabled" failure, and `!cobl` and `!cobd` return `E_FAIL`. None of them attaches a monitor: afterwards none is active. |

## Left out

- The debugger's output interface (`QueryInterface` of `IDebugControl4`, `OutputWide`, `ControlledOutputWide`, DML markup, `std::format` strings) is output only. The early return when `QueryInterface` fails is not modelled either.
- `DebugExtensionInitialize` only reports the extension version and zero flags to the host, and `DebugExtensionNotify` does nothing. Neither is modelled.
- GUID text parsing (`try_parse_guid`) and `widen` are foreign code. They are the `parse` parameter. The exact failing HRESULT that `!cobp`/`!coreg` pass back is represented by `GuidParseFailure`.
- The monitor (`dbgsession.h`) and the metadata store (`comon.h`) are not part of this model. Their state-changing operations are recorded, and their results come from oracle parameters.
  - Read-only queries are not recorded: `is_paused`, `list_cotypes`, `list_breakpoints`, `resolve_type`, `resolve_class`, `get_type_methods`, `find_vtables_by_iid`, `find_vtables_by_clsid`.
  - How the monitor applies its filter, places breakpoints or registers vtables is not modelled.
- `Commands.ParseUnsigned` models only the leading-whitespace and leading-digits part of `std::stoul`/`std::stoull`. A leading `+` or `-` counts as "no digits". Values above the 32-bit or 64-bit range, which throw `std::out_of_range` and escape the handler, are not distinguished. A partial parse such as `3abc` gives the value of the digits, as `std::stoul` does.
- `std::isspace` is taken in the "C" locale (space, `\t`, `\n`, `\v`, `\f`, `\r`). Locale-dependent classification and the undefined behaviour on negative `char` values are not modelled.
- The order in which an `unordered_set` of CLSIDs is printed is not modelled: filters hold mathematical sets.
