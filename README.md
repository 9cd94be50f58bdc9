# Non-local exits and bridge helpers of the eztex engine, in Dafny

This project models the C layer beneath the eztex TeX engine (a WebAssembly
build of Tectonic's XeTeX) and proves properties of that model. The layer has
five parts:

- **The wasm setjmp/longjmp runtime** (`sjlj.dfy`, module `SjLj`).
  - A `jmp_buf` holds four fields: an invocation id, a call-site label, and the `arg.env`/`arg.val` pair.
  - `__wasm_setjmp` marks the buffer. `__wasm_setjmp_test` answers a catching frame. `__wasm_longjmp` throws tag 1.
  - The fields are modelled twice. The value `Record` is what the pure functions `Mark`, `Test` and `Divert` work on. The class `JmpBuf` updates the fields in place, and its methods are proved equal to those functions.
  - `Dispatch` follows a thrown longjmp through the live frames, innermost first. Each frame claims the jump or rethrows it.
- **The global fatal-error channel** (`support.dfy`, module `Support`).
  - One static `jump_buffer`, which every entry point re-arms.
  - The 1024-character `format_buf`, which `_tt_abort`, warnings, errors and diagnostics all write.
  - `ttstub_fprintf`'s clamped buffer, the single checkpoint-callback slot, and the `x*alloc` wrappers, which abort on failure.
  - The seek and close wrappers, which divert on error.
  - On the wasm target `longjmp(jump_buffer, 1)` is the runtime's `__wasm_longjmp`, so each diversion is an `SjLj` throw on `jump_buffer`.
- **The bridge-core header** (`bridge_core.dfy`, module `BridgeCore`).
  - C strings, `strcmp`/`strncmp`, `streq_ptr`, `strstartswith`, `IS_DIR_SEP`, `ISBLANK` and `mfree`.
  - The documented enter/exit protocol of a protected entry point.
- **`mkstemp` for WASI** (`posix.dfy`, module `Posix`).
  - Template validation and the base-36 suffix written in place.
  - The static counter, and the 100-attempt retry loop with its `errno` results.
- **The FreeType glue of xetex_layout** (`layout.dfy`, module `Layout`).
  - The lazily created library singleton and its deferred shutdown.
  - The face count and the AFM companion name inside `initialize_ft`.
  - The advance and nominal-glyph HarfBuzz callbacks.

Common machine types (`u32`, `i32`, an opaque `Ptr`, `Option`) are in `ctypes.dfy`.

Calls into code outside this layer are parameters: `open`, the bridge's seek and close, `malloc`, FreeType and HarfBuzz. printf formatting is the uninterpreted function `render` of `Support.Globals`: only truncation, the buffer written and the diverting paths are modelled.

## Model

| member | source | states |
|---|---|---|
| `SjLj.Mark` | csrc/wasm/sjlj_rt.c:49-61 | setjmp traps exactly when the label is 0 or the id is NULL, and then leaves the buffer as it was; otherwise it stores exactly that id and label and keeps `arg` |
| `SjLj.Test` | csrc/wasm/sjlj_rt.c:66-77 | the test never changes the buffer; it traps exactly on an unmarked buffer (label 0) or a NULL id; otherwise it is nonzero iff the stored id is the caller's, and then it is the stored label |
| `SjLj.ResumeValue` | csrc/wasm/sjlj_rt.c:86-88 | the value setjmp resumes with is `val` when `val` is not 0, and exactly 1 when `val` is 0 |
| `SjLj.Divert` | csrc/wasm/sjlj_rt.c:82-92 | longjmp always throws tag 1 carrying `env` and the value `val`, or 1 when `val` is 0; it stores that pair in `arg` and leaves id and label alone |
| `SjLj.JmpBuf.constructor` | csrc/wasm/sjlj_rt.c:34-44 | a buffer in static storage starts with all four fields zero |
| `SjLj.JmpBuf.Setjmp` | csrc/wasm/sjlj_rt.c:49-61 | the in-place update and the outcome are those of `Mark` on the old contents |
| `SjLj.JmpBuf.SetjmpTest` | csrc/wasm/sjlj_rt.c:66-77 | the answer is `Test` on the current contents; a nonzero answer means the stored id is the caller's |
| `SjLj.JmpBuf.Longjmp` | csrc/wasm/sjlj_rt.c:82-92 | the in-place update and the throw are those of `Divert` on the old contents, with the buffer itself as `env` |
| `SjLj.MarkThenTest` | csrc/wasm/sjlj_rt.c:59-75 | after a successful setjmp, the same activation's test returns the call site's label |
| `SjLj.MarkThenTestOther` | csrc/wasm/sjlj_rt.c:74-76 | after a successful setjmp, any other non-null activation's test returns 0, so that frame rethrows |
| `SjLj.MarkOverwrites` | csrc/wasm/sjlj_rt.c:59-60 | a later setjmp on the same buffer erases every trace of the earlier mark |
| `SjLj.UnmarkedTestTraps` | csrc/wasm/sjlj_rt.c:70-71 | testing a buffer that was never marked traps, whatever the id |
| `SjLj.DivertKeepsOwner` | csrc/wasm/sjlj_rt.c:89-90 | longjmp does not change what any frame's test answers |
| `SjLj.Dispatch` | csrc/wasm/sjlj_rt.c:63-77 | a claimed jump lands on a frame whose id is the stored one, at the stored label; an escaping jump means no live frame holds the stored id |
| `SjLj.DispatchFindsOwner` | csrc/wasm/sjlj_rt.c:74-76 | on a marked buffer with non-null frame ids, the innermost frame holding the stored id claims the jump at the stored label; if no frame holds it, the throw escapes |
| `SjLj.ClaimIsInnermost` | csrc/wasm/sjlj_rt.c:74-76 | the claiming frame is the innermost occurrence of the stored id, so the claim is unique |
| `SjLj.JumpToCaller` | csrc/wasm/sjlj_rt.c:82-92 | `longjmp(env, 0)` from a callee is claimed by the frame that marked `env`, and setjmp yields 1 |
| `SjLj.ReentrantInnermostClaims` | csrc/wasm/sjlj_rt.c:49-77 | when a re-entrant activation re-marks the same buffer, a jump is claimed by the newer, innermost activation |
| `BridgeCore.Strncmp` | pkg/tectonic/src/bridge_core/tectonic_bridge_core.h:182-189 | the `strncmp` that `strstartswith` calls: the sign of the first difference within `n` characters, as C reads the strings, and 0 if there is none |
| `BridgeCore.Strcmp` | pkg/tectonic/src/bridge_core/tectonic_bridge_core.h:176-180 | the `strcmp` that `streq_ptr` calls: `strncmp` over the first string and its terminator, so its sign is that of the first difference |
| `BridgeCore.StrncmpZero` | pkg/tectonic/src/bridge_core/tectonic_bridge_core.h:186 | strncmp returns 0 exactly when the first `n` characters agree, terminators included |
| `BridgeCore.StrcmpZeroIffEqual` | pkg/tectonic/src/bridge_core/tectonic_bridge_core.h:178 | strcmp returns 0 exactly when the two strings have equal contents |
| `BridgeCore.StrncmpPrefix` | pkg/tectonic/src/bridge_core/tectonic_bridge_core.h:185-186 | strncmp over the prefix's length returns 0 exactly when the prefix begins the string |
| `BridgeCore.StreqPtr` | pkg/tectonic/src/bridge_core/tectonic_bridge_core.h:176-180 | true exactly when both pointers are non-null and the strings are equal; false if either is NULL, including both |
| `BridgeCore.StrStartsWith` | pkg/tectonic/src/bridge_core/tectonic_bridge_core.h:182-189 | non-null exactly when `prefix` begins `s`, and then it points just past the prefix, at the rest of `s` |
| `BridgeCore.EmptyPrefixMatches` | pkg/tectonic/src/bridge_core/tectonic_bridge_core.h:182-189 | the empty prefix always matches and yields `s` itself |
| `BridgeCore.IsDirSep` | pkg/tectonic/src/bridge_core/tectonic_bridge_core.h:174 | only `/` is a directory separator; backslash is not |
| `BridgeCore.IsBlank` | pkg/tectonic/src/bridge_core/tectonic_bridge_core.h:166-169 | blank exactly for ASCII space and horizontal tab |
| `BridgeCore.Mfree` | pkg/tectonic/src/bridge_core/tectonic_bridge_core.h:159-162 | always returns NULL |
| `BridgeCore.EntryPointTrace` | pkg/tectonic/src/bridge_core/tectonic_bridge_core.h:203-216 | the events of an entry point written as the header prescribes: enter, setjmp, then either the body, exit and its result, or a diversion, exit and the fatal code |
| `BridgeCore.EntryPointExitsOnce` | pkg/tectonic/src/bridge_core/tectonic_bridge_core.h:203-216 | an entry point following the protocol calls enter once and exit exactly once, just before returning; a diversion returns the fatal-abort code, a completed body its own result |
| `Support.Kept` | pkg/tectonic/src/bridge_core/support.c:118 | vsnprintf keeps all of an output shorter than 1024 characters, and exactly 1023 characters of a longer one |
| `Support.Vsnprintf` | pkg/tectonic/src/bridge_core/support.c:118 | the buffer holds the kept prefix of the output and a NUL, and is otherwise unchanged; the result is the untruncated length, or negative on an encoding error |
| `Support.MessageAfterVsnprintf` | pkg/tectonic/src/bridge_core/support.c:11-12 | the string read back after a write is the output cut to at most 1023 characters; nothing of the old contents shows through |
| `Support.LastWriteWins` | pkg/tectonic/src/bridge_core/support.c:124-128 | after two writes to the buffer, only the later one can be read back |
| `Support.ClampedLength` | pkg/tectonic/src/bridge_core/support.c:175-181 | the length is below 1024; it is negative exactly on an encoding error; otherwise it is the kept length |
| `Support.AllocRequest` | pkg/tectonic/src/bridge_core/support.c:33 | a zero-sized request becomes 1, and any other size is passed on unchanged |
| `Support.Globals.constructor` | pkg/tectonic/src/bridge_core/support.c:90-94 | at start the error message is empty, the jump buffer is zeroed and no checkpoint callback is registered |
| `Support.Globals.ErrorMessage` | pkg/tectonic/src/bridge_core/support.c:124-128 | the message is the C string in `format_buf`, shorter than 1024 characters |
| `Support.Globals.GlobalEngineEnter` | pkg/tectonic/src/bridge_core/support.c:131-135 | every call returns the same single jump buffer |
| `Support.Globals.GlobalEngineExit` | pkg/tectonic/src/bridge_core/support.c:138-141 | exit changes no state at all |
| `Support.Globals.Abort` | pkg/tectonic/src/bridge_core/support.c:112-121 | `format_buf` receives the truncated, terminated message, then the call throws tag 1 with value 1 on the jump buffer; it never returns |
| `Support.Globals.IssueWarning` | pkg/tectonic/src/bridge_core/support.c:144-153 | the warning overwrites `format_buf`, and the string handed on is exactly what the error message now reads |
| `Support.Globals.IssueError` | pkg/tectonic/src/bridge_core/support.c:156-165 | the error overwrites `format_buf`, and the string handed on is exactly what the error message now reads |
| `Support.Globals.DiagVprintf` | pkg/tectonic/src/bridge_core/support.c:69-74 | the diagnostic text overwrites `format_buf`, and the string appended is exactly what the error message now reads |
| `Support.Globals.Fprintf` | pkg/tectonic/src/bridge_core/support.c:168-188 | returns the clamped length; writes exactly that many leading characters of the output when it is not negative, and writes nothing otherwise |
| `Support.Globals.SetCheckpointCallback` | pkg/tectonic/src/bridge_core/support.c:96-101 | registering replaces both the function and its userdata |
| `Support.Globals.FireCheckpoint` | pkg/tectonic/src/bridge_core/support.c:103-109 | with no function registered nothing is called; otherwise the registered function gets its userdata and the id |
| `Support.Globals.Xmalloc` | pkg/tectonic/src/bridge_core/support.c:30-39 | asks for at least one byte; returns the block and touches nothing, or aborts with the xmalloc message when the allocator fails |
| `Support.Globals.Xcalloc` | pkg/tectonic/src/bridge_core/support.c:17-27 | both counts are raised to at least one; returns the block, or aborts with the xcalloc message |
| `Support.Globals.Xrealloc` | pkg/tectonic/src/bridge_core/support.c:42-56 | with a NULL pointer it behaves as xmalloc; otherwise it reallocates at least one byte, or aborts with the xrealloc message |
| `Support.Globals.Xstrdup` | pkg/tectonic/src/bridge_core/support.c:59-64 | allocates the length plus one through xmalloc, with xmalloc's abort |
| `Support.Globals.InputSeek` | pkg/tectonic/src/bridge_core/support.c:201-213 | diverts through the jump buffer exactly when the bridge reports an internal error, leaving `format_buf` alone; otherwise it returns the bridge's position |
| `Support.Globals.InputClose` | pkg/tectonic/src/bridge_core/support.c:216-224 | diverts exactly when the bridge's close is nonzero; otherwise it returns 0 |
| `Support.AbortLandsAtEntry` | pkg/tectonic/src/bridge_core/support.c:118-120 | an abort below an armed entry point, through frames that do not own the buffer, is claimed by that entry point's setjmp with value 1 |
| `Support.NestedEntryStrandsOuter` | pkg/tectonic/src/bridge_core/support.c:131-141 | after a nested entry point has armed the single slot and exited, an abort in the outer region is claimed by no live frame, provided no live frame has the finished nested activation's id |
| `Support.NestedSlotReused` | pkg/tectonic/src/bridge_core/support.c:131-141 | when a live frame does have the finished nested activation's id (its frame slot was reused), the innermost such frame claims an abort in the outer region, at the nested entry's call-site label |
| `Support.NestedEntryCatchesFirst` | pkg/tectonic/src/bridge_core/support.c:131-135 | while a nested entry point is live, an abort lands at the nested one and not at the outer one |
| `Posix.ValidTemplate` | csrc/wasm/posix.c:26-38 | the templates `mkstemp` accepts: at least six characters, of which the last six are `X` |
| `Posix.Val` | csrc/wasm/posix.c:45 | the 32-bit value mixed from the counter, the template's address and the attempt number, which fits an `unsigned` |
| `Posix.Base36` | csrc/wasm/posix.c:46-49 | the `n` low base-36 digits of a value, most significant first, drawn from the source's charset; always exactly `n` characters |
| `Posix.Base36InCharset` | csrc/wasm/posix.c:41-49 | every generated suffix character is one of `[a-z0-9]` |
| `Posix.Base36Value` | csrc/wasm/posix.c:46-49 | the suffix, read back as base 36 with the most significant digit first, is `val mod 36^6` |
| `Posix.Base36Distinct` | csrc/wasm/posix.c:46-49 | values that differ modulo 36^6 give different suffixes |
| `Posix.Incr` | csrc/wasm/posix.c:44 | incrementing the unsigned counter wraps modulo 2^32 |
| `Posix.XorCancel` | csrc/wasm/posix.c:45 | the 32-bit exclusive or that mixes the counter, the address and the attempt is undone by applying it again |
| `Posix.TriedShape` | csrc/wasm/posix.c:32-49 | a tried name keeps the template's prefix and length and ends in six characters of `[a-z0-9]` |
| `Posix.CheckTemplate` | csrc/wasm/posix.c:26-38 | accepts exactly the templates of at least six characters whose last six are all `X` |
| `Posix.WriteSuffix` | csrc/wasm/posix.c:46-49 | the six-digit loop leaves the prefix alone and writes exactly the base-36 digits of `val` |
| `Posix.PosixEnv.constructor` | csrc/wasm/posix.c:40 | the static counter starts at 0 |
| `Posix.PosixEnv.Mkstemp` | csrc/wasm/posix.c:25-58 | a rejected template returns -1 with EINVAL, untouched and with the counter unchanged. Otherwise, after 1 to 100 attempts, only the last six characters change. The counter rose once per attempt, every earlier name was taken, and the last attempt decides: its descriptor, -1 with its own errno, or -1 with EEXIST after the hundredth |
| `Posix.PosixEnv.TryOnce` | csrc/wasm/posix.c:44-51 | one attempt raises the counter by one, leaves the prefix alone, puts attempt `k`'s name in the template and reports what creating that name gives |
| `Posix.SettleOpened` | csrc/wasm/posix.c:51-52 | a created file ends the call with its descriptor, after the earlier names were all taken |
| `Posix.SettleFailed` | csrc/wasm/posix.c:53 | a failure other than EEXIST ends the call with -1 and that errno |
| `Posix.SettleExhausted` | csrc/wasm/posix.c:54-57 | after a hundred taken names the call ends with -1 and EEXIST |
| `Posix.PosixEnv.TryNames` | csrc/wasm/posix.c:43-57 | the retry loop on an accepted template ends in the outcome described for `Mkstemp` |
| `Layout.GetLibrary` | csrc/xetex/layout.c:47-56 | an existing library is returned as is; otherwise FreeType is asked once, and a failure leaves no library and returns NULL; the face count and shutdown flag are never touched |
| `Layout.MaybeShutdown` | csrc/xetex/layout.c:58-64 | the library is released exactly when shutdown is pending, no face is live and a library exists; releasing clears the library and the flag, and otherwise nothing changes |
| `Layout.LibraryInitOnce` | csrc/xetex/layout.c:47-55 | once the library exists, later calls return that same library whatever FreeType would report |
| `Layout.ShutdownOnce` | csrc/xetex/layout.c:58-64 | a second shutdown check right after the first does nothing |
| `Layout.NoShutdownWithLiveFaces` | csrc/xetex/layout.c:59 | the library is never released while the face count is nonzero |
| `Layout.ReinitAfterShutdown` | csrc/xetex/layout.c:47-64 | after a release, the next `get_ft_library` creates a new library |
| `Layout.LastIndexOf` | csrc/xetex/layout.c:328 | strrchr finds the last occurrence of the character, or reports none exactly when the string has none |
| `Layout.AfmNameOf` | csrc/xetex/layout.c:327-332 | the AFM companion name: the path with everything from its last dot replaced by `.afm`, or `.afm` appended when it has no dot |
| `Layout.AfmNameShape` | csrc/xetex/layout.c:327-332 | the AFM name is a prefix of the path followed by `.afm`; that prefix is the whole path when the path has no `.`, and otherwise the path up to its last `.` |
| `Layout.AfmNameFits` | csrc/xetex/layout.c:324-325 | the AFM name has at most `plen + 4` characters, so it fits the `plen + 5` allocation with its NUL |
| `Layout.AfmNameIdempotent` | csrc/xetex/layout.c:327-332 | deriving an AFM name from an AFM name gives it back unchanged |
| `Layout.AfmNameDirectoryDot` | csrc/xetex/layout.c:328-330 | the last `.` may sit in a directory component: `fonts.d/cmr10` becomes `fonts.afm` |
| `Layout.BuildAfmName` | csrc/xetex/layout.c:324-332 | the buffer of `plen + 5` characters holds, as a C string, exactly the AFM name of the path |
| `Layout.InitFt` | csrc/xetex/layout.c:276-374 | `initialize_ft` over the answers of the FreeType and bridge calls: the library, file, face, scalability, AFM and HarfBuzz steps in the source's order, with the face count and result each step leaves |
| `Layout.InitFtFaceCount` | csrc/xetex/layout.c:305-321 | the face count rises by one exactly when a scalable face was created, and is unchanged on every earlier failure and on the non-scalable rejection |
| `Layout.InitFtResult` | csrc/xetex/layout.c:276-374 | `initialize_ft` returns 0 exactly when it kept a scalable face and HarfBuzz initialised, and -1 otherwise; a HarfBuzz failure is a failed call that leaves the face counted |
| `Layout.InitFtAfmOnlyForType1` | csrc/xetex/layout.c:323-326 | an AFM name is looked up exactly for face index 0 of a kept, non-SFNT face whose name buffer was allocated, and it is the derived AFM name |
| `Layout.FreeType.constructor` | csrc/xetex/layout.c:43-45 | at start there is no library, no face and no pending shutdown |
| `Layout.FreeType.GetFtLibrary` | csrc/xetex/layout.c:47-56 | the in-place update of `ft_lib` and the result are those of `GetLibrary` |
| `Layout.FreeType.MaybeShutdownFt` | csrc/xetex/layout.c:58-64 | the in-place update and the released library are those of `MaybeShutdown` |
| `Layout.FreeType.InitializeFt` | csrc/xetex/layout.c:276-374 | the new globals, the result and the AFM name are those of `InitFt` |
| `Layout.AdvanceFlags` | csrc/xetex/layout.c:123-124 | the flags always include `FT_LOAD_NO_SCALE`, include `FT_LOAD_VERTICAL_LAYOUT` exactly for vertical layout, and nothing else |
| `Layout.GlyphAdvanceRaw` | csrc/xetex/layout.c:122-130 | a failed lookup gives 0; otherwise the result is the unscaled advance for horizontal layout, and its negation for vertical layout |
| `Layout.VerticalMirrorsHorizontal` | csrc/xetex/layout.c:132-142 | when the lookup ignores the direction, the vertical advance callback returns the horizontal one negated |
| `Layout.NominalGlyph` | csrc/xetex/layout.c:101-109 | found exactly when FreeType has a nonzero glyph index, which is then written out; otherwise `*glyph` is left as it was |

## Behaviour of the source worth noting

- `ttbc_global_engine_exit` is empty, and there is a single static `jump_buffer` (support.c:90,131-141). A nested entry point re-arms that buffer, and its exit does not restore the outer entry's mark. An abort in the outer region after the nested entry point has returned is therefore claimed by no live frame, unless a live frame has the finished nested activation's id (`Support.NestedEntryStrandsOuter`, `Support.NestedSlotReused`).
- Warnings, errors and diagnostic printing all write `format_buf` (support.c:72,150,162), the buffer that `_tt_abort` also formats into. `_ttbc_get_error_message` therefore returns the most recent of those writes (`Support.LastWriteWins`).
- `ttstub_input_seek` and `ttstub_input_close` longjmp without writing `format_buf` (support.c:202-221). The message read after such a diversion is whatever was last formatted.
- `initialize_ft` lowers `ft_face_count` again only on the non-scalable path (layout.c:312-320). When `initialize_hb_font` fails after the face was created (layout.c:373), the call returns -1 but the face stays counted (`Layout.InitFtFaceCount`, `Layout.InitFtResult`).

## Left out

- Support.Vsnprintf: on an encoding error the buffer is modelled as untouched; C leaves its contents unspecified.
- Support.Globals.Fprintf: the C `int` holding the vsnprintf length cannot overflow in the model (outputs longer than 2^31 - 1 characters are not considered).
- Support.Globals.Xstrdup: the copy of the characters into the new block is not modelled, only the allocation request and its failure path.
- Support.Globals.IssueWarning, Support.Globals.IssueError, Support.Globals.DiagVprintf: the bridge sinks (`ttbc_issue_warning`, `ttbc_issue_error`, `ttbc_diag_append`) are not modelled; each method returns the string it would pass on.
- Support.Globals.FireCheckpoint: the callback's own effects are not modelled; the method returns the call it would make.
- printf/vsnprintf formatting itself: `render` is an uninterpreted function of the format and the arguments.
- `ttstub_diag_printf` is the variadic front of `ttstub_diag_vprintf`, modelled by `Support.Globals.DiagVprintf`. `ttstub_input_get_mtime` is only a cast of a bridge result and is not modelled.
- The actual unwinding of wasm exceptions is not modelled. A throw is an `Outcome` value, and the compiler-generated catch handlers are the frame list given to `SjLj.Dispatch`.
- Posix.PosixEnv.Mkstemp: `open` is a fixed function of the path. A file system that changes between attempts, and the file creation itself, are not modelled. The template is the character array up to its terminator.
- BridgeCore.Mfree: the release of the block by `free` is not modelled, only the NULL it returns.
- The `tzname`, `timezone` and `tzset` stubs of posix.c are constants and a no-op, and are not modelled.
- Layout.FreeType.InitializeFt: opening the font in three formats, reading it, and the `ttstub_input_close` calls are folded into the one answer `fileRead`. A close that diverts through `jump_buffer` inside `initialize_ft` is not modelled.
- Layout.FreeType.InitializeFt: opening, reading and attaching the AFM file are not modelled, nor is the deliberately leaked AFM data. The method returns the AFM name it would open.
- Layout.FreeType.InitializeFt: `ft_face_count` is an unbounded integer; C `int` overflow is not modelled.
- Layout.FreeType.InitializeFt: the fields of `XeTeXFont_rec` are not modelled (file name copy, index, units per em, and the float metrics from `fix_to_d` and `font_units_to_points`).
- Layout.GlyphAdvanceRaw: negating the most negative 32-bit advance (undefined behaviour in C) is modelled as mathematical negation. The `hb_position_t` cast is the identity on the 32-bit target.
- The other HarfBuzz callbacks are not modelled: variation glyph, origins, kerning, extents, contour point and glyph name. Nor are `get_font_funcs`, `hb_reference_table_func` or `initialize_hb_font`. They wrap FreeType and HarfBuzz, whose behaviour is outside this model; `initialize_hb_font` is the answer `hbOk`.
- The `fprintf(stderr, ...)` diagnostics in layout.c are not modelled.
- The no-op threading stubs (`wasm_threading_stubs.h`) and the declaration-only headers `fontconfig.h` and `wasm_compat.h` are not modelled.
- Characters stand for C bytes throughout; `char` signedness and multibyte text play no part in the modelled code.
