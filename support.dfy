/**
  The engine's global fatal-error channel and the printf-style wrappers around
  the bridge.

  The process-wide statics are the fields of one `Globals` object: the
  1024-character `format_buf` shared by aborts, warnings, errors and
  diagnostics; the static buffer of `ttstub_fprintf`; the single `jump_buffer`
  that every protected entry point re-arms; and the one checkpoint callback
  slot. On the wasm target `longjmp(jump_buffer, 1)` is lowered to the sjlj
  runtime's `__wasm_longjmp`, so `jump_buffer` is an `SjLj.JmpBuf` and every
  diversion is that runtime's throw.

  printf formatting is the uninterpreted `render` function fixed at
  construction. Bridge calls (`ttbc_*`) are oracles passed in as parameters,
  or results handed back to the caller.
*/
module Support {
  import opened CTypes
  import opened BridgeCore
  import SjLj

  /** Size of `format_buf` and of `ttstub_fprintf`'s buffer (BUF_SIZE). */
  const BUF_SIZE: nat := 1024

  /** A printf argument. */
  datatype Arg = Int(i: int) | UInt(u: nat) | Str(s: CString)

  /** The full output printf would produce, or an encoding error (a negative vsnprintf result). */
  datatype Rendered = Text(text: string) | EncodingError

  type Formatter = (string, seq<Arg>) -> Rendered

  /** Number of characters vsnprintf keeps in a BUF_SIZE buffer out of `len`. */
  function Kept(len: nat): (n: nat)
    ensures n < BUF_SIZE
    ensures len < BUF_SIZE ==> n == len
    ensures len >= BUF_SIZE ==> n == BUF_SIZE - 1
  {
    if len < BUF_SIZE then len else BUF_SIZE - 1
  }

  /**
    A BUF_SIZE buffer after `vsnprintf(buf, BUF_SIZE, ...)`: the first `Kept`
    characters of the output, a NUL, and the old contents after it. On an
    encoding error the buffer is taken to be untouched.
  */
  function AfterVsnprintf(buf: seq<char>, r: Rendered): (b: seq<char>)
    requires |buf| == BUF_SIZE
    ensures |b| == BUF_SIZE
  {
    match r
    case EncodingError => buf
    case Text(t) =>
      var n := Kept(|t|);
      t[..n] + ['\0'] + buf[n + 1..]
  }

  /** The value vsnprintf returns: the full length, or negative on an encoding error. */
  function VsnprintfResult(r: Rendered): int
  {
    match r
    case Text(t) => |t|
    case EncodingError => -1
  }

  /** `vsnprintf(buf, BUF_SIZE, format, ap)` given what the format renders to. */
  method Vsnprintf(buf: array<char>, r: Rendered) returns (len: int)
    requires buf.Length == BUF_SIZE
    modifies buf
    ensures buf[..] == AfterVsnprintf(old(buf[..]), r)
    ensures len == VsnprintfResult(r)
  {
    match r
    case EncodingError =>
      len := -1;
    case Text(t) =>
      var n := Kept(|t|);
      forall i | 0 <= i < n {
        buf[i] := t[i];
      }
      buf[n] := '\0';
      assert buf[..] == t[..n] + ['\0'] + old(buf[..])[n + 1..];
      len := |t|;
  }

  /**
    The C string a buffer holds after vsnprintf: the output cut to at most
    BUF_SIZE - 1 characters (and at its first NUL, if it has one); the old
    contents are never read back.
  */
  lemma MessageAfterVsnprintf(buf: seq<char>, t: string)
    requires |buf| == BUF_SIZE
    ensures CStr(AfterVsnprintf(buf, Text(t))) == CStr(t[..Kept(|t|)])
    ensures |CStr(AfterVsnprintf(buf, Text(t)))| < BUF_SIZE
    ensures '\0' !in t ==> CStr(AfterVsnprintf(buf, Text(t))) == t[..Kept(|t|)]
  {
    var n := Kept(|t|);
    CStrStopsAtNul(t[..n], buf[n + 1..]);
    if '\0' !in t {
      assert '\0' !in t[..n];
      CStrOfCString(t[..n]);
    }
  }

  /** Of two writes to the same buffer, only the later one can be read back. */
  lemma LastWriteWins(buf: seq<char>, t1: string, t2: string)
    requires |buf| == BUF_SIZE
    ensures CStr(AfterVsnprintf(AfterVsnprintf(buf, Text(t1)), Text(t2))) == CStr(t2[..Kept(|t2|)])
  {
    MessageAfterVsnprintf(AfterVsnprintf(buf, Text(t1)), t2);
  }

  /** The bytes `ttstub_fprintf` hands to the output: the vsnprintf length clamped to BUF_SIZE - 1. */
  function ClampedLength(r: Rendered): (len: int)
    ensures len < BUF_SIZE
    ensures len < 0 <==> r.EncodingError?
    ensures r.Text? ==> len == Kept(|r.text|)
  {
    var raw := VsnprintfResult(r);
    if raw >= BUF_SIZE then BUF_SIZE - 1 else raw
  }

  /** `nelem ? nelem : 1` and friends: a zero-sized request is raised to 1. */
  function AllocRequest(n: nat): (r: nat)
    ensures r >= 1
    ensures n > 0 ==> r == n
  {
    if n == 0 then 1 else n
  }

  const XCALLOC_FAILED: string := "xcalloc request for %lu elements of size %lu failed"
  const XMALLOC_FAILED: string := "xmalloc request for %lu bytes failed"
  const XREALLOC_FAILED: string := "xrealloc() to %lu bytes failed"

  /** A call of the registered checkpoint function. */
  datatype CheckpointCall = CheckpointCall(fn: Ptr, userdata: Ptr, id: int)

  /** What `ttbc_input_seek` reports: the new position and its `internal_error` flag. */
  datatype SeekReport = SeekReport(position: nat, internalError: bool)

  /** The statics of the bridge core. */
  class Globals {
    const render: Formatter
    const formatBuf: array<char>
    const fprintfBuf: array<char>
    const jumpBuffer: SjLj.JmpBuf
    var checkpointFn: Ptr
    var checkpointUserdata: Ptr

    ghost predicate Valid()
      reads this, formatBuf
    {
      && formatBuf.Length == BUF_SIZE
      && fprintfBuf.Length == BUF_SIZE
      && formatBuf != fprintfBuf
      && '\0' in formatBuf[..]
    }

    /** The statics as the program starts: zero-filled buffers, no checkpoint callback. */
    constructor (render: Formatter)
      ensures Valid() && fresh(formatBuf) && fresh(fprintfBuf) && fresh(jumpBuffer)
      ensures this.render == render
      ensures ErrorMessage() == ""
      ensures jumpBuffer.Snapshot() == SjLj.Zeroed
      ensures checkpointFn == Null && checkpointUserdata == Null
    {
      this.render := render;
      formatBuf := new char[BUF_SIZE](_ => '\0');
      fprintfBuf := new char[BUF_SIZE](_ => '\0');
      jumpBuffer := new SjLj.JmpBuf();
      checkpointFn, checkpointUserdata := Null, Null;
      new;
      assert formatBuf[..][0] == '\0';
    }

    /** `_ttbc_get_error_message`: the C string currently in `format_buf`. */
    function ErrorMessage(): (m: CString)
      reads this, formatBuf
      requires Valid()
      ensures |m| < BUF_SIZE
    {
      CStr(formatBuf[..])
    }

    /** The effect of `_tt_abort(format, args)`: the message is formatted, then `longjmp(jump_buffer, 1)`. */
    twostate predicate Aborted<T>(format: string, args: seq<Arg>, new o: SjLj.Outcome<T>)
      reads this, formatBuf, jumpBuffer
    {
      && formatBuf.Length == BUF_SIZE
      && formatBuf[..] == AfterVsnprintf(old(formatBuf[..]), render(format, args))
      && SjLj.Step(jumpBuffer.Snapshot(), o) == SjLj.Divert(old(jumpBuffer.Snapshot()), jumpBuffer, 1)
    }

    /** The effect of a bare `longjmp(jump_buffer, 1)`: the message buffer is left as it was. */
    twostate predicate Jumped<T>(new o: SjLj.Outcome<T>)
      reads this, formatBuf, jumpBuffer
    {
      && unchanged(formatBuf)
      && SjLj.Step(jumpBuffer.Snapshot(), o) == SjLj.Divert(old(jumpBuffer.Snapshot()), jumpBuffer, 1)
    }

    // -------------------------------------------------------------------------
    // Entering and leaving the protected region

    /** `ttbc_global_engine_enter`: always the one static jump buffer, so a nested enter re-arms it. */
    method GlobalEngineEnter() returns (jb: SjLj.JmpBuf)
      ensures jb == jumpBuffer
    {
      jb := jumpBuffer;
    }

    /** `ttbc_global_engine_exit`: does nothing; in particular it does not restore an earlier mark. */
    method GlobalEngineExit()
      ensures unchanged(this, formatBuf, fprintfBuf, jumpBuffer)
    {
    }

    /** `_tt_abort(format, ...)`: never returns. */
    method Abort<T>(format: string, args: seq<Arg>) returns (o: SjLj.Outcome<T>)
      requires Valid()
      modifies formatBuf, jumpBuffer
      ensures Valid()
      ensures Aborted(format, args, o)
      ensures o == SjLj.Thrown(SjLj.C_LONGJMP, jumpBuffer, 1)
    {
      var _ := Vsnprintf(formatBuf, render(format, args));
      assert render(format, args).Text? ==> formatBuf[..][Kept(|render(format, args).text|)] == '\0';
      o := jumpBuffer.Longjmp(1);
    }

    // -------------------------------------------------------------------------
    // Messages through format_buf

    /** `ttstub_issue_warning`: formats into `format_buf` and passes that string to the bridge. */
    method IssueWarning(format: string, args: seq<Arg>) returns (sent: CString)
      requires Valid()
      modifies formatBuf
      ensures Valid()
      ensures formatBuf[..] == AfterVsnprintf(old(formatBuf[..]), render(format, args))
      ensures sent == ErrorMessage()
    {
      var _ := Vsnprintf(formatBuf, render(format, args));
      assert render(format, args).Text? ==> formatBuf[..][Kept(|render(format, args).text|)] == '\0';
      sent := CStr(formatBuf[..]);
    }

    /** `ttstub_issue_error`: as a warning, but passed to the bridge's error sink. */
    method IssueError(format: string, args: seq<Arg>) returns (sent: CString)
      requires Valid()
      modifies formatBuf
      ensures Valid()
      ensures formatBuf[..] == AfterVsnprintf(old(formatBuf[..]), render(format, args))
      ensures sent == ErrorMessage()
    {
      var _ := Vsnprintf(formatBuf, render(format, args));
      assert render(format, args).Text? ==> formatBuf[..][Kept(|render(format, args).text|)] == '\0';
      sent := CStr(formatBuf[..]);
    }

    /** `ttstub_diag_vprintf`: formats into `format_buf` and appends that string to the diagnostic. */
    method DiagVprintf(format: string, args: seq<Arg>) returns (appended: CString)
      requires Valid()
      modifies formatBuf
      ensures Valid()
      ensures formatBuf[..] == AfterVsnprintf(old(formatBuf[..]), render(format, args))
      ensures appended == ErrorMessage()
    {
      var _ := Vsnprintf(formatBuf, render(format, args));
      assert render(format, args).Text? ==> formatBuf[..][Kept(|render(format, args).text|)] == '\0';
      appended := CStr(formatBuf[..]);
    }

    /**
      `ttstub_fprintf`: formats into its own static buffer, clamps the length to
      BUF_SIZE - 1, writes that many characters when the length is not
      negative, and returns the clamped length.
    */
    method Fprintf(format: string, args: seq<Arg>) returns (len: int, written: Option<string>)
      requires Valid()
      modifies fprintfBuf
      ensures Valid()
      ensures fprintfBuf[..] == AfterVsnprintf(old(fprintfBuf[..]), render(format, args))
      ensures len == ClampedLength(render(format, args))
      ensures written.Some? <==> len >= 0
      ensures written.Some? ==> render(format, args).Text? && written.value == render(format, args).text[..len]
    {
      var r := render(format, args);
      len := Vsnprintf(fprintfBuf, r);
      if len >= BUF_SIZE {
        len := BUF_SIZE - 1;
        fprintfBuf[len] := '\0';
      }
      if len >= 0 {
        written := Some(fprintfBuf[..len]);
      } else {
        written := None;
      }
    }

    // -------------------------------------------------------------------------
    // Checkpoints

    /** `ttbc_set_checkpoint_callback`: replaces both the function and its userdata. */
    method SetCheckpointCallback(fn: Ptr, userdata: Ptr)
      modifies this`checkpointFn, this`checkpointUserdata
      ensures checkpointFn == fn && checkpointUserdata == userdata
    {
      checkpointFn := fn;
      checkpointUserdata := userdata;
    }

    /** `ttbc_fire_checkpoint`: calls the registered function, if any, with its userdata and `id`. */
    method FireCheckpoint(id: int) returns (call: Option<CheckpointCall>)
      ensures call.None? <==> checkpointFn == Null
      ensures call.Some? ==> call.value == CheckpointCall(checkpointFn, checkpointUserdata, id)
    {
      if checkpointFn != Null {
        call := Some(CheckpointCall(checkpointFn, checkpointUserdata, id));
      } else {
        call := None;
      }
    }

    // -------------------------------------------------------------------------
    // Allocation wrappers

    /** `xmalloc(size)`: asks for at least one byte; aborts if the allocator returns NULL. */
    method Xmalloc(size: nat, malloc: nat -> Ptr) returns (o: SjLj.Outcome<Ptr>)
      requires Valid()
      modifies formatBuf, jumpBuffer
      ensures Valid()
      ensures malloc(AllocRequest(size)) != Null ==>
        o == SjLj.Returned(malloc(AllocRequest(size))) && unchanged(formatBuf, jumpBuffer)
      ensures malloc(AllocRequest(size)) == Null ==> Aborted(XMALLOC_FAILED, [UInt(size)], o)
    {
      var p := malloc(AllocRequest(size));
      if p == Null {
        o := Abort(XMALLOC_FAILED, [UInt(size)]);
      } else {
        o := SjLj.Returned(p);
      }
    }

    /** `xcalloc(nelem, elsize)`: both counts raised to at least one; aborts on NULL. */
    method Xcalloc(nelem: nat, elsize: nat, calloc: (nat, nat) -> Ptr) returns (o: SjLj.Outcome<Ptr>)
      requires Valid()
      modifies formatBuf, jumpBuffer
      ensures Valid()
      ensures var p := calloc(AllocRequest(nelem), AllocRequest(elsize));
        && (p != Null ==> o == SjLj.Returned(p) && unchanged(formatBuf, jumpBuffer))
        && (p == Null ==> Aborted(XCALLOC_FAILED, [UInt(nelem), UInt(elsize)], o))
    {
      var p := calloc(AllocRequest(nelem), AllocRequest(elsize));
      if p == Null {
        o := Abort(XCALLOC_FAILED, [UInt(nelem), UInt(elsize)]);
      } else {
        o := SjLj.Returned(p);
      }
    }

    /** `xrealloc(old, size)`: `xmalloc(size)` when `old` is NULL, else a realloc of at least one byte. */
    method Xrealloc(oldPtr: Ptr, size: nat, malloc: nat -> Ptr, realloc: (Ptr, nat) -> Ptr)
      returns (o: SjLj.Outcome<Ptr>)
      requires Valid()
      modifies formatBuf, jumpBuffer
      ensures Valid()
      ensures oldPtr == Null ==> var p := malloc(AllocRequest(size));
        && (p != Null ==> o == SjLj.Returned(p) && unchanged(formatBuf, jumpBuffer))
        && (p == Null ==> Aborted(XMALLOC_FAILED, [UInt(size)], o))
      ensures oldPtr != Null ==> var p := realloc(oldPtr, AllocRequest(size));
        && (p != Null ==> o == SjLj.Returned(p) && unchanged(formatBuf, jumpBuffer))
        && (p == Null ==> Aborted(XREALLOC_FAILED, [UInt(size)], o))
    {
      if oldPtr == Null {
        o := Xmalloc(size, malloc);
      } else {
        var p := realloc(oldPtr, AllocRequest(size));
        if p == Null {
          o := Abort(XREALLOC_FAILED, [UInt(size)]);
        } else {
          o := SjLj.Returned(p);
        }
      }
    }

    /** `xstrdup(s)`: an `xmalloc` of the string's length plus its terminator. */
    method Xstrdup(s: CString, malloc: nat -> Ptr) returns (o: SjLj.Outcome<Ptr>)
      requires Valid()
      modifies formatBuf, jumpBuffer
      ensures Valid()
      ensures malloc(|s| + 1) != Null ==> o == SjLj.Returned(malloc(|s| + 1)) && unchanged(formatBuf, jumpBuffer)
      ensures malloc(|s| + 1) == Null ==> Aborted(XMALLOC_FAILED, [UInt(|s| + 1)], o)
    {
      o := Xmalloc(|s| + 1, malloc);
    }

    // -------------------------------------------------------------------------
    // I/O wrappers that divert on error

    /** `ttstub_input_seek`: diverts exactly when the bridge reports an internal error. */
    method InputSeek(handle: Ptr, offset: int, whence: int, seek: (Ptr, int, int) -> SeekReport)
      returns (o: SjLj.Outcome<nat>)
      requires Valid()
      modifies jumpBuffer
      ensures seek(handle, offset, whence).internalError ==> Jumped(o)
      ensures !seek(handle, offset, whence).internalError ==>
        o == SjLj.Returned(seek(handle, offset, whence).position) && unchanged(jumpBuffer)
    {
      var report := seek(handle, offset, whence);
      if report.internalError {
        o := jumpBuffer.Longjmp(1);
      } else {
        o := SjLj.Returned(report.position);
      }
    }

    /** `ttstub_input_close`: diverts exactly when the bridge's close reports failure, else returns 0. */
    method InputClose(handle: Ptr, close: Ptr -> int) returns (o: SjLj.Outcome<int>)
      requires Valid()
      modifies jumpBuffer
      ensures close(handle) != 0 ==> Jumped(o)
      ensures close(handle) == 0 ==> o == SjLj.Returned(0) && unchanged(jumpBuffer)
    {
      if close(handle) != 0 {
        o := jumpBuffer.Longjmp(1);
      } else {
        o := SjLj.Returned(0);
      }
    }
  }

  // ---------------------------------------------------------------------------
  // The single recovery slot

  /**
    An entry point with invocation id `entry` has armed the jump buffer at call
    site `site`; an abort anywhere below it, through frames `inner` that do not
    own the buffer, is claimed by the entry point, whose setjmp yields 1.
  */
  lemma AbortLandsAtEntry(r: SjLj.Record, env: SjLj.JmpBuf, site: u32, entry: Ptr, inner: seq<Ptr>)
    requires site != 0 && entry != Null
    requires Null !in inner && entry !in inner
    ensures var armed := SjLj.Mark(r, site, entry).after;
            var thrown := SjLj.Divert<()>(armed, env, 1);
            && thrown.out.val == 1
            && SjLj.Dispatch(thrown.after, inner + [entry]) == SjLj.Claimed(|inner|, site)
  {
    var armed := SjLj.Mark(r, site, entry).after;
    var thrown := SjLj.Divert<()>(armed, env, 1);
    var frames := inner + [entry];
    assert frames[|inner|] == entry;
    SjLj.DispatchFindsOwner(thrown.after, frames);
    var k: nat :| SjLj.InnermostAt(frames, entry, k) && SjLj.Dispatch(thrown.after, frames) == SjLj.Claimed(k, site);
  }

  /**
    The slot holds one mark, not a stack. An outer entry point arms the buffer,
    a nested entry point re-arms it, returns and calls exit (a no-op); a later
    abort in the outer region finds the buffer still naming the nested,
    finished activation, so no live frame claims it.
  */
  lemma NestedEntryStrandsOuter(r: SjLj.Record, env: SjLj.JmpBuf, outerSite: u32, outer: Ptr,
                                nestedSite: u32, nested: Ptr, inner: seq<Ptr>)
    requires outerSite != 0 && nestedSite != 0 && outer != Null && nested != Null
    requires Null !in inner && nested !in inner && nested != outer
    ensures var byOuter := SjLj.Mark(r, outerSite, outer).after;
            var byNested := SjLj.Mark(byOuter, nestedSite, nested).after;
            var thrown := SjLj.Divert<()>(byNested, env, 1);
            SjLj.Dispatch(thrown.after, inner + [outer]) == SjLj.Uncaught
  {
    var byOuter := SjLj.Mark(r, outerSite, outer).after;
    var byNested := SjLj.Mark(byOuter, nestedSite, nested).after;
    var thrown := SjLj.Divert<()>(byNested, env, 1);
    assert nested !in inner + [outer];
    SjLj.DispatchFindsOwner(thrown.after, inner + [outer]);
  }

  /**
    Invocation ids are addresses of frame-local slots, so once the nested
    activation has returned its slot may belong to a later live frame. The
    innermost such frame then claims an abort in the outer region, at the
    nested entry's call-site label.
  */
  lemma NestedSlotReused(r: SjLj.Record, env: SjLj.JmpBuf, outerSite: u32, outer: Ptr,
                         nestedSite: u32, nested: Ptr, inner: seq<Ptr>, k: nat)
    requires outerSite != 0 && nestedSite != 0 && outer != Null && nested != Null
    requires Null !in inner && SjLj.InnermostAt(inner, nested, k)
    ensures var byOuter := SjLj.Mark(r, outerSite, outer).after;
            var byNested := SjLj.Mark(byOuter, nestedSite, nested).after;
            var thrown := SjLj.Divert<()>(byNested, env, 1);
            SjLj.Dispatch(thrown.after, inner + [outer]) == SjLj.Claimed(k, nestedSite)
  {
    var byOuter := SjLj.Mark(r, outerSite, outer).after;
    var byNested := SjLj.Mark(byOuter, nestedSite, nested).after;
    var thrown := SjLj.Divert<()>(byNested, env, 1);
    var frames := inner + [outer];
    assert SjLj.InnermostAt(frames, nested, k) by {
      forall i | 0 <= i <= k ensures frames[i] == inner[i] { }
    }
    SjLj.DispatchFindsOwner(thrown.after, frames);
  }

  /** While the nested entry point is live, an abort lands there and not at the outer one. */
  lemma NestedEntryCatchesFirst(r: SjLj.Record, env: SjLj.JmpBuf, outerSite: u32, outer: Ptr,
                                nestedSite: u32, nested: Ptr, inner: seq<Ptr>, between: seq<Ptr>)
    requires outerSite != 0 && nestedSite != 0 && outer != Null && nested != Null
    requires Null !in inner && Null !in between && nested !in inner && nested != outer
    ensures var byOuter := SjLj.Mark(r, outerSite, outer).after;
            var byNested := SjLj.Mark(byOuter, nestedSite, nested).after;
            var thrown := SjLj.Divert<()>(byNested, env, 1);
            SjLj.Dispatch(thrown.after, inner + [nested] + between + [outer]) == SjLj.Claimed(|inner|, nestedSite)
  {
    var byOuter := SjLj.Mark(r, outerSite, outer).after;
    var byNested := SjLj.Mark(byOuter, nestedSite, nested).after;
    var thrown := SjLj.Divert<()>(byNested, env, 1);
    var frames := inner + [nested] + between + [outer];
    assert frames[|inner|] == nested;
    SjLj.DispatchFindsOwner(thrown.after, frames);
    var k: nat :| SjLj.InnermostAt(frames, nested, k) && SjLj.Dispatch(thrown.after, frames) == SjLj.Claimed(k, nestedSite);
  }
}
