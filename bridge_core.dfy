/**
  The inline helpers of the bridge-core header: C string comparison and
  prefix matching, the character classes used by the engine, `mfree`, and the
  protocol that every protected entry point must follow around
  `ttbc_global_engine_enter` / `ttbc_global_engine_exit`.

  A C string is modelled by its characters before the terminating NUL; a
  string pointer that may be NULL is an `Option<CString>`.
*/
module BridgeCore {
  import opened CTypes

  /** The characters of a C string, without its terminator. */
  type CString = s: string | '\0' !in s witness ""

  /** Character `i` of a C string as C reads it: the terminator reads as NUL. */
  function At(s: CString, i: nat): char
  {
    if i < |s| then s[i] else '\0'
  }

  /** The C string held at the start of a char buffer: everything before the first NUL. */
  function CStr(buf: seq<char>): (s: CString)
    ensures |s| <= |buf| && s == buf[..|s|]
    ensures |s| < |buf| ==> buf[|s|] == '\0'
    decreases |buf|
  {
    if |buf| == 0 || buf[0] == '\0' then "" else [buf[0]] + CStr(buf[1..])
  }

  /** Reading a buffer stops at the first NUL: what follows it is never read. */
  lemma {:induction false} CStrStopsAtNul(p: seq<char>, rest: seq<char>)
    ensures CStr(p + ['\0'] + rest) == CStr(p)
    decreases |p|
  {
    if p != [] && p[0] != '\0' {
      assert (p + ['\0'] + rest)[1..] == p[1..] + ['\0'] + rest;
      CStrStopsAtNul(p[1..], rest);
    }
  }

  /** A buffer holding no NUL reads back whole. */
  lemma {:induction false} CStrOfCString(s: CString)
    ensures CStr(s) == s
    decreases |s|
  {
    if s != [] {
      CStrOfCString(s[1..]);
      assert s == [s[0]] + s[1..];
    }
  }

  // ---------------------------------------------------------------------------
  // strcmp / strncmp

  /**
    The sign of `strncmp(a, b, n)`: characters are compared in order until they
    differ, both strings end, or `n` characters have been compared.
  */
  function Strncmp(a: CString, b: CString, n: nat): (r: int)
    ensures -1 <= r <= 1
    decreases n
  {
    if n == 0 then 0
    else if At(a, 0) < At(b, 0) then -1
    else if At(a, 0) > At(b, 0) then 1
    else if At(a, 0) == '\0' then 0
    else Strncmp(a[1..], b[1..], n - 1)
  }

  /** The sign of `strcmp(a, b)`: `a` ends after |a| characters, so at most |a| + 1 are compared. */
  function Strcmp(a: CString, b: CString): (r: int)
    ensures -1 <= r <= 1
  {
    Strncmp(a, b, |a| + 1)
  }

  /** strncmp reports equality exactly when the first `n` characters (terminators included) agree. */
  lemma {:induction false} StrncmpZero(a: CString, b: CString, n: nat)
    ensures Strncmp(a, b, n) == 0 <==> forall i :: 0 <= i < n ==> At(a, i) == At(b, i)
    decreases n
  {
    if n > 0 && At(a, 0) == At(b, 0) {
      if At(a, 0) == '\0' {
        assert a == [] && b == [];
      } else {
        StrncmpZero(a[1..], b[1..], n - 1);
        forall i | 0 < i < n
          ensures At(a, i) == At(a[1..], i - 1) && At(b, i) == At(b[1..], i - 1)
        {
        }
        forall i | 0 <= i < n - 1
          ensures At(a[1..], i) == At(a, i + 1) && At(b[1..], i) == At(b, i + 1)
        {
        }
      }
    }
  }

  /** strcmp reports equality exactly when the two strings have the same contents. */
  lemma StrcmpZeroIffEqual(a: CString, b: CString)
    ensures Strcmp(a, b) == 0 <==> a == b
  {
    StrncmpZero(a, b, |a| + 1);
    if Strcmp(a, b) == 0 {
      assert At(b, |a|) == '\0';
      if 0 < |a| {
        assert At(a, |a| - 1) == At(b, |a| - 1);
      }
      forall i | 0 <= i < |a|
        ensures i < |b| && a[i] == b[i]
      {
        assert At(a, i) == At(b, i);
      }
    }
  }

  /** Agreement on the first |p| characters, as C reads them, makes `p` a prefix of `s`. */
  lemma PrefixFromAt(s: CString, p: CString)
    requires forall i :: 0 <= i < |p| ==> At(s, i) == At(p, i)
    ensures |p| <= |s| && s[..|p|] == p
  {
    if |p| > 0 {
      assert At(s, |p| - 1) == At(p, |p| - 1);
    }
    forall i | 0 <= i < |p|
      ensures s[..|p|][i] == p[i]
    {
      assert At(s, i) == At(p, i);
    }
  }

  /** A prefix agrees with the string on its first |p| characters. */
  lemma AtFromPrefix(s: CString, p: CString)
    requires |p| <= |s| && s[..|p|] == p
    ensures forall i :: 0 <= i < |p| ==> At(s, i) == At(p, i)
  {
    forall i | 0 <= i < |p|
      ensures At(s, i) == At(p, i)
    {
      assert s[..|p|][i] == s[i];
    }
  }

  /** strncmp over the length of `p` reports equality exactly when `p` is a prefix of `s`. */
  lemma StrncmpPrefix(s: CString, p: CString)
    ensures Strncmp(s, p, |p|) == 0 <==> |p| <= |s| && s[..|p|] == p
  {
    StrncmpZero(s, p, |p|);
    if Strncmp(s, p, |p|) == 0 {
      PrefixFromAt(s, p);
    } else if |p| <= |s| && s[..|p|] == p {
      AtFromPrefix(s, p);
    }
  }

  // ---------------------------------------------------------------------------
  // The header's inline helpers

  /** `streq_ptr`: string equality that is false whenever either pointer is NULL. */
  function StreqPtr(s1: Option<CString>, s2: Option<CString>): (r: bool)
    ensures r <==> s1.Some? && s2.Some? && s1.value == s2.value
  {
    if s1.Some? && s2.Some? then
      StrcmpZeroIffEqual(s1.value, s2.value);
      Strcmp(s1.value, s2.value) == 0
    else
      false
  }

  /**
    `strstartswith(s, prefix)`: the offset into `s` just past `prefix` when `s`
    begins with `prefix` (the returned pointer is `s + |prefix|`), NULL otherwise.
  */
  function StrStartsWith(s: CString, prefix: CString): (r: Option<nat>)
    ensures r.Some? <==> |prefix| <= |s| && s[..|prefix|] == prefix
    ensures r.Some? ==> r.value == |prefix| && s == prefix + s[r.value..]
  {
    StrncmpPrefix(s, prefix);
    if Strncmp(s, prefix, |prefix|) == 0 then Some(|prefix|) else None
  }

  /** The empty prefix always matches and yields `s` itself. */
  lemma EmptyPrefixMatches(s: CString)
    ensures StrStartsWith(s, "") == Some(0)
  {
  }

  /** `IS_DIR_SEP`: only the forward slash separates directories, on every platform. */
  function IsDirSep(ch: char): (r: bool)
    ensures r <==> ch == '/'
    ensures ch == '\\' ==> !r
  {
    ch == '/'
  }

  /**
    `ISBLANK(c)`: `isascii(c) && isblank(c)` on the int a char promotes to;
    only space and horizontal tab are blank.
  */
  function IsBlank(c: int): (r: bool)
    ensures r <==> c == ' ' as int || c == '\t' as int
    ensures r ==> 0 <= c < 128
  {
    0 <= c < 128 && (c == ' ' as int || c == '\t' as int)
  }

  /**
    `mfree(p)`: returns NULL, so `p = mfree(p)` leaves no dangling pointer.
    The release of the block itself is not modelled.
  */
  function Mfree(p: Ptr): (r: Ptr)
    ensures r == Null
  {
    Null
  }

  // ---------------------------------------------------------------------------
  // The protected entry-point protocol

  /** How the protected body of an entry point ended. */
  datatype BodyEnd =
    | Completed(code: int)   // my_main_implementation returned
    | Diverted(val: int)     // a fatal error longjmp'ed back to the entry's setjmp with `val`

  /** What an entry point does, in order. */
  datatype Event =
    | EnterCalled
    | SetjmpReturned(val: int)
    | BodyStarted
    | ExitCalled
    | EntryReturned(code: int)

  /**
    The events of one call of an entry point written as the header prescribes:
    enter, setjmp; if setjmp reports a diversion, exit and return the fatal
    code; otherwise run the body, exit, and return its result. A diversion
    re-observes setjmp with the (nonzero) longjmp value.
  */
  function EntryPointTrace(body: BodyEnd, fatalCode: int): (t: seq<Event>)
    requires body.Diverted? ==> body.val != 0
  {
    [EnterCalled, SetjmpReturned(0), BodyStarted] +
    match body
    case Completed(code) => [ExitCalled, EntryReturned(code)]
    case Diverted(v) => [SetjmpReturned(v), ExitCalled, EntryReturned(fatalCode)]
  }

  /**
    On both paths exit is called exactly once, immediately before the entry
    point returns; a diversion returns the fatal-abort code and a completed
    body returns its own result.
  */
  lemma EntryPointExitsOnce(body: BodyEnd, fatalCode: int)
    requires body.Diverted? ==> body.val != 0
    ensures var t := EntryPointTrace(body, fatalCode);
            && multiset(t)[ExitCalled] == 1
            && multiset(t)[EnterCalled] == 1
            && |t| >= 2 && t[|t| - 2] == ExitCalled
            && t[|t| - 1] == EntryReturned(if body.Diverted? then fatalCode else body.code)
  {
  }
}
