/**
  `mkstemp` for wasm32-wasi: check that the template ends in six `X`s, then
  rewrite those six characters with base-36 digits derived from a static
  counter, the template's address and the attempt number, and try to create
  the file exclusively, up to 100 times.

  `open(path, O_RDWR | O_CREAT | O_EXCL, 0600)` is the oracle `open`. The
  template is the character array up to (not including) its terminator, so
  `strlen(tmpl)` is the array's length. Pointers and `unsigned` are 32 bits
  wide on this target.
*/
module Posix {
  import opened CTypes

  /** The digits of the suffix, in the order of their values 0..35. */
  const Charset: string := "abcdefghijklmnopqrstuvwxyz0123456789"

  const SUFFIX_LEN: nat := 6
  const MAX_ATTEMPTS: nat := 100

  datatype Errno = EINVAL | EEXIST | OtherErrno(code: nat)

  datatype OpenResult = Opened(fd: nat) | OpenFailed(errno: Errno)

  /** The `n` low base-36 digits of `v`, most significant first, as `mkstemp` writes them. */
  function Base36(v: nat, n: nat): (s: string)
    ensures |s| == n
  {
    if n == 0 then "" else Base36(v / 36, n - 1) + [Charset[v % 36]]
  }

  function Pow36(n: nat): (p: nat)
    ensures p >= 1
  {
    if n == 0 then 1 else 36 * Pow36(n - 1)
  }

  /** The value of a suffix digit: its position in Charset. */
  function DigitValue(c: char): (d: nat)
    requires c in Charset
    ensures d < 36 && Charset[d] == c
  {
    if 'a' <= c <= 'z' then (c as int - 'a' as int) else (c as int - '0' as int) + 26
  }

  /** Reading a suffix back as a base-36 number. */
  function Decode(s: string): nat
    requires forall i :: 0 <= i < |s| ==> s[i] in Charset
  {
    if s == [] then 0 else Decode(s[..|s| - 1]) * 36 + DigitValue(s[|s| - 1])
  }

  /** Every generated character is one of `[a-z0-9]`. */
  lemma {:induction false} Base36InCharset(v: nat, n: nat)
    ensures forall i :: 0 <= i < n ==> Base36(v, n)[i] in Charset
  {
    if n > 0 {
      Base36InCharset(v / 36, n - 1);
      assert Base36(v, n) == Base36(v / 36, n - 1) + [Charset[v % 36]];
    }
  }

  lemma MulAtLeast(d: nat, m: nat)
    requires d >= 1
    ensures d * m >= m
  {
    assert d * m == (d - 1) * m + m;
  }

  lemma ModUnique(v: nat, m: nat, q: nat, r: nat)
    requires m > 0 && r < m && v == q * m + r
    ensures v % m == r
  {
    var q', r' := v / m, v % m;
    assert v == q' * m + r';
    if q' < q {
      assert q * m == (q - q') * m + q' * m;
      MulAtLeast(q - q', m);
    } else if q' > q {
      assert q' * m == (q' - q) * m + q * m;
      MulAtLeast(q' - q, m);
    }
  }

  lemma Regroup(base: nat, a: nat, p: nat, b: nat, r: nat)
    ensures base * (a * p + b) + r == a * (base * p) + (base * b + r)
  {
    assert base * (a * p + b) == base * (a * p) + base * b;
    assert base * (a * p) == a * (base * p);
  }

  lemma LowDigitBound(base: nat, b: nat, p: nat, r: nat)
    requires b < p && r < base
    ensures base * b + r < base * p
  {
    MulAtLeast(p - b, base);
    assert base * p == base * b + (p - b) * base;
  }

  /** Splitting off the lowest digit in base `base`. */
  lemma ModStep(v: nat, base: nat, p: nat)
    requires base > 0 && p > 0
    ensures (v / base) % p * base + v % base == v % (base * p)
  {
    var q, r := v / base, v % base;
    var a, b := q / p, q % p;
    assert q == a * p + b;
    assert v == base * q + r;
    Regroup(base, a, p, b, r);
    LowDigitBound(base, b, p, r);
    ModUnique(v, base * p, a, base * b + r);
  }

  /** Each digit reads back as the value it was written for. */
  lemma DigitRoundTrip(d: nat)
    requires d < 36
    ensures DigitValue(Charset[d]) == d
  {
  }

  /** The suffix is the base-36 rendering of `v mod 36^n`: decoding it gives that number back. */
  lemma {:induction false} Base36Value(v: nat, n: nat)
    ensures (Base36InCharset(v, n); Decode(Base36(v, n)) == v % Pow36(n))
  {
    Base36InCharset(v, n);
    if n > 0 {
      var s := Base36(v, n);
      var hi := Base36(v / 36, n - 1);
      assert s == hi + [Charset[v % 36]];
      assert s[..n - 1] == hi;
      Base36InCharset(v / 36, n - 1);
      Base36Value(v / 36, n - 1);
      DigitRoundTrip(v % 36);
      assert Decode(s) == Decode(hi) * 36 + v % 36;
      ModStep(v, 36, Pow36(n - 1));
    }
  }

  /** Two values that differ modulo 36^n give different suffixes. */
  lemma Base36Distinct(v: nat, w: nat, n: nat)
    requires v % Pow36(n) != w % Pow36(n)
    ensures Base36(v, n) != Base36(w, n)
  {
    Base36Value(v, n);
    Base36Value(w, n);
  }

  /** Bitwise exclusive or of the low `n` bits of `a` and `b`. */
  function XorBits(a: nat, b: nat, n: nat): (x: nat)
    ensures x < Pow2(n)
  {
    if n == 0 then 0 else (a + b) % 2 + 2 * XorBits(a / 2, b / 2, n - 1)
  }

  function Pow2(n: nat): (p: nat)
    ensures p >= 1
  {
    if n == 0 then 1 else 2 * Pow2(n - 1)
  }

  /** `a ^ b` on 32-bit unsigned operands. */
  function Xor32(a: u32, b: u32): (x: u32)
  {
    Pow2Is32();
    XorBits(a as nat, b as nat, U32_BITS) as u32
  }

  lemma SplitLow(x: nat, c: nat, rest: nat)
    requires c < 2 && x == c + 2 * rest
    ensures x % 2 == c && x / 2 == rest
  {
  }

  lemma ParityCancel(a: nat, b: nat, k: nat)
    ensures ((a + b) % 2 + 2 * k + b) % 2 == a % 2
  {
  }

  /** Exclusive or with the same operand twice gives back the low bits of the first. */
  lemma {:induction false} XorBitsCancel(a: nat, b: nat, n: nat)
    ensures XorBits(XorBits(a, b, n), b, n) == a % Pow2(n)
  {
    if n > 0 {
      var half := Pow2(n - 1);
      assert Pow2(n) == 2 * half;
      var x := XorBits(a, b, n);
      var rest := XorBits(a / 2, b / 2, n - 1);
      assert x == (a + b) % 2 + 2 * rest;
      SplitLow(x, (a + b) % 2, rest);
      ParityCancel(a, b, rest);
      var low, high := a % 2, (a / 2) % half;
      assert (x + b) % 2 == low;
      XorBitsCancel(a / 2, b / 2, n - 1);
      assert XorBits(rest, b / 2, n - 1) == high;
      assert XorBits(x, b, n) == low + 2 * high;
      ModStep(a, 2, half);
    }
  }

  /** `(a ^ b) ^ b == a`: the template address can be recovered from a value and the counter. */
  lemma XorCancel(a: u32, b: u32)
    ensures Xor32(Xor32(a, b), b) == a
  {
    var x := Xor32(a, b);
    var y := Xor32(x, b);
    Pow2Is32();
    var an, bn := a as nat, b as nat;
    assert x as nat == XorBits(an, bn, U32_BITS);
    assert y as nat == XorBits(x as nat, bn, U32_BITS);
    XorBitsCancel(an, bn, U32_BITS);
    ModUnique(an, Pow2(U32_BITS), 0, an);
  }

  lemma {:induction false} Pow2Add(a: nat, b: nat)
    ensures Pow2(a + b) == Pow2(a) * Pow2(b)
  {
    if a > 0 {
      Pow2Add(a - 1, b);
    }
  }

  /** The width of `unsigned` on the target. */
  const U32_BITS: nat := 32

  lemma Pow2Is32()
    ensures Pow2(U32_BITS) == 0x1_0000_0000
  {
    assert Pow2(4) == 16;
    Pow2Add(4, 4);
    Pow2Add(8, 8);
    Pow2Add(16, 16);
  }

  /** `counter ^ (unsigned)tmpl ^ (unsigned)attempt`, with `counter` already incremented. */
  function Val(counter: u32, addr: u32, attempt: nat): (v: nat)
    requires attempt < MAX_ATTEMPTS
    ensures v < 0x1_0000_0000
  {
    Xor32(Xor32(counter, addr), attempt as u32) as nat
  }

  /** `counter` after `n` increments of the unsigned static counter, wrapping at 2^32. */
  function Bump(counter: u32, n: nat): (c: u32)
    ensures c as int == (counter as int + n) % 0x1_0000_0000
  {
    ((counter as int + n) % 0x1_0000_0000) as u32
  }

  /** `counter++` on a 32-bit unsigned: zero after the largest value. */
  function Incr(counter: u32): (c: u32)
    ensures c == Bump(counter, 1)
  {
    if counter == 0xFFFF_FFFF then 0 else counter + 1
  }

  /** One more increment is one more step of Bump. */
  lemma BumpStep(counter: u32, n: nat)
    ensures Incr(Bump(counter, n)) == Bump(counter, n + 1)
  {
  }

  /** A template `mkstemp` accepts: at least six characters, the last six all `X`. */
  predicate ValidTemplate(s: string)
  {
    |s| >= SUFFIX_LEN && forall i :: |s| - SUFFIX_LEN <= i < |s| ==> s[i] == 'X'
  }

  /** The path tried at attempt `attempt` (0-based), when the counter has just become `counter`. */
  function Candidate(prefix: string, counter: u32, addr: u32, attempt: nat): string
    requires attempt < MAX_ATTEMPTS
  {
    prefix + Base36(Val(counter, addr, attempt), SUFFIX_LEN)
  }

  /** The path tried at attempt `k` of a call that found the counter at `c0`. */
  function Tried(prefix: string, c0: u32, addr: u32, k: nat): string
    requires k < MAX_ATTEMPTS
  {
    Candidate(prefix, Bump(c0, k + 1), addr, k)
  }

  /** A tried name keeps the template's prefix and length and ends in six characters of `[a-z0-9]`. */
  lemma TriedShape(prefix: string, c0: u32, addr: u32, k: nat)
    requires k < MAX_ATTEMPTS
    ensures var name := Tried(prefix, c0, addr, k);
            && |name| == |prefix| + SUFFIX_LEN
            && name[..|prefix|] == prefix
            && forall i :: |prefix| <= i < |name| ==> name[i] in Charset
  {
    var v := Val(Bump(c0, k + 1), addr, k);
    Base36InCharset(v, SUFFIX_LEN);
    var name := Tried(prefix, c0, addr, k);
    assert name == prefix + Base36(v, SUFFIX_LEN);
    forall i | |prefix| <= i < |name|
      ensures name[i] in Charset
    {
      assert name[i] == Base36(v, SUFFIX_LEN)[i - |prefix|];
    }
  }

  /**
    The outcome of creating `name` exclusively. It only applies `open`; the
    contracts below go through it so that the solver handles each attempt's
    outcome without reasoning about the heap it was evaluated in.
  */
  function Create(open: string -> OpenResult, name: string): OpenResult
  {
    open(name)
  }

  /** Each of the first `n` attempts found its path already taken. */
  predicate AllTaken(open: string -> OpenResult, prefix: string, c0: u32, addr: u32, n: nat)
    requires n <= MAX_ATTEMPTS
  {
    forall k :: 0 <= k < n ==> Create(open, Tried(prefix, c0, addr, k)) == OpenFailed(EEXIST)
  }

  lemma AllTakenStep(open: string -> OpenResult, prefix: string, c0: u32, addr: u32, n: nat)
    requires n < MAX_ATTEMPTS && AllTaken(open, prefix, c0, addr, n)
    requires Create(open, Tried(prefix, c0, addr, n)) == OpenFailed(EEXIST)
    ensures AllTaken(open, prefix, c0, addr, n + 1)
  {
  }

  /**
    How a call with an accepted template ends, found at counter `c0` with
    errno `errno0`: `attempts` names were tried, the template holds the last
    of them, every earlier one was already taken, and the last try decides
    the result (a descriptor, a failure other than EEXIST, or EEXIST after
    the hundredth try).
  */
  predicate Settled(open: string -> OpenResult, prefix: string, c0: u32, addr: u32, errno0: Errno,
                    attempts: nat, counter: u32, name: string, errno: Errno, fd: int)
  {
    && 1 <= attempts <= MAX_ATTEMPTS
    && counter == Bump(c0, attempts)
    && name == Tried(prefix, c0, addr, attempts - 1)
    && AllTaken(open, prefix, c0, addr, attempts - 1)
    && (fd >= 0 ==> Create(open, name) == Opened(fd) && errno == (if attempts == 1 then errno0 else EEXIST))
    && (fd < 0 ==>
          && fd == -1
          && ((Create(open, name) == OpenFailed(errno) && errno != EEXIST) ||
              (attempts == MAX_ATTEMPTS && Create(open, name) == OpenFailed(EEXIST) && errno == EEXIST)))
  }

  /** A try that opened the file settles the call, with `errno` as the earlier tries left it. */
  lemma SettleOpened(open: string -> OpenResult, prefix: string, c0: u32, addr: u32, errno0: Errno,
                     k: nat, name: string, errno: Errno, fd: int)
    requires k < MAX_ATTEMPTS && AllTaken(open, prefix, c0, addr, k)
    requires name == Tried(prefix, c0, addr, k) && fd >= 0 && Create(open, name) == Opened(fd)
    requires errno == if k == 0 then errno0 else EEXIST
    ensures Settled(open, prefix, c0, addr, errno0, k + 1, Bump(c0, k + 1), name, errno, fd)
  {
  }

  /** A try that failed for a reason other than EEXIST settles the call with that reason. */
  lemma SettleFailed(open: string -> OpenResult, prefix: string, c0: u32, addr: u32, errno0: Errno,
                     k: nat, name: string, errno: Errno)
    requires k < MAX_ATTEMPTS && AllTaken(open, prefix, c0, addr, k)
    requires name == Tried(prefix, c0, addr, k) && Create(open, name) == OpenFailed(errno) && errno != EEXIST
    ensures Settled(open, prefix, c0, addr, errno0, k + 1, Bump(c0, k + 1), name, errno, -1)
  {
  }

  /** A hundred taken names settle the call with EEXIST. */
  lemma SettleExhausted(open: string -> OpenResult, prefix: string, c0: u32, addr: u32, errno0: Errno, name: string)
    requires AllTaken(open, prefix, c0, addr, MAX_ATTEMPTS)
    requires name == Tried(prefix, c0, addr, MAX_ATTEMPTS - 1)
    ensures Settled(open, prefix, c0, addr, errno0, MAX_ATTEMPTS, Bump(c0, MAX_ATTEMPTS), name, EEXIST, -1)
  {
  }

  /** The template check of `mkstemp`: the last six characters must all be `X`. */
  method CheckTemplate(tmpl: array<char>) returns (ok: bool)
    ensures ok <==> ValidTemplate(tmpl[..])
  {
    var len := tmpl.Length;
    if len < SUFFIX_LEN {
      return false;
    }
    var start := len - SUFFIX_LEN;
    var i := 0;
    while i < SUFFIX_LEN
      invariant 0 <= i <= SUFFIX_LEN
      invariant forall j :: start <= j < start + i ==> tmpl[j] == 'X'
    {
      if tmpl[start + i] != 'X' {
        return false;
      }
      i := i + 1;
    }
    return true;
  }

  /** The inner loop of `mkstemp`: write the six digits of `v`, last position first. */
  method WriteSuffix(tmpl: array<char>, start: nat, v: nat)
    requires start + SUFFIX_LEN == tmpl.Length
    modifies tmpl
    ensures tmpl[..start] == old(tmpl[..start])
    ensures tmpl[start..] == Base36(v, SUFFIX_LEN)
  {
    var val := v;
    var i: int := 5;
    while i >= 0
      invariant -1 <= i <= 5
      invariant tmpl[..start] == old(tmpl[..start])
      invariant Base36(v, SUFFIX_LEN) == Base36(val, i + 1) + tmpl[start + i + 1..]
    {
      ghost var tail := tmpl[start + i + 1..];
      tmpl[start + i] := Charset[val % 36];
      assert tmpl[start + i..] == [Charset[val % 36]] + tail;
      val := val / 36;
      i := i - 1;
    }
  }

  /** The process state `mkstemp` touches: its static counter and `errno`. */
  class PosixEnv {
    var counter: u32
    var errno: Errno

    /** The static counter starts at 0; `errno` holds whatever the process last set. */
    constructor (errno0: Errno)
      ensures counter == 0 && errno == errno0
    {
      counter, errno := 0, errno0;
    }

    /**
      `mkstemp(tmpl)`, where `addr` is the template's address and `open` the
      outcome of creating a path exclusively. `attempts` counts the calls of
      `open`.
    */
    method Mkstemp(tmpl: array<char>, addr: u32, open: string -> OpenResult)
      returns (fd: int, ghost attempts: nat)
      modifies this, tmpl
      // a rejected template: EINVAL, nothing written, counter untouched
      ensures !ValidTemplate(old(tmpl[..])) ==>
        fd == -1 && errno == EINVAL && attempts == 0 && tmpl[..] == old(tmpl[..]) && counter == old(counter)
      // an accepted template: only its last six characters change
      ensures ValidTemplate(old(tmpl[..])) ==>
        Settled(open, old(tmpl[..tmpl.Length - SUFFIX_LEN]), old(counter), addr, old(errno),
                attempts, counter, tmpl[..], errno, fd)
    {
      var ok := CheckTemplate(tmpl);
      if !ok {
        errno := EINVAL;
        return -1, 0;
      }
      fd, attempts := TryNames(tmpl, addr, open);
    }

    /**
      One pass of the retry loop, attempt `k` of a call that found the counter
      at `c0`: advance the counter, write the suffix and try to create the
      resulting path.
    */
    method TryOnce(tmpl: array<char>, addr: u32, k: nat, open: string -> OpenResult,
                   ghost prefix: string, ghost c0: u32)
      returns (r: OpenResult)
      requires k < MAX_ATTEMPTS && tmpl.Length == |prefix| + SUFFIX_LEN
      requires tmpl[..|prefix|] == prefix && counter == Bump(c0, k)
      modifies this`counter, tmpl
      ensures counter == Bump(c0, k + 1)
      ensures tmpl[..|prefix|] == prefix
      ensures tmpl[..] == Tried(prefix, c0, addr, k)
      ensures r == Create(open, Tried(prefix, c0, addr, k))
    {
      var start := tmpl.Length - SUFFIX_LEN;
      BumpStep(c0, k);
      counter := Incr(counter);
      WriteSuffix(tmpl, start, Val(counter, addr, k));
      assert tmpl[..] == tmpl[..start] + tmpl[start..];
      r := open(tmpl[..]);
    }

    /** The retry loop of `mkstemp`, once the template has been accepted. */
    method TryNames(tmpl: array<char>, addr: u32, open: string -> OpenResult)
      returns (fd: int, ghost attempts: nat)
      requires tmpl.Length >= SUFFIX_LEN
      modifies this, tmpl
      ensures Settled(open, old(tmpl[..tmpl.Length - SUFFIX_LEN]), old(counter), addr, old(errno),
                      attempts, counter, tmpl[..], errno, fd)
    {
      ghost var prefix := tmpl[..tmpl.Length - SUFFIX_LEN];
      var attempt := 0;
      while attempt < MAX_ATTEMPTS
        invariant 0 <= attempt <= MAX_ATTEMPTS
        invariant counter == Bump(old(counter), attempt)
        invariant tmpl[..|prefix|] == prefix
        invariant attempt == 0 ==> errno == old(errno)
        invariant attempt > 0 ==> errno == EEXIST
        invariant attempt > 0 ==> tmpl[..] == Tried(prefix, old(counter), addr, attempt - 1)
        invariant AllTaken(open, prefix, old(counter), addr, attempt)
      {
        var r := TryOnce(tmpl, addr, attempt, open, prefix, old(counter));
        ghost var name := tmpl[..];
        if r.Opened? {
          SettleOpened(open, prefix, old(counter), addr, old(errno), attempt, name, errno, r.fd);
          return r.fd, attempt + 1;
        }
        errno := r.errno;
        if r.errno != EEXIST {
          SettleFailed(open, prefix, old(counter), addr, old(errno), attempt, name, errno);
          return -1, attempt + 1;
        }
        AllTakenStep(open, prefix, old(counter), addr, attempt);
        assert tmpl[..] == name;
        attempt := attempt + 1;
      }
      SettleExhausted(open, prefix, old(counter), addr, old(errno), tmpl[..]);
      errno := EEXIST;
      fd, attempts := -1, MAX_ATTEMPTS;
    }
  }
}
