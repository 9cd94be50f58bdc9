/**
  The wasm setjmp/longjmp runtime.

  The compiler lowers `setjmp(env)` to `Setjmp(label, id)` on the buffer, where
  `label` is a nonzero number for the call site and `id` the address of a
  frame-local slot (unique per live activation). `longjmp(env, val)` becomes
  `Longjmp(val)`, which throws an exception with tag C_LONGJMP. Every function
  holding a setjmp call site catches that exception and asks `SetjmpTest`
  whether the jump is meant for it; if not, it rethrows.

  The buffer's four fields are modelled twice: as the value `Record`, on which
  the pure functions `Mark`, `Test` and `Divert` say what each entry point
  does, and as the class `JmpBuf`, whose methods update the fields in place and
  are proved to agree with those functions.
*/
module SjLj {
  import opened CTypes

  /** The exception tag of a lowered longjmp. */
  const C_LONGJMP: u32 := 1

  /** How a call into the runtime ends. */
  datatype Outcome<T> =
    | Trap                                      // __builtin_trap()
    | Thrown(tag: u32, env: JmpBuf, val: i32)   // wasm throw carrying the buffer's arg pair
    | Returned(value: T)

  /** The contents of a jmp_buf: invocation id, label, and the longjmp argument pair. */
  datatype Record = Record(invocationId: Ptr, siteLabel: u32, argEnv: JmpBuf?, argVal: i32)

  /** One operation on a buffer: its contents afterwards and how the call ended. */
  datatype Step<T> = Step(after: Record, out: Outcome<T>)

  /** A jmp_buf in static storage: every field zero. */
  const Zeroed: Record := Record(Null, 0, null, 0)

  /** `__wasm_setjmp`: record which activation and which call site own the buffer. */
  function Mark(r: Record, siteLabel: u32, id: Ptr): (s: Step<()>)
    ensures s.out.Trap? <==> siteLabel == 0 || id == Null
    ensures s.out.Trap? ==> s.after == r
    ensures !s.out.Trap? ==> s.out == Returned(())
    ensures !s.out.Trap? ==> s.after.invocationId == id && s.after.siteLabel == siteLabel
    ensures s.after.argEnv == r.argEnv && s.after.argVal == r.argVal
  {
    if siteLabel == 0 then Step(r, Trap)
    else if id == Null then Step(r, Trap)
    else Step(r.(invocationId := id, siteLabel := siteLabel), Returned(()))
  }

  /** `__wasm_setjmp_test`: the label if the buffer belongs to activation `id`, else 0. */
  function Test(r: Record, id: Ptr): (s: Step<u32>)
    ensures s.after == r
    ensures s.out.Trap? <==> r.siteLabel == 0 || id == Null
    ensures !s.out.Trap? ==> s.out.Returned?
    ensures s.out.Returned? ==> (s.out.value != 0 <==> r.invocationId == id)
    ensures s.out.Returned? && s.out.value != 0 ==> s.out.value == r.siteLabel
  {
    if r.siteLabel == 0 then Step(r, Trap)
    else if id == Null then Step(r, Trap)
    else if r.invocationId == id then Step(r, Returned(r.siteLabel))
    else Step(r, Returned(0 as u32))
  }

  /** The value a resumed setjmp yields for `longjmp(env, val)` (ISO/IEC 9899, section 7.13.2.1). */
  function ResumeValue(val: i32): (v: i32)
    ensures v != 0
    ensures val != 0 ==> v == val
    ensures val == 0 ==> v == 1
  {
    if val == 0 then 1 else val
  }

  /** `__wasm_longjmp` on the buffer `env` whose contents are `r`: fill the argument pair and throw. */
  function Divert<T>(r: Record, env: JmpBuf, val: i32): (s: Step<T>)
    ensures s.out.Thrown? && s.out.tag == C_LONGJMP && s.out.env == env
    ensures s.out.val != 0 && (val != 0 ==> s.out.val == val)
    ensures val == 0 ==> s.out.val == 1
    ensures s.after.invocationId == r.invocationId && s.after.siteLabel == r.siteLabel
    ensures s.after.argEnv == env && s.after.argVal == s.out.val
  {
    var v := ResumeValue(val);
    Step(r.(argEnv := env, argVal := v), Thrown(C_LONGJMP, env, v))
  }

  /** The storage behind a `jmp_buf`, laid out as `struct jmp_buf_impl`. */
  class JmpBuf {
    var invocationId: Ptr
    var siteLabel: u32
    var argEnv: JmpBuf?
    var argVal: i32

    function Snapshot(): Record
      reads this
    {
      Record(invocationId, siteLabel, argEnv, argVal)
    }

    /** A buffer in zero-initialised static storage. */
    constructor ()
      ensures Snapshot() == Zeroed
    {
      invocationId, siteLabel, argEnv, argVal := Null, 0, null, 0;
    }

    /** `__wasm_setjmp(env, label, id)`. */
    method Setjmp(siteLabel: u32, id: Ptr) returns (o: Outcome<()>)
      modifies this
      ensures Step(Snapshot(), o) == Mark(old(Snapshot()), siteLabel, id)
    {
      if siteLabel == 0 {
        return Trap;
      }
      if id == Null {
        return Trap;
      }
      this.invocationId := id;
      this.siteLabel := siteLabel;
      o := Returned(());
    }

    /** `__wasm_setjmp_test(env, id)`; reads the buffer and changes nothing. */
    method SetjmpTest(id: Ptr) returns (o: Outcome<u32>)
      ensures o == Test(Snapshot(), id).out
      ensures o.Returned? ==> (o.value != 0 <==> invocationId == id)
    {
      if siteLabel == 0 {
        return Trap;
      }
      if id == Null {
        return Trap;
      }
      if invocationId == id {
        return Returned(siteLabel);
      }
      o := Returned(0);
    }

    /** `__wasm_longjmp(env, val)`: never returns normally, so its result type is free. */
    method Longjmp<T>(val: i32) returns (o: Outcome<T>)
      modifies this
      ensures Step(Snapshot(), o) == Divert(old(Snapshot()), this, val)
    {
      var v := val;
      if v == 0 {
        v := 1;
      }
      argEnv := this;
      argVal := v;
      o := Thrown(C_LONGJMP, this, v);
    }
  }

  // ---------------------------------------------------------------------------
  // Sequences of calls on one buffer

  /** After a successful setjmp, the same activation's test yields the call site's label. */
  lemma MarkThenTest(r: Record, siteLabel: u32, id: Ptr)
    requires siteLabel != 0 && id != Null
    ensures Test(Mark(r, siteLabel, id).after, id).out == Returned(siteLabel)
  {
  }

  /** After a successful setjmp, any other activation's test yields 0: that frame rethrows. */
  lemma MarkThenTestOther(r: Record, siteLabel: u32, id: Ptr, other: Ptr)
    requires siteLabel != 0 && id != Null && other != Null && other != id
    ensures Test(Mark(r, siteLabel, id).after, other).out == Returned(0)
  {
  }

  /** A later setjmp on the same buffer replaces the earlier mark entirely. */
  lemma MarkOverwrites(r: Record, l1: u32, id1: Ptr, l2: u32, id2: Ptr)
    requires l1 != 0 && id1 != Null && l2 != 0 && id2 != Null
    ensures Mark(Mark(r, l1, id1).after, l2, id2).after == Mark(r, l2, id2).after
  {
  }

  /** A buffer never marked makes every test trap. */
  lemma UnmarkedTestTraps(id: Ptr)
    ensures Test(Zeroed, id).out == Trap
  {
  }

  /** longjmp leaves the owner and label alone, so every frame's test answers as before. */
  lemma DivertKeepsOwner(r: Record, env: JmpBuf, val: i32, id: Ptr)
    ensures Test(Divert<()>(r, env, val).after, id).out == Test(r, id).out
  {
  }

  // ---------------------------------------------------------------------------
  // Dispatching a thrown longjmp over the live frames

  /** Where a thrown C_LONGJMP comes to rest. */
  datatype Landing =
    | Uncaught                          // no live frame claimed it: it leaves the wasm module
    | Trapped(depth: nat)               // the test in frame `depth` trapped
    | Claimed(depth: nat, siteLabel: u32)   // frame `depth` resumes at that call site

  /**
    The catch handlers met by a throw whose buffer holds `r`. `frames` lists the
    invocation ids of the live activations that have setjmp call sites,
    innermost first; each tests the thrown buffer and either claims the jump
    or rethrows it unchanged to the next one out.
  */
  function Dispatch(r: Record, frames: seq<Ptr>): (l: Landing)
    ensures l.Claimed? ==> l.depth < |frames| && frames[l.depth] == r.invocationId && l.siteLabel == r.siteLabel
    ensures l.Trapped? ==> l.depth < |frames|
    ensures l == Uncaught ==> r.invocationId !in frames
    decreases |frames|
  {
    if frames == [] then Uncaught
    else
      var answer := Test(r, frames[0]).out;
      if answer.Trap? then Trapped(0)
      else if answer.value != 0 then Claimed(0, answer.value)
      else match Dispatch(r, frames[1..])
        case Uncaught => Uncaught
        case Trapped(d) => Trapped(d + 1)
        case Claimed(d, l) => Claimed(d + 1, l)
  }

  /** `k` is the innermost position of `id` among `frames`. */
  ghost predicate InnermostAt(frames: seq<Ptr>, id: Ptr, k: nat)
  {
    k < |frames| && frames[k] == id && forall j :: 0 <= j < k ==> frames[j] != id
  }

  /**
    On a marked buffer, with every live frame's id non-null, the innermost frame
    whose id is stored claims the jump at the stored label, every frame inside
    it rethrows, and if no live frame owns the buffer the throw escapes.
  */
  lemma {:induction false} DispatchFindsOwner(r: Record, frames: seq<Ptr>)
    requires r.siteLabel != 0
    requires Null !in frames
    ensures r.invocationId in frames ==>
      exists k: nat :: InnermostAt(frames, r.invocationId, k) && Dispatch(r, frames) == Claimed(k, r.siteLabel)
    ensures r.invocationId !in frames ==> Dispatch(r, frames) == Uncaught
    decreases |frames|
  {
    if frames != [] {
      if frames[0] == r.invocationId {
        assert InnermostAt(frames, r.invocationId, 0);
      } else {
        assert frames == [frames[0]] + frames[1..];
        DispatchFindsOwner(r, frames[1..]);
        if r.invocationId in frames {
          assert r.invocationId in frames[1..];
          var k: nat :| InnermostAt(frames[1..], r.invocationId, k) && Dispatch(r, frames[1..]) == Claimed(k, r.siteLabel);
          assert InnermostAt(frames, r.invocationId, k + 1);
        }
      }
    }
  }

  /** A jump is claimed by at most one position: the innermost frame holding the stored id. */
  lemma ClaimIsInnermost(r: Record, frames: seq<Ptr>)
    requires r.siteLabel != 0 && Null !in frames
    requires Dispatch(r, frames).Claimed?
    ensures InnermostAt(frames, r.invocationId, Dispatch(r, frames).depth)
  {
    DispatchFindsOwner(r, frames);
  }

  /**
    Frame A marks `env` at call site 3; a callee without setjmp call sites
    longjmps to it with value 0. A's handler claims the jump at call site 3 and
    setjmp yields 1.
  */
  lemma JumpToCaller(env: JmpBuf, a: Ptr)
    requires a != Null
    ensures var marked := Mark(Zeroed, 3, a).after;
            var thrown := Divert<()>(marked, env, 0);
            thrown.out.val == 1 && Dispatch(thrown.after, [a]) == Claimed(0, 3)
  {
  }

  /**
    Frame A marks `env`, then a re-entrant activation A' of the same function
    marks the same `env` and jumps. A' (innermost) claims the jump, not A.
  */
  lemma ReentrantInnermostClaims(env: JmpBuf, a: Ptr, a': Ptr, siteLabel: u32, val: i32)
    requires a != Null && a' != Null && a != a' && siteLabel != 0
    ensures var byA := Mark(Zeroed, siteLabel, a).after;
            var byA' := Mark(byA, siteLabel, a').after;
            Dispatch(Divert<()>(byA', env, val).after, [a', a]) == Claimed(0, siteLabel)
  {
  }
}
