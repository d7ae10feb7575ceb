/** The payload transformations of proxy/src/Fuzzer.cpp.

    Blocks come from an allocator that may fail at any call, and the bytes read back from
    the external mutator are arbitrary. The methods keep the shape of the C++ code; what
    they compute is given by the functions `Normal`, `Post`, `Pre` and `Full`, and the
    lemmas after them say what those functions promise. */
module FuzzerCore {
  import opened Base

  /** MIN_OUTPUT_SIZE and MAX_BUFFER_SIZE, kept symbolic. */
  datatype Limits = Limits(lo: nat, hi: nat) {
    ghost predicate Ok() { 0 < lo <= hi }
  }

  const BATCH: nat := 4096
  const PROXY_LIMITS := Limits(100 * BATCH, 10000 * BATCH)

  /** MAX_UDP_PAYLOAD_SIZE - 1: the most bytes a forwarding thread hands to sendto. */
  const MAX_PAYLOAD: nat := 65499

  /** What one call of `RunRadamsaExpanded` contributed: nothing (an allocation failed), the
      input repeated (the mutator failed), or what the mutator wrote. `Endless` means that
      the call did not return: it was repeating an empty input. */
  datatype Mutation = NoFuzz | Repeated | Mutated(raw: seq<Byte>) | Endless {
    ghost predicate Ok(lim: Limits, input: seq<Byte>) {
      && (Mutated? ==> 0 < |raw| <= lim.hi)
      && (Repeated? ==> input != []) && (Endless? ==> input == [])
    }

    ghost predicate Usable(lim: Limits, input: seq<Byte>) { Ok(lim, input) && !Endless? }
  }

  /** How one call of `RunRadamsaExpanded` went: whether `runRadamsa` returned a block, and
      whether the block allocated after that, for the normalised or the repeated bytes, was
      granted. This decides the outcome, in particular whether the call returns. */
  datatype Calls = Calls(mutated: bool, granted: bool) {
    function Outcome(input: seq<Byte>, run: Option<seq<Byte>>): Mutation {
      if !granted then NoFuzz
      else if mutated && run.Some? then Mutated(run.value)
      else if input == [] then Endless
      else Repeated
    }
  }

  function Cycle(s: seq<Byte>, n: nat): (r: seq<Byte>)
    requires |s| > 0
  {
    seq(n, i requires 0 <= i < n => s[i % |s|])
  }

  function Cut(lim: Limits, s: seq<Byte>): (r: seq<Byte>) {
    if |s| <= lim.hi then s else s[..lim.hi]
  }

  /** What `NormalizeOutputSize` turns its input into. */
  function Normal(lim: Limits, s: seq<Byte>): (r: seq<Byte>)
    requires |s| > 0
  {
    if |s| < lim.lo then Cycle(s, lim.lo) else Cut(lim, s)
  }

  function FuzzBytes(lim: Limits, input: seq<Byte>, m: Mutation): (r: seq<Byte>)
    requires lim.Ok() && m.Usable(lim, input)
    ensures m != NoFuzz ==> |r| > 0
  {
    match m
    case NoFuzz => []
    case Repeated => Cycle(input, lim.lo)
    case Mutated(raw) => Normal(lim, raw)
  }

  /** What a run of the mutator contributes when every allocation succeeds. */
  function Yield(input: seq<Byte>, run: Option<seq<Byte>>): (m: Mutation) {
    if run.Some? then Mutated(run.value) else if input == [] then Endless else Repeated
  }

  function Post(lim: Limits, input: seq<Byte>, m: Mutation): (r: seq<Byte>)
    requires lim.Ok() && m.Usable(lim, input)
  {
    if m == NoFuzz then input else Normal(lim, input + FuzzBytes(lim, input, m))
  }

  function Pre(lim: Limits, input: seq<Byte>, m: Mutation): (r: seq<Byte>)
    requires lim.Ok() && m.Usable(lim, input)
  {
    if m == NoFuzz then input else Normal(lim, FuzzBytes(lim, input, m) + input)
  }

  function Full(lim: Limits, input: seq<Byte>, m1: Mutation, m2: Mutation): (r: seq<Byte>)
    requires lim.Ok() && m1.Usable(lim, input) && m2.Usable(lim, input)
  {
    if m1 == NoFuzz && m2 == NoFuzz then input
    else Normal(lim, FuzzBytes(lim, input, m1) + input + FuzzBytes(lim, input, m2))
  }

  // ---------------------------------------------------------------- the outside world

  /** Whether runRadamsa returned a block, and how many allocations had failed by then. */
  datatype Try = Try(block: bool, failures: nat)

  /** What runRadamsaExpanded contributed, and how many allocations had failed by then. */
  datatype Fuzz = Fuzz(m: Mutation, failures: nat)

  /** The allocator and the external mutator. */
  class Env {
    /** Blocks handed out and not yet freed. */
    ghost var live: set<array<Byte>>
    /** How many allocations failed. */
    ghost var failures: nat
    /** What each run of the mutator yielded; None if it could not be run or wrote nothing. */
    ghost var mutations: seq<Option<seq<Byte>>>
    /** How each call of runRadamsa and of runRadamsaExpanded ended. */
    ghost var tries: seq<Try>
    ghost var fuzzes: seq<Fuzz>

    constructor ()
      ensures live == {} && failures == 0 && mutations == [] && tries == [] && fuzzes == []
    {
      live, failures, mutations, tries, fuzzes := {}, 0, [], [], [];
    }

    method Malloc(n: nat) returns (p: array?<Byte>)
      modifies this`live, this`failures
      ensures p == null ==> live == old(live) && failures == old(failures) + 1
      ensures p != null ==>
        fresh(p) && p.Length == n && live == old(live) + {p} && failures == old(failures)
    {
      if * {
        p := null;
        failures := failures + 1;
      } else {
        p := new Byte[n];
        live := live + {p};
      }
    }

    /** One run of radamsa: the bytes a single read of its output yields, at most `max`. */
    method Mutate(max: nat) returns (r: Option<seq<Byte>>)
      modifies this`mutations
      ensures r.Some? ==> 0 < |r.value| <= max
      ensures mutations == old(mutations) + [r]
    {
      var written: seq<Byte> := *;
      r := if 0 < |written| <= max then Some(written) else None;
      mutations := mutations + [r];
    }

    /** Freeing a block that is not live is an error of the caller; freeing null does nothing. */
    method Free(p: array?<Byte>)
      requires p != null ==> p in live
      modifies this`live
      ensures live == (if p == null then old(live) else old(live) - {p})
    {
      if p != null {
        live := live - {p};
      }
    }

    /** memcpy(dst + at, src, n); both blocks must still be live. */
    method Memcpy(dst: array<Byte>, at: nat, src: array<Byte>, n: nat)
      requires dst in live && src in live && dst != src
      requires at + n <= dst.Length && n <= src.Length
      modifies dst
      ensures forall i :: 0 <= i < dst.Length ==>
        dst[i] == if at <= i < at + n then src[i - at] else old(dst[i])
    {
      forall i | 0 <= i < n {
        dst[at + i] := src[i];
      }
    }
  }

  lemma CycleStep(copied: nat, len: nat, j: nat)
    requires 0 < len && copied % len == 0 && j < len
    ensures (copied + j) % len == j
  {
    var k := copied / len;
    assert copied == k * len;
    ModUnique(k, len, j);
  }

  lemma ModUnique(k: int, len: nat, j: nat)
    requires j < len
    ensures (k * len + j) % len == j
  {
    var x := k * len + j;
    QuotientUnique(k, x / len, len, j, x % len);
  }

  lemma QuotientUnique(k: int, q: int, len: nat, j: nat, r: nat)
    requires j < len && r < len && k * len + j == q * len + r
    ensures j == r
  {
    if k > q {
      Multiples(k, q, len);
    } else if q > k {
      Multiples(q, k, len);
    }
  }

  lemma Multiples(a: int, b: int, len: nat)
    requires a > b
    ensures a * len >= b * len + len
  {
    var d := a - b - 1;
    assert d * len >= 0;
    assert a * len == (b + (d + 1)) * len == b * len + (d + 1) * len == b * len + d * len + len;
  }

  // ---------------------------------------------------------------- the methods

  class Fuzzer {
    const lim: Limits

    constructor ()
      ensures lim == PROXY_LIMITS
    {
      lim := PROXY_LIMITS;
    }

    /** The fill loop shared by the code's three expansion sites: repeat `src` from the
        start of `dst` until `target` bytes are there. With an empty source an iteration
        copies nothing and the loop never ends, which is reported as `ended == false`. */
    method FillCyclic(env: Env, dst: array<Byte>, target: nat, src: array<Byte>, size: nat) returns (ended: bool)
      requires size <= src.Length && 0 < target == dst.Length
      requires dst in env.live && src in env.live && dst != src
      modifies dst
      ensures ended <==> size > 0
      ensures ended ==> dst[..] == Cycle(src[..size], target)
    {
      var copied := 0;
      while copied < target
        invariant copied <= target
        invariant copied > 0 ==> size > 0
        invariant size > 0 ==> copied % size == 0 || copied == target
        invariant size > 0 ==> forall i :: 0 <= i < copied ==> dst[i] == src[i % size]
      {
        var toCopy := if size < target - copied then size else target - copied;
        if toCopy == 0 {
          return false;
        }
        env.Memcpy(dst, copied, src, toCopy);
        forall i | copied <= i < copied + toCopy
          ensures dst[i] == src[i % size]
        {
          CycleStep(copied, size, i - copied);
        }
        if toCopy == size {
          assert (copied + size) % size == 0 by {
            assert (copied + size) == (copied / size + 1) * size + 0;
            ModUnique(copied / size + 1, size, 0);
          }
        }
        copied := copied + toCopy;
      }
      ended := true;
    }

    method NormalizeOutputSize(env: Env, input: array<Byte>, inputLen: nat)
      returns (out: array?<Byte>, outLen: nat)
      requires lim.Ok() && 0 < inputLen <= input.Length && input in env.live
      modifies env`live, env`failures
      ensures env.failures == old(env.failures) + (if out == null then 1 else 0)
      ensures out == null ==> outLen == 0 && env.live == old(env.live)
      ensures out != null ==>
        && fresh(out) && env.live == old(env.live) + {out} && outLen == out.Length
        && out[..] == Normal(lim, input[..inputLen])
    {
      if lim.lo <= inputLen && inputLen <= lim.hi {
        outLen := inputLen;
        out := env.Malloc(outLen);
        if out != null {
          env.Memcpy(out, 0, input, outLen);
        } else {
          outLen := 0;
        }
        return;
      }
      if inputLen < lim.lo {
        var target := lim.lo;
        if target > lim.hi {
          target := lim.hi;
        }
        out := env.Malloc(target);
        if out == null {
          outLen := 0;
          return;
        }
        var _ := FillCyclic(env, out, target, input, inputLen);
        outLen := target;
        return;
      }
      var target := lim.hi;
      out := env.Malloc(target);
      if out == null {
        outLen := 0;
        return;
      }
      env.Memcpy(out, 0, input, target);
      outLen := target;
      assert out[..] == input[..inputLen][..lim.hi];
    }

    method RunRadamsa(env: Env, data: array<Byte>, size: nat)
      returns (out: array?<Byte>, outSize: nat, ghost run: Option<seq<Byte>>)
      requires lim.Ok() && size <= data.Length && data in env.live
      modifies env
      ensures env.mutations == old(env.mutations) + [run] && (run.Some? ==> 0 < |run.value| <= lim.hi)
      ensures old(env.failures) <= env.failures <= old(env.failures) + 1
      ensures out != null ==> env.failures == old(env.failures)
      ensures out == null && run.Some? ==> env.failures == old(env.failures) + 1
      ensures env.tries == old(env.tries) + [Try(out != null, env.failures)] && env.fuzzes == old(env.fuzzes)
      ensures out == null ==> outSize == 0 && env.live == old(env.live)
      ensures out != null ==>
        && fresh(out) && env.live == old(env.live) + {out} && outSize == out.Length
        && run.Some? && out[..] == Normal(lim, run.value)
    {
      run := None;
      if * {  // pipe or fork failed
        env.mutations, env.tries := env.mutations + [None], env.tries + [Try(false, env.failures)];
        return null, 0, None;
      }
      var tempBuf := env.Malloc(lim.hi);
      if tempBuf == null {
        env.mutations, env.tries := env.mutations + [None], env.tries + [Try(false, env.failures)];
        return null, 0, None;
      }
      var readBytes := env.Mutate(lim.hi);
      run := readBytes;
      if readBytes.None? {
        env.Free(tempBuf);
        env.tries := env.tries + [Try(false, env.failures)];
        return null, 0, None;
      }
      forall i | 0 <= i < |readBytes.value| {
        tempBuf[i] := readBytes.value[i];
      }
      assert tempBuf[..|run.value|] == run.value;
      out, outSize := NormalizeOutputSize(env, tempBuf, |readBytes.value|);
      env.Free(tempBuf);
      env.tries := env.tries + [Try(out != null, env.failures)];
    }

    /** A successful `RunRadamsa` has already normalised its output, so the code's last
        branch, which pads a short first result with the input, is never entered and the
        second normalisation changes nothing. */
    method RunRadamsaExpanded(env: Env, data: array<Byte>, size: nat)
      returns (out: array?<Byte>, outSize: nat, ended: bool, ghost m: Mutation, ghost calls: Calls)
      requires lim.Ok() && size <= data.Length && data in env.live
      modifies env
      ensures |env.mutations| == |old(env.mutations)| + 1 && old(env.mutations) <= env.mutations
      ensures env.failures >= old(env.failures)
      ensures m.Ok(lim, data[..size]) && (ended <==> m != Endless) && (out == null <==> m == NoFuzz || m == Endless)
      ensures m.Mutated? ==> env.mutations[|old(env.mutations)|] == Some(m.raw)
      ensures m == calls.Outcome(data[..size], env.mutations[|old(env.mutations)|])
      ensures calls.mutated ==> env.mutations[|old(env.mutations)|].Some?
      ensures |env.tries| == |old(env.tries)| + 1 && calls.mutated == env.tries[|old(env.tries)|].block
      ensures env.failures == env.tries[|old(env.tries)|].failures + One(!calls.granted)
      ensures env.fuzzes == old(env.fuzzes) + [Fuzz(m, env.failures)]
      ensures env.failures == old(env.failures) ==>
        && calls.granted && (calls.mutated <==> env.mutations[|old(env.mutations)|].Some?)
        && m == Yield(data[..size], env.mutations[|old(env.mutations)|])
      ensures out == null ==> outSize == 0 && (ended ==> env.live == old(env.live))
      ensures out != null ==>
        && fresh(out) && env.live == old(env.live) + {out} && outSize == out.Length
        && out[..] == FuzzBytes(lim, data[..size], m)
      ensures out != null && m.Mutated? ==> out[..] == Normal(lim, m.raw)
      ensures out != null && m.Repeated? ==> out[..] == Cycle(data[..size], lim.lo)
    {
      m, calls := NoFuzz, Calls(false, false);
      out, outSize, ended := null, 0, true;
      var firstFuzz, firstSize, run := RunRadamsa(env, data, size);
      if firstFuzz == null || firstSize == 0 {
        if firstFuzz != null {
          assert false;
        }
        var target := lim.lo;
        var result := env.Malloc(target);
        if result == null {
          env.fuzzes := env.fuzzes + [Fuzz(NoFuzz, env.failures)];
          return null, 0, true, NoFuzz, Calls(false, false);
        }
        ended := FillCyclic(env, result, target, data, size);
        env.fuzzes := env.fuzzes + [Fuzz(if ended then Repeated else Endless, env.failures)];
        if !ended {
          return null, 0, false, Endless, Calls(false, true);
        }
        return result, target, true, Repeated, Calls(false, true);
      }
      if firstSize >= lim.lo {
        NormalIdempotent(lim, run.value);
        assert firstFuzz[..firstSize] == firstFuzz[..];
        out, outSize := NormalizeOutputSize(env, firstFuzz, firstSize);
        env.Free(firstFuzz);
        calls := Calls(true, out != null);
        if out != null {
          m := Mutated(run.value);
        }
        env.fuzzes := env.fuzzes + [Fuzz(m, env.failures)];
        return;
      }
      assert false;
    }

    method CopyOf(env: Env, input: array<Byte>, size: nat) returns (out: array?<Byte>, newSize: nat)
      requires size <= input.Length && input in env.live
      modifies env`live, env`failures
      ensures env.failures == old(env.failures) + (if out == null then 1 else 0)
      ensures out == null ==> newSize == 0 && env.live == old(env.live)
      ensures out != null ==>
        && fresh(out) && env.live == old(env.live) + {out} && newSize == out.Length
        && out[..] == input[..size]
    {
      out := env.Malloc(size);
      if out == null {
        return null, 0;
      }
      env.Memcpy(out, 0, input, size);
      newSize := size;
    }

    method PostFuzzing(env: Env, input: array<Byte>, size: nat)
      returns (out: array?<Byte>, newSize: nat, ended: bool, ghost m: Mutation)
      requires lim.Ok() && size <= input.Length && input in env.live
      modifies env
      ensures |env.mutations| == |old(env.mutations)| + 1 && old(env.mutations) <= env.mutations
      ensures env.failures >= old(env.failures)
      ensures m.Ok(lim, input[..size]) && (m.Mutated? ==> env.mutations[|old(env.mutations)|] == Some(m.raw))
      ensures ended <==> m != Endless
      ensures |env.fuzzes| == |old(env.fuzzes)| + 1 && env.fuzzes[|old(env.fuzzes)|].m == m
      ensures ended ==> env.failures == env.fuzzes[|old(env.fuzzes)|].failures + One(out == null)
      ensures env.failures == old(env.failures) ==>
        (out == null ==> !ended) && m == Yield(input[..size], env.mutations[|old(env.mutations)|])
      ensures out == null ==> newSize == 0 && (ended ==> env.live == old(env.live))
      ensures out != null ==>
        && ended && fresh(out) && env.live == old(env.live) + {out} && newSize == out.Length
        && out[..] == Post(lim, input[..size], m)
    {
      var fuzzed, fuzzSize;
      ghost var calls;
      fuzzed, fuzzSize, ended, m, calls := RunRadamsaExpanded(env, input, size);
      if !ended {
        return null, 0, false, m;
      }
      if fuzzed == null {
        out, newSize := CopyOf(env, input, size);
        return;
      }
      var combinedLen := size + fuzzSize;
      var combined := env.Malloc(combinedLen);
      if combined == null {
        env.Free(fuzzed);
        return null, 0, true, m;
      }
      env.Memcpy(combined, 0, input, size);
      env.Memcpy(combined, size, fuzzed, fuzzSize);
      assert combined[..combinedLen] == input[..size] + fuzzed[..];
      env.Free(fuzzed);
      out, newSize := NormalizeOutputSize(env, combined, combinedLen);
      env.Free(combined);
    }

    method PreFuzzing(env: Env, input: array<Byte>, size: nat)
      returns (out: array?<Byte>, newSize: nat, ended: bool, ghost m: Mutation)
      requires lim.Ok() && size <= input.Length && input in env.live
      modifies env
      ensures |env.mutations| == |old(env.mutations)| + 1 && old(env.mutations) <= env.mutations
      ensures env.failures >= old(env.failures)
      ensures m.Ok(lim, input[..size]) && (m.Mutated? ==> env.mutations[|old(env.mutations)|] == Some(m.raw))
      ensures ended <==> m != Endless
      ensures |env.fuzzes| == |old(env.fuzzes)| + 1 && env.fuzzes[|old(env.fuzzes)|].m == m
      ensures ended ==> env.failures == env.fuzzes[|old(env.fuzzes)|].failures + One(out == null)
      ensures env.failures == old(env.failures) ==>
        (out == null ==> !ended) && m == Yield(input[..size], env.mutations[|old(env.mutations)|])
      ensures out == null ==> newSize == 0 && (ended ==> env.live == old(env.live))
      ensures out != null ==>
        && ended && fresh(out) && env.live == old(env.live) + {out} && newSize == out.Length
        && out[..] == Pre(lim, input[..size], m)
    {
      var fuzzed, fuzzSize;
      ghost var calls;
      fuzzed, fuzzSize, ended, m, calls := RunRadamsaExpanded(env, input, size);
      if !ended {
        return null, 0, false, m;
      }
      if fuzzed == null {
        out, newSize := CopyOf(env, input, size);
        return;
      }
      var combinedLen := fuzzSize + size;
      var combined := env.Malloc(combinedLen);
      if combined == null {
        env.Free(fuzzed);
        return null, 0, true, m;
      }
      env.Memcpy(combined, 0, fuzzed, fuzzSize);
      env.Memcpy(combined, fuzzSize, input, size);
      assert combined[..combinedLen] == fuzzed[..] + input[..size];
      env.Free(fuzzed);
      out, newSize := NormalizeOutputSize(env, combined, combinedLen);
      env.Free(combined);
    }

    method FullFuzzing(env: Env, input: array<Byte>, size: nat)
      returns (out: array?<Byte>, newSize: nat, ended: bool, ghost m1: Mutation, ghost m2: Mutation)
      requires lim.Ok() && size <= input.Length && input in env.live
      modifies env
      ensures old(env.mutations) <= env.mutations && env.failures >= old(env.failures)
      ensures ended ==>
        && |env.mutations| == |old(env.mutations)| + 2 && |env.fuzzes| == |old(env.fuzzes)| + 2
        && env.fuzzes[|old(env.fuzzes)|].m == m1 && env.fuzzes[|old(env.fuzzes)| + 1].m == m2
        && env.failures == env.fuzzes[|old(env.fuzzes)| + 1].failures + One(out == null)
      ensures m1.Ok(lim, input[..size]) && m2.Ok(lim, input[..size]) && (ended <==> m1 != Endless && m2 != Endless)
      ensures ended && m1.Mutated? ==> env.mutations[|old(env.mutations)|] == Some(m1.raw)
      ensures ended && m2.Mutated? ==> env.mutations[|old(env.mutations)| + 1] == Some(m2.raw)
      ensures env.failures == old(env.failures) && ended ==>
        && out != null
        && m1 == Yield(input[..size], env.mutations[|old(env.mutations)|])
        && m2 == Yield(input[..size], env.mutations[|old(env.mutations)| + 1])
      ensures out == null ==> newSize == 0 && (ended ==> env.live == old(env.live))
      ensures out != null ==>
        && ended && fresh(out) && env.live == old(env.live) + {out} && newSize == out.Length
        && out[..] == Full(lim, input[..size], m1, m2)
    {
      var fuzz1, fuzz1Size, fuzz2, fuzz2Size;
      m2 := NoFuzz;
      ghost var calls;
      fuzz1, fuzz1Size, ended, m1, calls := RunRadamsaExpanded(env, input, size);
      if !ended {
        return null, 0, false, m1, m2;
      }
      fuzz2, fuzz2Size, ended, m2, calls := RunRadamsaExpanded(env, input, size);
      if !ended {
        return null, 0, false, m1, m2;
      }
      if fuzz1 == null && fuzz2 == null {
        out, newSize := CopyOf(env, input, size);
        return;
      }
      out, newSize := Combine(env, fuzz1, fuzz1Size, input, size, fuzz2, fuzz2Size);
    }

    /** The end of FullFuzzing: both mutated parts are released, whether or not there is
        memory for the result. */
    method Combine(env: Env, fuzz1: array?<Byte>, fuzz1Size: nat, input: array<Byte>, size: nat,
                   fuzz2: array?<Byte>, fuzz2Size: nat)
      returns (out: array?<Byte>, newSize: nat)
      requires lim.Ok() && size <= input.Length && input in env.live && input != fuzz1 && input != fuzz2
      requires fuzz1 != null ==> fuzz1 in env.live && fuzz1 != fuzz2
      requires fuzz2 != null ==> fuzz2 in env.live
      requires fuzz1Size == |Contents(fuzz1)| && fuzz2Size == |Contents(fuzz2)| && 0 < fuzz1Size + size + fuzz2Size
      modifies env`live, env`failures
      ensures env.failures == old(env.failures) + One(out == null)
      ensures out == null ==> newSize == 0 && env.live == old(env.live) - {fuzz1, fuzz2}
      ensures out != null ==>
        && fresh(out) && env.live == old(env.live) - {fuzz1, fuzz2} + {out} && newSize == out.Length
        && out[..] == Normal(lim, old(Contents(fuzz1)) + input[..size] + old(Contents(fuzz2)))
    {
      var combinedLen := fuzz1Size + size + fuzz2Size;
      var combined := env.Malloc(combinedLen);
      if combined == null {
        env.Free(fuzz1);
        env.Free(fuzz2);
        return null, 0;
      }
      Join(env, combined, fuzz1, fuzz1Size, input, size, fuzz2, fuzz2Size);
      assert combined[..combinedLen] == combined[..];
      env.Free(fuzz1);
      env.Free(fuzz2);
      out, newSize := NormalizeOutputSize(env, combined, combinedLen);
      env.Free(combined);
    }

    ghost function Contents(p: array?<Byte>): seq<Byte>
      reads p
    {
      if p == null then [] else p[..]
    }

    /** fuzz1 ++ input ++ fuzz2; a null part is empty. */
    method Join(env: Env, combined: array<Byte>, fuzz1: array?<Byte>, fuzz1Size: nat,
                input: array<Byte>, size: nat, fuzz2: array?<Byte>, fuzz2Size: nat)
      requires combined in env.live && input in env.live && size <= input.Length && combined != input
      requires combined.Length == fuzz1Size + size + fuzz2Size
      requires fuzz1 != combined && (fuzz1 != null ==> fuzz1 in env.live) && fuzz1Size == |Contents(fuzz1)|
      requires fuzz2 != combined && (fuzz2 != null ==> fuzz2 in env.live) && fuzz2Size == |Contents(fuzz2)|
      modifies combined
      ensures combined[..] == Contents(fuzz1) + input[..size] + Contents(fuzz2)
    {
      var offset := 0;
      if fuzz1Size > 0 {
        env.Memcpy(combined, offset, fuzz1, fuzz1Size);
        offset := offset + fuzz1Size;
      }
      env.Memcpy(combined, offset, input, size);
      offset := offset + size;
      if fuzz2Size > 0 {
        env.Memcpy(combined, offset, fuzz2, fuzz2Size);
      }
    }

    /** The part of a forwarding thread's loop body between recvfrom and sendto: fuzz the
        datagram, clip it to what fits a UDP payload, free the fuzzed block. */
    method ForwardPayload(env: Env, buffer: array<Byte>, len: nat)
      returns (payload: seq<Byte>, ghost m: Option<Mutation>)
      requires lim.Ok() && 0 < len <= buffer.Length && buffer in env.live
      modifies env
      ensures env.live == old(env.live)
      ensures |env.mutations| == |old(env.mutations)| + 1 && old(env.mutations) <= env.mutations
      ensures env.failures >= old(env.failures)
      ensures env.failures == old(env.failures) ==> m == Some(Yield(buffer[..len], env.mutations[|old(env.mutations)|]))
      ensures |env.fuzzes| == |old(env.fuzzes)| + 1 && (m.Some? ==> m.value == env.fuzzes[|old(env.fuzzes)|].m)
      ensures env.failures == env.fuzzes[|old(env.fuzzes)|].failures + One(m.None?)
      ensures env.fuzzes[|old(env.fuzzes)|].m.Usable(lim, buffer[..len])
      ensures m.None? ==> payload == []
      ensures m.Some? ==>
        && m.value.Ok(lim, buffer[..len])
        && payload == Clip(Post(lim, buffer[..len], m.value))
    {
      m := None;
      var fuzzedBuf, fuzzedSize, ended, mut := PostFuzzing(env, buffer, len);
      var size := if fuzzedSize > MAX_PAYLOAD then MAX_PAYLOAD else fuzzedSize;
      if fuzzedBuf == null {
        payload := [];
      } else {
        payload := fuzzedBuf[..size];
        m := Some(mut);
        assert payload == Clip(fuzzedBuf[..]);
        env.Free(fuzzedBuf);
      }
    }
  }

  function Clip(s: seq<Byte>): (r: seq<Byte>) {
    if |s| > MAX_PAYLOAD then s[..MAX_PAYLOAD] else s
  }

  // ---------------------------------------------------------------- what the functions promise

  lemma NormalInRange(lim: Limits, s: seq<Byte>)
    requires lim.Ok() && |s| > 0
    ensures lim.lo <= |Normal(lim, s)| <= lim.hi
    ensures |Normal(lim, s)| == if |s| < lim.lo then lim.lo else if |s| > lim.hi then lim.hi else |s|
    ensures forall i :: 0 <= i < |Normal(lim, s)| ==> Normal(lim, s)[i] == s[i % |s|]
    ensures Normal(lim, s) == s <==> lim.lo <= |s| <= lim.hi
  {
    forall i | 0 <= i < |Normal(lim, s)|
      ensures Normal(lim, s)[i] == s[i % |s|]
    {
      if |s| >= lim.lo {
        ModUnique(0, |s|, i);
      }
    }
  }

  /** The bytes of a normal form stay in place when it is normalised again. */
  lemma NormalIdempotent(lim: Limits, s: seq<Byte>)
    requires lim.Ok() && |s| > 0
    ensures lim.lo <= |Normal(lim, s)| <= lim.hi
    ensures Normal(lim, Normal(lim, s)) == Normal(lim, s)
  {
  }

  /** What the mutator wrote is used whenever it wrote something and both blocks were granted,
      the input is repeated when it wrote nothing, and only a refused block leaves no fuzz. */
  lemma OutcomeExactly(input: seq<Byte>, run: Option<seq<Byte>>, calls: Calls)
    ensures run.Some? ==> Yield(input, run) == Mutated(run.value)
    ensures run.None? ==> Yield(input, run) == if input == [] then Endless else Repeated
    ensures calls.Outcome(input, run) == NoFuzz <==> !calls.granted
    ensures calls.granted && calls.mutated && run.Some? ==> calls.Outcome(input, run) == Mutated(run.value)
    ensures calls.granted && !calls.mutated ==> calls.Outcome(input, run) == if input == [] then Endless else Repeated
  {
  }

  /** The bytes one call of `RunRadamsaExpanded` contributes: what the mutator wrote, repeated
      up to the minimum length, or the input repeated to exactly that length. */
  lemma FuzzBytesExactly(lim: Limits, input: seq<Byte>, m: Mutation)
    requires lim.Ok() && m.Usable(lim, input)
    ensures m.NoFuzz? ==> FuzzBytes(lim, input, m) == []
    ensures m.Repeated? ==>
      && |FuzzBytes(lim, input, m)| == lim.lo
      && forall i :: 0 <= i < lim.lo ==> FuzzBytes(lim, input, m)[i] == input[i % |input|]
    ensures m.Mutated? ==>
      && |FuzzBytes(lim, input, m)| == (if |m.raw| < lim.lo then lim.lo else |m.raw|)
      && (forall i :: 0 <= i < |FuzzBytes(lim, input, m)| ==> FuzzBytes(lim, input, m)[i] == m.raw[i % |m.raw|])
      && (FuzzBytes(lim, input, m) == m.raw <==> |m.raw| >= lim.lo)
  {
    if m.Mutated? {
      NormalInRange(lim, m.raw);
    }
  }

  /** The output of PostFuzzing byte by byte: the input, then what the mutator wrote, repeated
      if it is short, or the input again if there was nothing; all up to the maximum. */
  lemma PostBytes(lim: Limits, input: seq<Byte>, m: Mutation)
    requires lim.Ok() && m.Usable(lim, input)
    ensures m.NoFuzz? ==> Post(lim, input, m) == input
    ensures !m.NoFuzz? ==>
      var src := if m.Mutated? then m.raw else input;
      var n := |input| + if m.Mutated? && |m.raw| >= lim.lo then |m.raw| else lim.lo;
      && |Post(lim, input, m)| == (if n > lim.hi then lim.hi else n)
      && forall i :: 0 <= i < |Post(lim, input, m)| ==>
           Post(lim, input, m)[i] == if i < |input| then input[i] else src[(i - |input|) % |src|]
  {
    FuzzBytesExactly(lim, input, m);
    if !m.NoFuzz? {
      PostClosedForm(lim, input, m);
    }
  }

  lemma PreBytes(lim: Limits, input: seq<Byte>, m: Mutation)
    requires lim.Ok() && m.Usable(lim, input)
    ensures m.NoFuzz? ==> Pre(lim, input, m) == input
    ensures !m.NoFuzz? ==>
      var src := if m.Mutated? then m.raw else input;
      var f := if m.Mutated? && |m.raw| >= lim.lo then |m.raw| else lim.lo;
      && |Pre(lim, input, m)| == (if f + |input| > lim.hi then lim.hi else f + |input|)
      && forall i :: 0 <= i < |Pre(lim, input, m)| ==>
           Pre(lim, input, m)[i] == if i < f then src[i % |src|] else input[i - f]
  {
    FuzzBytesExactly(lim, input, m);
    if !m.NoFuzz? {
      PreClosedForm(lim, input, m);
    }
  }

  /** The output of FullFuzzing: the input between two parts `a` and `c` of this kind, up to the
      maximum. */
  lemma FullBytes(lim: Limits, input: seq<Byte>, m1: Mutation, m2: Mutation) returns (a: seq<Byte>, c: seq<Byte>)
    requires lim.Ok() && m1.Usable(lim, input) && m2.Usable(lim, input)
    ensures |a| == if m1.NoFuzz? then 0 else if m1.Mutated? && |m1.raw| >= lim.lo then |m1.raw| else lim.lo
    ensures |c| == if m2.NoFuzz? then 0 else if m2.Mutated? && |m2.raw| >= lim.lo then |m2.raw| else lim.lo
    ensures var src := if m1.Mutated? then m1.raw else input;
      forall i :: 0 <= i < |a| ==> a[i] == src[i % |src|]
    ensures var src := if m2.Mutated? then m2.raw else input;
      forall i :: 0 <= i < |c| ==> c[i] == src[i % |src|]
    ensures m1.NoFuzz? && m2.NoFuzz? ==> Full(lim, input, m1, m2) == input
    ensures !(m1.NoFuzz? && m2.NoFuzz?) ==>
      var n := |a| + |input| + |c|;
      Full(lim, input, m1, m2) == (a + input + c)[..if n > lim.hi then lim.hi else n]
  {
    a, c := FuzzBytes(lim, input, m1), FuzzBytes(lim, input, m2);
    FuzzBytesExactly(lim, input, m1);
    FuzzBytesExactly(lim, input, m2);
    if !(m1.NoFuzz? && m2.NoFuzz?) {
      FullClosedForm(lim, input, m1, m2);
    }
  }

  /** Whenever fuzzing succeeded, the output is original ++ fuzz cut to the maximum; it
      begins with the whole input if the input fits. */
  lemma PostClosedForm(lim: Limits, input: seq<Byte>, m: Mutation)
    requires lim.Ok() && m.Usable(lim, input) && m != NoFuzz
    ensures Post(lim, input, m) == Cut(lim, input + FuzzBytes(lim, input, m))
    ensures lim.lo <= |Post(lim, input, m)| <= lim.hi
    ensures input <= Post(lim, input, m) <==> |input| <= lim.hi
    ensures |input| > lim.hi ==> Post(lim, input, m) == input[..lim.hi]
  {
  }

  /** Prepending loses the end of the input exactly when fuzz and input together exceed
      the maximum. */
  lemma PreClosedForm(lim: Limits, input: seq<Byte>, m: Mutation)
    requires lim.Ok() && m.Usable(lim, input) && m != NoFuzz
    ensures Pre(lim, input, m) == Cut(lim, FuzzBytes(lim, input, m) + input)
    ensures lim.lo <= |Pre(lim, input, m)| <= lim.hi
    ensures FuzzBytes(lim, input, m) <= Pre(lim, input, m)
    ensures Pre(lim, input, m) == FuzzBytes(lim, input, m) + input
            <==> |FuzzBytes(lim, input, m)| + |input| <= lim.hi
  {
  }

  lemma FullClosedForm(lim: Limits, input: seq<Byte>, m1: Mutation, m2: Mutation)
    requires lim.Ok() && m1.Usable(lim, input) && m2.Usable(lim, input) && !(m1 == NoFuzz && m2 == NoFuzz)
    ensures Full(lim, input, m1, m2)
         == Cut(lim, FuzzBytes(lim, input, m1) + input + FuzzBytes(lim, input, m2))
    ensures lim.lo <= |Full(lim, input, m1, m2)| <= lim.hi
    ensures m1 == NoFuzz ==> Full(lim, input, m1, m2) == Post(lim, input, m2)
    ensures m2 == NoFuzz ==> Full(lim, input, m1, m2) == Pre(lim, input, m1)
  {
  }

  /** The file comment promises a length between minimum and maximum for every output. That
      holds unless fuzzing failed and the copied input is itself out of range. */
  lemma LengthPromise(lim: Limits, input: seq<Byte>, m: Mutation, m2: Mutation)
    requires lim.Ok() && m.Usable(lim, input) && m2.Usable(lim, input)
    ensures lim.lo <= |Post(lim, input, m)| <= lim.hi <==> m != NoFuzz || lim.lo <= |input| <= lim.hi
    ensures lim.lo <= |Pre(lim, input, m)| <= lim.hi <==> m != NoFuzz || lim.lo <= |input| <= lim.hi
    ensures lim.lo <= |Full(lim, input, m, m2)| <= lim.hi
       <==> m != NoFuzz || m2 != NoFuzz || lim.lo <= |input| <= lim.hi
  {
  }

  /** What leaves the proxy for a received datagram `input`. */
  ghost predicate Forwarded(input: seq<Byte>, out: seq<Byte>) {
    out == [] || out == input || (|out| == MAX_PAYLOAD && input <= out)
  }

  lemma ForwardedPayload(input: seq<Byte>, m: Mutation)
    requires 0 < |input| <= 4096 && m.Ok(PROXY_LIMITS, input)
    ensures Forwarded(input, Clip(Post(PROXY_LIMITS, input, m)))
    ensures m == NoFuzz <==> Clip(Post(PROXY_LIMITS, input, m)) == input
    ensures m != NoFuzz ==> |Clip(Post(PROXY_LIMITS, input, m))| == MAX_PAYLOAD
    ensures m == Repeated ==> Clip(Post(PROXY_LIMITS, input, m)) == Cycle(input, MAX_PAYLOAD)
    ensures m.Mutated? ==>
      && |Clip(Post(PROXY_LIMITS, input, m))| == 65499
      && forall i :: |input| <= i < 65499 ==>
           Clip(Post(PROXY_LIMITS, input, m))[i] == m.raw[(i - |input|) % |m.raw|]
  {
    PostBytes(PROXY_LIMITS, input, m);
    if m != NoFuzz {
      PostClosedForm(PROXY_LIMITS, input, m);
      var out := Post(PROXY_LIMITS, input, m);
      assert out[..MAX_PAYLOAD][..|input|] == out[..|input|] == input;
    }
    if m == Repeated {
      RepeatedPayload(input);
    }
  }

  /** The constants, and what may leave for a received datagram, in figures. */
  lemma InFigures(input: seq<Byte>, out: seq<Byte>)
    ensures PROXY_LIMITS == Limits(409600, 40960000)
    ensures Forwarded(input, out) <==> out == [] || out == input || (|out| == 65499 && input <= out)
  {
  }

  lemma RepeatedPayload(input: seq<Byte>)
    requires 0 < |input| <= 4096
    ensures Clip(Post(PROXY_LIMITS, input, Repeated)) == Cycle(input, MAX_PAYLOAD)
  {
    var lim := PROXY_LIMITS;
    var s := input + Cycle(input, lim.lo);
    PostClosedForm(lim, input, Repeated);
    forall i | 0 <= i < MAX_PAYLOAD
      ensures s[i] == input[i % |input|]
    {
      if i < |input| {
        ModUnique(0, |input|, i);
      } else {
        ShiftByOnePeriod(i, |input|);
      }
    }
    assert Clip(Cut(lim, s)) == s[..MAX_PAYLOAD];
  }

  lemma ShiftByOnePeriod(i: nat, len: nat)
    requires 0 < len <= i
    ensures (i - len) % len == i % len
  {
    var q, r := (i - len) / len, (i - len) % len;
    assert i == (q + 1) * len + r;
    ModUnique(q + 1, len, r);
  }
}
