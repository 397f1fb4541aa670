/** Bounded per-participant memory: `Participant.update_context`
    (convollama.py), which evicts the oldest entry once the context is over
    its cap, and `truncate_context` (utils.py), which keeps the most recent
    entries. Both are generic in the element type. */
module PrivateContext {

  predicate IsSuffix<T(==)>(a: seq<T>, b: seq<T>) {
    |a| <= |b| && b[|b| - |a|..] == a
  }

  function Min(a: int, b: int): int {
    if a <= b then a else b
  }

  /** `update_context(message)`: the message is appended, then, if the context
      is now longer than `maxLength`, its first (oldest) entry is popped, once. */
  function UpdateContext<T>(ctx: seq<T>, m: T, maxLength: int): (r: seq<T>)
    ensures IsSuffix(r, ctx + [m])
    ensures |ctx| < maxLength ==> r == ctx + [m]
    ensures |ctx| >= maxLength ==> |r| == |ctx|
    ensures 1 <= maxLength && |ctx| <= maxLength ==> |r| <= maxLength && r[|r| - 1] == m
    ensures 1 <= maxLength == |ctx| ==> r == ctx[1..] + [m]
  {
    var appended := ctx + [m];
    if |appended| > maxLength then appended[1..] else appended
  }

  /** Python's `xs[start:]`, including negative starts counted from the end. */
  function PyTail<T>(xs: seq<T>, start: int): (r: seq<T>)
    ensures IsSuffix(r, xs)
  {
    if start >= 0 then xs[Min(start, |xs|)..]
    else if |xs| + start <= 0 then xs
    else xs[|xs| + start..]
  }

  /** `truncate_context(context, max_length)` as written: when the context is
      longer than `max_length` it returns `context[-max_length:]`. For a
      positive cap that is the last `max_length` entries; for a cap of 0 the
      slice `context[-0:]` is the whole list. */
  function TruncateContext<T>(ctx: seq<T>, maxLength: int): (r: seq<T>)
    ensures IsSuffix(r, ctx)
    ensures |ctx| <= maxLength ==> r == ctx
    ensures maxLength >= 1 ==> |r| == Min(|ctx|, maxLength)
  {
    if |ctx| > maxLength then PyTail(ctx, -maxLength) else ctx
  }

  /** A cap of 0 leaves every entry in place, so any non-empty context comes
      back longer than the cap and differs from its last 0 entries. */
  lemma TruncateToZeroKeepsAll<T>(ctx: seq<T>)
    ensures TruncateContext(ctx, 0) == ctx
    ensures ctx != [] ==> |TruncateContext(ctx, 0)| > 0 && TruncateContext(ctx, 0) != KeepLast(ctx, 0)
  {
  }

  /** The last `n` entries of `xs` (all of them when there are fewer): the
      behaviour `truncate_context` is meant to have for every cap `n >= 0`. */
  function KeepLast<T>(xs: seq<T>, n: nat): (r: seq<T>)
    ensures IsSuffix(r, xs)
    ensures |r| == Min(|xs|, n)
  {
    if |xs| <= n then xs else xs[|xs| - n..]
  }

  /** For a positive cap the source's slice is exactly `KeepLast`. */
  lemma TruncateIsKeepLast<T>(ctx: seq<T>, maxLength: int)
    requires maxLength >= 1
    ensures TruncateContext(ctx, maxLength) == KeepLast(ctx, maxLength)
  {
  }

  /** Truncating twice with the same non-negative cap is truncating once. */
  lemma TruncateIdempotent<T>(ctx: seq<T>, maxLength: int)
    requires maxLength >= 0
    ensures TruncateContext(TruncateContext(ctx, maxLength), maxLength) == TruncateContext(ctx, maxLength)
  {
  }

  /** A suffix is determined by its length. */
  lemma SuffixesOfSameLength<T>(a: seq<T>, b: seq<T>, xs: seq<T>)
    requires IsSuffix(a, xs) && IsSuffix(b, xs) && |a| == |b|
    ensures a == b
  {
  }

  /** Messages pushed one by one through `update_context`, oldest first. */
  function PushAll<T>(ctx: seq<T>, ms: seq<T>, maxLength: int): seq<T>
    decreases |ms|
  {
    if ms == [] then ctx else PushAll(UpdateContext(ctx, ms[0], maxLength), ms[1..], maxLength)
  }

  /** Pushing one more message is one more `update_context` call. */
  lemma {:induction false} PushAllSnoc<T>(ctx: seq<T>, ms: seq<T>, m: T, maxLength: int)
    ensures PushAll(ctx, ms + [m], maxLength) == UpdateContext(PushAll(ctx, ms, maxLength), m, maxLength)
    decreases |ms|
  {
    if ms == [] {
      assert ms + [m] == [m];
      assert [m][1..] == [];
    } else {
      assert (ms + [m])[0] == ms[0];
      assert (ms + [m])[1..] == ms[1..] + [m];
      PushAllSnoc(UpdateContext(ctx, ms[0], maxLength), ms[1..], m, maxLength);
    }
  }

  /** One `update_context` on the last `n` entries gives the last `n` entries
      of the extended sequence: eviction is first in, first out. */
  lemma UpdateKeepsLast<T>(xs: seq<T>, m: T, n: int)
    requires n >= 1
    ensures UpdateContext(KeepLast(xs, n), m, n) == KeepLast(xs + [m], n)
  {
    var lhs := UpdateContext(KeepLast(xs, n), m, n);
    var rhs := KeepLast(xs + [m], n);
    var k := KeepLast(xs, n);
    assert IsSuffix(k + [m], xs + [m]) by {
      assert (xs + [m])[|xs + [m]| - |k + [m]|..] == xs[|xs| - |k|..] + [m];
    }
    assert IsSuffix(lhs, xs + [m]) by {
      assert (xs + [m])[|xs + [m]| - |lhs|..] == (k + [m])[|k + [m]| - |lhs|..];
    }
    SuffixesOfSameLength(lhs, rhs, xs + [m]);
  }

  /** Pushing messages into a context that already holds the last `n` entries
      of `xs` leaves the last `n` entries of `xs + ms`. */
  lemma {:induction false} PushAllKeepsLast<T>(xs: seq<T>, ms: seq<T>, n: int)
    requires n >= 1
    ensures PushAll(KeepLast(xs, n), ms, n) == KeepLast(xs + ms, n)
    decreases |ms|
  {
    if ms == [] {
      assert xs + ms == xs;
    } else {
      var m := ms[0];
      var kept := KeepLast(xs, n);
      calc {
        PushAll(kept, ms, n);
        PushAll(UpdateContext(kept, m, n), ms[1..], n);
        { UpdateKeepsLast(xs, m, n); }
        PushAll(KeepLast(xs + [m], n), ms[1..], n);
        { PushAllKeepsLast(xs + [m], ms[1..], n); }
        KeepLast(xs + [m] + ms[1..], n);
        { assert xs + [m] + ms[1..] == xs + ms; }
        KeepLast(xs + ms, n);
      }
    }
  }

  /** Feeding a sequence message by message through `update_context`, starting
      from an empty context, gives what `truncate_context` gives for the whole
      sequence: the context never exceeds its cap and holds exactly the most
      recent messages in arrival order. */
  lemma {:induction false} PushAllFromEmptyIsTruncate<T>(ms: seq<T>, maxLength: int)
    requires maxLength >= 1
    ensures PushAll([], ms, maxLength) == TruncateContext(ms, maxLength)
  {
    var empty: seq<T> := [];
    assert KeepLast(empty, maxLength) == empty;
    PushAllKeepsLast(empty, ms, maxLength);
    assert empty + ms == ms;
    TruncateIsKeepLast(ms, maxLength);
  }
}
