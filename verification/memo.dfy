/** The two caching decorators of nbaelo/utils.py. `Memoized` keeps a
    dictionary from argument tuples to results; `MemoizedTtl` keeps a
    dictionary from argument tuples to a result and the time it was
    computed, and recomputes an entry older than its time to live.

    An argument tuple is a `seq<A>`; whether a single argument can be
    hashed (a number or a string can, a list cannot) is the function
    `hashable`, and a tuple can be hashed exactly when all its arguments
    can. The wrapped function is a Dafny function value, so it is pure. */
module Memo {
  import opened Wrappers

  /** Whether `hash(args)` succeeds for the tuple of arguments. */
  predicate HashableArgs<A>(hashable: A -> bool, args: seq<A>) {
    forall i :: 0 <= i < |args| ==> hashable(args[i])
  }

  /** Every entry of the cache is the function's value on a hashable key. */
  predicate Consistent<A(==), V(==)>(func: seq<A> -> V, hashable: A -> bool, cache: map<seq<A>, V>) {
    forall k :: k in cache ==> cache[k] == func(k) && HashableArgs(hashable, k)
  }

  // ---------------------------------------------------------------------
  // Memoized.__call__

  /** One call of `Memoized.__call__` as written: the result, the new
      cache, and whether `func` was called. The `isinstance(args,
      Hashable)` test is true of every tuple, so an unhashable argument
      reaches `args in self.cache`, which raises TypeError. */
  function MemoCallAsWritten<A(==), V>(func: seq<A> -> V, hashable: A -> bool, cache: map<seq<A>, V>, args: seq<A>)
    : (Result<V>, map<seq<A>, V>, bool)
  {
    if !HashableArgs(hashable, args) then (Err(TypeError), cache, false)
    else if args in cache then (Ok(cache[args]), cache, false)
    else (Ok(func(args)), cache[args := func(args)], true)
  }

  /** One call of `Memoized.__call__` as its comment means it: a tuple
      that cannot be hashed bypasses the cache and is passed to `func`. */
  function MemoCall<A(==), V>(func: seq<A> -> V, hashable: A -> bool, cache: map<seq<A>, V>, args: seq<A>)
    : (V, map<seq<A>, V>, bool)
  {
    if !HashableArgs(hashable, args) then (func(args), cache, true)
    else if args in cache then (cache[args], cache, false)
    else (func(args), cache[args := func(args)], true)
  }

  /** A call returns what `func` returns; `func` runs exactly on a miss or
      an unhashable tuple; the cache keeps every entry it had, gains at
      most the key `args` (exactly when the tuple is hashable and was
      missing) and stays consistent. */
  lemma MemoCallMeaning<A, V>(func: seq<A> -> V, hashable: A -> bool, cache: map<seq<A>, V>, args: seq<A>)
    requires Consistent(func, hashable, cache)
    ensures var (v, c, called) := MemoCall(func, hashable, cache, args);
      v == func(args) &&
      (called <==> !HashableArgs(hashable, args) || args !in cache) &&
      (forall k :: k in cache ==> k in c && c[k] == cache[k]) &&
      c.Keys == (if HashableArgs(hashable, args) then cache.Keys + {args} else cache.Keys) &&
      Consistent(func, hashable, c)
  {
  }

  /** Where it does not raise, the call as written agrees with the
      intended one; it raises exactly on an unhashable tuple. */
  lemma MemoCallAsWrittenDiffers<A, V>(func: seq<A> -> V, hashable: A -> bool, cache: map<seq<A>, V>, args: seq<A>)
    ensures var (r, c, called) := MemoCallAsWritten(func, hashable, cache, args);
      (r.Err? <==> !HashableArgs(hashable, args)) &&
      (r.Err? ==> r.error == TypeError && c == cache && !called) &&
      (r.Ok? ==> (r.value, c, called) == MemoCall(func, hashable, cache, args))
  {
  }

  /** An argument of a call: a number, or a list (which cannot be hashed). */
  datatype Arg = Number(n: int) | List(items: seq<int>)

  predicate ArgHashable(a: Arg) { a.Number? }

  /** Calling a memoized `len`-like function with a list argument: the
      code raises TypeError, where its comment promises the plain result. */
  lemma MemoizedListArgument()
    ensures var f := (args: seq<Arg>) => |args|;
      MemoCallAsWritten(f, ArgHashable, map[], [List([1, 2])]).0 == Err(TypeError) &&
      MemoCall(f, ArgHashable, map[], [List([1, 2])]) == (1, map[], true)
  {
    var args := [List([1, 2])];
    assert !ArgHashable(args[0]);
  }

  /** A sequence of calls through the intended `__call__`: the final cache
      and the number of times `func` ran. */
  function MemoRun<A(==), V>(func: seq<A> -> V, hashable: A -> bool, cache: map<seq<A>, V>, calls: seq<seq<A>>)
    : (map<seq<A>, V>, nat)
    decreases |calls|
  {
    if calls == [] then (cache, 0)
    else
      var (_, c, called) := MemoCall(func, hashable, cache, calls[0]);
      var (final, n) := MemoRun(func, hashable, c, calls[1..]);
      (final, n + (if called then 1 else 0))
  }

  /** How many calls have a tuple that cannot be hashed. */
  function UnhashableCount<A>(hashable: A -> bool, calls: seq<seq<A>>): nat {
    if calls == [] then 0
    else UnhashableCount(hashable, calls[1..]) + (if HashableArgs(hashable, calls[0]) then 0 else 1)
  }

  /** The hashable tuples among the calls. */
  function HashableCalls<A(==)>(hashable: A -> bool, calls: seq<seq<A>>): set<seq<A>> {
    set i | 0 <= i < |calls| && HashableArgs(hashable, calls[i]) :: calls[i]
  }

  /** After any run of calls the cache holds its old entries and exactly
      the hashable tuples that were passed, each with `func`'s value. */
  lemma {:induction false} MemoRunCache<A, V>(func: seq<A> -> V, hashable: A -> bool,
                                            cache: map<seq<A>, V>, calls: seq<seq<A>>)
    requires Consistent(func, hashable, cache)
    decreases |calls|
    ensures var final := MemoRun(func, hashable, cache, calls).0;
      Consistent(func, hashable, final) &&
      final.Keys == cache.Keys + HashableCalls(hashable, calls) &&
      (forall k :: k in cache ==> final[k] == cache[k])
  {
    if calls != [] {
      MemoCallMeaning(func, hashable, cache, calls[0]);
      var c := MemoCall(func, hashable, cache, calls[0]).1;
      MemoRunCache(func, hashable, c, calls[1..]);
      HashableCallsCons(hashable, calls);
    }
  }

  /** Over any run of calls `func` ran once for each key the cache gained
      and once for each unhashable call: never twice for the same
      hashable tuple. */
  lemma {:induction false} MemoRunCalls<A, V>(func: seq<A> -> V, hashable: A -> bool,
                                            cache: map<seq<A>, V>, calls: seq<seq<A>>)
    requires Consistent(func, hashable, cache)
    decreases |calls|
    ensures var (final, n) := MemoRun(func, hashable, cache, calls);
      n == |final.Keys - cache.Keys| + UnhashableCount(hashable, calls)
  {
    if calls != [] {
      var args := calls[0];
      MemoCallMeaning(func, hashable, cache, args);
      var c := MemoCall(func, hashable, cache, args).1;
      MemoRunCalls(func, hashable, c, calls[1..]);
      MemoRunCache(func, hashable, c, calls[1..]);
      var final := MemoRun(func, hashable, c, calls[1..]).0;
      if HashableArgs(hashable, args) && args !in cache {
        KeysGrow(final.Keys, cache.Keys, args);
      }
    }
  }

  /** One more known key leaves one fewer new key. */
  lemma KeysGrow<K>(final: set<K>, known: set<K>, k: K)
    requires k !in known && k in final
    ensures |final - known| == |final - (known + {k})| + 1
  {
    assert final - known == (final - (known + {k})) + {k};
  }

  lemma HashableCallsCons<A>(hashable: A -> bool, calls: seq<seq<A>>)
    requires calls != []
    ensures HashableCalls(hashable, calls) ==
      HashableCalls(hashable, calls[1..]) + if HashableArgs(hashable, calls[0]) then {calls[0]} else {}
  {
    var rest := calls[1..];
    forall k | k in HashableCalls(hashable, calls)
      ensures k in HashableCalls(hashable, rest) + if HashableArgs(hashable, calls[0]) then {calls[0]} else {}
    {
      var i :| 0 <= i < |calls| && HashableArgs(hashable, calls[i]) && calls[i] == k;
      if i > 0 {
        assert rest[i - 1] == k;
      }
    }
    forall k | k in HashableCalls(hashable, rest)
      ensures k in HashableCalls(hashable, calls)
    {
      var i :| 0 <= i < |rest| && HashableArgs(hashable, rest[i]) && rest[i] == k;
      assert calls[i + 1] == k;
    }
  }

  /** The `Memoized` decorator object around `func`. */
  class Memoized<A(==), V(==)> {
    const func: seq<A> -> V
    const hashable: A -> bool
    var cache: map<seq<A>, V>
    /** The argument tuples `func` has been called with, in order. */
    ghost var calls: seq<seq<A>>

    ghost predicate Valid()
      reads this
    {
      Consistent(func, hashable, cache)
    }

    constructor (func: seq<A> -> V, hashable: A -> bool)
      ensures Valid() && this.func == func && this.hashable == hashable
      ensures cache == map[] && calls == []
    {
      this.func := func;
      this.hashable := hashable;
      cache := map[];
      calls := [];
    }

    /** `__call__(*args)` as written. */
    method CallAsWritten(args: seq<A>) returns (r: Result<V>)
      requires Valid()
      modifies this
      ensures Valid()
      ensures var (r', c, called) := MemoCallAsWritten(func, hashable, old(cache), args);
        r == r' && cache == c && calls == old(calls) + if called then [args] else []
    {
      var hashed := true;
      for i := 0 to |args|
        invariant hashed <==> forall j :: 0 <= j < i ==> hashable(args[j])
      {
        hashed := hashed && hashable(args[i]);
      }
      if !hashed {
        return Err(TypeError);
      }
      if args in cache {
        return Ok(cache[args]);
      }
      var value := func(args);
      calls := calls + [args];
      cache := cache[args := value];
      r := Ok(value);
    }

    /** `__call__(*args)` with the bypass its comment describes. */
    method Call(args: seq<A>) returns (r: V)
      requires Valid()
      modifies this
      ensures Valid()
      ensures var (r', c, called) := MemoCall(func, hashable, old(cache), args);
        r == r' && cache == c && calls == old(calls) + if called then [args] else []
    {
      var hashed := true;
      for i := 0 to |args|
        invariant hashed <==> forall j :: 0 <= j < i ==> hashable(args[j])
      {
        hashed := hashed && hashable(args[i]);
      }
      if !hashed {
        calls := calls + [args];
        return func(args);
      }
      if args in cache {
        return cache[args];
      }
      var value := func(args);
      calls := calls + [args];
      cache := cache[args := value];
      r := value;
    }
  }

  // ---------------------------------------------------------------------
  // MemoizedTtl.__call__ / wrapped_f

  /** An entry stored at `stamp` has expired at `now`: only a positive
      time to live expires anything. */
  predicate Expired(ttl: real, stamp: real, now: real) {
    ttl > 0.0 && now - stamp > ttl
  }

  /** One call of `wrapped_f(*args)` at time `now`, wrapping `f`: the
      result and the new cache. An unhashable tuple raises TypeError at the
      lookup, which is caught and answered by calling `f` without caching;
      a missing (KeyError) or expired (AttributeError) entry is recomputed
      and stamped with `now`. */
  function TtlCall<A(==), V>(f: seq<A> -> V, hashable: A -> bool, ttl: real,
                             cache: map<seq<A>, (V, real)>, args: seq<A>, now: real)
    : (V, map<seq<A>, (V, real)>)
  {
    if !HashableArgs(hashable, args) then (f(args), cache)
    else if args in cache && !Expired(ttl, cache[args].1, now) then (cache[args].0, cache)
    else (f(args), cache[args := (f(args), now)])
  }

  /** A live entry is returned without calling `f` and nothing changes; a
      missing or expired one is replaced by `f`'s value stamped `now`; an
      unhashable tuple gets `f`'s value and leaves the cache alone; no
      other key ever changes. */
  lemma TtlCallMeaning<A, V>(f: seq<A> -> V, hashable: A -> bool, ttl: real,
                                 cache: map<seq<A>, (V, real)>, args: seq<A>, now: real)
    ensures var (v, c) := TtlCall(f, hashable, ttl, cache, args, now);
      (HashableArgs(hashable, args) && args in cache && !Expired(ttl, cache[args].1, now) ==>
         v == cache[args].0 && c == cache) &&
      (HashableArgs(hashable, args) && (args !in cache || Expired(ttl, cache[args].1, now)) ==>
         v == f(args) && args in c && c[args] == (f(args), now)) &&
      (!HashableArgs(hashable, args) ==> v == f(args) && c == cache) &&
      (forall k :: k != args ==> (k in c <==> k in cache) && (k in cache ==> c[k] == cache[k]))
  {
  }

  /** A sequence of calls, each with its own time. */
  function TtlRun<A(==), V>(f: seq<A> -> V, hashable: A -> bool, ttl: real,
                            cache: map<seq<A>, (V, real)>, calls: seq<(seq<A>, real)>)
    : map<seq<A>, (V, real)>
    decreases |calls|
  {
    if calls == [] then cache
    else TtlRun(f, hashable, ttl, TtlCall(f, hashable, ttl, cache, calls[0].0, calls[0].1).1, calls[1..])
  }

  /** With a time to live of zero or less an entry, once stored, is never
      recomputed: after any later calls, at any times, it is still there
      with its value and its stamp, and a call for it returns that value. */
  lemma {:induction false} TtlNeverExpires<A, V>(f: seq<A> -> V, hashable: A -> bool, ttl: real,
                                                    cache: map<seq<A>, (V, real)>, calls: seq<(seq<A>, real)>,
                                                    k: seq<A>, now: real)
    requires ttl <= 0.0 && k in cache && HashableArgs(hashable, k)
    decreases |calls|
    ensures var final := TtlRun(f, hashable, ttl, cache, calls);
      k in final && final[k] == cache[k] &&
      TtlCall(f, hashable, ttl, final, k, now) == (cache[k].0, final)
  {
    if calls != [] {
      var next := TtlCall(f, hashable, ttl, cache, calls[0].0, calls[0].1).1;
      assert k in next && next[k] == cache[k];
      TtlNeverExpires(f, hashable, ttl, next, calls[1..], k, now);
    }
  }

  /** With a pure `f`, the cache is transparent: if every entry holds
      `f`'s value, every call returns `f`'s value and the entries keep
      holding it. */
  lemma TtlTransparent<A, V>(f: seq<A> -> V, hashable: A -> bool, ttl: real,
                                 cache: map<seq<A>, (V, real)>, args: seq<A>, now: real)
    requires forall k :: k in cache ==> cache[k].0 == f(k)
    ensures var (v, c) := TtlCall(f, hashable, ttl, cache, args, now);
      v == f(args) && forall k :: k in c ==> c[k].0 == f(k)
  {
  }

  /** The `MemoizedTtl(ttl)` decorator object; `f` is the function that
      `__call__` wrapped, and `now` stands for the clock reading that
      `wrapped_f` takes on entry. */
  class MemoizedTtl<A(==), V> {
    const ttl: real
    const hashable: A -> bool
    var cache: map<seq<A>, (V, real)>

    constructor (ttl: real, hashable: A -> bool)
      ensures this.ttl == ttl && this.hashable == hashable && cache == map[]
    {
      this.ttl := ttl;
      this.hashable := hashable;
      cache := map[];
    }

    /** `wrapped_f(*args)` at time `now`. */
    method Wrapped(f: seq<A> -> V, args: seq<A>, now: real) returns (value: V)
      modifies this
      ensures (value, cache) == TtlCall(f, hashable, ttl, old(cache), args, now)
    {
      var hashed := true;
      for i := 0 to |args|
        invariant hashed <==> forall j :: 0 <= j < i ==> hashable(args[j])
      {
        hashed := hashed && hashable(args[i]);
      }
      if !hashed {
        return f(args);
      }
      if args in cache {
        var (stored, lastUpdate) := cache[args];
        if !(ttl > 0.0 && now - lastUpdate > ttl) {
          return stored;
        }
      }
      value := f(args);
      cache := cache[args := (value, now)];
    }
  }
}
