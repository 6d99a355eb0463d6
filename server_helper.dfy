/** ServerHelper: per-request memoisation in HttpContext.Items. */
module ServerHelper {

  /** A value of the cached type T, or C#'s null (which is also `default`). */
  datatype Nullable<T> = Null | NonNull(value: T)

  /** An entry of HttpContext.Items as a call at type T sees it: null, a
      CacheResult<T> wrapping the cached data, or any other object (including a
      CacheResult of another type). */
  datatype Item<T> = NullItem | CacheResult(data: Nullable<T>) | OtherObject(id: nat)

  type Items<T> = map<string, Item<T>>

  class HttpContext<T> {
    var items: Items<T>

    constructor (items: Items<T>)
      ensures this.items == items
    {
      this.items := items;
    }
  }

  /** The factory passed as `func`: what it returns, and a count of how often it
      has been invoked. */
  class Func<T> {
    const result: Nullable<T>
    ghost var invocations: nat

    constructor (result: Nullable<T>)
      ensures this.result == result && invocations == 0
    {
      this.result := result;
      invocations := 0;
    }

    method Invoke() returns (d: Nullable<T>)
      modifies this
      ensures d == result && invocations == old(invocations) + 1
    {
      d := result;
      invocations := invocations + 1;
    }
  }

  /** What one call does: the value it returns, the entries after it, and
      whether it invoked `func`. */
  datatype Effect<T> = Effect(result: Nullable<T>, items: Items<T>, invoked: bool)

  /** One call on `key`, where `func` would return `produced`. `storeNull` tells
      the synchronous version (which caches a null result) from the
      asynchronous one (which does not). */
  function CacheStep<T>(items: Items<T>, key: string, produced: Nullable<T>, storeNull: bool): (e: Effect<T>)
    ensures e.invoked <==> key !in items
    ensures key in items ==> e.items == items
    ensures key in items && items[key].CacheResult? ==> e.result == items[key].data
    ensures key in items && !items[key].CacheResult? ==> e.result == Null
    ensures key !in items ==> e.result == produced
    ensures key !in items ==> (key in e.items <==> storeNull || produced.NonNull?)
    ensures key !in items && key in e.items ==> e.items[key] == CacheResult(produced)
    ensures e.items.Keys <= items.Keys + {key}
    ensures forall k :: k != key && k in items ==> k in e.items && e.items[k] == items[k]
  {
    if key in items then
      Effect(if items[key].CacheResult? then items[key].data else Null, items, false)
    else if storeNull || produced.NonNull? then
      Effect(produced, items[key := CacheResult(produced)], true)
    else
      Effect(produced, items, true)
  }

  /** CacheInHttpContext: a present entry answers the call (its data if it is a
      CacheResult<T>, default otherwise); a missing one is filled from `func`,
      null included. */
  method CacheInHttpContext<T>(context: HttpContext<T>, key: string, func: Func<T>) returns (r: Nullable<T>)
    modifies context, func
    ensures var e := CacheStep(old(context.items), key, func.result, true);
      && r == e.result
      && context.items == e.items
      && func.invocations == old(func.invocations) + (if e.invoked then 1 else 0)
  {
    if key in context.items {
      var obj := context.items[key];
      if obj.CacheResult? {
        return obj.data;
      } else {
        return Null;
      }
    }
    var d := func.Invoke();
    context.items := context.items[key := CacheResult(d)];
    return d;
  }

  /** CacheInHttpContextAsync: as CacheInHttpContext, except that a null result
      of `func` is returned without being stored. */
  method CacheInHttpContextAsync<T>(context: HttpContext<T>, key: string, func: Func<T>) returns (r: Nullable<T>)
    modifies context, func
    ensures var e := CacheStep(old(context.items), key, func.result, false);
      && r == e.result
      && context.items == e.items
      && func.invocations == old(func.invocations) + (if e.invoked then 1 else 0)
  {
    if key in context.items {
      var obj := context.items[key];
      if obj.CacheResult? {
        return obj.data;
      } else {
        return Null;
      }
    }
    var d := func.Invoke();
    if d.NonNull? {
      context.items := context.items[key := CacheResult(d)];
    }
    return d;
  }

  /** A run of calls on one key; call j's `func` would return produced[j]. */
  datatype Run<T> = Run(results: seq<Nullable<T>>, invocations: nat, items: Items<T>)

  function Repeat<T>(items: Items<T>, key: string, produced: seq<Nullable<T>>, storeNull: bool): (r: Run<T>)
    ensures |r.results| == |produced|
    decreases |produced|
  {
    if produced == [] then Run([], 0, items)
    else
      var e := CacheStep(items, key, produced[0], storeNull);
      var rest := Repeat(e.items, key, produced[1..], storeNull);
      Run([e.result] + rest.results, (if e.invoked then 1 else 0) + rest.invocations, rest.items)
  }

  /** The value a present entry answers with. */
  function Answer<T>(item: Item<T>): (d: Nullable<T>) {
    if item.CacheResult? then item.data else Null
  }

  /** Once the key is present, no later call invokes `func` or changes the
      entries, and every call returns the same answer. */
  lemma {:induction false} RepeatPresent<T>(items: Items<T>, key: string, produced: seq<Nullable<T>>, storeNull: bool)
    requires key in items
    ensures var r := Repeat(items, key, produced, storeNull);
      && r.invocations == 0
      && r.items == items
      && forall j :: 0 <= j < |r.results| ==> r.results[j] == Answer(items[key])
    decreases |produced|
  {
    if produced != [] {
      RepeatPresent(items, key, produced[1..], storeNull);
    }
  }

  /** Synchronous version: over any run of calls `func` is invoked once, and
      every call returns what that one invocation produced, null included. */
  lemma SyncInvokesOnce<T>(items: Items<T>, key: string, produced: seq<Nullable<T>>)
    requires key !in items && |produced| > 0
    ensures var r := Repeat(items, key, produced, true);
      && r.invocations == 1
      && r.items == items[key := CacheResult(produced[0])]
      && forall j :: 0 <= j < |r.results| ==> r.results[j] == produced[0]
  {
    var e := CacheStep(items, key, produced[0], true);
    RepeatPresent(e.items, key, produced[1..], true);
  }

  /** The number of leading nulls in `produced`. */
  function LeadingNulls<T>(produced: seq<Nullable<T>>): (n: nat)
    ensures n <= |produced|
    ensures forall j :: 0 <= j < n ==> produced[j] == Null
    ensures n < |produced| ==> produced[n].NonNull?
  {
    if produced == [] || produced[0].NonNull? then 0 else 1 + LeadingNulls(produced[1..])
  }

  /** Asynchronous version: `func` is invoked again on every call until it
      produces a non-null value, and never after that; once that value is stored
      it answers every later call. */
  lemma {:induction false} AsyncInvokesUntilNonNull<T>(items: Items<T>, key: string, produced: seq<Nullable<T>>)
    requires key !in items
    ensures var r := Repeat(items, key, produced, false);
      var n := LeadingNulls(produced);
      && r.invocations == (if n < |produced| then n + 1 else n)
      && r.items == (if n < |produced| then items[key := CacheResult(produced[n])] else items)
      && (forall j :: 0 <= j < |produced| ==> r.results[j] == if j <= n then produced[j] else produced[n])
    decreases |produced|
  {
    if produced != [] {
      if produced[0].NonNull? {
        var e := CacheStep(items, key, produced[0], false);
        RepeatPresent(e.items, key, produced[1..], false);
      } else {
        AsyncInvokesUntilNonNull(items, key, produced[1..]);
      }
    }
  }

  /** Where the two versions differ: exactly when the key is absent and `func`
      produces null, the synchronous one stores it and the asynchronous one does
      not. */
  lemma SyncAsyncDiffer<T>(items: Items<T>, key: string, produced: Nullable<T>)
    ensures CacheStep(items, key, produced, true).result == CacheStep(items, key, produced, false).result
    ensures CacheStep(items, key, produced, true).items != CacheStep(items, key, produced, false).items
        <==> key !in items && produced == Null
  {
    if key !in items && produced == Null {
      assert key in CacheStep(items, key, produced, true).items;
    }
  }
}
