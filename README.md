# setvalue in Dafny

A model of the `setvalue` library's path accessors, with proofs about them.

- `set(obj, path, value)` writes `value` at the end of a key path. Wherever
  an intermediate key does not hold an own object or function, it first puts
  a fresh empty object there.
- The benchmark file compares several read accessors for a fixed path:
  - `builderGet`: closures composed from the last key outward;
  - `loopGet`: a loop over the keys;
  - `cacheGet`: a fixed table of accessors for one to four keys;
  - `hybridGet`: a direct accessor for one key, a loop otherwise.

Files:

- `js_values.dfy` (module `JsValues`): the JavaScript values the library
  handles, and the object graph.
  - An object or a function is a reference into a store.
  - The store maps each reference to that object's OWN properties.
  - `typeof`, truthiness and property reads are modelled on these values.
- `set_value.dfy` (module `SetValue`): `set`.
  - The class `ObjectGraph` holds the store and the allocation counter that
    gives each new `{}` its reference.
  - `ObjectGraph.Set` changes the graph in place with the same loop as the
    source. It is proved equal to the specification function `SetSpec`.
  - `SetSpec` is built from `Step`, one loop iteration, and `Descend`, the
    whole loop.
  - The lemmas about `SetSpec` state what `set` promises: how it ends, what it
    leaves untouched, where the path leads, the round trip and idempotence.
    The library's test cases are proved as concrete instances.
- `get_strategies.dfy` (module `GetStrategies`): the read accessors of the
  benchmark.
  - `Walk` and `LoopResult` specify what the loop of `loopGet` computes.
  - Each other strategy is proved equal to `LoopResult` on every store and
    every root object.
  - The exception is `cacheGet`, whose difference is the finding below.

Each source file has its own traversability test, and the model keeps them
apart:

- `set` (src/index.ts) traverses objects AND functions: `SetValue.IsObject`.
- The benchmark's accessors traverse non-null objects only:
  `GetStrategies.IsObject`.
- `cacheGet`'s table tests `typeof === "object"`, which admits `null`.

Where the library's design description and its code differ, the model
follows the code:

- The description says a read accessor traverses functions. The benchmark
  accessors do not.
- The description lists builder-style `set(...path)` and `has(...path)`
  accessors and an `InvalidPathError`. The code has only the direct
  `set(obj, path, value)`, and its accessors throw a plain `TypeError` for an
  empty path (`EmptyPath`).
- The description states the round trip `set` then `get` for every path. It
  holds only when the last write does not overwrite a link the path went
  through (`Unaliased`), as `AliasedPathCounterexample` shows.
- The description does not say what happens on a non-object root with two
  keys or more. The code throws there: `hasOwnProperty.call(null, …)` throws,
  and so does writing a property of a primitive in strict-mode module code.
  The model returns the `TypeError` outcome.

## Model

| member | source | states |
|---|---|---|
| SetValue.IsObject | src/index.ts:34-36 | a value is traversable by `set` exactly when it is an object or a function (not null, undefined or a primitive) |
| SetValue.ObjectGraph.Set | src/index.ts:5-31 | the in-place loop leaves the graph, and returns the completion, that `SetSpec` gives for the old graph; the graph stays well formed |
| SetValue.ObjectGraph.DescendTo | src/index.ts:21-29 | the in-place loop over all keys but the last ends at the graph and object that `Descend` gives |
| SetValue.ObjectGraph.Advance | src/index.ts:22-28 | one in-place iteration (`res[key] = {}` when needed, then `res = res[key]`) is exactly `Step` |
| SetValue.ObjectGraph.NewObject | src/index.ts:25 | `{}` gets a reference not yet in the graph, mapped to no properties; nothing else changes |
| SetValue.SetSpec | src/index.ts:5-31 | the reference definition of `set`: no change on an empty path; a single `Write` on one key; a TypeError on a non-object root with more keys; otherwise `Descend` over all keys but the last, then a `Write` of the last key. Its contract: the graph stays well formed and no object disappears. `SetOutcome` and the lemmas below state the rest |
| SetValue.Step | src/index.ts:22-28 | one iteration: keeps an own object or function at the key, or stores a new empty object under the next free reference; afterwards `cur[key]` holds the object it moves into, the graph is well formed and nothing is lost |
| SetValue.Descend | src/index.ts:21-29 | the loop over all keys but the last, as one `Step` per key. Its contract: it ends at an object of the graph, the graph stays well formed, no object disappears and the counter never goes down. `DescendFrame`, `DescendLinks` and `DescendChoices` state the rest |
| SetValue.Write | src/index.ts:31 | `res[last] = value`: afterwards the key holds `value`, the object's other properties and every other object are as before, and no object is created |
| SetValue.StepEffect | src/index.ts:24-28 | an iteration keeps an own object or function held at the key and moves into it; otherwise it stores a brand-new empty object there and moves into that; no other property changes and no object-valued property is lost |
| SetValue.DescendFrame | src/index.ts:21-29 | the loop changes only the properties the path goes through; every object it creates is new and holds only properties on the path |
| SetValue.DescendKeepsObjects | src/index.ts:24-26 | the loop never replaces a property that already holds an object or function |
| SetValue.DescendLinks | src/index.ts:21-29 | after the loop, each visited object holds the next one at its key |
| SetValue.DescendChoices | src/index.ts:24-28 | each key leads into the object already held there, or into an object created by this call |
| SetValue.DescendAlongLinks | src/index.ts:21-29 | over a path whose links all exist, the loop creates and changes nothing |
| SetValue.SetOutcome | src/index.ts:5-31 | empty path: returns `undefined` and changes nothing; one key on a non-object root: returns `undefined` and changes nothing; more keys on such a root: throws before any change; otherwise returns `value` |
| SetValue.SetFrame | src/index.ts:5-31 | of the existing objects, only properties on the path change; created objects are new and hold only properties on the path |
| SetValue.SetDescends | src/index.ts:21-29 | existing own objects on the path are descended into, not replaced, so their other keys survive; missing or non-object intermediates become new objects |
| SetValue.LinksAfterSet | src/index.ts:21-31 | for an unaliased path, the links the loop made survive the final write, which holds `value` |
| SetValue.SetRoundTrip | src/index.ts:5-31 | after `set`, reading the path back through own properties gives `value` (unaliased paths) |
| SetValue.SetIdempotent | src/index.ts:5-31 | a second identical call of `set` changes nothing and ends the same way (unaliased paths) |
| SetValue.AliasedPathCounterexample | src/index.ts:21-31 | with `o.a === o`, `set(o, ["a", "a"], 5)` overwrites the link itself: the round trip fails and a second call allocates a new object |
| SetValue.SetExampleExisting | src/index.spec.ts:8-11 | `set({ a: {} }, ["a", "b", "c"], 10)` leaves `{ a: { b: { c: 10 } } }`, keeping the existing `a` |
| SetValue.OverrideDescends | src/index.spec.ts:13-16 | from `{ a: true }`, the loop over `a, b` replaces `true` with new objects |
| SetValue.SetExampleOverride | src/index.spec.ts:13-16 | `set({ a: true }, ["a", "b", "c"], 10)` leaves `{ a: { b: { c: 10 } } }` and returns 10 |
| SetValue.SetExamplesFlat | src/index.spec.ts:5-26 | `set({ a: true }, ["b"], false)` adds `b`; an empty path changes nothing; null and undefined roots with one key return `undefined` |
| GetStrategies.IsObject | src/index.bench.ts:141-142 | the benchmark's traversability test admits exactly non-null objects, not functions |
| GetStrategies.WalkStaysStopped | src/index.bench.ts:90-93 | once the loop has returned early at some key, the later keys do not matter |
| GetStrategies.WalkFirstKey | src/index.bench.ts:90-93 | the walk steps into `obj[key]` when it is a non-null object and stops at it otherwise |
| GetStrategies.LoopResultFirstKey | src/index.bench.ts:64-66 | the loop's result equals what `$getter` computes: `obj[key]` goes on into the rest if it is a non-null object, else `undefined` |
| GetStrategies.KeyGetter | src/index.bench.ts:60-62 | `getter(key)` (and the identical `$get(key)` at lines 137-139) returns, on every store and object, the loop's result for the one-key path |
| GetStrategies.WrapGetterExtendsLoop | src/index.bench.ts:64-66 | `$getter(fn, key)` (`WrapGetter`): wrapping an accessor that gives the loop's result for `rest` gives one that gives the loop's result for `key` then `rest` |
| GetStrategies.BuilderGet | src/index.bench.ts:49-56 | fails exactly for an empty path; otherwise the composed closure returns the loop's result on every store and object |
| GetStrategies.LoopGet | src/index.bench.ts:85-88 | fails exactly for an empty path; otherwise the accessor is built for that path |
| GetStrategies.LoopGetter.Call | src/index.bench.ts:89-96 | the loop returns `undefined` at the first intermediate value that is not a non-null object, else the last key's value: `LoopResult` |
| GetStrategies.HybridGet | src/index.bench.ts:121-125 | fails exactly for an empty path; gives the direct `$get` accessor exactly for one key |
| GetStrategies.HybridGetter.Call | src/index.bench.ts:127-139 | both shapes of the hybrid accessor return `LoopResult` |
| GetStrategies.Guard | src/index.bench.ts:108 | one `(typeof obj[key] === "object" ? (obj = obj[key]) : undefined) &&` link goes on exactly when `obj[key]` is a non-null object, into that object; otherwise it returns `null` when the test admits a `null` there, else `undefined` |
| GetStrategies.CacheEntryMatches | src/index.bench.ts:105-119 | the table entry `CacheEntry` for one to four keys computes `CacheResult` on every store and object |
| GetStrategies.CacheGet | src/index.bench.ts:99-103 | fails with the empty-path error for no keys and as not callable for more than four; otherwise its accessor computes `CacheResult` for the `typeof === "object"` test |
| GetStrategies.CacheEntryResult | src/index.bench.ts:105-119 | each table entry's chain of `typeof` tests and `&&` computes the loop's result, except that a stop at a value the test admits returns that value |
| GetStrategies.CacheGetAgainstLoop | src/index.bench.ts:99-119 | `cacheGet` fails for an empty path and for more than four keys; otherwise it agrees with the loop except where the walk stops at an intermediate `null`, where it returns `null` |
| GetStrategies.CacheGetNullCounterexample | src/index.bench.ts:107-109 | on `{ a: null }` with keys `a, b`, `cacheGet` returns `null` while `loopGet` returns `undefined` |
| GetStrategies.CacheGetFixedMatchesLoop | src/index.bench.ts:99-119 | with the table testing non-null objects, `cacheGet` agrees with the loop on every store, object and path of one to four keys |
| GetStrategies.BenchExpectations | src/index.bench.ts:4-46 | on `{ a: { b: { c: { d: 1 } } } }`, every strategy returns 1 for `a, b, c, d` and `obj.a` for `a` |

## Left out

- `newFunctionGet` and `getBody` (src/index.bench.ts:68-83) are left out. They generate source text and compile it at run time, which the model cannot represent.
- The benchmark harness is left out: `describe`, `bench`, `expect` and the iteration counts. Only its expected values are modelled, in `BenchExpectations`.
- Number and symbol keys are left out. Keys are strings, with no number-to-string coercion.
- The prototype chain is left out, and so are inherited properties, accessor properties, setters, proxies, frozen objects and array `length`. A property is either own or absent.
- A read accessor applied to `null`, `undefined` or a primitive is left out, because the model's accessors take an object reference (`Ref`). In the source, the closures of `loopGet` and `hybridGet` take `obj: any`, and every builder returns its accessor as `any`. On `null` or `undefined` the source throws a TypeError. On another primitive it reads the properties of the primitive's wrapper object (`loopGet("length")("ab")` gives 2), which the model does not represent.
- The graph does not record whether a reference is an object or a function, so a graph can hold the same reference as both `Obj(r)` and `Fn(r)`. JavaScript cannot build such a graph. Every lemma holds for all graphs, so it holds for those JavaScript can build too.
- NaN and floating-point numbers are left out. Numbers are integers.
- TypeScript's static types are left out.
- SetValue.SetRoundTrip: stated only for paths whose last write does not land on a link the path went through (`Unaliased`). `AliasedPathCounterexample` shows that the round trip fails without this.
- SetValue.SetIdempotent: stated only for unaliased paths, for the same reason.
- SetValue.SetOutcome: the `TypeError` for a non-object root with two keys or more assumes strict-mode code (an ES module). In sloppy mode, a write to a primitive other than null or undefined is silently dropped instead.

## Findings

| source | as written | input that shows it | evidently intended | confidence | as-written member | corrected member |
|---|---|---|---|---|---|---|
| src/index.bench.ts:107-118 | each `CACHE` entry tests `typeof obj[key] === "object"`, which is true for `null`; the `&&` chain then stops at that falsy `null` and returns it | `cacheGet("a", "b")` on `{ a: null }` returns `null`, but `loopGet`, `builderGet` and `hybridGet` return `undefined` | the same non-null object test (`isObject`) as every other strategy, so that all strategies agree | medium, not executed | GetStrategies.CacheGetNullCounterexample | GetStrategies.CacheGetFixedMatchesLoop |
