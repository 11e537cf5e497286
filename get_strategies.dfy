/**
 * The competing read accessors of the benchmark file: `builderGet`
 * (closures composed from the last key outward), `loopGet` (a loop over the
 * path), `cacheGet` (a fixed table of accessors for one to four keys) and
 * `hybridGet` (a direct accessor for one key, a loop otherwise).
 *
 * An accessor is applied to an object or function (`obj: object` in the
 * source), modelled by its reference; the store it reads is passed
 * explicitly, and nothing here can change it.
 */
module GetStrategies {
  import opened JsValues

  /** Why building an accessor fails; both are TypeErrors in the source. */
  datatype PathError =
    | EmptyPath    // "Path cannot be empty"
    | NotCallable  // `CACHE[path.length - 1]` is undefined, and calling it throws

  datatype Result<T> = Success(value: T) | Failure(error: PathError)

  /** A read accessor: `(obj: object) => unknown`, over an explicit store. */
  type Getter = (Store, Ref) -> Value

  /**
   * `isObject` of the benchmark: `typeof value === "object" && value !== null`.
   * Functions are NOT traversable here (their typeof is "function").
   */
  predicate IsObject(v: Value)
    ensures IsObject(v) <==> v.Obj?
  {
    TypeOf(v) == "object" && v != Null
  }

  // ---------------------------------------------------------------------
  // The specification: the walk of `loopGet`
  // ---------------------------------------------------------------------

  /** How a walk along some keys ends. */
  datatype Walked = Reached(at: Ref) | Stopped(blocker: Value)

  /**
   * Follows `keys` from `o` one key at a time, as the loop of `loopGet` does:
   * the object reached after the last key, or the first value met on the way
   * that is not a non-null object.
   */
  function Walk(s: Store, o: Ref, keys: seq<Key>): (w: Walked)
    ensures w.Stopped? ==> !IsObject(w.blocker)
    ensures keys == [] ==> w == Reached(o)
    decreases |keys|
  {
    if keys == [] then Reached(o)
    else
      match Walk(s, o, keys[..|keys| - 1])
      case Stopped(b) => Stopped(b)
      case Reached(c) =>
        var v := Read(s, c, keys[|keys| - 1]);
        if IsObject(v) then Reached(v.ref) else Stopped(v)
  }

  /**
   * What the accessor of `loopGet(...path)` returns on `o`: `undefined` when
   * the walk over all keys but the last stops, and otherwise the last key's
   * value as it is (`null` and `undefined` included).
   */
  function LoopResult(s: Store, o: Ref, path: seq<Key>): Value
    requires |path| > 0
  {
    match Walk(s, o, path[..|path| - 1])
    case Reached(c) => Read(s, c, path[|path| - 1])
    case Stopped(_) => Undefined
  }

  /** A walk that has stopped stays stopped, at the same value, however far the path goes on. */
  lemma {:induction false} WalkStaysStopped(s: Store, o: Ref, keys: seq<Key>, i: nat)
    requires i <= |keys|
    requires Walk(s, o, keys[..i]).Stopped?
    ensures Walk(s, o, keys) == Walk(s, o, keys[..i])
    decreases |keys| - i
  {
    if i < |keys| {
      var longer := keys[..i + 1];
      assert longer[..|longer| - 1] == keys[..i];
      WalkStaysStopped(s, o, keys, i + 1);
    } else {
      assert keys[..i] == keys;
    }
  }

  /**
   * The walk seen from its first key: step into `o[k]` if it is a non-null
   * object and walk the rest from there, otherwise stop at `o[k]`.
   */
  lemma {:induction false} WalkFirstKey(s: Store, o: Ref, k: Key, rest: seq<Key>)
    ensures Walk(s, o, [k] + rest) ==
      var v := Read(s, o, k);
      if IsObject(v) then Walk(s, v.ref, rest) else Stopped(v)
    decreases |rest|
  {
    var keys := [k] + rest;
    if rest == [] {
      assert keys[..0] == [];
    } else {
      var front := rest[..|rest| - 1];
      assert keys[..|keys| - 1] == [k] + front;
      WalkFirstKey(s, o, k, front);
    }
  }

  /** `LoopResult` seen from its first key: what the composed closures of `builderGet` compute. */
  lemma LoopResultFirstKey(s: Store, o: Ref, k: Key, rest: seq<Key>)
    requires |rest| > 0
    ensures LoopResult(s, o, [k] + rest) ==
      var v := Read(s, o, k);
      if IsObject(v) then LoopResult(s, v.ref, rest) else Undefined
  {
    var path := [k] + rest;
    assert path[..|path| - 1] == [k] + rest[..|rest| - 1];
    WalkFirstKey(s, o, k, rest[..|rest| - 1]);
  }

  // ---------------------------------------------------------------------
  // builderGet
  // ---------------------------------------------------------------------

  /**
   * `getter(key)`, and the identical `$get(key)` of `hybridGet`:
   * `obj => obj[key]`, which is the loop's result for the one-key path.
   */
  function KeyGetter(key: Key): (r: Getter)
    ensures forall s, o :: r(s, o) == LoopResult(s, o, [key])
  {
    assert [key][..0] == [];
    (s: Store, o: Ref) => Read(s, o, key)
  }

  /** `$getter(fn, key)`: apply `fn` to `obj[key]` if it is a non-null object, else `undefined`. */
  function WrapGetter(fn: Getter, key: Key): Getter
  {
    (s: Store, o: Ref) =>
      var v := Read(s, o, key);
      if IsObject(v) then fn(s, v.ref) else Undefined
  }

  /**
   * `$getter` extends an accessor by one key in front: wrapping one that
   * computes the loop's result for `rest` gives one that computes it for
   * `key` followed by `rest`.
   */
  lemma WrapGetterExtendsLoop(fn: Getter, key: Key, rest: seq<Key>)
    requires |rest| > 0
    requires forall s, o :: fn(s, o) == LoopResult(s, o, rest)
    ensures forall s, o :: WrapGetter(fn, key)(s, o) == LoopResult(s, o, [key] + rest)
  {
    forall s, o ensures WrapGetter(fn, key)(s, o) == LoopResult(s, o, [key] + rest) {
      LoopResultFirstKey(s, o, key, rest);
    }
  }

  /**
   * `builderGet(...path)`: throws for zero keys; otherwise starts from the
   * accessor of the last key and wraps it with `$getter` for each earlier
   * key, moving `pos` down to zero. The composed closure gives exactly the
   * loop's result on every store and object.
   */
  method BuilderGet(path: seq<Key>) returns (r: Result<Getter>)
    ensures r.Failure? <==> path == []
    ensures r.Failure? ==> r.error == EmptyPath
    ensures r.Success? ==> forall s, o :: r.value(s, o) == LoopResult(s, o, path)
  {
    var pos := |path|;
    if pos == 0 {
      return Failure(EmptyPath);
    }
    pos := pos - 1;
    var fn := KeyGetter(path[pos]);
    assert path[pos..] == [path[pos]];
    while pos > 0
      invariant 0 <= pos < |path|
      invariant forall s, o :: fn(s, o) == LoopResult(s, o, path[pos..])
    {
      pos := pos - 1;
      var inner := fn;
      fn := WrapGetter(inner, path[pos]);
      WrapGetterExtendsLoop(inner, path[pos], path[pos + 1..]);
      assert path[pos..] == [path[pos]] + path[pos + 1..];
    }
    assert path[pos..] == path;
    return Success(fn);
  }

  // ---------------------------------------------------------------------
  // loopGet
  // ---------------------------------------------------------------------

  /** The closure `loopGet` returns: it keeps `path` and `lastIndex`. */
  datatype LoopGetter = LoopGetter(path: seq<Key>, lastIndex: int)
  {
    /** This accessor was built for `p`. */
    ghost predicate Accesses(p: seq<Key>) {
      path == p && |p| > 0 && lastIndex == |p| - 1
    }

    /**
     * A call of the accessor: walk every key but the last, returning
     * `undefined` at the first value that is not a non-null object, then
     * read the last key.
     */
    method Call(ghost p: seq<Key>, s: Store, obj: Ref) returns (v: Value)
      requires Accesses(p)
      ensures v == LoopResult(s, obj, p)
    {
      var cur := obj;
      for i := 0 to lastIndex
        invariant Walk(s, obj, path[..i]) == Reached(cur)
      {
        var key := path[i];
        var next := Read(s, cur, key);
        assert path[..i + 1][..i] == path[..i];
        if !IsObject(next) {
          assert path[..lastIndex][..i + 1] == path[..i + 1];
          WalkStaysStopped(s, obj, path[..lastIndex], i + 1);
          return Undefined;
        }
        cur := next.ref;
      }
      return Read(s, cur, path[lastIndex]);
    }
  }

  /** `loopGet(...path)`: throws for zero keys, else the looping accessor for `path`. */
  function LoopGet(path: seq<Key>): (r: Result<LoopGetter>)
    ensures r.Failure? <==> path == []
    ensures r.Failure? ==> r.error == EmptyPath
    ensures r.Success? ==> r.value.Accesses(path)
  {
    if |path| - 1 == -1 then Failure(EmptyPath)
    else Success(LoopGetter(path, |path| - 1))
  }

  // ---------------------------------------------------------------------
  // hybridGet
  // ---------------------------------------------------------------------

  /**
   * What `hybridGet` returns: for one key, the `$get` closure itself; for
   * more, a loop over all keys but the last that ends with that closure.
   */
  datatype HybridGetter =
    | Direct(getter: Getter)
    | Looping(path: seq<Key>, lastIndex: int, getter: Getter)
  {
    /** This accessor was built for `p`. */
    ghost predicate Accesses(p: seq<Key>) {
      match this
      case Direct(g) =>
        |p| == 1 && forall s, o :: g(s, o) == Read(s, o, p[0])
      case Looping(path, lastIndex, g) =>
        path == p && |p| > 1 && lastIndex == |p| - 1
        && forall s, o :: g(s, o) == Read(s, o, p[lastIndex])
    }

    /** A call of the accessor. */
    method Call(ghost p: seq<Key>, s: Store, obj: Ref) returns (v: Value)
      requires Accesses(p)
      ensures v == LoopResult(s, obj, p)
    {
      match this
      case Direct(g) =>
        assert p[..0] == [];
        v := g(s, obj);
      case Looping(path, lastIndex, g) =>
        var cur := obj;
        for i := 0 to lastIndex
          invariant Walk(s, obj, path[..i]) == Reached(cur)
        {
          var key := path[i];
          var next := Read(s, cur, key);
          assert path[..i + 1][..i] == path[..i];
          if !IsObject(next) {
            assert path[..lastIndex][..i + 1] == path[..i + 1];
            WalkStaysStopped(s, obj, path[..lastIndex], i + 1);
            return Undefined;
          }
          cur := next.ref;
        }
        v := g(s, cur);
    }
  }

  /** `hybridGet(...path)`: throws for zero keys; one key gives `$get(key)` itself. */
  function HybridGet(path: seq<Key>): (r: Result<HybridGetter>)
    ensures r.Failure? <==> path == []
    ensures r.Failure? ==> r.error == EmptyPath
    ensures r.Success? ==> r.value.Accesses(path)
    ensures r.Success? ==> (r.value.Direct? <==> |path| == 1)
  {
    var lastIndex := |path| - 1;
    if lastIndex == -1 then Failure(EmptyPath)
    else
      var getter := KeyGetter(path[lastIndex]);
      if lastIndex == 0 then Success(Direct(getter))
      else Success(Looping(path, lastIndex, getter))
  }

  // ---------------------------------------------------------------------
  // cacheGet
  // ---------------------------------------------------------------------

  /** The test a CACHE entry applies to each intermediate value. */
  datatype Test =
    | TypeofObject   // `typeof v === "object"`, as written: lets `null` through
    | NonNullObject  // `isObject(v)`: the test every other strategy uses

  predicate Admits(t: Test, v: Value) {
    match t
    case TypeofObject => TypeOf(v) == "object"
    case NonNullObject => IsObject(v)
  }

  /** How `(test(obj[key]) ? (obj = obj[key]) : undefined) && ...` continues. */
  datatype Step = Continue(at: Ref) | ShortCircuit(result: Value)

  /**
   * One link of a CACHE entry: the conditional yields `obj[key]` if it passes
   * the test, else `undefined`; `&&` then goes on (with `obj` now `obj[key]`)
   * if that is truthy, and otherwise returns it.
   */
  function Guard(t: Test, s: Store, o: Ref, key: Key): (r: Step)
    ensures r.Continue? <==> IsObject(Read(s, o, key))
    ensures r.Continue? ==> r.at == Read(s, o, key).ref
    ensures r.ShortCircuit? ==>
      r.result == if t == TypeofObject && Read(s, o, key) == Null then Null else Undefined
  {
    var v := Read(s, o, key);
    var operand := if Admits(t, v) then v else Undefined;
    if Truthy(operand) then Continue(operand.ref) else ShortCircuit(operand)
  }

  /** The CACHE entry for `|keys|` keys, one to four, applied to those keys. */
  function CacheEntry(t: Test, keys: seq<Key>): Getter
    requires 1 <= |keys| <= 4
  {
    if |keys| == 1 then
      (s: Store, o: Ref) => Read(s, o, keys[0])
    else if |keys| == 2 then
      (s: Store, o: Ref) =>
        match Guard(t, s, o, keys[0])
        case ShortCircuit(v) => v
        case Continue(o1) => Read(s, o1, keys[1])
    else if |keys| == 3 then
      (s: Store, o: Ref) =>
        match Guard(t, s, o, keys[0])
        case ShortCircuit(v) => v
        case Continue(o1) =>
          match Guard(t, s, o1, keys[1])
          case ShortCircuit(v) => v
          case Continue(o2) => Read(s, o2, keys[2])
    else
      (s: Store, o: Ref) =>
        match Guard(t, s, o, keys[0])
        case ShortCircuit(v) => v
        case Continue(o1) =>
          match Guard(t, s, o1, keys[1])
          case ShortCircuit(v) => v
          case Continue(o2) =>
            match Guard(t, s, o2, keys[2])
            case ShortCircuit(v) => v
            case Continue(o3) => Read(s, o3, keys[3])
  }

  /** `cacheGet(...path)` as written: the table tests `typeof === "object"`. */
  function CacheGet(path: seq<Key>): (r: Result<Getter>)
    ensures r.Failure? <==> path == [] || |path| > 4
    ensures path == [] ==> r == Failure(EmptyPath)
    ensures |path| > 4 ==> r == Failure(NotCallable)
    ensures r.Success? ==> forall s, o :: r.value(s, o) == CacheResult(TypeofObject, s, o, path)
  {
    if |path| == 0 then Failure(EmptyPath)
    else if |path| > 4 then Failure(NotCallable)
    else
      CacheEntryMatches(TypeofObject, path);
      Success(CacheEntry(TypeofObject, path))
  }

  /** `cacheGet` with the table testing `isObject`, as every other strategy does. */
  function CacheGetFixed(path: seq<Key>): (r: Result<Getter>)
    ensures r.Failure? <==> path == [] || |path| > 4
    ensures path == [] ==> r == Failure(EmptyPath)
    ensures |path| > 4 ==> r == Failure(NotCallable)
    ensures r.Success? ==> forall s, o :: r.value(s, o) == CacheResult(NonNullObject, s, o, path)
  {
    if |path| == 0 then Failure(EmptyPath)
    else if |path| > 4 then Failure(NotCallable)
    else
      CacheEntryMatches(NonNullObject, path);
      Success(CacheEntry(NonNullObject, path))
  }

  /**
   * What a CACHE entry built on test `t` returns: the loop's result, except
   * that a walk stopped by a `null` that `t` admits returns that `null`.
   */
  function CacheResult(t: Test, s: Store, o: Ref, path: seq<Key>): Value
    requires |path| > 0
  {
    match Walk(s, o, path[..|path| - 1])
    case Reached(c) => Read(s, c, path[|path| - 1])
    case Stopped(b) => if Admits(t, b) then b else Undefined
  }

  /** One link of a CACHE entry followed by the rest of the chain computes `CacheResult`. */
  lemma GuardThen(t: Test, s: Store, o: Ref, k: Key, rest: seq<Key>)
    requires |rest| > 0
    ensures CacheResult(t, s, o, [k] + rest) ==
      match Guard(t, s, o, k)
      case ShortCircuit(v) => v
      case Continue(c) => CacheResult(t, s, c, rest)
  {
    var path := [k] + rest;
    assert path[..|path| - 1] == [k] + rest[..|rest| - 1];
    WalkFirstKey(s, o, k, rest[..|rest| - 1]);
  }

  /** Every CACHE entry computes `CacheResult` for its test. */
  lemma CacheEntryResult(t: Test, keys: seq<Key>, s: Store, o: Ref)
    requires 1 <= |keys| <= 4
    ensures CacheEntry(t, keys)(s, o) == CacheResult(t, s, o, keys)
  {
    if |keys| == 1 {
      assert keys[..0] == [];
    } else {
      GuardThen(t, s, o, keys[0], keys[1..]);
      assert keys == [keys[0]] + keys[1..];
      match Guard(t, s, o, keys[0])
      case ShortCircuit(_) =>
      case Continue(o1) =>
        var rest := keys[1..];
        if |keys| == 2 {
          assert rest[..0] == [];
        } else {
          GuardThen(t, s, o1, rest[0], rest[1..]);
          assert rest == [rest[0]] + rest[1..];
          match Guard(t, s, o1, keys[1])
          case ShortCircuit(_) =>
          case Continue(o2) =>
            var rest2 := rest[1..];
            if |keys| == 3 {
              assert rest2[..0] == [];
            } else {
              GuardThen(t, s, o2, rest2[0], rest2[1..]);
              assert rest2 == [rest2[0]] + rest2[1..];
              assert rest2[1..][..0] == [];
            }
        }
    }
  }

  /** A CACHE entry computes `CacheResult` for its test on every store and object. */
  lemma CacheEntryMatches(t: Test, keys: seq<Key>)
    requires 1 <= |keys| <= 4
    ensures forall s, o :: CacheEntry(t, keys)(s, o) == CacheResult(t, s, o, keys)
  {
    forall s, o ensures CacheEntry(t, keys)(s, o) == CacheResult(t, s, o, keys) {
      CacheEntryResult(t, keys, s, o);
    }
  }

  /**
   * `cacheGet` as written: defined for one to four keys only; for those it
   * agrees with the loop except where the loop stops at an intermediate
   * `null`, for which it returns `null` instead of `undefined`.
   */
  lemma CacheGetAgainstLoop(path: seq<Key>)
    ensures CacheGet(path).Failure? <==> path == [] || |path| > 4
    ensures path == [] ==> CacheGet(path) == Failure(EmptyPath)
    ensures |path| > 4 ==> CacheGet(path) == Failure(NotCallable)
    ensures CacheGet(path).Success? ==> forall s, o ::
      CacheGet(path).value(s, o) ==
        if Walk(s, o, path[..|path| - 1]) == Stopped(Null) then Null else LoopResult(s, o, path)
  {
  }

  /** A store where `cacheGet("a", "b")` and `loopGet("a", "b")` disagree: `{ a: null }`. */
  lemma CacheGetNullCounterexample()
    ensures CacheGet(["a", "b"]).Success? && LoopGet(["a", "b"]).Success?
    ensures CacheGet(["a", "b"]).value(map[0 := map["a" := Null]], 0) == Null
    ensures LoopResult(map[0 := map["a" := Null]], 0, ["a", "b"]) == Undefined
  {
    var s := map[0 := map["a" := Null]];
    var path: seq<Key> := ["a", "b"];
    assert path[..1] == ["a"];
    assert path[..1][..0] == [];
    CacheEntryResult(TypeofObject, path, s, 0);
  }

  /** The corrected table agrees with the loop on every store, object and path of one to four keys. */
  lemma CacheGetFixedMatchesLoop(path: seq<Key>)
    ensures CacheGetFixed(path).Failure? <==> path == [] || |path| > 4
    ensures path == [] ==> CacheGetFixed(path) == Failure(EmptyPath)
    ensures CacheGetFixed(path).Success? ==> forall s, o ::
      CacheGetFixed(path).value(s, o) == LoopResult(s, o, path)
  {
  }

  // ---------------------------------------------------------------------
  // The benchmark's own checks
  // ---------------------------------------------------------------------

  /** `{ a: { b: { c: { d: 1 } } } }`, with the objects at references 0 to 3. */
  function Sample(): Store {
    map[0 := map["a" := Obj(1)], 1 := map["b" := Obj(2)],
        2 := map["c" := Obj(3)], 3 := map["d" := Num(1)]]
  }

  /**
   * The benchmark's expectations: for `a, b, c, d` every strategy returns 1,
   * and for `a` alone every strategy returns `obj.a`. The strategies are
   * listed builder, loop, cache, hybrid.
   */
  method BenchExpectations() returns (deep: seq<Value>, single: seq<Value>)
    ensures deep == [Num(1), Num(1), Num(1), Num(1)]
    ensures single == [Obj(1), Obj(1), Obj(1), Obj(1)]
  {
    var s := Sample();
    var abcd: seq<Key> := ["a", "b", "c", "d"];
    var a: seq<Key> := ["a"];
    assert abcd[..3] == ["a", "b", "c"] && abcd[..3][..2] == ["a", "b"];
    assert abcd[..3][..2][..1] == ["a"] && a[..0] == [] && ["a"][..0] == [];
    assert Walk(s, 0, ["a"]) == Reached(1);
    assert Walk(s, 0, ["a", "b"]) == Reached(2);
    assert Walk(s, 0, ["a", "b", "c"]) == Reached(3);
    assert LoopResult(s, 0, abcd) == Num(1);
    assert LoopResult(s, 0, a) == Obj(1);

    var b4 := BuilderGet(abcd);
    var b1 := BuilderGet(a);
    var l4 := LoopGet(abcd).value.Call(abcd, s, 0);
    var l1 := LoopGet(a).value.Call(a, s, 0);
    CacheGetAgainstLoop(abcd);
    CacheGetAgainstLoop(a);
    var h4 := HybridGet(abcd).value.Call(abcd, s, 0);
    var h1 := HybridGet(a).value.Call(a, s, 0);
    deep := [b4.value(s, 0), l4, CacheGet(abcd).value(s, 0), h4];
    single := [b1.value(s, 0), l1, CacheGet(a).value(s, 0), h1];
  }
}
