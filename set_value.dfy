/**
 * `set(obj, path, value)`: writes `value` at the end of `path`, replacing
 * every intermediate key that does not hold an own object or function with a
 * fresh empty object, and returns what it wrote.
 *
 * The object graph is an `ObjectGraph`: a store of objects by reference and
 * the allocation counter that gives a new `{}` its reference. `Set` updates
 * it in place; `SetSpec` says what the whole graph is afterwards, and the
 * lemmas below state what `set` promises about that graph.
 */
module SetValue {
  import opened JsValues

  /** The whole object graph: every object by reference, and the next free reference. */
  datatype Heap = Heap(objects: Store, next: Ref)

  datatype Option<T> = None | Some(value: T)

  /** How a call of `set` ends: it returns a value, or it throws a TypeError. */
  datatype Completion = Normal(value: Value) | TypeError

  /**
   * `isObject` of the library: `value != null` (neither null nor undefined)
   * and its typeof is "object" or "function". Functions DO count here.
   */
  predicate IsObject(v: Value)
    ensures IsObject(v) <==> v.Obj? || v.Fn?
  {
    !(v.Null? || v.Undefined?) && (TypeOf(v) == "object" || TypeOf(v) == "function")
  }

  /** `v` refers only to objects of `s`. */
  predicate PointsInto(s: Store, v: Value) {
    (v.Obj? || v.Fn?) ==> v.ref in s
  }

  /** Every property of `p` refers only to objects of `s`. */
  ghost predicate PropsPointInto(s: Store, p: Props) {
    forall k | k in p :: PointsInto(s, p[k])
  }

  /** No reference reaches the allocation counter and no property refers outside the graph. */
  ghost predicate Wf(h: Heap) {
    && (forall r | r in h.objects :: r < h.next)
    && (forall r | r in h.objects :: PropsPointInto(h.objects, h.objects[r]))
  }

  /** `x[k]` is an own property of `x` that holds an object or function. */
  ghost predicate Holds(s: Store, x: Ref, k: Key) {
    x in s && k in s[x] && IsObject(s[x][k])
  }

  /** `x[k]` is an own property of `x` holding the object or function `y`. */
  ghost predicate Linked(s: Store, x: Ref, k: Key, y: Ref) {
    Holds(s, x, k) && s[x][k].ref == y
  }

  /** Each `t[i][keys[i]]` holds the object or function `t[i + 1]`. */
  ghost predicate LinkedAlong(s: Store, t: seq<Ref>, keys: seq<Key>)
    requires |t| == |keys| + 1
  {
    forall i | 0 <= i < |keys| :: Linked(s, t[i], keys[i], t[i + 1])
  }

  /** Both maps hold `k`, with the same value, or neither does. */
  ghost predicate SameAt(p: Props, q: Props, k: Key) {
    (k in p <==> k in q) && (k in p ==> p[k] == q[k])
  }

  /** Going from `h` to `h'`, no object is lost and no property outside `slots` changes. */
  ghost predicate UnchangedOutside(h: Heap, h': Heap, slots: set<(Ref, Key)>) {
    forall x, k | x in h.objects && (x, k) !in slots ::
      x in h'.objects && SameAt(h.objects[x], h'.objects[x], k)
  }

  /** The objects of `h'` that `h` lacks are new references holding only properties in `slots`. */
  ghost predicate NewOnlyAt(h: Heap, h': Heap, slots: set<(Ref, Key)>) {
    forall x | x in h'.objects && x !in h.objects ::
      x >= h.next && forall k | k in h'.objects[x] :: (x, k) in slots
  }

  /** `h'` keeps every property of `h` that holds an object or function. */
  ghost predicate KeepsObjects(h: Heap, h': Heap) {
    forall x, k | Holds(h.objects, x, k) ::
      x in h'.objects && k in h'.objects[x] && h'.objects[x][k] == h.objects[x][k]
  }

  // ---------------------------------------------------------------------
  // The specification
  // ---------------------------------------------------------------------

  /**
   * One iteration of the loop: if `cur[key]` is not an own property holding
   * an object or function, `cur[key] = {}`; then `cur = cur[key]`.
   */
  function Step(h: Heap, cur: Ref, key: Key): (r: (Heap, Ref))
    requires Wf(h) && cur in h.objects
    ensures Wf(r.0) && r.1 in r.0.objects
    ensures h.objects.Keys <= r.0.objects.Keys && h.next <= r.0.next
    ensures Linked(r.0.objects, cur, key, r.1)
  {
    var props := h.objects[cur];
    if key in props && IsObject(props[key]) then (h, props[key].ref)
    else
      var o := h.next;
      var h' := Heap(h.objects[o := map[]][cur := props[key := Obj(o)]], o + 1);
      assert forall r | r in h'.objects :: PropsPointInto(h'.objects, h'.objects[r]) by {
        forall r | r in h'.objects ensures PropsPointInto(h'.objects, h'.objects[r]) {
          if r != o && r != cur {
            assert PropsPointInto(h.objects, h.objects[r]);
          } else if r == cur {
            assert PropsPointInto(h.objects, props);
          }
        }
      }
      (h', o)
  }

  /** The whole loop over `keys`, starting at `cur`: the graph afterwards, and where `cur` ends. */
  function Descend(h: Heap, cur: Ref, keys: seq<Key>): (r: (Heap, Ref))
    requires Wf(h) && cur in h.objects
    ensures Wf(r.0) && r.1 in r.0.objects
    ensures h.objects.Keys <= r.0.objects.Keys && h.next <= r.0.next
    decreases |keys|
  {
    if keys == [] then (h, cur)
    else
      var (h1, c1) := Step(h, cur, keys[0]);
      Descend(h1, c1, keys[1..])
  }

  /** The objects the loop visits: `cur`, then the one each key leads to. */
  ghost function Trail(h: Heap, cur: Ref, keys: seq<Key>): (t: seq<Ref>)
    requires Wf(h) && cur in h.objects
    ensures |t| == |keys| + 1 && t[0] == cur && t[|keys|] == Descend(h, cur, keys).1
    decreases |keys|
  {
    if keys == [] then [cur]
    else
      var (h1, c1) := Step(h, cur, keys[0]);
      [cur] + Trail(h1, c1, keys[1..])
  }

  /** `x[k] = v`: `x[k]` holds `v` afterwards, and every other property and object is as it was. */
  function Write(h: Heap, x: Ref, k: Key, v: Value): (h': Heap)
    requires Wf(h) && x in h.objects && PointsInto(h.objects, v)
    ensures Wf(h') && h'.objects.Keys == h.objects.Keys && h'.next == h.next
    ensures k in h'.objects[x] && h'.objects[x][k] == v
    ensures h'.objects[x].Keys == h.objects[x].Keys + {k}
    ensures forall j | j in h.objects[x] && j != k :: h'.objects[x][j] == h.objects[x][j]
    ensures forall y | y in h.objects && y != x :: h'.objects[y] == h.objects[y]
  {
    var h' := Heap(h.objects[x := h.objects[x][k := v]], h.next);
    assert forall r | r in h'.objects :: PropsPointInto(h'.objects, h'.objects[r]) by {
      forall r | r in h'.objects ensures PropsPointInto(h'.objects, h'.objects[r]) {
        assert PropsPointInto(h.objects, h.objects[r]);
      }
    }
    h'
  }

  /** What `set(obj, path, value)` leaves the graph as, and how it ends. */
  function SetSpec(h: Heap, obj: Value, path: seq<Key>, value: Value): (r: (Heap, Completion))
    requires Wf(h) && PointsInto(h.objects, obj) && PointsInto(h.objects, value)
    ensures Wf(r.0) && h.objects.Keys <= r.0.objects.Keys
  {
    if |path| == 0 then (h, Normal(Undefined))
    else if |path| == 1 then
      if IsObject(obj) then (Write(h, obj.ref, path[0], value), Normal(value))
      else (h, Normal(Undefined))
    else if !IsObject(obj) then (h, TypeError)
    else
      var (h1, c) := Descend(h, obj.ref, path[..|path| - 1]);
      (Write(h1, c, path[|path| - 1], value), Normal(value))
  }

  /** The objects `set` visits for a non-empty `path` from an object root: one per key. */
  ghost function PathTrail(h: Heap, obj: Value, path: seq<Key>): (t: seq<Ref>)
    requires Wf(h) && PointsInto(h.objects, obj) && IsObject(obj) && |path| > 0
    ensures |t| == |path| && t[0] == obj.ref
  {
    Trail(h, obj.ref, path[..|path| - 1])
  }

  /** The properties a walk along `t` goes through: `t[i][keys[i]]` for every key. */
  ghost function Slots(t: seq<Ref>, keys: seq<Key>): set<(Ref, Key)>
    requires |keys| <= |t|
  {
    set i | 0 <= i < |keys| :: (t[i], keys[i])
  }

  /**
   * The last write of `set` does not land on a property an earlier key went
   * through; without this, an aliased or cyclic path loses a link to the
   * final write.
   */
  ghost predicate Unaliased(h: Heap, obj: Value, path: seq<Key>)
    requires Wf(h) && PointsInto(h.objects, obj)
  {
    |path| < 2 || !IsObject(obj) ||
      var t := PathTrail(h, obj, path);
      var n := |path| - 1;
      forall i | 0 <= i < n :: (t[i], path[i]) != (t[n], path[n])
  }

  /**
   * Reads `path` back the way `set` laid it out: from `obj`, every key but
   * the last must be an own property holding an object or function; then the
   * last key must be an own property, whose value is the result.
   */
  ghost function OwnPathValue(s: Store, obj: Value, path: seq<Key>): Option<Value>
    decreases |path|
  {
    if path == [] || !IsObject(obj) || obj.ref !in s then None
    else if |path| == 1 then (if path[0] in s[obj.ref] then Some(s[obj.ref][path[0]]) else None)
    else if path[0] in s[obj.ref] then OwnPathValue(s, s[obj.ref][path[0]], path[1..])
    else None
  }

  // ---------------------------------------------------------------------
  // One iteration
  // ---------------------------------------------------------------------

  /**
   * An iteration keeps an own object or function at `key` and moves into it;
   * otherwise it puts a new empty object there and moves into that. Nothing
   * else changes.
   */
  lemma StepEffect(h: Heap, cur: Ref, key: Key)
    requires Wf(h) && cur in h.objects
    ensures var (h1, c1) := Step(h, cur, key);
      && Linked(h1.objects, cur, key, c1)
      && (Holds(h.objects, cur, key) ==> h1 == h && c1 == h.objects[cur][key].ref)
      && (!Holds(h.objects, cur, key) ==> c1 == h.next && c1 !in h.objects)
      && UnchangedOutside(h, h1, {(cur, key)})
      && KeepsObjects(h, h1)
      && (forall x | x in h1.objects && x !in h.objects :: x == c1 && h1.objects[x] == map[])
  {
  }

  // ---------------------------------------------------------------------
  // What the loop does
  // ---------------------------------------------------------------------

  /** The slots of a walk are its first slot and the slots of the rest of it. */
  lemma SlotsSplit(t: seq<Ref>, keys: seq<Key>)
    requires |keys| > 0 && |t| == |keys| + 1
    ensures Slots(t, keys) == {(t[0], keys[0])} + Slots(t[1..], keys[1..])
  {
    var slots := Slots(t, keys);
    var rest := Slots(t[1..], keys[1..]);
    forall p | p in slots ensures p in {(t[0], keys[0])} + rest {
      var i :| 0 <= i < |keys| && p == (t[i], keys[i]);
      if i > 0 { assert p == (t[1..][i - 1], keys[1..][i - 1]); }
    }
    forall p | p in rest ensures p in slots {
      var i :| 0 <= i < |keys| - 1 && p == (t[1..][i], keys[1..][i]);
      assert p == (t[i + 1], keys[i + 1]);
    }
  }

  /** The loop over `keys` is one iteration for the first key, then the loop over the rest. */
  lemma DescendFirst(h: Heap, cur: Ref, keys: seq<Key>)
    requires Wf(h) && cur in h.objects && keys != []
    ensures var (h1, c1) := Step(h, cur, keys[0]);
      Descend(h, cur, keys) == Descend(h1, c1, keys[1..])
  {
  }

  /** The trail after the first key is the trail from where that key led. */
  lemma TrailSplit(h: Heap, cur: Ref, keys: seq<Key>)
    requires Wf(h) && cur in h.objects && keys != []
    ensures var (h1, c1) := Step(h, cur, keys[0]);
      Trail(h, cur, keys)[1..] == Trail(h1, c1, keys[1..])
  {
  }

  /**
   * Outside the properties it goes through, the loop changes nothing, and
   * the objects it creates hold only those properties.
   */
  lemma {:induction false} DescendFrame(h: Heap, cur: Ref, keys: seq<Key>)
    requires Wf(h) && cur in h.objects
    ensures var h' := Descend(h, cur, keys).0;
      var slots := Slots(Trail(h, cur, keys), keys);
      UnchangedOutside(h, h', slots) && NewOnlyAt(h, h', slots)
    decreases |keys|
  {
    if keys != [] {
      var (h1, c1) := Step(h, cur, keys[0]);
      StepEffect(h, cur, keys[0]);
      DescendFrame(h1, c1, keys[1..]);
      var t := Trail(h, cur, keys);
      TrailSplit(h, cur, keys);
      SlotsSplit(t, keys);
      var h' := Descend(h, cur, keys).0;
      var slots := Slots(t, keys);
      var slots1 := Slots(t[1..], keys[1..]);
      assert UnchangedOutside(h1, h', slots1) && NewOnlyAt(h1, h', slots1);
      forall x, k | x in h.objects && (x, k) !in slots
        ensures x in h'.objects && SameAt(h.objects[x], h'.objects[x], k)
      {
        assert (x, k) != (cur, keys[0]) && (x, k) !in slots1;
      }
      forall x | x in h'.objects && x !in h.objects
        ensures x >= h.next && forall k | k in h'.objects[x] :: (x, k) in slots
      {
        if x in h1.objects {
          assert x == c1 && h1.objects[x] == map[];
        }
      }
    }
  }

  /** The loop never replaces a property that already holds an object or function. */
  lemma {:induction false} DescendKeepsObjects(h: Heap, cur: Ref, keys: seq<Key>)
    requires Wf(h) && cur in h.objects
    ensures KeepsObjects(h, Descend(h, cur, keys).0)
    decreases |keys|
  {
    if keys != [] {
      var (h1, c1) := Step(h, cur, keys[0]);
      StepEffect(h, cur, keys[0]);
      DescendKeepsObjects(h1, c1, keys[1..]);
      var h' := Descend(h, cur, keys).0;
      forall x, k | Holds(h.objects, x, k)
        ensures x in h'.objects && k in h'.objects[x] && h'.objects[x][k] == h.objects[x][k]
      {
        assert Holds(h1.objects, x, k);
      }
    }
  }

  /** After the loop, each visited object links to the next one through its key. */
  lemma {:induction false} DescendLinks(h: Heap, cur: Ref, keys: seq<Key>)
    requires Wf(h) && cur in h.objects
    ensures LinkedAlong(Descend(h, cur, keys).0.objects, Trail(h, cur, keys), keys)
    decreases |keys|
  {
    if keys != [] {
      var (h1, c1) := Step(h, cur, keys[0]);
      StepEffect(h, cur, keys[0]);
      DescendLinks(h1, c1, keys[1..]);
      DescendKeepsObjects(h1, c1, keys[1..]);
      TrailSplit(h, cur, keys);
      var h' := Descend(h, cur, keys).0;
      var t := Trail(h, cur, keys);
      forall i | 0 <= i < |keys| ensures Linked(h'.objects, t[i], keys[i], t[i + 1]) {
        if i == 0 {
          assert Holds(h1.objects, cur, keys[0]);
        } else {
          assert Linked(h'.objects, t[1..][i - 1], keys[1..][i - 1], t[1..][i]);
        }
      }
    }
  }

  /**
   * Where each key leads: into the object or function already held there as
   * an own property, and otherwise into an object created by this call.
   */
  ghost predicate ChoicesAlong(h: Heap, t: seq<Ref>, keys: seq<Key>)
    requires |t| == |keys| + 1
  {
    forall i | 0 <= i < |keys| ::
      && (Holds(h.objects, t[i], keys[i]) ==> t[i + 1] == h.objects[t[i]][keys[i]].ref)
      && (!Holds(h.objects, t[i], keys[i]) ==> t[i + 1] >= h.next)
  }

  /** How one iteration changes which properties hold objects or functions. */
  lemma StepHolds(h: Heap, cur: Ref, key: Key, x: Ref, k: Key)
    requires Wf(h) && cur in h.objects
    ensures var h1 := Step(h, cur, key).0;
      && (Holds(h.objects, x, k) ==> Holds(h1.objects, x, k) && h1.objects[x][k] == h.objects[x][k])
      && (!Holds(h.objects, x, k) && Holds(h1.objects, x, k) ==> h1.objects[x][k].ref >= h.next)
  {
  }

  lemma {:induction false} DescendChoices(h: Heap, cur: Ref, keys: seq<Key>)
    requires Wf(h) && cur in h.objects
    ensures ChoicesAlong(h, Trail(h, cur, keys), keys)
    decreases |keys|
  {
    if keys != [] {
      var (h1, c1) := Step(h, cur, keys[0]);
      DescendChoices(h1, c1, keys[1..]);
      TrailSplit(h, cur, keys);
      var t := Trail(h, cur, keys);
      var t1 := t[1..];
      var keys1 := keys[1..];
      assert ChoicesAlong(h1, t1, keys1);
      forall i | 0 <= i < |keys|
        ensures Holds(h.objects, t[i], keys[i]) ==> t[i + 1] == h.objects[t[i]][keys[i]].ref
        ensures !Holds(h.objects, t[i], keys[i]) ==> t[i + 1] >= h.next
      {
        if i == 0 {
          StepEffect(h, cur, keys[0]);
        } else {
          assert t[i] == t1[i - 1] && t[i + 1] == t1[i] && keys[i] == keys1[i - 1];
          StepHolds(h, cur, keys[0], t[i], keys[i]);
          assert Holds(h1.objects, t1[i - 1], keys1[i - 1]) ==> t1[i] == h1.objects[t1[i - 1]][keys1[i - 1]].ref;
          assert !Holds(h1.objects, t1[i - 1], keys1[i - 1]) ==> t1[i] >= h1.next;
        }
      }
    }
  }

  /** Over a path whose links all exist already, the loop creates and changes nothing. */
  lemma {:induction false} DescendAlongLinks(h: Heap, t: seq<Ref>, keys: seq<Key>)
    requires Wf(h) && |t| == |keys| + 1 && t[0] in h.objects
    requires LinkedAlong(h.objects, t, keys)
    ensures Descend(h, t[0], keys) == (h, t[|keys|])
    decreases |keys|
  {
    if keys != [] {
      assert Linked(h.objects, t[0], keys[0], t[1]);
      assert LinkedAlong(h.objects, t[1..], keys[1..]) by {
        forall i | 0 <= i < |keys| - 1 ensures Linked(h.objects, t[1..][i], keys[1..][i], t[1..][i + 1]) {
          assert Linked(h.objects, t[i + 1], keys[i + 1], t[i + 2]);
        }
      }
      DescendAlongLinks(h, t[1..], keys[1..]);
    }
  }

  /** Following links from `t[0]` through all keys but the last reads the property at the end. */
  lemma {:induction false} ReadAlongLinks(s: Store, t: seq<Ref>, path: seq<Key>)
    requires |path| > 0 && |t| == |path| && forall i | 0 <= i < |t| :: t[i] in s
    requires LinkedAlong(s, t, path[..|path| - 1])
    requires path[|path| - 1] in s[t[|path| - 1]]
    ensures OwnPathValue(s, Obj(t[0]), path) == Some(s[t[|path| - 1]][path[|path| - 1]])
    decreases |path|
  {
    if |path| > 1 {
      assert Linked(s, t[0], path[0], t[1]);
      var v := s[t[0]][path[0]];
      assert LinkedAlong(s, t[1..], path[1..][..|path| - 2]) by {
        forall i | 0 <= i < |path| - 2
          ensures Linked(s, t[1..][i], path[1..][..|path| - 2][i], t[1..][i + 1])
        {
          assert Linked(s, t[i + 1], path[i + 1], t[i + 2]);
        }
      }
      assert t[1..][|path| - 2] == t[|path| - 1];
      ReadAlongLinks(s, t[1..], path[1..]);
      assert OwnPathValue(s, v, path[1..]) == OwnPathValue(s, Obj(t[1]), path[1..]);
    }
  }

  // ---------------------------------------------------------------------
  // What set promises
  // ---------------------------------------------------------------------

  /**
   * How a call ends: an empty path returns `undefined` and changes nothing;
   * one key on a root that is not an object or function returns `undefined`
   * and changes nothing; more keys on such a root throw before changing
   * anything; any other call returns `value`.
   */
  lemma SetOutcome(h: Heap, obj: Value, path: seq<Key>, value: Value)
    requires Wf(h) && PointsInto(h.objects, obj) && PointsInto(h.objects, value)
    ensures var (h', c) := SetSpec(h, obj, path, value);
      && (path == [] ==> h' == h && c == Normal(Undefined))
      && (|path| == 1 && !IsObject(obj) ==> h' == h && c == Normal(Undefined))
      && (|path| >= 2 && !IsObject(obj) ==> h' == h && c == TypeError)
      && (path != [] && IsObject(obj) ==> c == Normal(value))
  {
  }

  /** The slots of a whole path are those of all keys but the last, and the last write's. */
  lemma SlotsLast(t: seq<Ref>, path: seq<Key>)
    requires |path| > 0 && |t| == |path|
    ensures Slots(t, path) == Slots(t, path[..|path| - 1]) + {(t[|path| - 1], path[|path| - 1])}
  {
    var n := |path| - 1;
    var slots := Slots(t, path);
    var slots1 := Slots(t, path[..n]);
    forall p | p in slots ensures p in slots1 + {(t[n], path[n])} {
      var i :| 0 <= i < |path| && p == (t[i], path[i]);
      if i < n { assert p == (t[i], path[..n][i]); }
    }
    forall p | p in slots1 ensures p in slots {
      var i :| 0 <= i < n && p == (t[i], path[..n][i]);
      assert p == (t[i], path[i]);
    }
  }

  /**
   * Frame: of the objects that existed, only the properties on the path can
   * change; the objects the call creates are new references holding nothing
   * but properties on the path.
   */
  lemma SetFrame(h: Heap, obj: Value, path: seq<Key>, value: Value)
    requires Wf(h) && PointsInto(h.objects, obj) && PointsInto(h.objects, value)
    requires IsObject(obj) && path != []
    ensures var h' := SetSpec(h, obj, path, value).0;
      var slots := Slots(PathTrail(h, obj, path), path);
      UnchangedOutside(h, h', slots) && NewOnlyAt(h, h', slots)
  {
    var n := |path| - 1;
    var init := path[..n];
    var (h1, e) := Descend(h, obj.ref, init);
    var t := Trail(h, obj.ref, init);
    DescendFrame(h, obj.ref, init);
    var h' := SetSpec(h, obj, path, value).0;
    assert h' == Write(h1, e, path[n], value);
    var slots := Slots(t, path);
    var slots1 := Slots(t, init);
    SlotsLast(t, path);
    assert UnchangedOutside(h, h1, slots1) && NewOnlyAt(h, h1, slots1);
    forall x, k | x in h.objects && (x, k) !in slots
      ensures x in h'.objects && SameAt(h.objects[x], h'.objects[x], k)
    {
      assert (x, k) !in slots1;
    }
    forall x | x in h'.objects && x !in h.objects
      ensures x >= h.next && forall k | k in h'.objects[x] :: (x, k) in slots
    {
      forall k | k in h'.objects[x] ensures (x, k) in slots {
        if (x, k) != (e, path[n]) {
          assert k in h1.objects[x];
        }
      }
    }
  }

  /**
   * Where the path leads: through each own object or function already on it,
   * without replacing it, so its other keys survive; and through a new object
   * wherever a key was missing or held anything else. Such an existing link
   * is still there afterwards unless the last write lands on it.
   */
  lemma SetDescends(h: Heap, obj: Value, path: seq<Key>, value: Value)
    requires Wf(h) && PointsInto(h.objects, obj) && PointsInto(h.objects, value)
    requires IsObject(obj) && |path| >= 2
    ensures var h' := SetSpec(h, obj, path, value).0;
      var t := PathTrail(h, obj, path);
      var n := |path| - 1;
      forall i | 0 <= i < n ::
        && (Holds(h.objects, t[i], path[i]) ==> t[i + 1] == h.objects[t[i]][path[i]].ref)
        && (Holds(h.objects, t[i], path[i]) && (t[i], path[i]) != (t[n], path[n]) ==>
              Holds(h'.objects, t[i], path[i]) && h'.objects[t[i]][path[i]] == h.objects[t[i]][path[i]])
        && (!Holds(h.objects, t[i], path[i]) ==> t[i + 1] !in h.objects)
  {
    var n := |path| - 1;
    var init := path[..n];
    var (h1, e) := Descend(h, obj.ref, init);
    var t := Trail(h, obj.ref, init);
    DescendChoices(h, obj.ref, init);
    DescendKeepsObjects(h, obj.ref, init);
    var h' := SetSpec(h, obj, path, value).0;
    assert h' == Write(h1, e, path[n], value);
    forall i | 0 <= i < n
      ensures Holds(h.objects, t[i], path[i]) ==> t[i + 1] == h.objects[t[i]][path[i]].ref
      ensures Holds(h.objects, t[i], path[i]) && (t[i], path[i]) != (t[n], path[n]) ==>
                Holds(h'.objects, t[i], path[i]) && h'.objects[t[i]][path[i]] == h.objects[t[i]][path[i]]
      ensures !Holds(h.objects, t[i], path[i]) ==> t[i + 1] !in h.objects
    {
      assert path[i] == init[i];
    }
  }

  /** Unless the path is aliased, the links the loop made survive the last write, which holds `value`. */
  lemma LinksAfterSet(h: Heap, obj: Value, path: seq<Key>, value: Value)
    requires Wf(h) && PointsInto(h.objects, obj) && PointsInto(h.objects, value)
    requires IsObject(obj) && path != []
    requires Unaliased(h, obj, path)
    ensures var h' := SetSpec(h, obj, path, value).0;
      var t := PathTrail(h, obj, path);
      var n := |path| - 1;
      && LinkedAlong(h'.objects, t, path[..n])
      && (forall i | 0 <= i < |t| :: t[i] in h'.objects)
      && t[n] in h'.objects && path[n] in h'.objects[t[n]] && h'.objects[t[n]][path[n]] == value
  {
    var n := |path| - 1;
    var init := path[..n];
    var (h1, e) := Descend(h, obj.ref, init);
    var t := Trail(h, obj.ref, init);
    DescendLinks(h, obj.ref, init);
    var h' := SetSpec(h, obj, path, value).0;
    assert h' == Write(h1, e, path[n], value);
    forall i | 0 <= i < n ensures Linked(h'.objects, t[i], init[i], t[i + 1]) {
      assert Linked(h1.objects, t[i], init[i], t[i + 1]);
      assert (t[i], path[i]) != (t[n], path[n]);
    }
    forall i | 0 <= i < |t| ensures t[i] in h'.objects {
      if i > 0 {
        assert Linked(h'.objects, t[i - 1], init[i - 1], t[i]);
        assert PropsPointInto(h'.objects, h'.objects[t[i - 1]]);
      }
    }
  }

  /**
   * Round trip: unless the path is aliased, afterwards every key but the last
   * is an own property holding an object or function, and the last key holds
   * `value`.
   */
  lemma SetRoundTrip(h: Heap, obj: Value, path: seq<Key>, value: Value)
    requires Wf(h) && PointsInto(h.objects, obj) && PointsInto(h.objects, value)
    requires IsObject(obj) && path != []
    requires Unaliased(h, obj, path)
    ensures OwnPathValue(SetSpec(h, obj, path, value).0.objects, obj, path) == Some(value)
  {
    var h' := SetSpec(h, obj, path, value).0;
    var t := PathTrail(h, obj, path);
    LinksAfterSet(h, obj, path, value);
    ReadAlongLinks(h'.objects, t, path);
    assert OwnPathValue(h'.objects, obj, path) == OwnPathValue(h'.objects, Obj(obj.ref), path);
  }

  /** Idempotence: unless the path is aliased, a second identical call changes nothing more. */
  lemma SetIdempotent(h: Heap, obj: Value, path: seq<Key>, value: Value)
    requires Wf(h) && PointsInto(h.objects, obj) && PointsInto(h.objects, value)
    requires Unaliased(h, obj, path)
    ensures var (h', c) := SetSpec(h, obj, path, value);
      SetSpec(h', obj, path, value) == (h', c)
  {
    if path != [] && IsObject(obj) {
      var h' := SetSpec(h, obj, path, value).0;
      var n := |path| - 1;
      var t := PathTrail(h, obj, path);
      LinksAfterSet(h, obj, path, value);
      if n > 0 {
        DescendAlongLinks(h', t, path[..n]);
      }
      WriteSameValue(h', t[n], path[n], value);
    }
  }

  /** Writing the value a property already holds changes nothing. */
  lemma WriteSameValue(h: Heap, x: Ref, k: Key, v: Value)
    requires Wf(h) && x in h.objects && k in h.objects[x] && h.objects[x][k] == v
    ensures PointsInto(h.objects, v) && Write(h, x, k, v) == h
  {
    assert PropsPointInto(h.objects, h.objects[x]);
    var p := h.objects[x];
    assert p[k := v] == p;
    assert h.objects[x := p] == h.objects;
  }

  /**
   * Why the round trip needs an unaliased path: with `o.a === o`, setting
   * `a, a` to 5 overwrites the link `o.a` itself, and a second call then
   * creates a new object.
   */
  lemma AliasedPathCounterexample()
    ensures var h := Heap(map[0 := map["a" := Obj(0)]], 1);
      && Wf(h)
      && !Unaliased(h, Obj(0), ["a", "a"])
      && OwnPathValue(SetSpec(h, Obj(0), ["a", "a"], Num(5)).0.objects, Obj(0), ["a", "a"]) == None
      && SetSpec(SetSpec(h, Obj(0), ["a", "a"], Num(5)).0, Obj(0), ["a", "a"], Num(5)).0
         != SetSpec(h, Obj(0), ["a", "a"], Num(5)).0
  {
    var h := Heap(map[0 := map["a" := Obj(0)]], 1);
    assert Wf(h);
    var path: seq<Key> := ["a", "a"];
    assert path[..1] == ["a"] && path[1..] == ["a"] && ["a"][1..] == [];
    assert Step(h, 0, "a") == (h, 0);
    assert Descend(h, 0, ["a"]) == (h, 0);
    assert Trail(h, 0, ["a"]) == [0, 0];
    var h' := SetSpec(h, Obj(0), path, Num(5)).0;
    assert h'.objects[0] == map["a" := Num(5)];
    assert h'.objects.Keys == {0};
    assert OwnPathValue(h'.objects, Obj(0), path) == OwnPathValue(h'.objects, Num(5), ["a"]);
    var h'' := SetSpec(h', Obj(0), path, Num(5)).0;
    assert Step(h', 0, "a").0.objects.Keys == {0, 1};
    assert 1 in h''.objects;
  }

  // ---------------------------------------------------------------------
  // The tests' examples
  // ---------------------------------------------------------------------

  /** The graph `{ a: { b: {} } }` that both three-key examples reach before their last write. */
  function ABGraph(): Heap {
    Heap(map[0 := map["a" := Obj(1)], 1 := map["b" := Obj(2)], 2 := map[]], 3)
  }

  /** The graph `{ a: { b: { c: 10 } } }` both three-key examples end with. */
  function ABCGraph(): Heap {
    Heap(map[0 := map["a" := Obj(1)], 1 := map["b" := Obj(2)], 2 := map["c" := Num(10)]], 3)
  }

  /** From an object root, `set` over two keys or more is the loop over all but the last, then one write. */
  lemma SetThroughLoop(h: Heap, obj: Value, path: seq<Key>, value: Value)
    requires Wf(h) && PointsInto(h.objects, obj) && PointsInto(h.objects, value)
    requires |path| >= 2 && IsObject(obj)
    ensures var (h1, c) := Descend(h, obj.ref, path[..|path| - 1]);
      SetSpec(h, obj, path, value) == (Write(h1, c, path[|path| - 1], value), Normal(value))
  {
  }

  /** Writing `c = 10` into the last object of `ABGraph()` gives `ABCGraph()`. */
  lemma ABLastWrite()
    ensures Wf(ABGraph()) && Write(ABGraph(), 2, "c", Num(10)) == ABCGraph()
  {
    assert Wf(ABGraph());
    var r := Write(ABGraph(), 2, "c", Num(10));
    assert r.objects.Keys == {0, 1, 2} && r.next == 3;
    assert r.objects[0] == map["a" := Obj(1)];
    assert r.objects[1] == map["b" := Obj(2)];
    assert r.objects[2] == map["c" := Num(10)];
    assert r.objects == ABCGraph().objects;
  }

  /** `set({ a: {} }, ["a", "b", "c"], 10)` gives `{ a: { b: { c: 10 } } }`. */
  lemma SetExampleExisting()
    ensures var h := Heap(map[0 := map["a" := Obj(1)], 1 := map[]], 2);
      && Wf(h)
      && SetSpec(h, Obj(0), ["a", "b", "c"], Num(10)) == (ABCGraph(), Normal(Num(10)))
  {
    var h := Heap(map[0 := map["a" := Obj(1)], 1 := map[]], 2);
    assert Wf(h);
    assert ["a", "b"][1..] == ["b"] && ["b"][1..] == [];
    assert Step(h, 0, "a") == (h, 1);
    var s := Step(h, 1, "b");
    assert s.1 == 2 && s.0.next == 3;
    assert s.0.objects.Keys == {0, 1, 2};
    assert s.0.objects[0] == map["a" := Obj(1)];
    assert s.0.objects[1] == map["b" := Obj(2)];
    assert s.0.objects[2] == map[];
    assert s.0.objects == ABGraph().objects;
    assert Descend(h, 0, ["a", "b"]) == (ABGraph(), 2);
    var path: seq<Key> := ["a", "b", "c"];
    assert path[..2] == ["a", "b"];
    SetThroughLoop(h, Obj(0), path, Num(10));
    ABLastWrite();
  }

  /** From `{ a: true }`, the loop over `a, b` replaces `true` and reaches `ABGraph()`. */
  lemma OverrideDescends()
    ensures var h := Heap(map[0 := map["a" := Bool(true)]], 1);
      && Wf(h)
      && Descend(h, 0, ["a", "b"]) == (ABGraph(), 2)
  {
    var h := Heap(map[0 := map["a" := Bool(true)]], 1);
    assert Wf(h);
    assert ["a", "b"][1..] == ["b"] && ["b"][1..] == [];
    var s1 := Step(h, 0, "a");
    assert s1.1 == 1 && s1.0.next == 2;
    assert s1.0.objects.Keys == {0, 1};
    assert s1.0.objects[0] == map["a" := Obj(1)];
    assert s1.0.objects[1] == map[];
    var s2 := Step(s1.0, 1, "b");
    assert s2.1 == 2 && s2.0.next == 3;
    assert s2.0.objects.Keys == {0, 1, 2};
    assert s2.0.objects[0] == map["a" := Obj(1)];
    assert s2.0.objects[1] == map["b" := Obj(2)];
    assert s2.0.objects[2] == map[];
    assert s2.0.objects == ABGraph().objects;
  }

  /** `set({ a: true }, ["a", "b", "c"], 10)` replaces `true` and gives `{ a: { b: { c: 10 } } }`. */
  lemma SetExampleOverride()
    ensures var h := Heap(map[0 := map["a" := Bool(true)]], 1);
      && Wf(h)
      && SetSpec(h, Obj(0), ["a", "b", "c"], Num(10)) == (ABCGraph(), Normal(Num(10)))
  {
    var h := Heap(map[0 := map["a" := Bool(true)]], 1);
    OverrideDescends();
    var path: seq<Key> := ["a", "b", "c"];
    assert path[..2] == ["a", "b"];
    SetThroughLoop(h, Obj(0), path, Num(10));
    ABLastWrite();
  }

  /**
   * `set({ a: true }, ["b"], false)` gives `{ a: true, b: false }`;
   * `set({ a: true }, [], false)` leaves `{ a: true }`; and
   * `set(null, ["prop"], true)` and `set(undefined, ["prop"], true)` return
   * `undefined`.
   */
  lemma SetExamplesFlat()
    ensures var h := Heap(map[0 := map["a" := Bool(true)]], 1);
      && Wf(h)
      && SetSpec(h, Obj(0), ["b"], Bool(false))
         == (Heap(map[0 := map["a" := Bool(true), "b" := Bool(false)]], 1), Normal(Bool(false)))
      && SetSpec(h, Obj(0), [], Bool(false)) == (h, Normal(Undefined))
      && SetSpec(h, Null, ["prop"], Bool(true)) == (h, Normal(Undefined))
      && SetSpec(h, Undefined, ["prop"], Bool(true)) == (h, Normal(Undefined))
  {
    var h := Heap(map[0 := map["a" := Bool(true)]], 1);
    assert Wf(h);
    var r := SetSpec(h, Obj(0), ["b"], Bool(false)).0;
    assert r.objects.Keys == {0} && r.next == 1;
    assert r.objects[0] == map["a" := Bool(true), "b" := Bool(false)];
    var m := map[0 := map["a" := Bool(true), "b" := Bool(false)]];
    assert r.objects == m;
    assert SetSpec(h, Obj(0), ["b"], Bool(false)) == (Heap(m, 1), Normal(Bool(false)));
  }

  // ---------------------------------------------------------------------
  // The object graph, updated in place
  // ---------------------------------------------------------------------

  class ObjectGraph {
    var objects: Store
    var next: Ref

    ghost predicate Valid()
      reads this
    {
      Wf(Heap(objects, next))
    }

    function State(): Heap
      reads this
    {
      Heap(objects, next)
    }

    constructor ()
      ensures Valid() && objects == map[] && next == 0
    {
      objects := map[];
      next := 0;
    }

    /** `{}`: a new empty object. */
    method NewObject() returns (o: Ref)
      requires Valid()
      modifies this
      ensures o == old(next) && o !in old(objects)
      ensures objects == old(objects)[o := map[]] && next == old(next) + 1
    {
      o := next;
      objects := objects[o := map[]];
      next := next + 1;
    }

    /** One pass of the loop in `set`: make `cur[key]` an object if it is not one, and move to it. */
    method Advance(cur: Ref, key: Key) returns (c: Ref)
      requires Valid() && cur in objects
      modifies this
      ensures Valid()
      ensures (State(), c) == Step(old(State()), cur, key)
    {
      if !(key in objects[cur]) || !IsObject(objects[cur][key]) {
        var o := NewObject();
        objects := objects[cur := objects[cur][key := Obj(o)]];
      }
      c := objects[cur][key].ref;
    }

    /** The loop of `set` over `keys`, from `cur`: returns where `res` ends. */
    method DescendTo(cur: Ref, keys: seq<Key>) returns (c: Ref)
      requires Valid() && cur in objects
      modifies this
      ensures Valid()
      ensures (State(), c) == Descend(old(State()), cur, keys)
    {
      c := cur;
      for i := 0 to |keys|
        invariant Valid() && c in objects
        invariant Descend(old(State()), cur, keys) == Descend(State(), c, keys[i..])
      {
        DescendFirst(State(), c, keys[i..]);
        assert keys[i..][1..] == keys[i + 1..];
        c := Advance(c, keys[i]);
      }
      assert keys[|keys|..] == [];
    }

    /** `set(obj, path, value)`. */
    method Set(obj: Value, path: seq<Key>, value: Value) returns (r: Completion)
      requires Valid() && PointsInto(objects, obj) && PointsInto(objects, value)
      modifies this
      ensures Valid()
      ensures (State(), r) == SetSpec(old(State()), obj, path, value)
    {
      ghost var h0 := State();
      if |path| == 0 {
        return Normal(Undefined);
      }
      var res := obj;
      var last := path[|path| - 1];
      if |path| == 1 {
        if IsObject(res) {
          objects := objects[res.ref := objects[res.ref][last := value]];
          assert State() == Write(h0, res.ref, last, value);
          return Normal(value);
        }
        return Normal(Undefined);
      }
      // On the first iteration, `hasOwnProperty.call(res, key)` throws for
      // null or undefined, and `res[key] = {}` throws on any other primitive.
      if !IsObject(res) {
        return TypeError;
      }
      var cur := DescendTo(res.ref, path[..|path| - 1]);
      ghost var d := Descend(h0, res.ref, path[..|path| - 1]);
      assert d == (State(), cur);
      objects := objects[cur := objects[cur][last := value]];
      assert State() == Write(d.0, d.1, last, value);
      assert SetSpec(h0, obj, path, value) == (State(), Normal(value));
      return Normal(value);
    }
  }
}
