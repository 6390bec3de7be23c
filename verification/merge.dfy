/** The deep merge that resolves a configuration override against the current
    configuration (`mergeDeep` and its use in `scormInterceptor.init`).

    `MergeDeep` follows the code as written: whether a key recurses is decided
    by the value in the OVERRIDE being a plain object, not the one in the
    target.  `MergeIntended` recurses only where both sides are plain objects
    and lets any other override value replace the target's; the two agree whenever the
    override has the shape of the target (`Compatible`), and the lemmas at the
    end of the module show where they part. */
module Merge {
  import opened Json
  import opened Wrappers

  /** `mergeDeep(target, source)`: a fresh object starting as a shallow copy of
      `target`; when both are plain objects, each key of `source` either
      replaces the copied value or, when its value in `source` is a plain object and
      the key already exists in `target`, is merged into it recursively. */
  function MergeDeep(target: Value, source: Value): (r: Value)
    ensures r.Obj?
    ensures !(target.Obj? && source.Obj?) ==> r.fields == AssignCopy(target)
    ensures target.Obj? && source.Obj? ==> r.fields.Keys == target.fields.Keys + source.fields.Keys
    ensures target.Obj? && source.Obj? ==>
      forall k :: k in target.fields && k !in source.fields ==> r.fields[k] == target.fields[k]
    ensures target.Obj? && source.Obj? ==>
      forall k :: k in source.fields && !source.fields[k].Obj? ==> r.fields[k] == source.fields[k]
    ensures target.Obj? && source.Obj? ==>
      forall k :: k in source.fields && k !in target.fields ==> r.fields[k] == source.fields[k]
    ensures target.Obj? && source.Obj? ==>
      forall k :: k in source.fields && source.fields[k].Obj? && k in target.fields ==> r.fields[k].Obj?
    decreases source
  {
    var output := AssignCopy(target);
    if IsObject(target) && IsObject(source) then
      Obj(map k | k in output.Keys + source.fields.Keys ::
        if k !in source.fields then output[k]
        else if IsObject(source.fields[k]) && k in target.fields then MergeDeep(target.fields[k], source.fields[k])
        else source.fields[k])
    else
      Obj(output)
  }

  /** The corrected merge: recurse only where both sides are plain objects,
      let every other override value replace the target's. */
  function MergeIntended(target: Value, source: Value): (r: Value)
    ensures !source.Obj? ==> r == target
    ensures source.Obj? && !target.Obj? ==> r == source
    ensures target.Obj? && source.Obj? ==> r.Obj? && r.fields.Keys == target.fields.Keys + source.fields.Keys
    ensures target.Obj? && source.Obj? ==>
      forall k :: k in target.fields && k !in source.fields ==> r.fields[k] == target.fields[k]
    ensures target.Obj? && source.Obj? ==>
      forall k :: k in source.fields && !(source.fields[k].Obj? && k in target.fields && target.fields[k].Obj?) ==>
        r.fields[k] == source.fields[k]
    ensures target.Obj? && source.Obj? ==>
      forall k :: k in source.fields && source.fields[k].Obj? ==> r.fields[k].Obj?
    decreases source
  {
    if target.Obj? && source.Obj? then
      Obj(map k | k in target.fields.Keys + source.fields.Keys ::
        if k !in source.fields then target.fields[k]
        else if source.fields[k].Obj? && k in target.fields && target.fields[k].Obj? then
          MergeIntended(target.fields[k], source.fields[k])
        else source.fields[k])
    else if source.Obj? then
      source
    else
      target
  }

  /** The override has the shape of the target: at every path both sides
      have, a plain object in the override sits over a plain object in the
      target.  Keys new to the target are unconstrained. */
  predicate Compatible(target: Value, source: Value)
    decreases source
  {
    source.Obj? ==>
      && target.Obj?
      && forall k :: k in source.fields && k in target.fields ==> Compatible(target.fields[k], source.fields[k])
  }

  /** The value reached by following `path` through nested plain objects. */
  function Get(v: Value, path: seq<string>): Option<Value>
    decreases |path|
  {
    if |path| == 0 then Some(v)
    else if v.Obj? && path[0] in v.fields then Get(v.fields[path[0]], path[1..])
    else None
  }

  /** The override says nothing about `path`: it holds no value at `path` and
      no non-object value at any prefix of it. */
  predicate Untouched(source: Value, path: seq<string>)
    decreases |path|
  {
    |path| > 0 &&
    (!source.Obj? || path[0] !in source.fields ||
      (source.fields[path[0]].Obj? && Untouched(source.fields[path[0]], path[1..])))
  }

  /** Merging a plain object into itself gives it back. */
  lemma {:induction false} SelfMerge(x: Value)
    requires x.Obj?
    ensures MergeDeep(x, x) == x
    decreases x
  {
    var r := MergeDeep(x, x);
    forall k | k in x.fields
      ensures r.fields[k] == x.fields[k]
    {
      if x.fields[k].Obj? {
        SelfMerge(x.fields[k]);
      }
    }
    assert r.fields == x.fields;
  }

  lemma {:induction false} IntendedSelfMerge(x: Value)
    ensures MergeIntended(x, x) == x
    decreases x
  {
    if x.Obj? {
      var r := MergeIntended(x, x);
      forall k | k in x.fields
        ensures r.fields[k] == x.fields[k]
      {
        IntendedSelfMerge(x.fields[k]);
      }
      assert r.fields == x.fields;
    }
  }

  lemma {:induction false} SelfCompatible(x: Value)
    ensures Compatible(x, x)
    decreases x
  {
    if x.Obj? {
      forall k | k in x.fields
        ensures Compatible(x.fields[k], x.fields[k])
      {
        SelfCompatible(x.fields[k]);
      }
    }
  }

  /** On a plain-object target and an override of the same shape, the code's
      merge is the intended merge. */
  lemma {:induction false} AgreesWithIntended(target: Value, source: Value)
    requires target.Obj?
    requires Compatible(target, source)
    ensures MergeDeep(target, source) == MergeIntended(target, source)
    decreases source
  {
    if source.Obj? {
      var a, b := MergeDeep(target, source), MergeIntended(target, source);
      forall k | k in source.fields
        ensures a.fields[k] == b.fields[k]
      {
        if source.fields[k].Obj? && k in target.fields {
          AgreesWithIntended(target.fields[k], source.fields[k]);
        }
      }
      assert a.fields == b.fields;
    }
  }

  /** The intended merge is idempotent for every target and override. */
  lemma {:induction false} IntendedIdempotent(target: Value, source: Value)
    ensures MergeIntended(MergeIntended(target, source), source) == MergeIntended(target, source)
    decreases source
  {
    var m := MergeIntended(target, source);
    if !source.Obj? {
    } else if !target.Obj? {
      IntendedSelfMerge(source);
    } else {
      var r := MergeIntended(m, source);
      forall k | k in m.fields
        ensures r.fields[k] == m.fields[k]
      {
        if k in source.fields && source.fields[k].Obj? {
          if k in target.fields && target.fields[k].Obj? {
            IntendedIdempotent(target.fields[k], source.fields[k]);
          } else {
            IntendedSelfMerge(source.fields[k]);
          }
        }
      }
      assert r.fields == m.fields;
    }
  }

  /** The intended merge keeps the shape of the override. */
  lemma {:induction false} IntendedStaysCompatible(target: Value, source: Value)
    requires target.Obj?
    requires Compatible(target, source)
    ensures Compatible(MergeIntended(target, source), source)
    decreases source
  {
    if source.Obj? {
      var m := MergeIntended(target, source);
      forall k | k in source.fields && k in m.fields
        ensures Compatible(m.fields[k], source.fields[k])
      {
        if source.fields[k].Obj? {
          if k in target.fields {
            IntendedStaysCompatible(target.fields[k], source.fields[k]);
          } else {
            SelfCompatible(source.fields[k]);
          }
        }
      }
    }
  }

  /** The code's merge is idempotent as long as the override has the shape of
      the configuration it is applied to. */
  lemma MergeDeepIdempotent(target: Value, source: Value)
    requires target.Obj?
    requires Compatible(target, source)
    ensures MergeDeep(MergeDeep(target, source), source) == MergeDeep(target, source)
  {
    AgreesWithIntended(target, source);
    IntendedStaysCompatible(target, source);
    AgreesWithIntended(MergeIntended(target, source), source);
    IntendedIdempotent(target, source);
  }

  /** Every value the target holds at a path the override does not touch
      survives the code's merge: a partial override never erases sibling
      defaults, at any depth. */
  lemma {:induction false} DefaultsSurvive(target: Value, source: Value, path: seq<string>)
    requires Get(target, path).Some?
    requires Untouched(source, path)
    ensures Get(MergeDeep(target, source), path) == Get(target, path)
    decreases |path|
  {
    var r := MergeDeep(target, source);
    var k := path[0];
    assert target.Obj? && k in target.fields;
    if source.Obj? && k in source.fields {
      DefaultsSurvive(target.fields[k], source.fields[k], path[1..]);
    }
  }

  /** Every non-object value the override places at a non-empty path ends up
      at that path in the intended merge. */
  lemma {:induction false} IntendedOverridesLand(target: Value, source: Value, path: seq<string>)
    requires |path| > 0
    requires Get(source, path).Some? && !Get(source, path).value.Obj?
    ensures Get(MergeIntended(target, source), path) == Get(source, path)
    decreases |path|
  {
    var k := path[0];
    if target.Obj? && k in target.fields && source.fields[k].Obj? && target.fields[k].Obj? {
      IntendedOverridesLand(target.fields[k], source.fields[k], path[1..]);
    }
  }

  /** With a shape-compatible override the code's merge also delivers every
      override leaf. */
  lemma OverridesLand(target: Value, source: Value, path: seq<string>)
    requires target.Obj?
    requires Compatible(target, source)
    requires |path| > 0
    requires Get(source, path).Some? && !Get(source, path).value.Obj?
    ensures Get(MergeDeep(target, source), path) == Get(source, path)
  {
    AgreesWithIntended(target, source);
    IntendedOverridesLand(target, source, path);
  }

  /** Wherever the target holds something other than a plain object and the
      override holds a plain object, the result holds only the shallow copy of
      the target's value: the override under that key is dropped. */
  lemma ObjectOverNonObjectIsLost(target: Value, source: Value, k: string)
    requires target.Obj? && source.Obj?
    requires k in target.fields && k in source.fields
    requires !target.fields[k].Obj? && source.fields[k].Obj?
    ensures MergeDeep(target, source).fields[k] == Obj(AssignCopy(target.fields[k]))
  {
  }

  /** An object override over a primitive default is lost: merging
      `{a: {b: 2}}` into `{a: 1}` leaves `{a: {}}`, the override's leaf `a.b`
      is missing, and merging the same override again changes the result. */
  lemma ObjectOverPrimitiveIsLost()
    ensures var target := Obj(map["a" := Num(1)]);
            var source := Obj(map["a" := Obj(map["b" := Num(2)])]);
            var once := MergeDeep(target, source);
            && once == Obj(map["a" := Obj(map[])])
            && Get(source, ["a", "b"]) == Some(Num(2))
            && Get(once, ["a", "b"]) == None
            && MergeDeep(once, source) != once
            && MergeIntended(target, source) == source
  {
    var target := Obj(map["a" := Num(1)]);
    var inner := Obj(map["b" := Num(2)]);
    var source := Obj(map["a" := inner]);
    var once := MergeDeep(target, source);
    assert MergeDeep(Num(1), inner) == Obj(map[]);
    assert once.fields == map["a" := Obj(map[])];
    var twice := MergeDeep(once, source);
    assert twice.fields["a"] == MergeDeep(Obj(map[]), inner);
    assert MergeDeep(Obj(map[]), inner).fields["b"] == Num(2);
    var intended := MergeIntended(target, source);
    assert intended.fields == source.fields;
  }
}
