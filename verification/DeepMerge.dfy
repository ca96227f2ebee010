/** Deep merging of JSON-like maps (mergeNestedAnyMap, internal/config/settings.go) and when merging a
    merged list equals merging the list. */
module DeepMerge {
  import opened Text

  /** `Leaf` is any value that is not a map. */
  datatype Value = Leaf(token: int) | Dict(entries: map<string, Value>)

  /** Maps merge key by key; anything else is replaced. */
  function Merge(x: Value, y: Value): Value {
    if x.Dict? && y.Dict? then
      Dict(map k | k in x.entries.Keys + y.entries.Keys ::
             if k !in y.entries then x.entries[k]
             else if k in x.entries then Merge(x.entries[k], y.entries[k])
             else y.entries[k])
    else y
  }

  /** Left to right, from `x`. */
  function FoldFrom(x: Value, ys: seq<Value>): Value
    decreases |ys|
  {
    if ys == [] then x else FoldFrom(Merge(x, ys[0]), ys[1..])
  }

  function Fold(ys: seq<Value>): Value
    requires ys != []
  {
    FoldFrom(ys[0], ys[1..])
  }

  /** Everything `x` says is overridden or already there in `y`. */
  predicate Absorbs(y: Value, x: Value)
    decreases x
  {
    x.Dict? && y.Dict? ==> forall k | k in x.entries :: k in y.entries && Absorbs(y.entries[k], x.entries[k])
  }

  lemma {:induction false} AbsorbsExactly(y: Value, x: Value)
    ensures Merge(x, y) == y <==> Absorbs(y, x)
    decreases x
  {
    if x.Dict? && y.Dict? {
      forall k | k in x.entries && k in y.entries
        ensures Merge(x.entries[k], y.entries[k]) == y.entries[k] <==> Absorbs(y.entries[k], x.entries[k])
      {
        AbsorbsExactly(y.entries[k], x.entries[k]);
      }
      var m := Merge(x, y).entries;
      if Absorbs(y, x) {
        assert m.Keys == y.entries.Keys;
        assert m == y.entries;
      }
      if m == y.entries {
        forall k | k in x.entries
          ensures k in y.entries && Absorbs(y.entries[k], x.entries[k])
        {
          assert k in m;
        }
      }
    }
  }

  /** The values that the maps in `ys` hold under `k`, in order. */
  function Column(ys: seq<Value>, k: string): (vs: seq<Value>)
    ensures |vs| <= |ys|
  {
    if ys == [] then []
    else (if ys[0].Dict? && k in ys[0].entries then [ys[0].entries[k]] else []) + Column(ys[1..], k)
  }

  ghost predicate AllDicts(ys: seq<Value>) {
    forall i | 0 <= i < |ys| :: ys[i].Dict?
  }

  /** When merging `x` with the merged `ys` is merging them one after the other. */
  ghost predicate Flattens(x: Value, ys: seq<Value>)
    requires ys != []
    decreases x
  {
    if !AllDicts(ys) then Absorbs(Fold(ys), x)
    else x.Dict? ==> forall k | k in x.entries :: Column(ys, k) == [] || Flattens(x.entries[k], Column(ys, k))
  }

  /** After a non-map nothing before it matters. */
  lemma {:induction false} LeafForgets(x: Value, x': Value, ys: seq<Value>)
    requires !AllDicts(ys)
    ensures FoldFrom(x, ys) == FoldFrom(x', ys)
    decreases |ys|
  {
    if ys[0].Dict? {
      var i :| 0 <= i < |ys| && !ys[i].Dict?;
      assert ys[1..][i - 1] == ys[i];
      LeafForgets(Merge(x, ys[0]), Merge(x', ys[0]), ys[1..]);
    }
  }

  lemma LeafFolds(x: Value, ys: seq<Value>)
    requires ys != [] && !AllDicts(ys)
    ensures FoldFrom(x, ys) == Fold(ys)
  {
    if ys[0].Dict? {
      var i :| 0 <= i < |ys| && !ys[i].Dict?;
      assert ys[1..][i - 1] == ys[i];
      LeafForgets(Merge(x, ys[0]), ys[0], ys[1..]);
    }
  }

  /** What a fold of maps holds under `k`. */
  lemma {:induction false} FoldColumn(x: Value, ys: seq<Value>, k: string)
    requires x.Dict? && AllDicts(ys)
    ensures FoldFrom(x, ys).Dict?
    ensures var vs, m := Column(ys, k), FoldFrom(x, ys).entries;
      && (k in m <==> k in x.entries || vs != [])
      && (k in x.entries ==> m[k] == FoldFrom(x.entries[k], vs))
      && (k !in x.entries && vs != [] ==> m[k] == Fold(vs))
    decreases |ys|
  {
    if ys != [] {
      var x', rest := Merge(x, ys[0]), Column(ys[1..], k);
      FoldColumn(x', ys[1..], k);
      if k in ys[0].entries {
        assert Column(ys, k) == [ys[0].entries[k]] + rest;
        assert Column(ys, k)[1..] == rest;
      } else {
        assert Column(ys, k) == rest;
      }
    }
  }

  /** The same for the fold of a non-empty list of maps. */
  lemma FoldAt(ys: seq<Value>, k: string)
    requires ys != [] && AllDicts(ys)
    ensures Fold(ys).Dict?
    ensures var vs, m := Column(ys, k), Fold(ys).entries;
      && (k in m <==> vs != [])
      && (vs != [] ==> m[k] == Fold(vs))
  {
    FoldColumn(ys[0], ys[1..], k);
    var rest := Column(ys[1..], k);
    if k in ys[0].entries {
      assert Column(ys, k) == [ys[0].entries[k]] + rest;
      assert Column(ys, k)[1..] == rest;
    } else {
      assert Column(ys, k) == rest;
    }
  }

  /** Key by key, flattening at `x` is flattening at the columns. */
  lemma FlattensAt(x: Value, ys: seq<Value>, k: string)
    requires ys != [] && AllDicts(ys) && x.Dict?
    ensures Merge(x, Fold(ys)).Dict? && FoldFrom(x, ys).Dict?
    ensures var left, right, vs := Merge(x, Fold(ys)).entries, FoldFrom(x, ys).entries, Column(ys, k);
      && (k in left <==> k in right)
      && (k in x.entries && vs != [] ==>
            k in left && left[k] == Merge(x.entries[k], Fold(vs)) && right[k] == FoldFrom(x.entries[k], vs))
      && (k in left && !(k in x.entries && vs != []) ==> left[k] == right[k])
  {
    FoldColumn(x, ys, k);
    FoldAt(ys, k);
  }

  /** Merging with a merged list equals merging the list exactly under `Flattens`. */
  lemma {:induction false} FlattensExactly(x: Value, ys: seq<Value>)
    requires ys != []
    ensures Merge(x, Fold(ys)) == FoldFrom(x, ys) <==> Flattens(x, ys)
    decreases x
  {
    if !AllDicts(ys) {
      LeafFolds(x, ys);
      AbsorbsExactly(Fold(ys), x);
    } else if x.Dict? {
      FlattensDict(x, ys);
    } else {
      assert Merge(x, ys[0]) == ys[0];
    }
  }

  lemma {:induction false} FlattensDict(x: Value, ys: seq<Value>)
    requires ys != [] && AllDicts(ys) && x.Dict?
    ensures Merge(x, Fold(ys)) == FoldFrom(x, ys) <==> Flattens(x, ys)
    decreases x, 0
  {
    var left, right := Merge(x, Fold(ys)), FoldFrom(x, ys);
    forall k
      ensures left.Dict? && right.Dict? && (k in left.entries <==> k in right.entries)
      ensures k in left.entries ==>
        (left.entries[k] == right.entries[k] <==>
         (k in x.entries && Column(ys, k) != [] ==> Flattens(x.entries[k], Column(ys, k))))
    {
      FlattensAt(x, ys, k);
      if k in x.entries && Column(ys, k) != [] {
        FlattensExactly(x.entries[k], Column(ys, k));
      }
    }
    hide Merge, FoldFrom, Fold, Column;
    if left == right {
      forall k | k in x.entries
        ensures Column(ys, k) == [] || Flattens(x.entries[k], Column(ys, k))
      {
        if Column(ys, k) != [] {
          FlattensAt(x, ys, k);
          assert left.entries[k] == right.entries[k];
        }
      }
    }
    if Flattens(x, ys) {
      assert left.Dict? && right.Dict? by { FlattensAt(x, ys, ""); }
      assert left.entries == right.entries;
    }
  }

  /** A map, a non-map, a map: the inner merge forgets what stood before the non-map, and so brings it back. */
  lemma FlatteningFails()
    ensures var x, y := Dict(map["a" := Dict(map["old" := Leaf(1)])]), Dict(map["a" := Leaf(0)]);
      var z := Dict(map["a" := Dict(map["new" := Leaf(2)])]);
      && Merge(x, Merge(y, z)) != Merge(Merge(x, y), z)
      && Merge(x, Merge(y, z)) == Dict(map["a" := Dict(map["old" := Leaf(1), "new" := Leaf(2)])])
  {
    var u, v, w := Dict(map["old" := Leaf(1)]), Leaf(0), Dict(map["new" := Leaf(2)]);
    MergeOne(u, v);
    MergeOne(v, w);
    MergeOne(u, w);
    assert Merge(u, w) == Dict(map["old" := Leaf(1), "new" := Leaf(2)]);
    assert "old" !in w.entries && "old" in Merge(u, w).entries;
    assert Dict(map["a" := w]).entries["a"] == w;
    assert Dict(map["a" := Merge(u, w)]).entries["a"] == Merge(u, w);
  }

  lemma MergeOne(x: Value, y: Value)
    ensures Merge(Dict(map["a" := x]), Dict(map["a" := y])) == Dict(map["a" := Merge(x, y)])
  {
  }

  // ---------- In terms of the operands ----------

  /** What a value holds under a path of keys. */
  function At(v: Value, path: seq<string>): Option<Value>
    decreases |path|
  {
    if path == [] then Some(v)
    else if v.Dict? && path[0] in v.entries then At(v.entries[path[0]], path[1..])
    else None
  }

  predicate IsMap(v: Option<Value>) {
    v.Some? && v.value.Dict?
  }

  /** Nothing stands under the path, nor a non-map on the way there. */
  predicate Leaves(v: Value, path: seq<string>) {
    && At(v, path).None?
    && forall n | 0 <= n < |path| :: At(v, path[..n]).None? || IsMap(At(v, path[..n]))
  }

  /** What a merge says under a path: what the second operand says there, and what the first says where the second
      leaves it alone; a map is there also if both hold one. */
  lemma {:induction false} MergeAt(x: Value, y: Value, path: seq<string>, token: int)
    ensures At(Merge(x, y), path) == Some(Leaf(token)) <==>
            At(y, path) == Some(Leaf(token)) || (At(x, path) == Some(Leaf(token)) && Leaves(y, path))
    ensures IsMap(At(Merge(x, y), path)) <==> IsMap(At(y, path)) || (IsMap(At(x, path)) && Leaves(y, path))
    decreases |path|
  {
    if path != [] {
      var k, rest := path[0], path[1..];
      LeavesAt(y, path);
      if x.Dict? && y.Dict? && k in x.entries && k in y.entries {
        MergeAt(x.entries[k], y.entries[k], rest, token);
      }
    }
  }

  lemma LeavesAt(v: Value, path: seq<string>)
    requires path != []
    ensures Leaves(v, path) <==> v.Dict? && (path[0] !in v.entries || Leaves(v.entries[path[0]], path[1..]))
  {
    var k, rest := path[0], path[1..];
    assert path[..0] == [];
    if v.Dict? && k in v.entries {
      forall n | 0 <= n < |rest|
        ensures At(v, path[..n + 1]) == At(v.entries[k], rest[..n])
      {
        assert path[..n + 1][1..] == rest[..n];
      }
      forall n | 0 < n < |path|
        ensures At(v, path[..n]) == At(v.entries[k], rest[..n - 1])
      {
        assert path[..n][1..] == rest[..n - 1];
      }
    } else {
      forall n | 0 < n < |path|
        ensures At(v, path[..n]).None?
      {
        assert path[..n][0] == k;
      }
    }
  }

  /** For those of `vs` that hold anything under `path`, in order: is it a map? */
  function Kinds(vs: seq<Value>, path: seq<string>): seq<bool> {
    if vs == [] then []
    else (if At(vs[0], path).Some? then [At(vs[0], path).value.Dict?] else []) + Kinds(vs[1..], path)
  }

  /** A map, later a non-map, and later a map again. */
  ghost predicate Sandwiched(kinds: seq<bool>) {
    exists i, j, l :: 0 <= i < j < l < |kinds| && kinds[i] && !kinds[j] && kinds[l]
  }

  lemma {:induction false} KindsOfColumn(vs: seq<Value>, k: string, path: seq<string>)
    ensures Kinds(vs, [k] + path) == Kinds(Column(vs, k), path)
  {
    if vs != [] {
      KindsOfColumn(vs[1..], k, path);
      assert ([k] + path)[1..] == path;
      if vs[0].Dict? && k in vs[0].entries {
        assert Column(vs, k) == [vs[0].entries[k]] + Column(vs[1..], k);
        assert Column(vs, k)[1..] == Column(vs[1..], k);
      } else {
        assert Column(vs, k) == Column(vs[1..], k);
      }
    }
  }

  lemma {:induction false} RootKinds(vs: seq<Value>)
    ensures |Kinds(vs, [])| == |vs| && forall i | 0 <= i < |vs| :: Kinds(vs, [])[i] == vs[i].Dict?
  {
    if vs != [] {
      RootKinds(vs[1..]);
      assert forall i | 1 <= i < |vs| :: vs[i] == vs[1..][i - 1];
    }
  }

  lemma {:induction false} EndsInLeaf(x: Value, ys: seq<Value>)
    requires ys != [] && !ys[|ys| - 1].Dict?
    ensures !FoldFrom(x, ys).Dict?
    decreases |ys|
  {
    if |ys| > 1 {
      assert ys[1..][|ys| - 2] == ys[|ys| - 1];
      EndsInLeaf(Merge(x, ys[0]), ys[1..]);
    } else {
      assert FoldFrom(x, ys) == FoldFrom(Merge(x, ys[0]), []);
    }
  }

  /** Where no path holds a map, then a non-map, then a map, merging flattens. */
  lemma {:induction false} UnsandwichedFlattens(x: Value, ys: seq<Value>)
    requires ys != [] && forall path :: !Sandwiched(Kinds([x] + ys, path))
    ensures Flattens(x, ys) && Merge(x, Fold(ys)) == FoldFrom(x, ys)
    decreases x
  {
    var all := [x] + ys;
    if x.Dict? {
      if !AllDicts(ys) {
        var j :| 0 <= j < |ys| && !ys[j].Dict?;
        RootKinds(all);
        assert !Sandwiched(Kinds(all, []));
        var last := |ys| - 1;
        assert all[j + 1] == ys[j] && all[last + 1] == ys[last];
        assert !ys[last].Dict?;
        LeafFolds(x, ys);
        EndsInLeaf(x, ys);
      } else {
        forall k | k in x.entries && Column(ys, k) != []
          ensures Flattens(x.entries[k], Column(ys, k))
        {
          assert Column(all, k) == [x.entries[k]] + Column(ys, k) by { assert all[1..] == ys; }
          forall path: seq<string>
            ensures !Sandwiched(Kinds([x.entries[k]] + Column(ys, k), path))
          {
            KindsOfColumn(all, k, path);
            assert !Sandwiched(Kinds(all, [k] + path));
          }
          UnsandwichedFlattens(x.entries[k], Column(ys, k));
        }
      }
    } else if !AllDicts(ys) {
      assert Absorbs(Fold(ys), x);
    }
    FlattensExactly(x, ys);
  }
}
