/**
 What merging environments means (internal/envs/envs.go, parseKeyVal in internal/config/parser.go),
 on values: nested tables whose leaves are anything that is not a table.
 */
module EnvAlgebra {
  import opened Prelude

  datatype Value<T> = Leaf(v: T) | Dict(m: map<string, Value<T>>)

  /** The right table wins; where both hold a table under a key, the two are merged. */
  function Merge<T>(a: Value<T>, b: Value<T>): (r: Value<T>)
    requires a.Dict? && b.Dict?
    ensures r.Dict?
    decreases b
  {
    Dict(map k | k in a.m.Keys + b.m.Keys ::
      if k !in b.m then a.m[k]
      else if b.m[k].Dict? && k in a.m && a.m[k].Dict? then Merge(a.m[k], b.m[k])
      else b.m[k])
  }

  lemma {:induction false} EmptyIsIdentity<T>(a: Value<T>)
    requires a.Dict?
    ensures Merge(a, Dict(map[])) == a && Merge(Dict(map[]), a) == a
  {
    assert Merge(a, Dict(map[])).m == a.m;
    assert Merge(Dict(map[]), a).m == a.m;
  }

  /** `x` adds nothing to `y`: each key of `x` is in `y`, and where both hold a table that is so below. */
  ghost predicate Absorbed<T>(x: Value<T>, y: Value<T>)
    requires x.Dict? && y.Dict?
    decreases y
  {
    forall k :: k in x.m ==> k in y.m && (x.m[k].Dict? && y.m[k].Dict? ==> Absorbed(x.m[k], y.m[k]))
  }

  lemma {:induction false} AbsorbedIff<T>(x: Value<T>, y: Value<T>)
    requires x.Dict? && y.Dict?
    ensures Merge(x, y) == y <==> Absorbed(x, y)
    decreases y
  {
    forall k | k in x.m && k in y.m && x.m[k].Dict? && y.m[k].Dict?
      ensures Merge(x.m[k], y.m[k]) == y.m[k] <==> Absorbed(x.m[k], y.m[k])
    {
      AbsorbedIff(x.m[k], y.m[k]);
    }
    var r := Merge(x, y);
    if Absorbed(x, y) {
      assert r.m.Keys == y.m.Keys;
      assert r.m == y.m;
    } else {
      var k :| k in x.m && !(k in y.m && (x.m[k].Dict? && y.m[k].Dict? ==> Absorbed(x.m[k], y.m[k])));
      assert k in r.m && (k !in y.m || r.m[k] != y.m[k]);
    }
  }

  lemma {:induction false} Idempotent<T>(a: Value<T>)
    requires a.Dict?
    ensures Merge(a, a) == a
    decreases a
  {
    forall k | k in a.m && a.m[k].Dict?
      ensures Merge(a.m[k], a.m[k]) == a.m[k]
    {
      Idempotent(a.m[k]);
    }
    assert Merge(a, a).m == a.m;
  }

  /** Merging the same table in a second time changes nothing. */
  lemma {:induction false} MergeAbsorbs<T>(a: Value<T>, b: Value<T>)
    requires a.Dict? && b.Dict?
    ensures Merge(Merge(a, b), b) == Merge(a, b)
    decreases b
  {
    forall k | k in b.m && b.m[k].Dict?
      ensures Merge(b.m[k], b.m[k]) == b.m[k]
      ensures k in a.m && a.m[k].Dict? ==> Merge(Merge(a.m[k], b.m[k]), b.m[k]) == Merge(a.m[k], b.m[k])
    {
      Idempotent(b.m[k]);
      if k in a.m && a.m[k].Dict? {
        MergeAbsorbs(a.m[k], b.m[k]);
      }
    }
    assert Merge(Merge(a, b), b).m == Merge(a, b).m;
  }

  // ----- associativity -----

  /**
   Wherever a leaf of `b` stands between tables of `a` and `c` under the same keys, the one of `a` adds
   nothing to the one of `c`.
   */
  ghost predicate Associates<T>(a: Value<T>, b: Value<T>, c: Value<T>)
    requires a.Dict? && b.Dict? && c.Dict?
    decreases c
  {
    forall k :: k in a.m && k in b.m && k in c.m && a.m[k].Dict? && c.m[k].Dict? ==>
      if b.m[k].Dict? then Associates(a.m[k], b.m[k], c.m[k]) else Absorbed(a.m[k], c.m[k])
  }

  lemma {:induction false} AssociativeIff<T>(a: Value<T>, b: Value<T>, c: Value<T>)
    requires a.Dict? && b.Dict? && c.Dict?
    ensures Merge(Merge(a, b), c) == Merge(a, Merge(b, c)) <==> Associates(a, b, c)
    decreases c
  {
    var l, r := Merge(Merge(a, b), c), Merge(a, Merge(b, c));
    assert l.m.Keys == r.m.Keys;
    forall k | k in l.m
      ensures l.m[k] == r.m[k] <==>
        (k in a.m && k in b.m && k in c.m && a.m[k].Dict? && c.m[k].Dict? ==>
           if b.m[k].Dict? then Associates(a.m[k], b.m[k], c.m[k]) else Absorbed(a.m[k], c.m[k]))
    {
      if k in a.m && k in b.m && k in c.m && a.m[k].Dict? && c.m[k].Dict? {
        if b.m[k].Dict? {
          AssociativeIff(a.m[k], b.m[k], c.m[k]);
        } else {
          AbsorbedIff(a.m[k], c.m[k]);
        }
      }
    }
    if Associates(a, b, c) {
      assert l.m == r.m;
    } else {
      var k :| k in a.m && k in b.m && k in c.m && a.m[k].Dict? && c.m[k].Dict?
        && !(if b.m[k].Dict? then Associates(a.m[k], b.m[k], c.m[k]) else Absorbed(a.m[k], c.m[k]));
      assert k in l.m && l.m[k] != r.m[k];
    }
  }

  /** Merging is not associative: a leaf that is merged in first hides the table before it. */
  lemma NotAssociative()
    ensures var a := Dict(map["k" := Dict(map["x" := Leaf(1)])]);
      var b := Dict(map["k" := Leaf(2)]);
      var c := Dict(map["k" := Dict(map["y" := Leaf(3)])]);
      Merge(Merge(a, b), c) != Merge(a, Merge(b, c))
  {
    var x, y := Dict(map["x" := Leaf(1)]), Dict(map["y" := Leaf(3)]);
    var a, b, c := Dict(map["k" := x]), Dict(map["k" := Leaf(2)]), Dict(map["k" := y]);
    assert "x" in x.m && "x" !in y.m;
    assert !Absorbed(x, y);
    assert "k" in a.m && "k" in b.m && "k" in c.m;
    AssociativeIff(a, b, c);
  }

  // ----- one assignment -----

  /** The table that holds just `v`, under the given path. */
  function Nest<T>(path: seq<string>, v: Value<T>): (r: Value<T>)
    requires path != []
    ensures r.Dict?
  {
    Dict(map[path[0] := if |path| == 1 then v else Nest(path[1..], v)])
  }

  /** Following the path and putting `v` at its end, replacing whatever stands in the way. */
  function Assign<T>(t: Value<T>, path: seq<string>, v: Value<T>): (r: Value<T>)
    requires t.Dict? && path != []
    ensures r.Dict?
    decreases |path|
  {
    var k := path[0];
    var here := if k in t.m && t.m[k].Dict? then t.m[k] else Dict(map[]);
    if |path| > 1 then Dict(t.m[k := Assign(here, path[1..], v)])
    else if v.Dict? && k in t.m && t.m[k].Dict? then Dict(t.m[k := Merge(t.m[k], v)])
    else Dict(t.m[k := v])
  }

  /** Assigning along a path is merging the nest in, for every path and every value. */
  lemma {:induction false} AssignIsMergingANest<T>(t: Value<T>, path: seq<string>, v: Value<T>)
    requires t.Dict? && path != []
    ensures Assign(t, path, v) == Merge(t, Nest(path, v))
    decreases |path|
  {
    var k := path[0];
    if |path| > 1 {
      var here := if k in t.m && t.m[k].Dict? then t.m[k] else Dict(map[]);
      AssignIsMergingANest(here, path[1..], v);
      EmptyIsIdentity(Nest(path[1..], v));
    }
    assert Assign(t, path, v).m == Merge(t, Nest(path, v)).m;
  }

  // ----- what is found again -----

  /** What stands at the end of a path. */
  function Lookup<T>(t: Value<T>, path: seq<string>): Option<Value<T>>
    decreases |path|
  {
    if path == [] then Some(t)
    else if t.Dict? && path[0] in t.m then Lookup(t.m[path[0]], path[1..])
    else None
  }

  /** A leaf that was assigned is found at its path, and of a table that was assigned nothing is missing there. */
  lemma {:induction false} AssignedIsFound<T>(t: Value<T>, path: seq<string>, v: Value<T>)
    requires t.Dict? && path != []
    ensures var found := Lookup(Assign(t, path, v), path);
      && found.Some? && (v.Leaf? ==> found.value == v)
      && (v.Dict? ==> found.value.Dict? && Merge(found.value, v) == found.value)
    decreases |path|
  {
    var k, t' := path[0], Assign(t, path, v);
    if |path| > 1 {
      var here := if k in t.m && t.m[k].Dict? then t.m[k] else Dict(map[]);
      AssignedIsFound(here, path[1..], v);
    } else {
      assert path[1..] == [] && Lookup(t', path) == Some(t'.m[k]);
      if v.Dict? {
        Idempotent(v);
        if k in t.m && t.m[k].Dict? {
          MergeAbsorbs(t.m[k], v);
        }
      }
    }
  }

  /** What stands on another way is as it was. */
  lemma {:induction false} OtherPathsStay<T>(t: Value<T>, path: seq<string>, v: Value<T>, other: seq<string>)
    requires t.Dict? && path != [] && !(path <= other) && !(other <= path)
    ensures Lookup(Assign(t, path, v), other) == Lookup(t, other)
    decreases |path|
  {
    var k := path[0];
    if other[0] == k && |path| > 1 {
      var here := if k in t.m && t.m[k].Dict? then t.m[k] else Dict(map[]);
      assert path == [k] + path[1..] && other == [k] + other[1..];
      OtherPathsStay(here, path[1..], v, other[1..]);
    }
  }
}
