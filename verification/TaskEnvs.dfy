/** What the tasks of a scenario hold (internal/runner/runner.go, matrix-helpers.go). */
module TaskEnvs {
  import opened Prelude
  import opened EnvAlgebra
  import opened Matrix

  // ----- the environment of a task -----

  /** The table that the `i`-th label brings; none if its axis does not know the label. */
  function Chosen(matrix: seq<Axis>, labels: seq<string>, i: nat): (r: Env)
    requires WellTyped(matrix) && i < |labels| <= |matrix|
    ensures r.Dict?
  {
    if labels[i] in matrix[i] then matrix[i][labels[i]] else Dict(map[])
  }

  /** The last of the chosen tables that has the key. */
  predicate LastWith(matrix: seq<Axis>, labels: seq<string>, key: string, i: nat)
    requires WellTyped(matrix) && |labels| <= |matrix|
  {
    i < |labels| && key in Chosen(matrix, labels, i).m
    && forall j :: i < j < |labels| ==> key !in Chosen(matrix, labels, j).m
  }

  predicate NoneHas(matrix: seq<Axis>, labels: seq<string>, key: string)
    requires WellTyped(matrix) && |labels| <= |matrix|
  {
    forall i :: 0 <= i < |labels| ==> key !in Chosen(matrix, labels, i).m
  }

  lemma OneMoreLabel(env: Env, matrix: seq<Axis>, labels: seq<string>)
    requires env.Dict? && WellTyped(matrix) && 0 < |labels| <= |matrix|
    ensures var n := |labels| - 1;
      EnvOf(env, matrix, labels) == Merge(EnvOf(env, matrix, labels[..n]), Chosen(matrix, labels, n))
  {
    EmptyIsIdentity(EnvOf(env, matrix, labels[..|labels| - 1]));
  }

  /** A key that no chosen table has is as in the scenario's own environment. */
  lemma {:induction false} KeyOfEnv(env: Env, matrix: seq<Axis>, labels: seq<string>, key: string)
    requires env.Dict? && WellTyped(matrix) && |labels| <= |matrix| && NoneHas(matrix, labels, key)
    ensures var t := EnvOf(env, matrix, labels);
      (key in t.m <==> key in env.m) && (key in t.m ==> t.m[key] == env.m[key])
    decreases |labels|
  {
    if labels != [] {
      var n := |labels| - 1;
      OneMoreLabel(env, matrix, labels);
      assert forall i :: 0 <= i < n ==> Chosen(matrix, labels[..n], i) == Chosen(matrix, labels, i);
      KeyOfEnv(env, matrix, labels[..n], key);
    }
  }

  /** The last chosen table that has a key decides: a leaf stands as it is, and a table is all there. */
  lemma {:induction false} KeyOfLabel(env: Env, matrix: seq<Axis>, labels: seq<string>, key: string, i: nat)
    requires env.Dict? && WellTyped(matrix) && |labels| <= |matrix| && LastWith(matrix, labels, key, i)
    ensures var t, v := EnvOf(env, matrix, labels), Chosen(matrix, labels, i).m[key];
      && key in t.m
      && (v.Leaf? ==> t.m[key] == v)
      && (v.Dict? ==> t.m[key].Dict? && Merge(t.m[key], v) == t.m[key])
    decreases |labels|
  {
    var n := |labels| - 1;
    OneMoreLabel(env, matrix, labels);
    var before, last := EnvOf(env, matrix, labels[..n]), Chosen(matrix, labels, n);
    if i == n {
      var v := last.m[key];
      if v.Dict? {
        Idempotent(v);
        if key in before.m && before.m[key].Dict? {
          MergeAbsorbs(before.m[key], v);
        }
      }
    } else {
      assert forall j :: 0 <= j < n ==> Chosen(matrix, labels[..n], j) == Chosen(matrix, labels, j);
      KeyOfLabel(env, matrix, labels[..n], key, i);
    }
  }

  /** What the last label brings is all there. */
  lemma LastLabelIsIn(env: Env, matrix: seq<Axis>, labels: seq<string>)
    requires env.Dict? && WellTyped(matrix) && 0 < |labels| <= |matrix|
    ensures var t := EnvOf(env, matrix, labels); Merge(t, Chosen(matrix, labels, |labels| - 1)) == t
  {
    OneMoreLabel(env, matrix, labels);
    MergeAbsorbs(EnvOf(env, matrix, labels[..|labels| - 1]), Chosen(matrix, labels, |labels| - 1));
  }

  // ----- each task that is sent -----

  lemma {:induction false} InSomeGroup(groups: seq<seq<Task>>, t: Task) returns (g: nat, k: nat)
    requires t in Concat(groups)
    ensures g < |groups| && k < |groups[g]| && groups[g][k] == t
    decreases |groups|
  {
    var n := |groups| - 1;
    if t in groups[n] {
      g := n;
      k :| 0 <= k < |groups[n]| && groups[n][k] == t;
    } else {
      g, k := InSomeGroup(groups[..n], t);
    }
  }

  /** One label of each axis that is not empty. */
  ghost predicate OneOfEach(labels: seq<string>, axes: seq<Axis>) {
    |labels| == |axes| && forall i :: 0 <= i < |labels| ==> labels[i] in axes[i]
  }

  lemma SentTaskIs(sc: Bundle, tasks: seq<Task>, t: Task)
    requires sc.env.Dict? && WellTyped(sc.matrix) && AreTasksOf(sc, tasks) && t in tasks
    ensures |t.labels| <= |sc.matrix| && OneOfEach(t.labels, NonEmpty(sc.matrix))
    ensures t == Task(EnvOf(sc.env, sc.matrix, t.labels), t.labels, sc.count > 0)
  {
    var all, groups :| TasksBy(sc, tasks, all, groups);
    var path, k := InSomeGroup(groups, t);
    assert SentAs(sc, all, path, groups[path]);
    assert t == TaskAt(sc, all, path);
    VariantPicks(path, all);
    forall i | 0 <= i < |t.labels|
      ensures t.labels[i] in NonEmpty(sc.matrix)[i]
    {
      assert t.labels[i] in all[i] && Lists(all[i], NonEmpty(sc.matrix)[i]);
    }
  }

  /**
   A task that is sent for a scenario has one label of each axis that is not empty, and is to be run exactly if the
   count says so.  In its environment what the last label brings is all there; a key that none of the chosen tables
   has is as in the scenario's own environment, and one whose last chosen table holds a leaf has that leaf.
   */
  lemma SentTask(sc: Bundle, tasks: seq<Task>, t: Task, key: string, i: nat)
    requires sc.env.Dict? && WellTyped(sc.matrix) && AreTasksOf(sc, tasks) && t in tasks
    ensures |t.labels| <= |sc.matrix| && OneOfEach(t.labels, NonEmpty(sc.matrix)) && t.env.Dict?
    ensures t.run <==> sc.count > 0
    ensures t.labels != [] ==> Merge(t.env, Chosen(sc.matrix, t.labels, |t.labels| - 1)) == t.env
    ensures NoneHas(sc.matrix, t.labels, key) ==>
      (key in t.env.m <==> key in sc.env.m) && (key in t.env.m ==> t.env.m[key] == sc.env.m[key])
    ensures LastWith(sc.matrix, t.labels, key, i) && Chosen(sc.matrix, t.labels, i).m[key].Leaf? ==>
      key in t.env.m && t.env.m[key] == Chosen(sc.matrix, t.labels, i).m[key]
  {
    SentTaskIs(sc, tasks, t);
    if t.labels != [] {
      LastLabelIsIn(sc.env, sc.matrix, t.labels);
    }
    if NoneHas(sc.matrix, t.labels, key) {
      KeyOfEnv(sc.env, sc.matrix, t.labels, key);
    }
    if LastWith(sc.matrix, t.labels, key, i) {
      KeyOfLabel(sc.env, sc.matrix, t.labels, key, i);
    }
  }

  /** What is handed on for a scenario that was found. */
  lemma {:induction false} BundleIs(fs: seq<Found>, count: nat, i: nat)
    requires i < |fs|
    ensures Bundled(fs, count)[i] == Bundle(fs[i].env, fs[i].matrix, if fs[i].included then count else 0)
    decreases |fs|
  {
    if i < |fs| - 1 {
      BundleIs(fs[..|fs| - 1], count, i);
    }
  }

  /** A task is to be run exactly if its scenario is one that the command line includes, and is asked for at all. */
  lemma RunIffIncluded(fs: seq<Found>, count: nat, i: nat, tasks: seq<Task>, t: Task)
    requires i < |fs| && fs[i].env.Dict? && WellTyped(fs[i].matrix) && Bundled(fs, count)[i].env.Dict?
    requires WellTyped(Bundled(fs, count)[i].matrix) && AreTasksOf(Bundled(fs, count)[i], tasks) && t in tasks
    ensures t.run <==> fs[i].included && count > 0
  {
    BundleIs(fs, count, i);
    SentTaskIs(Bundled(fs, count)[i], tasks, t);
  }

  // ----- the number of a variant -----

  /** How many variants the axes behind the `i`-th have. */
  function Behind(all: seq<seq<string>>, i: nat): (n: nat)
    requires i <= |all| && forall k :: 0 <= k < |all| ==> all[k] != []
    ensures n > 0
    decreases |all| - i
  {
    if i == |all| then 1 else |all[i]| * Behind(all, i + 1)
  }

  lemma Regroup(a: nat, b: nat, c: nat)
    ensures a * (b * c) == (a * b) * c
  {
  }

  lemma {:induction false} BehindOneMore(all: seq<seq<string>>, i: nat)
    requires i < |all| && forall k :: 0 <= k < |all| ==> all[k] != []
    ensures Behind(all, i) == Behind(all[..|all| - 1], i) * |all[|all| - 1]|
    decreases |all| - i
  {
    var n := |all| - 1;
    if i < n {
      BehindOneMore(all, i + 1);
      Regroup(|all[i]|, Behind(all[..n], i + 1), |all[n]|);
    } else {
      assert Behind(all, n + 1) == 1;
    }
  }

  lemma Distribute(d: nat, b: nat, s: nat, a: nat)
    ensures (d * b + s) * a == d * (a * b) + s * a
  {
    Regroup(d, b, a);
    assert b * a == a * b;
  }

  lemma Positive(a: nat, b: nat)
    requires a > 0 && b > 0
    ensures a * b > 0
  {
  }

  lemma DivIs(p: nat, n: nat, q: nat, r: nat)
    requires n > 0 && r < n && p == q * n + r
    ensures p / n == q
  {
    QuotientAndRemainder(p, n);
    DivModUnique(q, r, n, p / n, p % n);
  }

  lemma DivTwice(p: nat, a: nat, b: nat, n: nat)
    requires a > 0 && b > 0 && n == b * a
    ensures n > 0 && (p / a) / b == p / n
  {
    var q, r := p / a, p % a;
    var d, s := q / b, q % b;
    Positive(b, a);
    QuotientAndRemainder(p, a);
    QuotientAndRemainder(q, b);
    Distribute(d, b, s, a);
    MulMonotone(a, s + 1, b);
    Distribute(0, b, s + 1, a);
    assert a * b == n;
    DivIs(p, n, d, s * a + r);
  }

  lemma DigitOnward(path: nat, all: seq<seq<string>>, i: nat)
    requires i + 1 < |all| && forall k :: 0 <= k < |all| ==> all[k] != []
    ensures (path / |all[|all| - 1]|) / Behind(all[..|all| - 1], i + 1) == path / Behind(all, i + 1)
  {
    var n := |all| - 1;
    BehindOneMore(all, i + 1);
    DivTwice(path, |all[n]|, Behind(all[..n], i + 1), Behind(all, i + 1));
  }

  /** A variant's labels are the digits of its number, the last axis counting the ones. */
  lemma {:induction false} LabelsAreDigits(path: nat, all: seq<seq<string>>, i: nat)
    requires i < |all| && forall k :: 0 <= k < |all| ==> all[k] != []
    ensures Variant(path, all)[i] == all[i][(path / Behind(all, i + 1)) % |all[i]|]
    decreases |all|
  {
    var n := |all| - 1;
    if i < n {
      LabelsAreDigits(path / |all[n]|, all[..n], i);
      DigitOnward(path, all, i);
    }
  }
}
