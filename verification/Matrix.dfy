/**
 The variants of a scenario (internal/scenario/config-parser.go, internal/runner/matrix-helpers.go) and
 how many tasks they make (internal/runner/runner.go, cmd/sinq/sinq.go).
 */
module Matrix {
  import opened Prelude
  import opened EnvAlgebra

  type Env = Value<string>

  type Axis = map<string, Env>

  // ----- reading the axes -----

  predicate AllTables(doc: Axis) {
    forall k :: k in doc ==> doc[k].Dict?
  }

  function NonEmpty(axes: seq<Axis>): (r: seq<Axis>)
    ensures forall i :: 0 <= i < |r| ==> r[i] != map[]
  {
    if axes == [] then []
    else NonEmpty(axes[..|axes| - 1]) + (if axes[|axes| - 1] == map[] then [] else [axes[|axes| - 1]])
  }

  /** Axes that are empty are dropped; a value that is not a table spoils the file and nothing is added. */
  method ParseMatrix(matrix: seq<Axis>, docs: seq<Axis>) returns (ok: bool, matrix': seq<Axis>)
    ensures ok <==> forall i :: 0 <= i < |docs| ==> AllTables(docs[i])
    ensures matrix' == if ok then matrix + NonEmpty(docs) else matrix
  {
    var allTypeSafe: seq<Axis> := [];
    var invalid := false;
    for i := 0 to |docs|
      invariant invalid <==> exists j :: 0 <= j < i && !AllTables(docs[j])
      invariant !invalid ==> allTypeSafe == NonEmpty(docs[..i])
    {
      assert docs[..i + 1][..i] == docs[..i];
      var env := docs[i];
      if env == map[] {
        continue;
      }
      var typeSafe: Axis := map k | k in env && env[k].Dict? :: env[k];
      if exists k :: k in env && !env[k].Dict? {
        invalid := true;
        assert !AllTables(docs[i]);
      } else {
        assert typeSafe == env;
      }
      allTypeSafe := allTypeSafe + [typeSafe];
    }
    assert docs[..|docs|] == docs;
    if invalid {
      return false, matrix;
    }
    return true, matrix + allTypeSafe;
  }

  // ----- numbering the variants -----

  function Product(axes: seq<Axis>): (n: nat)
  {
    if axes == [] then 1
    else Product(axes[..|axes| - 1]) * (if axes[|axes| - 1] == map[] then 1 else |axes[|axes| - 1]|)
  }

  /** The labels of an axis, each once, in any order. */
  ghost predicate Lists(labels: seq<string>, axis: Axis) {
    Distinct(labels) && forall l :: l in labels <==> l in axis
  }

  ghost predicate ListsAll(all: seq<seq<string>>, axes: seq<Axis>) {
    |all| == |axes| && forall i :: 0 <= i < |all| ==> Lists(all[i], axes[i]) && all[i] != []
  }

  method LabelsOf(axis: Axis) returns (labels: seq<string>)
    ensures Lists(labels, axis) && |labels| == |axis|
  {
    labels := [];
    var todo := axis.Keys;
    while todo != {}
      invariant Distinct(labels) && todo <= axis.Keys && forall l :: l in labels <==> l in axis.Keys - todo
      invariant |labels| + |todo| == |axis|
    {
      var k :| k in todo;
      assert k !in labels;
      labels := labels + [k];
      todo := todo - {k};
    }
  }

  lemma ProductOfOneMore(axes: seq<Axis>, axis: Axis)
    ensures Product(axes + [axis]) == Product(axes) * (if axis == map[] then 1 else |axis|)
    ensures NonEmpty(axes + [axis]) == NonEmpty(axes) + (if axis == map[] then [] else [axis])
  {
    assert (axes + [axis])[..|axes|] == axes;
  }

  function Volume(all: seq<seq<string>>): nat {
    if all == [] then 1 else Volume(all[..|all| - 1]) * |all[|all| - 1]|
  }

  lemma VolumeOfOneMore(all: seq<seq<string>>, labels: seq<string>)
    ensures Volume(all + [labels]) == Volume(all) * |labels|
  {
    assert (all + [labels])[..|all|] == all;
  }

  method BuildAllPaths(wholeMap: seq<Axis>) returns (all: seq<seq<string>>, total: nat)
    ensures ListsAll(all, NonEmpty(wholeMap)) && total == Product(wholeMap) == Volume(all)
  {
    all, total := [], 1;
    for i := 0 to |wholeMap|
      invariant ListsAll(all, NonEmpty(wholeMap[..i])) && total == Product(wholeMap[..i]) == Volume(all)
    {
      var mat := wholeMap[i];
      assert wholeMap[..i + 1] == wholeMap[..i] + [mat];
      ProductOfOneMore(wholeMap[..i], mat);
      if mat == map[] {
        continue;
      }
      total := total * |mat|;
      var curLabels := LabelsOf(mat);
      VolumeOfOneMore(all, curLabels);
      all := all + [curLabels];
    }
    assert wholeMap[..|wholeMap|] == wholeMap;
  }

  /** The variant with a number: the last axis counts the ones. */
  function Variant(path: nat, all: seq<seq<string>>): (labels: seq<string>)
    requires forall i :: 0 <= i < |all| ==> all[i] != []
    ensures |labels| == |all|
    decreases |all|
  {
    if all == [] then []
    else
      var last := all[|all| - 1];
      Variant(path / |last|, all[..|all| - 1]) + [last[path % |last|]]
  }

  method TakePath(path: nat, allPaths: seq<seq<string>>) returns (labels: array<string>)
    requires forall i :: 0 <= i < |allPaths| ==> allPaths[i] != []
    ensures fresh(labels) && labels[..] == Variant(path, allPaths)
  {
    labels := new string[|allPaths|];
    var rest: nat := path;
    assert allPaths[..|allPaths|] == allPaths;
    for j := 0 to labels.Length
      invariant Variant(rest, allPaths[..labels.Length - j]) + labels[labels.Length - j..] == Variant(path, allPaths)
    {
      var curIdx := labels.Length - j - 1;
      ghost var done := labels[curIdx + 1..];
      ghost var front := allPaths[..curIdx + 1];
      assert front[..curIdx] == allPaths[..curIdx];
      labels[curIdx] := allPaths[curIdx][rest % |allPaths[curIdx]|];
      rest := rest / |allPaths[curIdx]|;
      assert labels[curIdx..] == [labels[curIdx]] + done;
    }
    assert labels[0..] == labels[..];
  }

  // ----- every variant once -----

  lemma MulMonotone(n: nat, a: nat, b: nat)
    requires a <= b
    ensures a * n <= b * n
  {
  }

  lemma DivBelow(path: nat, n: nat, volume: nat)
    requires n > 0 && path < volume * n
    ensures path / n < volume
  {
  }

  /** One label of each axis. */
  predicate Picks(labels: seq<string>, all: seq<seq<string>>) {
    |labels| == |all| && forall i :: 0 <= i < |all| ==> labels[i] in all[i]
  }

  lemma {:induction false} VariantPicks(path: nat, all: seq<seq<string>>)
    requires forall i :: 0 <= i < |all| ==> all[i] != []
    ensures Picks(Variant(path, all), all)
    decreases |all|
  {
    if all != [] {
      VariantPicks(path / |all[|all| - 1]|, all[..|all| - 1]);
    }
  }

  function PlaceOf(name: string, labels: seq<string>): (i: nat)
    requires name in labels
    ensures i < |labels| && labels[i] == name
  {
    if labels[0] == name then 0 else 1 + PlaceOf(name, labels[1..])
  }

  /** The number of the variant with these labels. */
  function NumberOf(labels: seq<string>, all: seq<seq<string>>): (path: nat)
    requires Picks(labels, all)
    decreases |all|
  {
    if all == [] then 0
    else
      var n := |all| - 1;
      NumberOf(labels[..n], all[..n]) * |all[n]| + PlaceOf(labels[n], all[n])
  }

  lemma {:induction false} DivModUnique(q: nat, r: nat, n: nat, q': nat, r': nat)
    requires r < n && r' < n && q * n + r == q' * n + r'
    ensures q == q' && r == r'
  {
    if q < q' {
      MulMonotone(n, q + 1, q');
    } else if q' < q {
      MulMonotone(n, q' + 1, q);
    }
  }

  lemma {:induction false} NumberFits(front: nat, place: nat, n: nat, volume: nat)
    requires place < n && front < volume
    ensures front * n + place < volume * n
    ensures (front * n + place) / n == front && (front * n + place) % n == place
  {
    MulMonotone(n, front + 1, volume);
    var number := front * n + place;
    DivModUnique(front, place, n, number / n, number % n);
  }

  /** Each choice of labels is the variant of exactly one number below the total. */
  lemma {:induction false} VariantOfNumber(labels: seq<string>, all: seq<seq<string>>)
    requires Picks(labels, all) && forall i :: 0 <= i < |all| ==> all[i] != []
    ensures NumberOf(labels, all) < Volume(all) && Variant(NumberOf(labels, all), all) == labels
    decreases |all|
  {
    if all != [] {
      var n := |all| - 1;
      VariantOfNumber(labels[..n], all[..n]);
      NumberFits(NumberOf(labels[..n], all[..n]), PlaceOf(labels[n], all[n]), |all[n]|, Volume(all[..n]));
      assert labels == labels[..n] + [labels[n]];
    }
  }

  lemma PlaceIsUnique(labels: seq<string>, i: nat)
    requires i < |labels| && Distinct(labels)
    ensures PlaceOf(labels[i], labels) == i
  {
  }

  lemma QuotientAndRemainder(path: nat, n: nat)
    requires n > 0
    ensures (path / n) * n + path % n == path
  {
  }

  lemma {:induction false} NumberOfVariant(path: nat, all: seq<seq<string>>)
    requires forall i :: 0 <= i < |all| ==> all[i] != [] && Distinct(all[i])
    requires path < Volume(all)
    ensures Picks(Variant(path, all), all) && NumberOf(Variant(path, all), all) == path
    decreases |all|
  {
    VariantPicks(path, all);
    if all != [] {
      var n, last, labels := |all| - 1, all[|all| - 1], Variant(path, all);
      DivBelow(path, |last|, Volume(all[..n]));
      NumberOfVariant(path / |last|, all[..n]);
      PlaceIsUnique(last, path % |last|);
      QuotientAndRemainder(path, |last|);
      assert labels[..n] == Variant(path / |last|, all[..n]);
    }
  }

  // ----- a label addresses its axis -----

  /** No empty axis stands before one that is not. */
  predicate Packed(axes: seq<Axis>) {
    forall i, j :: 0 <= i < j < |axes| && axes[j] != map[] ==> axes[i] != map[]
  }

  lemma {:induction false} PackedAxes(axes: seq<Axis>)
    requires Packed(axes)
    ensures NonEmpty(axes) <= axes
    ensures forall i :: |NonEmpty(axes)| <= i < |axes| ==> axes[i] == map[]
    decreases |axes|
  {
    if axes != [] {
      PackedAxes(axes[..|axes| - 1]);
    }
  }

  lemma {:induction false} NonEmptyOf(axes: seq<Axis>, more: seq<Axis>)
    ensures NonEmpty(axes + more) == NonEmpty(axes) + NonEmpty(more)
    decreases |more|
  {
    if more == [] {
      assert axes + more == axes;
    } else {
      assert (axes + more)[..|axes + more| - 1] == axes + more[..|more| - 1];
      NonEmptyOf(axes, more[..|more| - 1]);
    }
  }

  lemma {:induction false} AtLeastOne(axes: seq<Axis>)
    ensures Product(axes) >= 1
    decreases |axes|
  {
    if axes != [] {
      AtLeastOne(axes[..|axes| - 1]);
    }
  }

  /** Every label of every variant is a label of the axis at its own place. */
  ghost predicate Addressed(axes: seq<Axis>, all: seq<seq<string>>)
    requires ListsAll(all, NonEmpty(axes))
  {
    forall path: nat, i :: path < Volume(all) && 0 <= i < |all| ==> i < |axes| && Variant(path, all)[i] in axes[i]
  }

  lemma {:induction false} FirstEmpty(axes: seq<Axis>, i: nat) returns (e: nat)
    requires i < |axes| && axes[i] == map[]
    ensures e <= i && axes[e] == map[] && forall k :: 0 <= k < e ==> axes[k] != map[]
    decreases i
  {
    if k :| 0 <= k < i && axes[k] == map[] {
      e := FirstEmpty(axes, k);
    } else {
      e := i;
    }
  }

  lemma {:induction false} SomeNonEmpty(axes: seq<Axis>, j: nat)
    requires j < |axes| && axes[j] != map[]
    ensures NonEmpty(axes) != []
    decreases |axes|
  {
    if j < |axes| - 1 {
      SomeNonEmpty(axes[..|axes| - 1], j);
    }
  }

  lemma {:induction false} VolumeIsPositive(all: seq<seq<string>>)
    requires forall i :: 0 <= i < |all| ==> all[i] != []
    ensures Volume(all) > 0
    decreases |all|
  {
    if all != [] {
      VolumeIsPositive(all[..|all| - 1]);
    }
  }

  predicate NoneEmpty(axes: seq<Axis>) {
    forall i :: 0 <= i < |axes| ==> axes[i] != map[]
  }

  lemma {:induction false} NothingDropped(axes: seq<Axis>)
    requires NoneEmpty(axes)
    ensures NonEmpty(axes) == axes
    decreases |axes|
  {
    if axes != [] {
      NothingDropped(axes[..|axes| - 1]);
    }
  }

  lemma MorePathsThan(axes: seq<Axis>, e: nat, j: nat)
    requires e < j < |axes| && axes[j] != map[] && forall k :: 0 <= k < e ==> axes[k] != map[]
    ensures e < |NonEmpty(axes)|
  {
    assert axes == axes[..e] + axes[e..] && axes[e..][j - e] == axes[j];
    NonEmptyOf(axes[..e], axes[e..]);
    NothingDropped(axes[..e]);
    SomeNonEmpty(axes[e..], j - e);
  }

  /**
   The labels of a variant are looked up by their place among the axes that are not empty.  That is right
   exactly if no empty axis comes first.
   */
  lemma AddressedIff(axes: seq<Axis>, all: seq<seq<string>>)
    requires ListsAll(all, NonEmpty(axes))
    ensures Addressed(axes, all) <==> Packed(axes)
  {
    VolumeIsPositive(all);
    if Packed(axes) {
      PackedAxes(axes);
      forall path: nat, i | path < Volume(all) && 0 <= i < |all|
        ensures i < |axes| && Variant(path, all)[i] in axes[i]
      {
        VariantPicks(path, all);
        assert axes[i] == NonEmpty(axes)[i];
      }
    } else {
      var i, j :| 0 <= i < j < |axes| && axes[j] != map[] && axes[i] == map[];
      var e := FirstEmpty(axes, i);
      MorePathsThan(axes, e, j);
      assert Variant(0, all)[e] !in axes[e];
    }
  }

  /** Reading files one after another never brings an empty axis in, so it is always right. */
  lemma ReadAxesAreAddressed(matrix: seq<Axis>, docs: seq<Axis>, all: seq<seq<string>>)
    requires NoneEmpty(matrix) && ListsAll(all, NonEmpty(matrix + NonEmpty(docs)))
    ensures NoneEmpty(matrix + NonEmpty(docs)) && Addressed(matrix + NonEmpty(docs), all)
  {
    AddressedIff(matrix + NonEmpty(docs), all);
  }

  // ----- how many tasks -----

  method CountVariants(axes: seq<Axis>) returns (mod: nat)
    ensures mod == Product(axes)
  {
    mod := 1;
    for i := 0 to |axes|
      invariant mod == Product(axes[..i])
    {
      assert axes[..i + 1][..i] == axes[..i];
      if axes[i] != map[] {
        mod := mod * |axes[i]|;
      }
    }
    assert axes[..|axes|] == axes;
  }

  /** A scenario that was found, and whether the filters on the command line let it run. */
  datatype Found = Found(env: Env, matrix: seq<Axis>, included: bool)

  datatype Bundle = Bundle(env: Env, matrix: seq<Axis>, count: nat)

  datatype Task = Task(env: Env, labels: seq<string>, run: bool)

  function CountOf(f: Found, count: nat): nat {
    if f.included then count else 0
  }

  function Bundled(fs: seq<Found>, count: nat): (bundles: seq<Bundle>)
    ensures |bundles| == |fs|
  {
    if fs == [] then []
    else
      var f := fs[|fs| - 1];
      Bundled(fs[..|fs| - 1], count) + [Bundle(f.env, f.matrix, CountOf(f, count))]
  }

  /** How many results the reporters are told to expect. */
  function Expected(fs: seq<Found>, count: nat): nat {
    if fs == [] then 0
    else
      var f := fs[|fs| - 1];
      Expected(fs[..|fs| - 1], count) + (if f.included then count * Product(f.matrix) else Product(f.matrix))
  }

  method Bundles(fs: seq<Found>, cfgCount: nat) returns (scenarioCount: nat, all: seq<Bundle>)
    ensures scenarioCount == Expected(fs, cfgCount) && all == Bundled(fs, cfgCount)
  {
    scenarioCount, all := 0, [];
    for i := 0 to |fs|
      invariant scenarioCount == Expected(fs[..i], cfgCount) && all == Bundled(fs[..i], cfgCount)
    {
      assert fs[..i + 1][..i] == fs[..i];
      var count := cfgCount;
      var variantCount := CountVariants(fs[i].matrix);
      if !fs[i].included {
        count := 0;
        scenarioCount := scenarioCount + variantCount;
      }
      scenarioCount := scenarioCount + count * variantCount;
      all := all + [Bundle(fs[i].env, fs[i].matrix, count)];
    }
    assert fs[..|fs|] == fs;
  }

  function Max(a: nat, b: nat): nat {
    if a > b then a else b
  }

  /** How many tasks are sent. */
  function Sent(bundles: seq<Bundle>): nat {
    if bundles == [] then 0
    else
      var sc := bundles[|bundles| - 1];
      Sent(bundles[..|bundles| - 1]) + Product(sc.matrix) * Max(sc.count, 1)
  }

  lemma TwoFactors(a: nat, b: nat, v: nat)
    requires a >= b && v >= 1
    ensures a * v >= b * v && (a * v == b * v <==> a == b)
  {
    if a > b {
      MulMonotone(v, b + 1, a);
    }
  }

  lemma OneScenario(f: Found, count: nat)
    ensures var v, expected := Product(f.matrix), if f.included then count * Product(f.matrix) else Product(f.matrix);
      && expected <= v * Max(CountOf(f, count), 1)
      && (expected == v * Max(CountOf(f, count), 1) <==> count >= 1 || !f.included)
  {
    AtLeastOne(f.matrix);
    TwoFactors(Max(count, 1), count, Product(f.matrix));
  }

  lemma OneMoreBundle(fs: seq<Found>, count: nat)
    requires fs != []
    ensures var n := |fs| - 1; var f := fs[n];
      Sent(Bundled(fs, count)) == Sent(Bundled(fs[..n], count)) + Product(f.matrix) * Max(CountOf(f, count), 1)
  {
    assert Bundled(fs, count)[..|fs| - 1] == Bundled(fs[..|fs| - 1], count);
  }

  predicate NoneIncluded(fs: seq<Found>) {
    fs != [] ==> !fs[|fs| - 1].included && NoneIncluded(fs[..|fs| - 1])
  }

  /**
   As many results are expected as tasks are sent exactly if each scenario is run at least once or none is to be run.
   */
  lemma {:induction false} ExpectedIsSentIff(fs: seq<Found>, count: nat)
    ensures Expected(fs, count) <= Sent(Bundled(fs, count))
    ensures Expected(fs, count) == Sent(Bundled(fs, count)) <==> count >= 1 || NoneIncluded(fs)
    decreases |fs|
  {
    if fs != [] {
      ExpectedIsSentIff(fs[..|fs| - 1], count);
      OneMoreBundle(fs, count);
      OneScenario(fs[|fs| - 1], count);
    }
  }

  lemma OneExpected(f: Found, count: nat)
    ensures (if f.included then count * Product(f.matrix) else Product(f.matrix)) == 0 <==> f.included && count == 0
  {
    AtLeastOne(f.matrix);
    if count > 0 {
      MulMonotone(Product(f.matrix), 1, count);
    }
  }

  /** No results are expected exactly if every scenario found is to be run and each of them no times. */
  lemma {:induction false} NothingExpectedIff(fs: seq<Found>, count: nat)
    ensures Expected(fs, count) == 0 <==> forall i :: 0 <= i < |fs| ==> fs[i].included && count == 0
    decreases |fs|
  {
    if fs != [] {
      var before := fs[..|fs| - 1];
      NothingExpectedIff(before, count);
      OneExpected(fs[|fs| - 1], count);
      assert forall i :: 0 <= i < |before| ==> before[i] == fs[i];
    }
  }

  // ----- the tasks -----

  predicate WellTyped(matrix: seq<Axis>) {
    forall i :: 0 <= i < |matrix| ==> AllTables(matrix[i])
  }

  /** The environment with the tables of the labels merged in; a label that its axis does not know adds nothing. */
  function EnvOf(env: Env, matrix: seq<Axis>, labels: seq<string>): (r: Env)
    requires env.Dict? && WellTyped(matrix) && |labels| <= |matrix|
    ensures r.Dict?
  {
    if labels == [] then env
    else
      var i := |labels| - 1;
      var before := EnvOf(env, matrix, labels[..i]);
      if labels[i] in matrix[i] then Merge(before, matrix[i][labels[i]]) else before
  }

  method MergeLabels(env: Env, matrix: seq<Axis>, labels: seq<string>) returns (totalEnv: Env)
    requires env.Dict? && WellTyped(matrix) && |labels| <= |matrix|
    ensures totalEnv == EnvOf(env, matrix, labels)
  {
    totalEnv := env;
    for idx := 0 to |labels|
      invariant totalEnv == EnvOf(env, matrix, labels[..idx])
    {
      assert labels[..idx + 1][..idx] == labels[..idx];
      if labels[idx] in matrix[idx] {
        totalEnv := Merge(totalEnv, matrix[idx][labels[idx]]);
      }
    }
    assert labels[..|labels|] == labels;
  }

  lemma {:induction false} NoMoreThanAll(axes: seq<Axis>)
    ensures |NonEmpty(axes)| <= |axes|
    decreases |axes|
  {
    if axes != [] {
      NoMoreThanAll(axes[..|axes| - 1]);
    }
  }

  /** What is sent for a variant. */
  function TaskAt(sc: Bundle, all: seq<seq<string>>, path: nat): Task
    requires sc.env.Dict? && WellTyped(sc.matrix) && |all| <= |sc.matrix|
    requires forall i :: 0 <= i < |all| ==> all[i] != []
  {
    var labels := Variant(path, all);
    Task(EnvOf(sc.env, sc.matrix, labels), labels, sc.count > 0)
  }

  /** These tasks are the variant as often as it is to be run, but at least once. */
  predicate SentAs(sc: Bundle, all: seq<seq<string>>, path: nat, sent: seq<Task>)
    requires sc.env.Dict? && WellTyped(sc.matrix) && |all| <= |sc.matrix|
    requires forall i :: 0 <= i < |all| ==> all[i] != []
  {
    |sent| == Max(sc.count, 1) && forall k :: 0 <= k < |sent| ==> sent[k] == TaskAt(sc, all, path)
  }

  /** One variant, as often as it is to be run but at least once. */
  method SendVariant(sc: Bundle, allLabels: seq<seq<string>>, path: nat) returns (sent: seq<Task>)
    requires sc.env.Dict? && WellTyped(sc.matrix) && |allLabels| <= |sc.matrix|
    requires forall i :: 0 <= i < |allLabels| ==> allLabels[i] != []
    ensures SentAs(sc, allLabels, path, sent)
  {
    var taken := TakePath(path, allLabels);
    var labels := taken[..];
    var totalEnv := MergeLabels(sc.env, sc.matrix, labels);
    sent := [];
    for k := 0 to Max(sc.count, 1)
      invariant |sent| == k && forall j :: 0 <= j < k ==> sent[j] == TaskAt(sc, allLabels, path)
    {
      sent := sent + [Task(totalEnv, labels, sc.count > 0)];
    }
  }

  function Concat(groups: seq<seq<Task>>): seq<Task> {
    if groups == [] then [] else Concat(groups[..|groups| - 1]) + groups[|groups| - 1]
  }

  /** The tasks of one scenario: group by group, its variants in the order of their numbers. */
  method TasksOf(sc: Bundle) returns (tasks: seq<Task>, ghost all: seq<seq<string>>, ghost groups: seq<seq<Task>>)
    requires sc.env.Dict? && WellTyped(sc.matrix)
    ensures ListsAll(all, NonEmpty(sc.matrix)) && |all| <= |sc.matrix|
    ensures tasks == Concat(groups) && |groups| == Product(sc.matrix) == Volume(all)
    ensures forall path :: 0 <= path < |groups| ==> SentAs(sc, all, path, groups[path])
    ensures |tasks| == Product(sc.matrix) * Max(sc.count, 1)
  {
    var allLabels, totalPaths := BuildAllPaths(sc.matrix);
    NoMoreThanAll(sc.matrix);
    all, tasks, groups := allLabels, [], [];
    for path := 0 to totalPaths
      invariant tasks == Concat(groups) && |groups| == path
      invariant forall i :: 0 <= i < path ==> SentAs(sc, all, i, groups[i])
      invariant |tasks| == path * Max(sc.count, 1)
    {
      var sent := SendVariant(sc, allLabels, path);
      assert (groups + [sent])[..path] == groups;
      assert (path + 1) * Max(sc.count, 1) == path * Max(sc.count, 1) + Max(sc.count, 1);
      tasks, groups := tasks + sent, groups + [sent];
    }
  }

  /** Group by group, the variants of a scenario in the order of their numbers. */
  ghost predicate TasksBy(sc: Bundle, tasks: seq<Task>, all: seq<seq<string>>, groups: seq<seq<Task>>)
    requires sc.env.Dict? && WellTyped(sc.matrix)
  {
    && ListsAll(all, NonEmpty(sc.matrix)) && |all| <= |sc.matrix|
    && tasks == Concat(groups) && |groups| == Product(sc.matrix) == Volume(all)
    && forall path :: 0 <= path < |groups| ==> SentAs(sc, all, path, groups[path])
  }

  ghost predicate AreTasksOf(sc: Bundle, tasks: seq<Task>)
    requires sc.env.Dict? && WellTyped(sc.matrix)
  {
    exists all, groups :: TasksBy(sc, tasks, all, groups)
  }

  method SendScenario(sc: Bundle) returns (tasks: seq<Task>)
    requires sc.env.Dict? && WellTyped(sc.matrix)
    ensures AreTasksOf(sc, tasks) && |tasks| == Product(sc.matrix) * Max(sc.count, 1)
  {
    ghost var all, groups;
    tasks, all, groups := TasksOf(sc);
    assert TasksBy(sc, tasks, all, groups);
  }

  /** The tasks of all scenarios, one scenario after another: `parts` are those of each. */
  method StartDataSource(scenarios: seq<Bundle>) returns (tasks: seq<Task>, ghost parts: seq<seq<Task>>)
    requires forall i :: 0 <= i < |scenarios| ==> scenarios[i].env.Dict? && WellTyped(scenarios[i].matrix)
    ensures tasks == Concat(parts) && |parts| == |scenarios|
    ensures forall i :: 0 <= i < |scenarios| ==> AreTasksOf(scenarios[i], parts[i])
    ensures |tasks| == Sent(scenarios)
  {
    tasks, parts := [], [];
    for i := 0 to |scenarios|
      invariant tasks == Concat(parts) && |parts| == i
      invariant forall k :: 0 <= k < i ==> AreTasksOf(scenarios[k], parts[k])
      invariant |tasks| == Sent(scenarios[..i])
    {
      assert scenarios[..i + 1][..i] == scenarios[..i];
      var more := SendScenario(scenarios[i]);
      assert (parts + [more])[..i] == parts;
      tasks, parts := tasks + more, parts + [more];
    }
    assert scenarios[..|scenarios|] == scenarios;
  }
}
