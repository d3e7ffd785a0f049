/** What CortadorOptimizadoV5Final.py does to the output geodatabase, as functions of an
    abstract ArcGIS engine. The input geodatabase is a value: its root feature classes, the
    feature-dataset listing, and per dataset whether `Describe` and `CreateFeatureDataset`
    succeed and which feature classes it lists. Every engine call whose result the script
    inspects (selection count, clip, row count) is an oracle carried by the layer it is made
    on, and may fail. The output geodatabase is the set of its feature datasets, the set of
    its items, and the log of the write calls made on it. */
module GdbClip {
  import opened Text

  /** `int(arcpy.GetCount_management(...)[0])`, or the failure of any engine call leading to it. */
  datatype Count = Rows(n: nat) | CountFails

  /** `arcpy.Clip_analysis`: raises, or writes the clipped layer, whose row count is then asked. */
  datatype ClipOutcome = ClipFails | Clipped(rows: Count)

  /** A feature class of the input: the selection count of "INTERSECT the clip features",
      and what clipping it gives. */
  datatype Layer = Layer(name: string, selection: Count, clip: ClipOutcome)

  /** A feature dataset of the input that `arcpy.Exists` finds. `describable` is false when
      `Describe`, or listing its feature classes, raises: either skips the whole dataset. */
  datatype DatasetInfo = DatasetInfo(describable: bool, creatable: bool, layers: seq<Layer>)

  /** One name from `ListDatasets("", "Feature")` with what the sub-dataset listing of that name gives. */
  datatype Listed = Listed(name: string, subs: seq<string>)

  /** `datasets` holds the datasets that exist in the input, by name. */
  datatype InputGdb = InputGdb(rootLayers: seq<Layer>, listing: seq<Listed>, datasets: map<string, DatasetInfo>)

  /** An item of the output geodatabase: at its root or inside a feature dataset. */
  datatype Path = Root(name: string) | Nested(dataset: string, name: string)

  /** The write calls on the output: `Clip_analysis`, `Delete_management`, `CreateFeatureDataset_management`. */
  datatype Op = ClipOp(path: Path) | DeleteOp(path: Path) | CreateOp(ds: string)

  datatype Out = Out(datasets: set<string>, items: set<Path>, log: seq<Op>)

  /** `has_intersection`: some feature was selected; any failure counts as "no". */
  function HasIntersection(selection: Count): bool {
    selection.Rows? && selection.n > 0
  }

  /** `is_empty`: no rows; any failure counts as "empty". */
  function IsEmpty(count: Count): bool {
    count.CountFails? || count.n == 0
  }

  /** The two checks are complementary on the same count: a failure is "nothing there" for both. */
  lemma ChecksComplementary(c: Count)
    ensures IsEmpty(c) <==> !HasIntersection(c)
    ensures c.Rows? ==> (HasIntersection(c) <==> c.n > 0)
    ensures c.CountFails? ==> !HasIntersection(c) && IsEmpty(c)
  {
  }

  /** `get_all_datasets`: every listed dataset immediately followed by its sub-datasets. */
  function AllDatasets(listing: seq<Listed>): seq<string> {
    if listing == [] then []
    else AllDatasets(listing[..|listing| - 1]) + [listing[|listing| - 1].name] + listing[|listing| - 1].subs
  }

  /** Clip to `p`, then count and delete an empty (or uncountable) result. A raising call
      ends the step with what was done so far: a delete of a path in `locked` raises. */
  function ClipAt(locked: set<Path>, o: Out, p: Path, clip: ClipOutcome): Out {
    match clip
    case ClipFails => o.(log := o.log + [ClipOp(p)])
    case Clipped(rows) =>
      var o1 := o.(items := o.items + {p}, log := o.log + [ClipOp(p)]);
      if !IsEmpty(rows) then o1
      else if p in locked then o1.(log := o1.log + [DeleteOp(p)])
      else o1.(items := o1.items - {p}, log := o1.log + [DeleteOp(p)])
  }

  /** Where a layer loop writes: the root, or a dataset (whose creation may fail). */
  datatype Target = AtRoot | InDataset(ds: string, creatable: bool)

  function PathOf(t: Target, name: string): Path {
    match t
    case AtRoot => Root(name)
    case InDataset(ds, _) => Nested(ds, name)
  }

  /** The state of a layer loop: the output and the `dataset_has_data` flag. */
  datatype Cursor = Cursor(out: Out, created: bool)

  /** Whether a layer that passes the test gets clipped. */
  predicate CanWrite(t: Target, c: Cursor) {
    t.AtRoot? || c.created || t.creatable
  }

  /** One pass of a layer loop body, with its `try`: a layer that fails the test is skipped;
      in a dataset the first passing layer creates the output dataset first, and a failed
      creation skips that layer only (the next passing layer tries again). */
  function LayerStep(locked: set<Path>, t: Target, c: Cursor, x: Layer): Cursor {
    if !HasIntersection(x.selection) then c
    else if t.InDataset? && !c.created then
      var o1 := c.out.(log := c.out.log + [CreateOp(t.ds)]);
      if !t.creatable then Cursor(o1, false)
      else Cursor(ClipAt(locked, o1.(datasets := o1.datasets + {t.ds}), PathOf(t, x.name), x.clip), true)
    else Cursor(ClipAt(locked, c.out, PathOf(t, x.name), x.clip), c.created)
  }

  /** A layer loop over `layers`, in order. */
  function LayerFold(locked: set<Path>, t: Target, c: Cursor, layers: seq<Layer>): Cursor {
    if layers == [] then c
    else LayerStep(locked, t, LayerFold(locked, t, c, layers[..|layers| - 1]), layers[|layers| - 1])
  }

  /** The body of the dataset loop: a dataset missing from the input, or whose `Describe`
      raises, is skipped; otherwise its layers are processed with the flag cleared. */
  function DatasetStep(locked: set<Path>, input: InputGdb, o: Out, ds: string): Out {
    if ds !in input.datasets then o
    else
      var info := input.datasets[ds];
      if !info.describable then o
      else LayerFold(locked, InDataset(ds, info.creatable), Cursor(o, false), info.layers).out
  }

  function DatasetFold(locked: set<Path>, input: InputGdb, o: Out, names: seq<string>): Out {
    if names == [] then o
    else DatasetStep(locked, input, DatasetFold(locked, input, o, names[..|names| - 1]), names[|names| - 1])
  }

  /** `clip_layers`: the root feature classes, then (unless there are none) every dataset. */
  function ClipAll(locked: set<Path>, input: InputGdb, o: Out): Out {
    var o1 := LayerFold(locked, AtRoot, Cursor(o, true), input.rootLayers).out;
    var names := AllDatasets(input.listing);
    if names == [] then o1 else DatasetFold(locked, input, o1, names)
  }

  const Templates: seq<string> := ["GDB_EditingTemplates", "GDB_EditingTemplateRelationships"]

  /** `delete_unwanted_files` from template `i` on: each template present is deleted; a
      raising delete ends the whole loop. */
  function DeleteTemplates(locked: set<Path>, o: Out, i: nat): Out
    requires i <= |Templates|
    decreases |Templates| - i
  {
    if i == |Templates| then o
    else
      var p := Root(Templates[i]);
      if p !in o.items then DeleteTemplates(locked, o, i + 1)
      else if p in locked then o.(log := o.log + [DeleteOp(p)])
      else DeleteTemplates(locked, o.(items := o.items - {p}, log := o.log + [DeleteOp(p)]), i + 1)
  }

  /** The output file name for counter `n`. */
  function GdbName(n: nat): string {
    "CartoBase_" + NatToString(n) + ".gdb"
  }

  /** `os.path.join(folder, name)` on Windows: a backslash goes between them unless the
      folder is empty, already ends in a separator, or is a bare drive such as `C:`. */
  function JoinPrefix(folder: string): string {
    if folder == [] || folder[|folder| - 1] in {'/', '\\'} || (|folder| == 2 && folder[1] == ':') then folder
    else folder + "\\"
  }

  function Candidate(folder: string, n: nat): string {
    JoinPrefix(folder) + GdbName(n)
  }

  // ----- get_all_datasets -----

  lemma {:induction false} AllDatasetsAppend(a: seq<Listed>, b: seq<Listed>)
    ensures AllDatasets(a + b) == AllDatasets(a) + AllDatasets(b)
    decreases |b|
  {
    if b != [] {
      var b' := b[..|b| - 1];
      var x := b[|b| - 1];
      assert (a + b)[..|a + b| - 1] == a + b';
      assert (a + b)[|a + b| - 1] == x;
      AllDatasetsAppend(a, b');
      calc {
        AllDatasets(a + b);
        AllDatasets(a + b') + [x.name] + x.subs;
        AllDatasets(a) + AllDatasets(b') + [x.name] + x.subs;
        AllDatasets(a) + (AllDatasets(b') + [x.name] + x.subs);
      }
    } else {
      assert a + b == a;
    }
  }

  lemma SplitAt<T>(s: seq<T>, k: nat)
    requires k < |s|
    ensures s == (s[..k] + [s[k]]) + s[k + 1..]
  {
  }

  lemma AllDatasetsAround(a: seq<Listed>, x: Listed, b: seq<Listed>)
    ensures AllDatasets((a + [x]) + b) == AllDatasets(a) + [x.name] + x.subs + AllDatasets(b)
  {
    AllDatasetsAppend(a + [x], b);
    AllDatasetsAppend(a, [x]);
    assert AllDatasets([x]) == [x.name] + x.subs by {
      assert [x][..0] == [];
    }
  }

  /** Each listed dataset appears at its place, immediately followed by its sub-datasets;
      nothing listed gives nothing. */
  lemma AllDatasetsOrder(listing: seq<Listed>, k: nat)
    requires k < |listing|
    ensures AllDatasets(listing) == AllDatasets(listing[..k]) + [listing[k].name] + listing[k].subs + AllDatasets(listing[k + 1..])
    ensures AllDatasets(listing) != []
  {
    SplitAt(listing, k);
    AllDatasetsAround(listing[..k], listing[k], listing[k + 1..]);
  }

  // ----- layer loops -----

  predicate DistinctNames(layers: seq<Layer>) {
    forall i, j :: 0 <= i < j < |layers| ==> layers[i].name != layers[j].name
  }

  function Paths(t: Target, layers: seq<Layer>): set<Path> {
    set i | 0 <= i < |layers| :: PathOf(t, layers[i].name)
  }

  /** How many layers pass the intersection test. */
  function Hits(layers: seq<Layer>): nat {
    if layers == [] then 0
    else Hits(layers[..|layers| - 1]) + (if HasIntersection(layers[|layers| - 1].selection) then 1 else 0)
  }

  /** Whether a layer's clipped output is left in place: it passed the test, the clip
      succeeded, and its rows were counted as more than zero (or its delete raised). */
  predicate Survives(locked: set<Path>, x: Layer, p: Path) {
    HasIntersection(x.selection) && x.clip.Clipped? && (!IsEmpty(x.clip.rows) || p in locked)
  }

  /** One step only touches the path of its own layer, and keeps it exactly when it survives. */
  lemma StepItems(locked: set<Path>, t: Target, c: Cursor, x: Layer)
    ensures var r := LayerStep(locked, t, c, x);
            var p := PathOf(t, x.name);
            r.out.items - {p} == c.out.items - {p} &&
            (p !in c.out.items ==> (p in r.out.items <==> CanWrite(t, c) && Survives(locked, x, p))) &&
            r.created == (c.created || (t.InDataset? && t.creatable && HasIntersection(x.selection)))
  {
  }

  /** The flag ends up set exactly when it was set or a passing layer created the dataset. */
  lemma {:induction false} FoldCreated(locked: set<Path>, t: Target, c: Cursor, layers: seq<Layer>)
    ensures LayerFold(locked, t, c, layers).created == (c.created || (t.InDataset? && t.creatable && Hits(layers) > 0))
    decreases |layers|
  {
    if layers != [] {
      FoldCreated(locked, t, c, layers[..|layers| - 1]);
      StepItems(locked, t, LayerFold(locked, t, c, layers[..|layers| - 1]), layers[|layers| - 1]);
    }
  }

  /** Pruning, on an output that holds none of these layers yet: a layer's output is present
      afterwards exactly when it could be written and it survives, and nothing outside these
      layers' paths is added or removed. */
  lemma {:induction false} FoldItems(locked: set<Path>, t: Target, c: Cursor, layers: seq<Layer>)
    requires DistinctNames(layers)
    requires forall i :: 0 <= i < |layers| ==> PathOf(t, layers[i].name) !in c.out.items
    ensures var r := LayerFold(locked, t, c, layers);
            (forall i :: 0 <= i < |layers| ==>
              (PathOf(t, layers[i].name) in r.out.items <==> CanWrite(t, c) && Survives(locked, layers[i], PathOf(t, layers[i].name)))) &&
            c.out.items <= r.out.items <= c.out.items + Paths(t, layers)
    decreases |layers|
  {
    FoldItemsBounds(locked, t, c, layers);
    if layers != [] {
      var init := layers[..|layers| - 1];
      var x := layers[|layers| - 1];
      var p := PathOf(t, x.name);
      LastPathFresh(t, layers);
      DistinctPrefix(layers);
      FoldItems(locked, t, c, init);
      FoldItemsBounds(locked, t, c, init);
      FoldCreated(locked, t, c, init);
      var s := LayerFold(locked, t, c, init);
      var r := LayerStep(locked, t, s, x);
      assert p !in s.out.items;
      assert CanWrite(t, s) == CanWrite(t, c);
      StepItems(locked, t, s, x);
      CombineItems(locked, t, c, s.out.items, r.out.items, layers);
    }
  }

  /** The step from the first layers to all of them, on the item sets alone. */
  lemma CombineItems(locked: set<Path>, t: Target, c: Cursor, s: set<Path>, r: set<Path>, layers: seq<Layer>)
    requires layers != []
    requires var init, p := layers[..|layers| - 1], PathOf(t, layers[|layers| - 1].name);
             (forall i :: 0 <= i < |init| ==> PathOf(t, init[i].name) != p) &&
             (forall i :: 0 <= i < |init| ==>
               (PathOf(t, init[i].name) in s <==> CanWrite(t, c) && Survives(locked, init[i], PathOf(t, init[i].name)))) &&
             r - {p} == s - {p} &&
             (p in r <==> CanWrite(t, c) && Survives(locked, layers[|layers| - 1], p))
    ensures forall i :: 0 <= i < |layers| ==>
              (PathOf(t, layers[i].name) in r <==> CanWrite(t, c) && Survives(locked, layers[i], PathOf(t, layers[i].name)))
  {
    var init, p := layers[..|layers| - 1], PathOf(t, layers[|layers| - 1].name);
    forall i | 0 <= i < |layers|
      ensures PathOf(t, layers[i].name) in r <==> CanWrite(t, c) && Survives(locked, layers[i], PathOf(t, layers[i].name))
    {
      if i < |init| {
        assert layers[i] == init[i];
        var q := PathOf(t, init[i].name);
        assert q != p;
        assert (q in r - {p}) == (q in s - {p});
      }
    }
  }

  /** A layer loop only adds or removes its own layers' paths and, on an output without
      them, removes nothing that was there. */
  lemma {:induction false} FoldItemsBounds(locked: set<Path>, t: Target, c: Cursor, layers: seq<Layer>)
    requires forall i :: 0 <= i < |layers| ==> PathOf(t, layers[i].name) !in c.out.items
    ensures var r := LayerFold(locked, t, c, layers);
            c.out.items <= r.out.items <= c.out.items + Paths(t, layers)
    decreases |layers|
  {
    if layers != [] {
      var init := layers[..|layers| - 1];
      var x := layers[|layers| - 1];
      var p := PathOf(t, x.name);
      assert forall i :: 0 <= i < |init| ==> init[i] == layers[i];
      FoldItemsBounds(locked, t, c, init);
      var s := LayerFold(locked, t, c, init);
      StepItems(locked, t, s, x);
      PathsSnoc(t, layers);
      ItemBounds(c.out.items, s.out.items, LayerStep(locked, t, s, x).out.items, Paths(t, init), p);
    }
  }

  /** With distinct names, the last layer's path is none of the earlier layers' paths. */
  lemma LastPathFresh(t: Target, layers: seq<Layer>)
    requires DistinctNames(layers) && layers != []
    ensures var init, p := layers[..|layers| - 1], PathOf(t, layers[|layers| - 1].name);
            p !in Paths(t, init) && forall i :: 0 <= i < |init| ==> PathOf(t, init[i].name) != p
  {
    var init := layers[..|layers| - 1];
    forall i | 0 <= i < |init|
      ensures PathOf(t, init[i].name) != PathOf(t, layers[|layers| - 1].name)
    {
      assert init[i].name == layers[i].name;
    }
  }

  lemma ItemBounds(a: set<Path>, s: set<Path>, r: set<Path>, ps: set<Path>, p: Path)
    requires a <= s <= a + ps && r - {p} == s - {p} && p !in a
    ensures a <= r <= a + (ps + {p})
  {
    forall q | q in a
      ensures q in r
    {
      assert q in s - {p};
    }
    forall q | q in r
      ensures q in a + (ps + {p})
    {
      if q != p {
        assert q in s - {p};
      }
    }
  }

  lemma PathsSnoc(t: Target, layers: seq<Layer>)
    requires layers != []
    ensures Paths(t, layers) == Paths(t, layers[..|layers| - 1]) + {PathOf(t, layers[|layers| - 1].name)}
  {
    var init := layers[..|layers| - 1];
    forall q | q in Paths(t, layers)
      ensures q in Paths(t, init) + {PathOf(t, layers[|layers| - 1].name)}
    {
      var i :| 0 <= i < |layers| && q == PathOf(t, layers[i].name);
      if i < |init| {
        assert init[i] == layers[i];
      }
    }
    forall q | q in Paths(t, init)
      ensures q in Paths(t, layers)
    {
      var i :| 0 <= i < |init| && q == PathOf(t, init[i].name);
      assert layers[i] == init[i];
    }
  }

  /** Why a write call was made: a clip only for a layer that passed the test, a delete only
      for a clipped layer counted empty, a creation only in a dataset with a passing layer. */
  predicate Justified(t: Target, layers: seq<Layer>, op: Op) {
    match op
    case ClipOp(p) =>
      exists i :: 0 <= i < |layers| && p == PathOf(t, layers[i].name) && HasIntersection(layers[i].selection)
    case DeleteOp(p) =>
      exists i :: 0 <= i < |layers| && p == PathOf(t, layers[i].name) && HasIntersection(layers[i].selection) &&
        layers[i].clip.Clipped? && IsEmpty(layers[i].clip.rows)
    case CreateOp(ds) =>
      t.InDataset? && ds == t.ds && exists i :: 0 <= i < |layers| && HasIntersection(layers[i].selection)
  }

  lemma JustifiedExtends(t: Target, layers: seq<Layer>, n: nat, op: Op)
    requires n <= |layers| && Justified(t, layers[..n], op)
    ensures Justified(t, layers, op)
  {
    match op
    case ClipOp(p) =>
      var i :| 0 <= i < n && p == PathOf(t, layers[..n][i].name) && HasIntersection(layers[..n][i].selection);
      assert layers[..n][i] == layers[i];
    case DeleteOp(p) =>
      var i :| 0 <= i < n && p == PathOf(t, layers[..n][i].name) && HasIntersection(layers[..n][i].selection) &&
        layers[..n][i].clip.Clipped? && IsEmpty(layers[..n][i].clip.rows);
      assert layers[..n][i] == layers[i];
    case CreateOp(ds) =>
      var i :| 0 <= i < n && HasIntersection(layers[..n][i].selection);
      assert layers[..n][i] == layers[i];
  }

  /** A layer loop only appends to the log, and every call it appends is justified. */
  lemma {:induction false} FoldLog(locked: set<Path>, t: Target, c: Cursor, layers: seq<Layer>)
    ensures var r := LayerFold(locked, t, c, layers);
            |c.out.log| <= |r.out.log| && r.out.log[..|c.out.log|] == c.out.log &&
            forall k :: |c.out.log| <= k < |r.out.log| ==> Justified(t, layers, r.out.log[k])
    decreases |layers|
  {
    if layers != [] {
      var n := |layers| - 1;
      var init := layers[..n];
      var x := layers[n];
      FoldLog(locked, t, c, init);
      var s := LayerFold(locked, t, c, init);
      var r := LayerStep(locked, t, s, x);
      assert init == layers[..n];
      forall k | |c.out.log| <= k < |s.out.log|
        ensures Justified(t, layers, s.out.log[k])
      {
        JustifiedExtends(t, layers, n, s.out.log[k]);
      }
      StepLog(locked, t, s, x);
      var calls := StepCalls(t, s, x);
      assert r.out.log == s.out.log + calls;
      StepCallsJustified(t, s, layers);
      forall k | |s.out.log| <= k < |r.out.log|
        ensures Justified(t, layers, r.out.log[k])
      {
        assert r.out.log[k] == calls[k - |s.out.log|];
      }
      assert r.out.log[..|c.out.log|] == s.out.log[..|c.out.log|];
    }
  }

  /** Whether the log holds a creation of `ds` at a position from `lo` up to, not including, `hi`. */
  predicate CreatedIn(log: seq<Op>, lo: nat, hi: nat, ds: string) {
    exists j :: lo <= j < hi && j < |log| && log[j] == CreateOp(ds)
  }

  /** In a dataset's layer loop, starting with the flag cleared, the dataset is created
      before anything is clipped into it: every clip the loop makes comes after a creation
      call the loop made, and the flag ends set only after such a call. */
  lemma {:induction false} FoldCreateBeforeClip(locked: set<Path>, t: Target, c: Cursor, layers: seq<Layer>)
    requires t.InDataset? && !c.created
    ensures var r := LayerFold(locked, t, c, layers);
            var n0 := |c.out.log|;
            (r.created ==> CreatedIn(r.out.log, n0, |r.out.log|, t.ds)) &&
            forall k :: n0 <= k < |r.out.log| && r.out.log[k].ClipOp? ==> CreatedIn(r.out.log, n0, k, t.ds)
    decreases |layers|
  {
    if layers != [] {
      var init := layers[..|layers| - 1];
      var x := layers[|layers| - 1];
      var n0 := |c.out.log|;
      FoldCreateBeforeClip(locked, t, c, init);
      FoldLog(locked, t, c, init);
      var s := LayerFold(locked, t, c, init);
      var r := LayerStep(locked, t, s, x);
      StepLog(locked, t, s, x);
      var calls := StepCalls(t, s, x);
      assert r.out.log == s.out.log + calls;
      var m := |s.out.log|;
      if s.created {
        var j :| n0 <= j < m && j < |s.out.log| && s.out.log[j] == CreateOp(t.ds);
        assert r.out.log[j] == CreateOp(t.ds);
      } else if HasIntersection(x.selection) {
        assert calls[0] == CreateOp(t.ds);
        assert r.out.log[m] == CreateOp(t.ds);
      }
      forall k | n0 <= k < |r.out.log| && r.out.log[k].ClipOp?
        ensures CreatedIn(r.out.log, n0, k, t.ds)
      {
        if k < m {
          assert r.out.log[k] == s.out.log[k];
          var j :| n0 <= j < k && j < |s.out.log| && s.out.log[j] == CreateOp(t.ds);
          assert r.out.log[j] == CreateOp(t.ds);
        } else if !s.created {
          assert r.out.log[k] == calls[k - m];
          assert k != m;
        }
      }
    }
  }

  /** Every call the last layer's step makes is justified by that layer. */
  lemma StepCallsJustified(t: Target, c: Cursor, layers: seq<Layer>)
    requires layers != []
    ensures var x := layers[|layers| - 1];
            forall op :: op in StepCalls(t, c, x) ==> Justified(t, layers, op)
  {
    var n := |layers| - 1;
    var x := layers[n];
    forall op | op in StepCalls(t, c, x)
      ensures Justified(t, layers, op)
    {
      assert HasIntersection(x.selection);
    }
  }

  /** The calls one clip step makes: the clip, then a delete if the result was counted empty. */
  function ClipCalls(p: Path, clip: ClipOutcome): seq<Op> {
    [ClipOp(p)] + (if clip.Clipped? && IsEmpty(clip.rows) then [DeleteOp(p)] else [])
  }

  /** The calls one pass of a layer loop makes. */
  function StepCalls(t: Target, c: Cursor, x: Layer): seq<Op> {
    if !HasIntersection(x.selection) then []
    else if t.InDataset? && !c.created then
      [CreateOp(t.ds)] + (if t.creatable then ClipCalls(PathOf(t, x.name), x.clip) else [])
    else ClipCalls(PathOf(t, x.name), x.clip)
  }

  lemma StepLog(locked: set<Path>, t: Target, c: Cursor, x: Layer)
    ensures LayerStep(locked, t, c, x).out.log == c.out.log + StepCalls(t, c, x)
  {
    var p := PathOf(t, x.name);
    if HasIntersection(x.selection) {
      if t.InDataset? && !c.created {
        assert c.out.log + [CreateOp(t.ds)] + ClipCalls(p, x.clip) == c.out.log + ([CreateOp(t.ds)] + ClipCalls(p, x.clip));
      }
    } else {
      assert c.out.log + [] == c.out.log;
    }
  }

  /** One step appends one clip call for its own path when the layer passes and can be
      written, and one creation call when it is the dataset's first attempt. */
  lemma StepCounts(locked: set<Path>, t: Target, c: Cursor, x: Layer, q: Path, d: string)
    ensures var r := LayerStep(locked, t, c, x);
            multiset(r.out.log)[ClipOp(q)] == multiset(c.out.log)[ClipOp(q)] +
              (if q == PathOf(t, x.name) && HasIntersection(x.selection) && CanWrite(t, c) then 1 else 0)
    ensures var r := LayerStep(locked, t, c, x);
            multiset(r.out.log)[CreateOp(d)] == multiset(c.out.log)[CreateOp(d)] +
              (if t.InDataset? && d == t.ds && HasIntersection(x.selection) && !c.created then 1 else 0)
  {
    StepLog(locked, t, c, x);
    var calls := StepCalls(t, c, x);
    assert multiset(c.out.log + calls) == multiset(c.out.log) + multiset(calls);
    CallCounts(t, c, x, q, d);
  }

  lemma CallCounts(t: Target, c: Cursor, x: Layer, q: Path, d: string)
    ensures multiset(StepCalls(t, c, x))[ClipOp(q)] ==
            (if q == PathOf(t, x.name) && HasIntersection(x.selection) && CanWrite(t, c) then 1 else 0)
    ensures multiset(StepCalls(t, c, x))[CreateOp(d)] ==
            (if t.InDataset? && d == t.ds && HasIntersection(x.selection) && !c.created then 1 else 0)
  {
    var p := PathOf(t, x.name);
    var cc := ClipCalls(p, x.clip);
    assert multiset(cc)[ClipOp(q)] == (if q == p then 1 else 0);
    assert multiset(cc)[CreateOp(d)] == 0;
    if HasIntersection(x.selection) && t.InDataset? && !c.created {
      var pre := [CreateOp(t.ds)];
      var rest: seq<Op> := if t.creatable then cc else [];
      assert StepCalls(t, c, x) == pre + rest;
      assert multiset(pre + rest) == multiset(pre) + multiset(rest);
    }
  }

  /** A layer loop makes no clip call on a path outside its layers. */
  lemma {:induction false} FoldClipCountOther(locked: set<Path>, t: Target, c: Cursor, layers: seq<Layer>, q: Path)
    requires forall k :: 0 <= k < |layers| ==> PathOf(t, layers[k].name) != q
    ensures multiset(LayerFold(locked, t, c, layers).out.log)[ClipOp(q)] == multiset(c.out.log)[ClipOp(q)]
    decreases |layers|
  {
    if layers != [] {
      var init := layers[..|layers| - 1];
      assert forall k :: 0 <= k < |init| ==> init[k] == layers[k];
      FoldClipCountOther(locked, t, c, init, q);
      StepCounts(locked, t, LayerFold(locked, t, c, init), layers[|layers| - 1], q, "");
    }
  }

  /** With distinct names, each layer that passes the test and can be written is clipped
      exactly once, and every other layer not at all. */
  lemma {:induction false} FoldClipCount(locked: set<Path>, t: Target, c: Cursor, layers: seq<Layer>, i: nat)
    requires DistinctNames(layers) && i < |layers|
    ensures var q := PathOf(t, layers[i].name);
            multiset(LayerFold(locked, t, c, layers).out.log)[ClipOp(q)] ==
            multiset(c.out.log)[ClipOp(q)] + (if HasIntersection(layers[i].selection) && CanWrite(t, c) then 1 else 0)
    decreases |layers|
  {
    var n := |layers| - 1;
    var init := layers[..n];
    var x := layers[n];
    var q := PathOf(t, layers[i].name);
    var s := LayerFold(locked, t, c, init);
    assert LayerFold(locked, t, c, layers) == LayerStep(locked, t, s, x);
    StepCounts(locked, t, s, x, q, "");
    if i == n {
      LastPathFresh(t, layers);
      FoldClipCountOther(locked, t, c, init, q);
      FoldCreated(locked, t, c, init);
      assert CanWrite(t, s) == CanWrite(t, c);
    } else {
      assert init[i] == layers[i];
      DistinctPrefix(layers);
      FoldClipCount(locked, t, c, init, i);
      assert PathOf(t, x.name) != q by {
        assert layers[i].name != x.name;
      }
    }
  }

  lemma DistinctPrefix(layers: seq<Layer>)
    requires DistinctNames(layers) && layers != []
    ensures DistinctNames(layers[..|layers| - 1])
  {
    var init := layers[..|layers| - 1];
    forall i, j | 0 <= i < j < |init|
      ensures init[i].name != init[j].name
    {
      assert init[i] == layers[i] && init[j] == layers[j];
    }
  }

  /** Lazy creation, counted: with no passing layer the dataset is never created; with
      one, creation is attempted once when it works and once per passing layer when it
      fails. */
  lemma {:induction false} FoldCreateCount(locked: set<Path>, t: Target, c: Cursor, layers: seq<Layer>)
    requires t.InDataset?
    ensures multiset(LayerFold(locked, t, c, layers).out.log)[CreateOp(t.ds)] ==
            multiset(c.out.log)[CreateOp(t.ds)] +
            (if c.created || Hits(layers) == 0 then 0 else if t.creatable then 1 else Hits(layers))
    decreases |layers|
  {
    if layers != [] {
      var init := layers[..|layers| - 1];
      FoldCreateCount(locked, t, c, init);
      FoldCreated(locked, t, c, init);
      StepCounts(locked, t, LayerFold(locked, t, c, init), layers[|layers| - 1], Root(""), t.ds);
    }
  }

  /** A layer loop leaves every item outside its layers' paths as it was. */
  lemma {:induction false} FoldFrame(locked: set<Path>, t: Target, c: Cursor, layers: seq<Layer>, q: Path)
    requires q !in Paths(t, layers)
    ensures q in LayerFold(locked, t, c, layers).out.items <==> q in c.out.items
    decreases |layers|
  {
    if layers != [] {
      var init := layers[..|layers| - 1];
      assert q != PathOf(t, layers[|layers| - 1].name);
      assert q !in Paths(t, init) by {
        assert forall k :: 0 <= k < |init| ==> init[k] == layers[k];
      }
      FoldFrame(locked, t, c, init, q);
      StepItems(locked, t, LayerFold(locked, t, c, init), layers[|layers| - 1]);
    }
  }

  /** A layer loop adds its dataset to the output exactly when it creates it. */
  lemma {:induction false} FoldDatasets(locked: set<Path>, t: Target, c: Cursor, layers: seq<Layer>)
    ensures LayerFold(locked, t, c, layers).out.datasets ==
            c.out.datasets + (if t.InDataset? && !c.created && t.creatable && Hits(layers) > 0 then {t.ds} else {})
    decreases |layers|
  {
    if layers != [] {
      var init := layers[..|layers| - 1];
      FoldDatasets(locked, t, c, init);
      FoldCreated(locked, t, c, init);
    }
  }

  /** Whether processing the dataset `ds` creates it in the output. */
  predicate Created(input: InputGdb, ds: string) {
    ds in input.datasets && input.datasets[ds].describable && input.datasets[ds].creatable &&
    Hits(input.datasets[ds].layers) > 0
  }

  lemma {:induction false} DatasetFoldEffect(locked: set<Path>, input: InputGdb, o: Out, names: seq<string>)
    ensures var r := DatasetFold(locked, input, o, names);
            (forall d :: d in r.datasets <==> d in o.datasets || (d in names && Created(input, d))) &&
            (forall n :: Root(n) in r.items <==> Root(n) in o.items)
    decreases |names|
  {
    if names != [] {
      var init := names[..|names| - 1];
      var ds := names[|names| - 1];
      DatasetFoldEffect(locked, input, o, init);
      var s := DatasetFold(locked, input, o, init);
      assert names == init + [ds];
      if ds in input.datasets && input.datasets[ds].describable {
        var info := input.datasets[ds];
        var t := InDataset(ds, info.creatable);
        FoldDatasets(locked, t, Cursor(s, false), info.layers);
        forall n
          ensures Root(n) in DatasetStep(locked, input, s, ds).items <==> Root(n) in s.items
        {
          FoldFrame(locked, t, Cursor(s, false), info.layers, Root(n));
        }
      }
    }
  }

  /** `clip_layers`, for datasets and root feature classes: the output gains exactly the
      datasets that get created (the listed, describable, creatable ones with a passing
      layer, kept even when every clipped layer is pruned), and, starting from an output
      without them, a root feature class is present afterwards exactly when it survives its
      clip. */
  lemma ClipAllEffect(locked: set<Path>, input: InputGdb, o: Out)
    requires DistinctNames(input.rootLayers)
    requires forall i :: 0 <= i < |input.rootLayers| ==> Root(input.rootLayers[i].name) !in o.items
    ensures var r := ClipAll(locked, input, o);
            (forall d :: d in r.datasets <==> d in o.datasets || (d in AllDatasets(input.listing) && Created(input, d))) &&
            (forall i :: 0 <= i < |input.rootLayers| ==>
              (Root(input.rootLayers[i].name) in r.items <==> Survives(locked, input.rootLayers[i], Root(input.rootLayers[i].name))))
  {
    var c := Cursor(o, true);
    FoldItems(locked, AtRoot, c, input.rootLayers);
    FoldDatasets(locked, AtRoot, c, input.rootLayers);
    var o1 := LayerFold(locked, AtRoot, c, input.rootLayers).out;
    DatasetFoldEffect(locked, input, o1, AllDatasets(input.listing));
  }

  /** Whether the output of layer `n` of dataset `ds` is left once that dataset is processed:
      the dataset exists, is describable and can be created, and a layer of that name
      survives its clip. */
  predicate NestedKept(locked: set<Path>, input: InputGdb, ds: string, n: string) {
    ds in input.datasets && input.datasets[ds].describable && input.datasets[ds].creatable &&
    exists i :: 0 <= i < |input.datasets[ds].layers| && input.datasets[ds].layers[i].name == n &&
      Survives(locked, input.datasets[ds].layers[i], Nested(ds, n))
  }

  lemma {:induction false} DatasetFoldAppend(locked: set<Path>, input: InputGdb, o: Out, a: seq<string>, b: seq<string>)
    ensures DatasetFold(locked, input, o, a + b) == DatasetFold(locked, input, DatasetFold(locked, input, o, a), b)
    decreases |b|
  {
    if b == [] {
      assert a + b == a;
    } else {
      assert (a + b)[..|a + b| - 1] == a + b[..|b| - 1];
      DatasetFoldAppend(locked, input, o, a, b[..|b| - 1]);
    }
  }

  /** Processing another dataset leaves the outputs of `ds` as they were. */
  lemma DatasetStepOther(locked: set<Path>, input: InputGdb, s: Out, other: string, ds: string, n: string)
    requires other != ds
    ensures Nested(ds, n) in DatasetStep(locked, input, s, other).items <==> Nested(ds, n) in s.items
  {
    if other in input.datasets && input.datasets[other].describable {
      var info := input.datasets[other];
      var t := InDataset(other, info.creatable);
      assert Nested(ds, n) !in Paths(t, info.layers);
      FoldFrame(locked, t, Cursor(s, false), info.layers, Nested(ds, n));
    }
  }

  lemma {:induction false} DatasetFoldOther(locked: set<Path>, input: InputGdb, o: Out, names: seq<string>, ds: string, n: string)
    requires ds !in names
    ensures Nested(ds, n) in DatasetFold(locked, input, o, names).items <==> Nested(ds, n) in o.items
    decreases |names|
  {
    if names != [] {
      var init := names[..|names| - 1];
      assert names[|names| - 1] in names;
      assert forall x :: x in init ==> x in names;
      DatasetFoldOther(locked, input, o, init, ds, n);
      DatasetStepOther(locked, input, DatasetFold(locked, input, o, init), names[|names| - 1], ds, n);
    }
  }

  /** Processing `ds` on an output without its layers leaves exactly the layers that are kept. */
  lemma DatasetStepNested(locked: set<Path>, input: InputGdb, s: Out, ds: string, n: string)
    requires ds in input.datasets ==> DistinctNames(input.datasets[ds].layers)
    requires forall m :: Nested(ds, m) !in s.items
    ensures Nested(ds, n) in DatasetStep(locked, input, s, ds).items <==> NestedKept(locked, input, ds, n)
  {
    if ds in input.datasets && input.datasets[ds].describable {
      var info := input.datasets[ds];
      var t := InDataset(ds, info.creatable);
      var c := Cursor(s, false);
      FoldItems(locked, t, c, info.layers);
      var r := LayerFold(locked, t, c, info.layers).out.items;
      if Nested(ds, n) in r {
        assert Nested(ds, n) in Paths(t, info.layers);
        var i :| 0 <= i < |info.layers| && Nested(ds, n) == PathOf(t, info.layers[i].name);
        assert info.layers[i].name == n;
      }
    }
  }

  /** A name occurring at most once is absent on either side of its occurrence. */
  lemma OnceAround(names: seq<string>, k: nat, ds: string)
    requires k < |names| && names[k] == ds && multiset(names)[ds] <= 1
    ensures ds !in names[..k] && ds !in names[k + 1..]
  {
    assert names == (names[..k] + [ds]) + names[k + 1..];
    assert multiset(names) == multiset(names[..k]) + multiset{ds} + multiset(names[k + 1..]);
  }

  /** The dataset loop over names listing `ds` once, on an output without its layers. */
  lemma DatasetFoldOnce(locked: set<Path>, input: InputGdb, o: Out, names: seq<string>, ds: string, n: string)
    requires ds in names && multiset(names)[ds] <= 1
    requires ds in input.datasets ==> DistinctNames(input.datasets[ds].layers)
    requires forall m :: Nested(ds, m) !in o.items
    ensures Nested(ds, n) in DatasetFold(locked, input, o, names).items <==> NestedKept(locked, input, ds, n)
  {
    var k :| 0 <= k < |names| && names[k] == ds;
    var a, b := names[..k], names[k + 1..];
    OnceAround(names, k, ds);
    assert names == (a + [ds]) + b;
    DatasetFoldAppend(locked, input, o, a + [ds], b);
    assert (a + [ds])[..|a|] == a;
    var s := DatasetFold(locked, input, o, a);
    forall m
      ensures Nested(ds, m) !in s.items
    {
      DatasetFoldOther(locked, input, o, a, ds, m);
    }
    DatasetStepNested(locked, input, s, ds, n);
    DatasetFoldOther(locked, input, DatasetStep(locked, input, s, ds), b, ds, n);
  }

  /** The outputs of the layers of a dataset listed at most once, starting from an output
      without them: after the whole of `clip_layers`, the output of layer `n` of `ds` is
      present exactly when `ds` is listed and the layer is kept; the root stage and the
      other datasets do not touch it. */
  lemma ClipAllNested(locked: set<Path>, input: InputGdb, o: Out, ds: string, n: string)
    requires multiset(AllDatasets(input.listing))[ds] <= 1
    requires ds in input.datasets ==> DistinctNames(input.datasets[ds].layers)
    requires forall m :: Nested(ds, m) !in o.items
    ensures Nested(ds, n) in ClipAll(locked, input, o).items <==>
            ds in AllDatasets(input.listing) && NestedKept(locked, input, ds, n)
  {
    var o1 := LayerFold(locked, AtRoot, Cursor(o, true), input.rootLayers).out;
    forall m
      ensures Nested(ds, m) !in o1.items
    {
      FoldFrame(locked, AtRoot, Cursor(o, true), input.rootLayers, Nested(ds, m));
    }
    var names := AllDatasets(input.listing);
    if ds !in names {
      if names != [] {
        DatasetFoldOther(locked, input, o1, names, ds, n);
      }
    } else {
      DatasetFoldOnce(locked, input, o1, names, ds, n);
    }
  }

  // ----- delete_unwanted_files -----

  function TemplatePaths(i: nat): set<Path> {
    set k | i <= k < |Templates| :: Root(Templates[k])
  }

  /** Only the templates go, each only if present, and only by delete calls; with no delete
      raising, none of them is left. Nothing else changes. */
  lemma {:induction false} DeleteTemplatesEffect(locked: set<Path>, o: Out, i: nat)
    requires i <= |Templates|
    ensures var r := DeleteTemplates(locked, o, i);
            r.datasets == o.datasets && r.items <= o.items && o.items - r.items <= TemplatePaths(i) &&
            |o.log| <= |r.log| && r.log[..|o.log|] == o.log &&
            (forall k :: |o.log| <= k < |r.log| ==> r.log[k].DeleteOp? && r.log[k].path in TemplatePaths(i) * o.items) &&
            (TemplatePaths(i) * locked == {} ==> r.items == o.items - TemplatePaths(i))
    decreases |Templates| - i
  {
    if i < |Templates| {
      var p := Root(Templates[i]);
      assert TemplatePaths(i) == {p} + TemplatePaths(i + 1);
      assert TemplatePaths(i + 1) <= TemplatePaths(i);
      if p !in o.items {
        DeleteTemplatesEffect(locked, o, i + 1);
        assert DeleteTemplates(locked, o, i) == DeleteTemplates(locked, o, i + 1);
        assert o.items - TemplatePaths(i + 1) == o.items - TemplatePaths(i);
      } else if p in locked {
        var r := DeleteTemplates(locked, o, i);
        assert r == o.(log := o.log + [DeleteOp(p)]);
        assert r.log[..|o.log|] == o.log;
        assert |r.log| == |o.log| + 1 && r.log[|o.log|] == DeleteOp(p);
        assert p in TemplatePaths(i) * o.items;
        assert p in TemplatePaths(i) * locked;
      } else {
        var o' := o.(items := o.items - {p}, log := o.log + [DeleteOp(p)]);
        DeleteTemplatesEffect(locked, o', i + 1);
        var r := DeleteTemplates(locked, o', i + 1);
        assert r.log[..|o'.log|] == o'.log;
        assert r.log[..|o.log|] == o.log;
        assert r.log[|o.log|] == DeleteOp(p);
        assert (o.items - {p}) - TemplatePaths(i + 1) == o.items - TemplatePaths(i);
      }
    } else {
      assert TemplatePaths(i) == {};
    }
  }

  /** The templates from `i` up to, not including, `j`. */
  function TemplatesBetween(i: nat, j: nat): set<Path> {
    set k | i <= k < j && k < |Templates| :: Root(Templates[k])
  }

  /** A raising delete ends the loop: when template `j` is the first present template whose
      delete raises, exactly the present templates before it are gone, it and the later
      ones are left, and its delete is the last call made. */
  lemma {:induction false} DeleteTemplatesStops(locked: set<Path>, o: Out, i: nat, j: nat)
    requires i <= j < |Templates|
    requires Root(Templates[j]) in o.items * locked
    requires forall k :: i <= k < j ==> Root(Templates[k]) !in o.items * locked
    ensures var r := DeleteTemplates(locked, o, i);
            r.items == o.items - TemplatesBetween(i, j) &&
            |o.log| < |r.log| && r.log[|r.log| - 1] == DeleteOp(Root(Templates[j]))
    decreases j - i
  {
    var p := Root(Templates[i]);
    if i == j {
      assert TemplatesBetween(i, j) == {};
    } else {
      assert Templates[i] != Templates[j];
      assert TemplatesBetween(i, j) == {p} + TemplatesBetween(i + 1, j);
      if p !in o.items {
        DeleteTemplatesStops(locked, o, i + 1, j);
      } else {
        var o' := o.(items := o.items - {p}, log := o.log + [DeleteOp(p)]);
        DeleteTemplatesStops(locked, o', i + 1, j);
      }
    }
  }

  // ----- get_unique_gdb_name -----

  /** Different counters give different paths in the same folder. */
  lemma CandidateInjective(folder: string, a: nat, b: nat)
    requires Candidate(folder, a) == Candidate(folder, b)
    ensures a == b
  {
    var j := JoinPrefix(folder);
    var pre := j + "CartoBase_";
    var sa := NatToString(a);
    var sb := NatToString(b);
    assert Candidate(folder, a) == pre + sa + ".gdb";
    assert Candidate(folder, b) == pre + sb + ".gdb";
    assert |sa| == |sb|;
    assert sa == Candidate(folder, a)[|pre|..|pre| + |sa|];
    assert sb == Candidate(folder, b)[|pre|..|pre| + |sb|];
    NatToStringInjective(a, b);
  }

  /** The paths tried before counter `c`. */
  function Tried(folder: string, c: nat): set<string> {
    set k | 1 <= k < c :: Candidate(folder, k)
  }

  lemma TriedMembers(folder: string, c: nat)
    ensures forall k :: 1 <= k < c ==> Candidate(folder, k) in Tried(folder, c)
  {
  }

  /** Trying counter `c` adds one path not tried before. */
  lemma TriedGrows(folder: string, c: nat)
    requires c >= 1
    ensures Candidate(folder, c) !in Tried(folder, c)
    ensures Tried(folder, c + 1) == Tried(folder, c) + {Candidate(folder, c)}
  {
    if Candidate(folder, c) in Tried(folder, c) {
      var k :| 1 <= k < c && Candidate(folder, k) == Candidate(folder, c);
      CandidateInjective(folder, k, c);
    }
  }
}
