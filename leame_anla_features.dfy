/** Leame/LeameAnlaFeatures.py: the same tree listing and report as the first script, and in
    `main` the search for feature classes without rows in every geodatabase of the project's
    GDB folder, grouped by geodatabase, root and feature dataset. The engine is a value: what
    `GetCount` prints for each feature class and its `Describe(...).aliasName`, each of which
    may raise. */
module LeameAnlaFeatures {
  import opened Common
  import opened Text
  import DirTree
  import FolderReport
  import LeameV1Carpetas

  /** `listar_contenido` and `generar_arbol_principal` here are those of the first script. */
  const Tree: DirTree.Style := LeameV1Carpetas.Tree
  const Report: FolderReport.ReportStyle := LeameV1Carpetas.Report

  /** A feature class: `GetCount(fc).getOutput(0)` and the alias (`None`: the call raises). */
  datatype FeatureClass = FeatureClass(name: string, countOutput: Option<string>, alias: Option<string>)

  /** A feature dataset (`classes == None`: listing its feature classes raises). */
  datatype Dataset = Dataset(name: string, classes: Option<seq<FeatureClass>>)

  /** An entry of the GDB folder and what listing its root feature classes and its datasets gives. */
  datatype GdbEntry = GdbEntry(name: string, isDir: bool, rootClasses: Option<seq<FeatureClass>>, datasets: Option<seq<Dataset>>)

  /** A recorded feature class: its name and the alias shown for it. */
  datatype EmptyClass = EmptyClass(name: string, alias: string)

  /** What is recorded for one geodatabase. */
  datatype EmptyGdb = EmptyGdb(root: seq<EmptyClass>, datasets: map<string, seq<EmptyClass>>)

  /** The count output is compared as text: only "0" means no rows. */
  predicate IsEmptyClass(fc: FeatureClass)
    requires fc.countOutput.Some?
  {
    fc.countOutput.value == "0"
  }

  /** `aliasName or fc`: an empty alias falls back to the name. */
  function ShownAlias(fc: FeatureClass): string
    requires fc.alias.Some?
  {
    if fc.alias.value == "" then fc.name else fc.alias.value
  }

  /** The empty feature classes of a list, in order, or `None` when a call raises. */
  function EmptyClasses(fcs: seq<FeatureClass>): Option<seq<EmptyClass>> {
    if fcs == [] then Some([])
    else
      var before := EmptyClasses(fcs[..|fcs| - 1]);
      var fc := fcs[|fcs| - 1];
      if before.None? || fc.countOutput.None? then None
      else if !IsEmptyClass(fc) then before
      else if fc.alias.None? then None
      else Some(before.value + [EmptyClass(fc.name, ShownAlias(fc))])
  }

  /** The datasets with an empty feature class, or `None` when a call raises. */
  function DatasetGroups(ds: seq<Dataset>): Option<map<string, seq<EmptyClass>>> {
    if ds == [] then Some(map[])
    else
      var before := DatasetGroups(ds[..|ds| - 1]);
      var d := ds[|ds| - 1];
      if before.None? || d.classes.None? then None
      else
        var found := EmptyClasses(d.classes.value);
        if found.None? then None
        else if found.value == [] then before
        else Some(before.value[d.name := found.value])
  }

  /** One geodatabase, or `None` when any call inside it raises. */
  function ScanGdb(g: GdbEntry): Option<EmptyGdb> {
    if g.rootClasses.None? then None
    else
      var root := EmptyClasses(g.rootClasses.value);
      if root.None? || g.datasets.None? then None
      else
        var groups := DatasetGroups(g.datasets.value);
        if groups.None? then None else Some(EmptyGdb(root.value, groups.value))
  }

  predicate IsGdbDir(g: GdbEntry) {
    EndsWith(Lower(g.name), ".gdb") && g.isDir
  }

  predicate HasEmpty(e: EmptyGdb) {
    e.root != [] || e.datasets != map[]
  }

  /** `feature_classes_sin_informacion` after the loop over the GDB folder's entries, keyed
      by entry name. */
  function EmptyReport(entries: seq<GdbEntry>): map<string, EmptyGdb> {
    if entries == [] then map[]
    else
      var before := EmptyReport(entries[..|entries| - 1]);
      var g := entries[|entries| - 1];
      if !IsGdbDir(g) then before
      else
        var scanned := ScanGdb(g);
        if scanned.Some? && HasEmpty(scanned.value) then before[g.name := scanned.value] else before
  }

  /** The inner loop over one list of feature classes. */
  method CollectEmpty(fcs: seq<FeatureClass>) returns (found: Option<seq<EmptyClass>>)
    ensures found == EmptyClasses(fcs)
  {
    var acc: seq<EmptyClass> := [];
    var i := 0;
    while i < |fcs|
      invariant 0 <= i <= |fcs|
      invariant EmptyClasses(fcs[..i]) == Some(acc)
    {
      var fc := fcs[i];
      assert fcs[..i + 1][..i] == fcs[..i];
      if fc.countOutput.None? {
        EmptyClassesStop(fcs, i + 1);
        return None;
      }
      if fc.countOutput.value == "0" {
        if fc.alias.None? {
          EmptyClassesStop(fcs, i + 1);
          return None;
        }
        var alias := if fc.alias.value == "" then fc.name else fc.alias.value;
        acc := acc + [EmptyClass(fc.name, alias)];
      }
      i := i + 1;
    }
    assert fcs[..|fcs|] == fcs;
    found := Some(acc);
  }

  /** The body of the loop over the GDB folder, inside its `try`. */
  method ScanOne(g: GdbEntry) returns (scanned: Option<EmptyGdb>)
    ensures scanned == ScanGdb(g)
  {
    if g.rootClasses.None? {
      return None;
    }
    var root := CollectEmpty(g.rootClasses.value);
    if root.None? || g.datasets.None? {
      return None;
    }
    var ds := g.datasets.value;
    var groups: map<string, seq<EmptyClass>> := map[];
    var i := 0;
    while i < |ds|
      invariant 0 <= i <= |ds|
      invariant DatasetGroups(ds[..i]) == Some(groups)
    {
      assert ds[..i + 1][..i] == ds[..i];
      if ds[i].classes.None? {
        DatasetGroupsStop(ds, i + 1);
        return None;
      }
      var found := CollectEmpty(ds[i].classes.value);
      if found.None? {
        DatasetGroupsStop(ds, i + 1);
        return None;
      }
      if found.value != [] {
        groups := groups[ds[i].name := found.value];
      }
      i := i + 1;
    }
    assert ds[..|ds|] == ds;
    scanned := Some(EmptyGdb(root.value, groups));
  }

  /** The loop of `main` over the GDB folder: a geodatabase whose scan raises is skipped. */
  method FindEmptyFeatureClasses(entries: seq<GdbEntry>) returns (report: map<string, EmptyGdb>)
    ensures report == EmptyReport(entries)
  {
    report := map[];
    var i := 0;
    while i < |entries|
      invariant 0 <= i <= |entries|
      invariant report == EmptyReport(entries[..i])
    {
      var g := entries[i];
      assert entries[..i + 1][..i] == entries[..i];
      if EndsWith(Lower(g.name), ".gdb") && g.isDir {
        var scanned := ScanOne(g);
        if scanned.Some? && (scanned.value.root != [] || scanned.value.datasets != map[]) {
          report := report[g.name := scanned.value];
        }
      }
      i := i + 1;
    }
    assert entries[..|entries|] == entries;
  }

  lemma {:induction false} EmptyClassesStop(fcs: seq<FeatureClass>, n: nat)
    requires n <= |fcs| && EmptyClasses(fcs[..n]).None?
    ensures EmptyClasses(fcs).None?
    decreases |fcs| - n
  {
    if n < |fcs| {
      assert fcs[..n + 1][..n] == fcs[..n];
      EmptyClassesStop(fcs, n + 1);
    } else {
      assert fcs[..n] == fcs;
    }
  }

  lemma {:induction false} DatasetGroupsStop(ds: seq<Dataset>, n: nat)
    requires n <= |ds| && DatasetGroups(ds[..n]).None?
    ensures DatasetGroups(ds).None?
    decreases |ds| - n
  {
    if n < |ds| {
      assert ds[..n + 1][..n] == ds[..n];
      DatasetGroupsStop(ds, n + 1);
    } else {
      assert ds[..n] == ds;
    }
  }

  /** The scan of a list of feature classes succeeds exactly when every count works and
      every empty class can be described; it then records exactly the classes whose count
      printed "0", each with its alias or, when that is empty, its name. */
  lemma {:induction false} EmptyClassesSpec(fcs: seq<FeatureClass>)
    ensures EmptyClasses(fcs).Some? <==>
            forall k :: 0 <= k < |fcs| ==> fcs[k].countOutput.Some? && (IsEmptyClass(fcs[k]) ==> fcs[k].alias.Some?)
    ensures EmptyClasses(fcs).Some? ==>
            (forall e :: e in EmptyClasses(fcs).value ==>
              exists k :: 0 <= k < |fcs| && fcs[k].countOutput == Some("0") && fcs[k].alias.Some? &&
                e == EmptyClass(fcs[k].name, ShownAlias(fcs[k]))) &&
            (forall k :: 0 <= k < |fcs| && fcs[k].countOutput == Some("0") && fcs[k].alias.Some? ==>
              EmptyClass(fcs[k].name, ShownAlias(fcs[k])) in EmptyClasses(fcs).value)
    decreases |fcs|
  {
    if fcs != [] {
      var init := fcs[..|fcs| - 1];
      EmptyClassesSpec(init);
      assert forall k :: 0 <= k < |init| ==> init[k] == fcs[k];
    }
  }

  /** A dataset is recorded only with at least one empty feature class, and then with the
      empty classes of a dataset of that name; every dataset with one is recorded. */
  lemma {:induction false} DatasetGroupsSpec(ds: seq<Dataset>)
    ensures DatasetGroups(ds).Some? ==>
            (forall d :: d in DatasetGroups(ds).value ==>
              DatasetGroups(ds).value[d] != [] &&
              exists k :: 0 <= k < |ds| && ds[k].name == d && ds[k].classes.Some? &&
                EmptyClasses(ds[k].classes.value) == Some(DatasetGroups(ds).value[d])) &&
            (forall k ::
              (0 <= k < |ds| && ds[k].classes.Some? && EmptyClasses(ds[k].classes.value).Some? &&
               EmptyClasses(ds[k].classes.value).value != []) ==> ds[k].name in DatasetGroups(ds).value)
    decreases |ds|
  {
    if ds != [] {
      var init := ds[..|ds| - 1];
      DatasetGroupsSpec(init);
      assert forall k :: 0 <= k < |init| ==> init[k] == ds[k];
    }
  }

  /** A geodatabase is recorded exactly when it is a ".gdb" directory whose scan raises
      nothing and finds an empty feature class at its root or in a dataset; a geodatabase
      whose scan raises is skipped without affecting the others. */
  lemma {:induction false} EmptyReportSpec(entries: seq<GdbEntry>)
    ensures forall n :: n in EmptyReport(entries) ==>
              HasEmpty(EmptyReport(entries)[n]) &&
              exists k :: 0 <= k < |entries| && entries[k].name == n && IsGdbDir(entries[k]) &&
                ScanGdb(entries[k]) == Some(EmptyReport(entries)[n])
    ensures forall k ::
              (0 <= k < |entries| && IsGdbDir(entries[k]) && ScanGdb(entries[k]).Some? &&
               HasEmpty(ScanGdb(entries[k]).value)) ==> entries[k].name in EmptyReport(entries)
    decreases |entries|
  {
    if entries != [] {
      var init := entries[..|entries| - 1];
      EmptyReportSpec(init);
      assert forall k :: 0 <= k < |init| ==> init[k] == entries[k];
    }
  }

  /** A dataset of a recorded geodatabase always lists an empty feature class. */
  lemma RecordedDatasetsHaveEmpty(entries: seq<GdbEntry>, n: string, d: string)
    requires n in EmptyReport(entries) && d in EmptyReport(entries)[n].datasets
    ensures EmptyReport(entries)[n].datasets[d] != []
  {
    EmptyReportSpec(entries);
    var k :| 0 <= k < |entries| && entries[k].name == n && IsGdbDir(entries[k]) &&
      ScanGdb(entries[k]) == Some(EmptyReport(entries)[n]);
    DatasetGroupsSpec(entries[k].datasets.value);
  }
}
