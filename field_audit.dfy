/** The field audit of Leame/LeameAnlaV3Campos.py: `analizar_campos` splits a table's fields
    into those holding some value and those holding none, `listar_aclaraciones` collects,
    geodatabase by geodatabase, the feature classes and tables with fields holding none,
    and the report picks a justification text per item by its name. The engine is a value:
    a table's field list and each field's column of values, where listing the fields or
    reading a column may raise. */
module FieldAudit {
  import opened Common
  import opened Text

  /** One value read by `arcpy.da.SearchCursor`: `None` or anything else. */
  datatype Cell = Null | Value

  /** A field with its type and its column of values (`None`: the cursor raises). */
  datatype Field = Field(name: string, ftype: string, column: Option<seq<Cell>>)

  /** A feature class or table (`fields == None`: `ListFields` raises). */
  datatype Table = Table(name: string, fields: Option<seq<Field>>)

  /** The two lists `analizar_campos` returns. */
  datatype Split = Split(withData: seq<string>, withoutData: seq<string>)

  predicate Analyzed(f: Field) {
    f.ftype != "Geometry" && f.ftype != "OID"
  }

  /** The fields looked at: all but the geometry and object-id ones, in order. */
  function Analyzable(fs: seq<Field>): (r: seq<Field>)
    ensures forall k :: 0 <= k < |r| ==> Analyzed(r[k]) && r[k] in fs
    ensures forall f :: f in fs && Analyzed(f) ==> f in r
  {
    if fs == [] then []
    else
      assert fs == [fs[0]] + fs[1..];
      (if Analyzed(fs[0]) then [fs[0]] else []) + Analyzable(fs[1..])
  }

  /** `all(v is None for v in valores)`: true for a column without rows. */
  predicate NoData(values: seq<Cell>) {
    forall k :: 0 <= k < |values| ==> values[k].Null?
  }

  /** The field loop: each field goes to one list; a raising cursor ends the loop and the
      lists keep what they had. */
  function Scan(fs: seq<Field>): Split {
    if fs == [] then Split([], [])
    else match fs[0].column
      case None => Split([], [])
      case Some(values) =>
        var rest := Scan(fs[1..]);
        if NoData(values) then Split(rest.withData, [fs[0].name] + rest.withoutData)
        else Split([fs[0].name] + rest.withData, rest.withoutData)
  }

  function Analysis(t: Table): Split {
    match t.fields
    case None => Split([], [])
    case Some(fs) => Scan(Analyzable(fs))
  }

  /** `analizar_campos`. */
  method AnalyzeFields(t: Table) returns (withData: seq<string>, withoutData: seq<string>)
    ensures Split(withData, withoutData) == Analysis(t)
  {
    if t.fields.None? {
      return [], [];
    }
    withData, withoutData := ScanFields(Analyzable(t.fields.value));
  }

  /** The field loop of `analizar_campos`, over the fields it looks at. */
  method ScanFields(fields: seq<Field>) returns (withData: seq<string>, withoutData: seq<string>)
    ensures Split(withData, withoutData) == Scan(fields)
  {
    withData, withoutData := [], [];
    var i := 0;
    while i < |fields|
      invariant 0 <= i <= |fields|
      invariant Scan(fields) == Split(withData + Scan(fields[i..]).withData, withoutData + Scan(fields[i..]).withoutData)
    {
      var f := fields[i];
      ScanAt(fields, i, withData, withoutData);
      if f.column.None? {
        return;
      }
      if NoData(f.column.value) {
        withoutData := withoutData + [f.name];
      } else {
        withData := withData + [f.name];
      }
      i := i + 1;
    }
    assert fields[i..] == [];
    assert withData + [] == withData && withoutData + [] == withoutData;
  }

  /** One turn of the field loop, with `a` and `b` the lists built so far. */
  lemma ScanAt(fs: seq<Field>, i: nat, a: seq<string>, b: seq<string>)
    requires i < |fs|
    ensures var s := Scan(fs[i..]);
            fs[i].column.None? ==> Split(a + s.withData, b + s.withoutData) == Split(a, b)
    ensures var s, t := Scan(fs[i..]), Scan(fs[i + 1..]);
            fs[i].column.Some? && NoData(fs[i].column.value) ==>
              Split(a + s.withData, b + s.withoutData) == Split(a + t.withData, (b + [fs[i].name]) + t.withoutData)
    ensures var s, t := Scan(fs[i..]), Scan(fs[i + 1..]);
            fs[i].column.Some? && !NoData(fs[i].column.value) ==>
              Split(a + s.withData, b + s.withoutData) == Split((a + [fs[i].name]) + t.withData, b + t.withoutData)
  {
    assert fs[i..][1..] == fs[i + 1..];
    var t := Scan(fs[i + 1..]);
    if fs[i].column.None? {
      assert a + [] == a && b + [] == b;
    } else if NoData(fs[i].column.value) {
      assert b + ([fs[i].name] + t.withoutData) == (b + [fs[i].name]) + t.withoutData;
    } else {
      assert a + ([fs[i].name] + t.withData) == (a + [fs[i].name]) + t.withData;
    }
  }

  // ----- what the split means -----

  /** The names of the fields whose column reads fine and holds no value (`noData`) or some. */
  function Keep(fs: seq<Field>, noData: bool): seq<string> {
    if fs == [] then []
    else
      (if fs[0].column.Some? && NoData(fs[0].column.value) == noData then [fs[0].name] else []) +
      Keep(fs[1..], noData)
  }

  predicate Readable(fs: seq<Field>) {
    forall k :: 0 <= k < |fs| ==> fs[k].column.Some?
  }

  /** When every column reads, the loop is the pair of filters: the fields with some value and
      the fields with none, each list in field order. */
  lemma {:induction false} ScanFilters(fs: seq<Field>)
    requires Readable(fs)
    ensures Scan(fs) == Split(Keep(fs, false), Keep(fs, true))
    decreases |fs|
  {
    if fs != [] {
      ScanFilters(fs[1..]);
    }
  }

  /** ... and then every field lands in exactly one of the two lists. */
  lemma {:induction false} KeepPartition(fs: seq<Field>)
    requires Readable(fs)
    ensures |Keep(fs, false)| + |Keep(fs, true)| == |fs|
    ensures forall k :: 0 <= k < |fs| ==> fs[k].name in Keep(fs, NoData(fs[k].column.value))
    decreases |fs|
  {
    if fs != [] {
      KeepPartition(fs[1..]);
      forall k | 1 <= k < |fs|
        ensures fs[k].name in Keep(fs, NoData(fs[k].column.value))
      {
        assert fs[1..][k - 1] == fs[k];
      }
    }
  }

  /** A raising cursor keeps the lists of the fields before it. */
  lemma {:induction false} ScanStopsAtFailure(fs: seq<Field>, j: nat)
    requires j < |fs| && fs[j].column.None?
    ensures Scan(fs) == Scan(fs[..j])
    decreases j
  {
    if j > 0 {
      ScanStopsAtFailure(fs[1..], j - 1);
      assert fs[1..][..j - 1] == fs[..j][1..];
    }
  }

  /** Every reported name is that of a field whose column reads and holds some value (first
      list) or no value (second list). */
  lemma {:induction false} ScanSound(fs: seq<Field>)
    ensures forall x :: x in Scan(fs).withData ==>
              exists k :: 0 <= k < |fs| && fs[k].name == x && fs[k].column.Some? && !NoData(fs[k].column.value)
    ensures forall x :: x in Scan(fs).withoutData ==>
              exists k :: 0 <= k < |fs| && fs[k].name == x && fs[k].column.Some? && NoData(fs[k].column.value)
    decreases |fs|
  {
    if fs != [] && fs[0].column.Some? {
      ScanSound(fs[1..]);
      forall k | 0 <= k < |fs| - 1
        ensures fs[1..][k] == fs[k + 1]
      {
      }
    }
  }

  /** `analizar_campos` never reports a geometry or object-id field, and reports a field as
      holding no data only when none of its values (possibly none at all) is set. */
  lemma AnalysisSound(t: Table)
    ensures forall x :: x in Analysis(t).withData ==>
              exists f :: f in t.fields.value && Analyzed(f) && f.name == x && f.column.Some? && !NoData(f.column.value)
    ensures forall x :: x in Analysis(t).withoutData ==>
              exists f :: f in t.fields.value && Analyzed(f) && f.name == x && f.column.Some? && NoData(f.column.value)
  {
    if t.fields.Some? {
      ScanSound(Analyzable(t.fields.value));
    }
  }

  // ----- listar_aclaraciones -----

  /** A feature dataset (`classes == None`: `ListFeatureClasses` raises). */
  datatype FeatureDataset = FeatureDataset(name: string, classes: Option<seq<Table>>)

  /** An entry of the GDB folder: its name, and what listing its datasets and tables gives. */
  datatype Gdb = Gdb(name: string, datasets: Option<seq<FeatureDataset>>, tables: Option<seq<Table>>)

  /** An item with the fields that hold no data. */
  datatype Item = Item(name: string, emptyFields: seq<string>)

  /** One entry of the clarifications: geodatabase, group (dataset name or "Tablas"), kind, items. */
  datatype Clarification = Clarification(gdb: string, group: string, kind: string, items: seq<Item>)

  /** The collected entries, and whether the scan got through without an exception. */
  datatype Progress = Progress(entries: seq<Clarification>, completed: bool)

  /** The tables with a field holding no data, each with those fields, in order. */
  function EmptyItems(ts: seq<Table>): (r: seq<Item>)
    ensures forall k :: 0 <= k < |r| ==> r[k].emptyFields != []
  {
    if ts == [] then []
    else
      var w := Analysis(ts[|ts| - 1]).withoutData;
      EmptyItems(ts[..|ts| - 1]) + (if w != [] then [Item(ts[|ts| - 1].name, w)] else [])
  }

  /** The entry for a list of items, present only when some item has an empty field. */
  function EntryFor(gdb: string, group: string, kind: string, items: seq<Item>): seq<Clarification> {
    if items != [] then [Clarification(gdb, group, kind, items)] else []
  }

  /** The dataset loop of one geodatabase. */
  function DatasetEntries(gdb: string, ds: seq<FeatureDataset>): Progress {
    if ds == [] then Progress([], true)
    else
      var before := DatasetEntries(gdb, ds[..|ds| - 1]);
      var d := ds[|ds| - 1];
      if !before.completed then before
      else if d.classes.None? then Progress(before.entries, false)
      else Progress(before.entries + EntryFor(gdb, d.name, "FeatureClass", EmptyItems(d.classes.value)), true)
  }

  /** One geodatabase: its datasets, then its stand-alone tables. */
  function GdbEntries(g: Gdb): Progress {
    if g.datasets.None? then Progress([], false)
    else
      var p := DatasetEntries(g.name, g.datasets.value);
      if !p.completed then p
      else if g.tables.None? then Progress(p.entries, false)
      else Progress(p.entries + EntryFor(g.name, "Tablas", "Table", EmptyItems(g.tables.value)), true)
  }

  predicate IsGdbName(name: string) {
    EndsWith(Lower(name), ".gdb")
  }

  /** The geodatabase loop: entries whose name ends in ".gdb", until an exception. */
  function FolderEntries(gs: seq<Gdb>): Progress {
    if gs == [] then Progress([], true)
    else
      var before := FolderEntries(gs[..|gs| - 1]);
      var g := gs[|gs| - 1];
      if !before.completed || !IsGdbName(g.name) then before
      else
        var p := GdbEntries(g);
        Progress(before.entries + p.entries, p.completed)
  }

  /** `listar_aclaraciones` on the GDB folder (`None`: listing the folder raises). */
  function Clarifications(folder: Option<seq<Gdb>>): seq<Clarification> {
    if folder.None? then [] else FolderEntries(folder.value).entries
  }

  method EmptyItemsOf(ts: seq<Table>) returns (items: seq<Item>)
    ensures items == EmptyItems(ts)
  {
    items := [];
    var i := 0;
    while i < |ts|
      invariant 0 <= i <= |ts|
      invariant items == EmptyItems(ts[..i])
    {
      assert ts[..i + 1][..i] == ts[..i];
      var _, withoutData := AnalyzeFields(ts[i]);
      if withoutData != [] {
        items := items + [Item(ts[i].name, withoutData)];
      }
      i := i + 1;
    }
    assert ts[..|ts|] == ts;
  }

  /** The body of the geodatabase loop, appending to `acc`; `completed` is false when an
      exception ended the scan. */
  method ScanGdb(g: Gdb, acc: seq<Clarification>) returns (entries: seq<Clarification>, completed: bool)
    ensures Progress(entries, completed) == Progress(acc + GdbEntries(g).entries, GdbEntries(g).completed)
  {
    if g.datasets.None? {
      return acc, false;
    }
    entries, completed := ScanDatasets(g.name, g.datasets.value, acc);
    if !completed {
      return;
    }
    if g.tables.None? {
      return entries, false;
    }
    var items := EmptyItemsOf(g.tables.value);
    if items != [] {
      entries := entries + [Clarification(g.name, "Tablas", "Table", items)];
    }
  }

  /** The loop over one geodatabase's feature datasets, appending to `acc`. */
  method ScanDatasets(gdb: string, ds: seq<FeatureDataset>, acc: seq<Clarification>)
    returns (entries: seq<Clarification>, completed: bool)
    ensures Progress(entries, completed) == Progress(acc + DatasetEntries(gdb, ds).entries, DatasetEntries(gdb, ds).completed)
  {
    entries := acc;
    var i := 0;
    while i < |ds|
      invariant 0 <= i <= |ds|
      invariant DatasetEntries(gdb, ds[..i]).completed
      invariant entries == acc + DatasetEntries(gdb, ds[..i]).entries
    {
      DatasetEntriesAt(gdb, ds, i);
      if ds[i].classes.None? {
        DatasetEntriesStop(gdb, ds, i + 1);
        return entries, false;
      }
      var items := EmptyItemsOf(ds[i].classes.value);
      ghost var before := entries;
      if items != [] {
        entries := entries + [Clarification(gdb, ds[i].name, "FeatureClass", items)];
      }
      assert entries == before + EntryFor(gdb, ds[i].name, "FeatureClass", items);
      i := i + 1;
    }
    assert ds[..|ds|] == ds;
    completed := true;
  }

  /** One turn of the dataset loop, while no exception has ended it. */
  lemma DatasetEntriesAt(gdb: string, ds: seq<FeatureDataset>, i: nat)
    requires i < |ds| && DatasetEntries(gdb, ds[..i]).completed
    ensures ds[i].classes.None? ==> DatasetEntries(gdb, ds[..i + 1]) == Progress(DatasetEntries(gdb, ds[..i]).entries, false)
    ensures ds[i].classes.Some? ==>
              DatasetEntries(gdb, ds[..i + 1]) ==
              Progress(DatasetEntries(gdb, ds[..i]).entries + EntryFor(gdb, ds[i].name, "FeatureClass", EmptyItems(ds[i].classes.value)), true)
  {
    assert ds[..i + 1][..i] == ds[..i];
  }

  /** `listar_aclaraciones`. */
  method ListClarifications(folder: Option<seq<Gdb>>) returns (result: seq<Clarification>)
    ensures result == Clarifications(folder)
  {
    result := [];
    if folder.None? {
      return;
    }
    var gs := folder.value;
    var i := 0;
    while i < |gs|
      invariant 0 <= i <= |gs|
      invariant FolderEntries(gs[..i]) == Progress(result, true)
    {
      assert gs[..i + 1][..i] == gs[..i];
      if IsGdbName(gs[i].name) {
        var completed;
        result, completed := ScanGdb(gs[i], result);
        if !completed {
          FolderEntriesStop(gs, i + 1);
          return;
        }
      }
      i := i + 1;
    }
    assert gs[..|gs|] == gs;
  }

  /** Once an exception ends the dataset loop, later datasets add nothing. */
  lemma {:induction false} DatasetEntriesStop(gdb: string, ds: seq<FeatureDataset>, n: nat)
    requires n <= |ds| && !DatasetEntries(gdb, ds[..n]).completed
    ensures DatasetEntries(gdb, ds) == DatasetEntries(gdb, ds[..n])
    decreases |ds| - n
  {
    if n < |ds| {
      assert ds[..n + 1][..n] == ds[..n];
      DatasetEntriesStop(gdb, ds, n + 1);
    } else {
      assert ds[..n] == ds;
    }
  }

  /** Once an exception ends the scan, later geodatabases add nothing: the result is what was
      collected up to it. */
  lemma {:induction false} FolderEntriesStop(gs: seq<Gdb>, n: nat)
    requires n <= |gs| && !FolderEntries(gs[..n]).completed
    ensures FolderEntries(gs) == FolderEntries(gs[..n])
    decreases |gs| - n
  {
    if n < |gs| {
      assert gs[..n + 1][..n] == gs[..n];
      FolderEntriesStop(gs, n + 1);
    } else {
      assert gs[..n] == gs;
    }
  }

  // ----- what the clarifications hold -----

  /** Every item listed has an empty field, and so every entry has an item. */
  predicate Substantive(c: Clarification) {
    c.items != [] && forall k :: 0 <= k < |c.items| ==> c.items[k].emptyFields != []
  }

  lemma {:induction false} DatasetEntriesShape(gdb: string, ds: seq<FeatureDataset>)
    ensures forall c :: c in DatasetEntries(gdb, ds).entries ==>
              c.gdb == gdb && c.kind == "FeatureClass" && Substantive(c)
    decreases |ds|
  {
    if ds != [] {
      DatasetEntriesShape(gdb, ds[..|ds| - 1]);
    }
  }

  /** A geodatabase contributes its dataset entries, then at most one "Tablas" entry, last. */
  lemma GdbEntriesShape(g: Gdb)
    ensures var es := GdbEntries(g).entries;
            (forall c :: c in es ==>
               c.gdb == g.name && Substantive(c) && (c.kind == "FeatureClass" || (c.kind == "Table" && c.group == "Tablas"))) &&
            (forall k :: 0 <= k < |es| - 1 ==> es[k].kind == "FeatureClass")
  {
    if g.datasets.Some? {
      DatasetEntriesShape(g.name, g.datasets.value);
      var p := DatasetEntries(g.name, g.datasets.value);
      if p.completed && g.tables.Some? {
        var es := GdbEntries(g).entries;
        forall k | 0 <= k < |es| - 1
          ensures es[k].kind == "FeatureClass"
        {
          assert es[k] in p.entries;
        }
      }
    }
  }

  /** Every clarification comes from a ".gdb" entry of the folder, lists only items with an
      empty field, and is a dataset's feature classes or a geodatabase's "Tablas". */
  lemma {:induction false} FolderEntriesShape(gs: seq<Gdb>)
    ensures forall c :: c in FolderEntries(gs).entries ==>
              (IsGdbName(c.gdb) && Substantive(c) && (c.kind == "FeatureClass" || (c.kind == "Table" && c.group == "Tablas")))
    decreases |gs|
  {
    if gs != [] {
      FolderEntriesShape(gs[..|gs| - 1]);
      GdbEntriesShape(gs[|gs| - 1]);
    }
  }

  lemma ClarificationsShape(folder: Option<seq<Gdb>>)
    ensures forall c :: c in Clarifications(folder) ==>
              (IsGdbName(c.gdb) && Substantive(c) && (c.kind == "FeatureClass" || (c.kind == "Table" && c.group == "Tablas")))
  {
    if folder.Some? {
      FolderEntriesShape(folder.value);
    }
  }

  // ----- the justification text -----

  const DefaultJustification: string :=
    "No se presenta datos debido a que no se cuenta con esta información para el diligenciamiento en la GDB."
  const NotApplicableJustification: string :=
    "No presentan datos debido a que no aplican para el proyecto minero."
  const NotApplicableKeys: seq<string> := ["UsosyUsuariosRecursoHidrico", "Vertimiento", "Captacion"]

  /** `any(x in item for x in keys[i..])`. */
  predicate AnyKeyIn(item: string, i: nat)
    requires i <= |NotApplicableKeys|
    decreases |NotApplicableKeys| - i
  {
    i < |NotApplicableKeys| && (Contains(NotApplicableKeys[i], item) || AnyKeyIn(item, i + 1))
  }

  function Justification(item: string): string {
    if AnyKeyIn(item, 0) then NotApplicableJustification else DefaultJustification
  }

  lemma {:induction false} AnyKeyInSpec(item: string, i: nat)
    requires i <= |NotApplicableKeys|
    ensures AnyKeyIn(item, i) <==> exists k :: i <= k < |NotApplicableKeys| && Contains(NotApplicableKeys[k], item)
    decreases |NotApplicableKeys| - i
  {
    if i < |NotApplicableKeys| {
      AnyKeyInSpec(item, i + 1);
    }
  }

  /** The "does not apply" text exactly for items whose name contains one of the three
      keys (case matters), the default text for every other item. */
  lemma JustificationSpec(item: string)
    ensures Justification(item) == NotApplicableJustification <==>
            exists k :: 0 <= k < |NotApplicableKeys| && Contains(NotApplicableKeys[k], item)
    ensures Justification(item) != NotApplicableJustification ==> Justification(item) == DefaultJustification
  {
    AnyKeyInSpec(item, 0);
    assert |NotApplicableJustification| != |DefaultJustification|;
  }
}
