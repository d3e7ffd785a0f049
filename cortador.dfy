/** CortadorOptimizadoV5Final.py as the script runs it: loops over an output geodatabase
    that changes call by call. Each method is proved to leave the output in the state the
    functions of GdbClip describe. */
module Cortador {
  import opened Text
  import opened GdbClip

  /** `get_all_datasets`. */
  method GetAllDatasets(listing: seq<Listed>) returns (datasets: seq<string>)
    ensures datasets == AllDatasets(listing)
  {
    datasets := [];
    var i := 0;
    while i < |listing|
      invariant 0 <= i <= |listing|
      invariant datasets == AllDatasets(listing[..i])
    {
      assert listing[..i + 1][..i] == listing[..i];
      datasets := datasets + [listing[i].name];
      if listing[i].subs != [] {
        datasets := datasets + listing[i].subs;
      }
      i := i + 1;
    }
    assert listing[..|listing|] == listing;
  }

  /** `get_unique_gdb_name`: tries CartoBase_1.gdb, CartoBase_2.gdb, ... in `folder` and
      returns the first path that does not exist (`existing` is what `arcpy.Exists` finds;
      being finite, the loop ends). `n` is the counter the result was built from. */
  method GetUniqueGdbName(folder: string, existing: set<string>) returns (path: string, ghost n: nat)
    ensures n >= 1 && path == Candidate(folder, n) && path !in existing
    ensures forall k :: 1 <= k < n ==> Candidate(folder, k) in existing
  {
    var counter := 1;
    while true
      invariant counter >= 1
      invariant Tried(folder, counter) <= existing
      decreases |existing - Tried(folder, counter)|
    {
      path := Candidate(folder, counter);
      if path !in existing {
        TriedMembers(folder, counter);
        return path, counter;
      }
      TriedGrows(folder, counter);
      assert existing - Tried(folder, counter + 1) == (existing - Tried(folder, counter)) - {path};
      counter := counter + 1;
    }
  }

  /** The output geodatabase: its feature datasets, its items and the write calls made on
      it. `locked` holds the items whose `Delete_management` raises. */
  class OutputGdb {
    var datasets: set<string>
    var items: set<Path>
    var log: seq<Op>
    const locked: set<Path>

    function Snapshot(): Out
      reads this
    {
      Out(datasets, items, log)
    }

    /** `CreateFileGDB_management`: a new geodatabase holding only what the engine puts in
        one by itself (such as the editing templates). */
    constructor (initial: set<Path>, locked: set<Path>)
      ensures Snapshot() == Out({}, initial, []) && this.locked == locked
    {
      datasets := {};
      items := initial;
      log := [];
      this.locked := locked;
    }

    /** Clip to `p`, then delete the result if `is_empty` says so; a raising call stops the step. */
    method ClipTo(p: Path, clip: ClipOutcome)
      modifies this
      ensures Snapshot() == ClipAt(locked, old(Snapshot()), p, clip)
    {
      log := log + [ClipOp(p)];
      match clip {
        case ClipFails =>
        case Clipped(rows) =>
          items := items + {p};
          if IsEmpty(rows) {
            log := log + [DeleteOp(p)];
            if p !in locked {
              items := items - {p};
            }
          }
      }
    }

    /** A layer loop of `clip_layers` (the root one, or one dataset's), with its
        `dataset_has_data` flag. */
    method ProcessLayers(t: Target, layers: seq<Layer>, created0: bool) returns (created: bool)
      modifies this
      ensures Cursor(Snapshot(), created) == LayerFold(locked, t, Cursor(old(Snapshot()), created0), layers)
    {
      created := created0;
      var i := 0;
      while i < |layers|
        invariant 0 <= i <= |layers|
        invariant Cursor(Snapshot(), created) == LayerFold(locked, t, Cursor(old(Snapshot()), created0), layers[..i])
      {
        var x := layers[i];
        assert layers[..i + 1][..i] == layers[..i];
        if HasIntersection(x.selection) {
          if t.InDataset? && !created {
            log := log + [CreateOp(t.ds)];
            if t.creatable {
              datasets := datasets + {t.ds};
              created := true;
              ClipTo(PathOf(t, x.name), x.clip);
            }
          } else {
            ClipTo(PathOf(t, x.name), x.clip);
          }
        }
        i := i + 1;
      }
      assert layers[..|layers|] == layers;
    }

    /** `clip_layers`. */
    method ClipLayers(input: InputGdb)
      modifies this
      ensures Snapshot() == ClipAll(locked, input, old(Snapshot()))
    {
      var _ := ProcessLayers(AtRoot, input.rootLayers, true);
      var all := GetAllDatasets(input.listing);
      if all == [] {
        return;
      }
      ghost var afterRoot := Snapshot();
      var k := 0;
      while k < |all|
        invariant 0 <= k <= |all|
        invariant Snapshot() == DatasetFold(locked, input, afterRoot, all[..k])
      {
        var ds := all[k];
        assert all[..k + 1][..k] == all[..k];
        if ds in input.datasets {
          var info := input.datasets[ds];
          if info.describable {
            var _ := ProcessLayers(InDataset(ds, info.creatable), info.layers, false);
          }
        }
        k := k + 1;
      }
      assert all[..|all|] == all;
    }

    /** `delete_unwanted_files`. */
    method DeleteUnwantedFiles()
      modifies this
      ensures Snapshot() == DeleteTemplates(locked, old(Snapshot()), 0)
    {
      var i := 0;
      while i < |Templates|
        invariant 0 <= i <= |Templates|
        invariant DeleteTemplates(locked, Snapshot(), i) == DeleteTemplates(locked, old(Snapshot()), 0)
      {
        var p := Root(Templates[i]);
        if p in items {
          log := log + [DeleteOp(p)];
          if p in locked {
            return;
          }
          items := items - {p};
        }
        i := i + 1;
      }
    }
  }
}
