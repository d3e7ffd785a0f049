/** Leame/Refactor/Grok/ojos.py: names from `os.listdir` in code-point order, the filter keeps
    a directory or a name whose extension is not excluded, links to directories are
    followed, and every OSError (not only PermissionError) becomes a line. */
module Ojos {
  import opened Common
  import opened DirTree
  import LeameV1Carpetas

  const Tree: Style := Style(caseFoldSort := false, dropsOnlyFiles := false, descendsLinks := true, reportsOsError := true)

  /** An error other than a denied permission becomes an "[Error: ...]" line here, where the
      first script lets it propagate. */
  lemma OsErrorBecomesLine(d: Entry, prefix: string, noRecursion: bool)
    requires d.access.Failed?
    ensures Listing(Tree, d, prefix, noRecursion) == Ok([prefix + LastBranch + "[Error: " + d.access.msg + "]"])
    ensures Listing(LeameV1Carpetas.Tree, d, prefix, noRecursion) == Err(d.access.msg)
  {
  }

  /** This listing never raises, at any depth. */
  lemma {:induction false} ListingNeverRaises(d: Entry, prefix: string, noRecursion: bool)
    ensures Listing(Tree, d, prefix, noRecursion).Ok?
    decreases d, 1
  {
    if d.access.Readable? {
      LinesNeverRaise(d, Shown(Tree, d), 0, prefix, noRecursion);
    }
  }

  lemma {:induction false} LinesNeverRaise(d: Entry, items: seq<Entry>, i: nat, prefix: string, noRecursion: bool)
    requires i <= |items|
    requires forall k :: 0 <= k < |items| ==> items[k] in d.children
    ensures Lines(Tree, d, items, i, prefix, noRecursion).Ok?
    decreases d, 0, |items| - i
  {
    if i < |items| {
      var last := i == |items| - 1;
      if Descends(Tree, items[i], noRecursion) {
        ListingNeverRaises(items[i], prefix + Pad(last), false);
      }
      LinesNeverRaise(d, items, i + 1, prefix, noRecursion);
    }
  }
}
