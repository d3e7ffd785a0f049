/** Leame/Refactor/ChatGPTo3Mini/explorador.py: entries come from `os.scandir` sorted by
    `name.lower()`, the extension filter drops regular files only, a directory is descended
    only when the entry itself is not a link (`is_dir(follow_symlinks=False)`), and a
    PermissionError on the project folder gives one fixed line. */
module Explorador {
  import opened Common
  import opened Text
  import opened DirTree
  import opened FolderReport
  import LeameV1Carpetas

  const Tree: Style := Style(caseFoldSort := true, dropsOnlyFiles := true, descendsLinks := false, reportsOsError := false)
  const Report: ReportStyle := ReportStyle(Tree, FirstSubstring, DeniedLine)

  /** Links are never descended, where the first script follows a link to a directory. */
  lemma LinksNotFollowed(e: Entry, noRecursion: bool)
    requires e.isLink && e.kind == Dir && !Opaque(e.name) && !noRecursion
    ensures !Descends(Tree, e, noRecursion)
    ensures Descends(LeameV1Carpetas.Tree, e, noRecursion)
  {
  }

  /** A readable directory whose shown subdirectories are all links is listed flat. */
  lemma LinkedDirsListedFlat(d: Entry, prefix: string)
    requires d.access.Readable?
    requires forall k :: 0 <= k < |Shown(Tree, d)| && Shown(Tree, d)[k].kind == Dir ==> Shown(Tree, d)[k].isLink
    ensures Listing(Tree, d, prefix, false) == Ok(EntryLines(Shown(Tree, d), prefix))
  {
    ListingFlat(Tree, d, prefix, false);
  }

  /** Entries are ordered ignoring letter case: "a" comes before "B" here and after it in
      the code-point order of the other copies. */
  lemma CaseFoldOrder(flags: Kind)
    ensures var upper := Entry("B", flags, false, Readable, []);
            var lower := Entry("a", flags, false, Readable, []);
            Sort(Tree, [upper, lower]) == [lower, upper] &&
            Sort(LeameV1Carpetas.Tree, [upper, lower]) == [upper, lower]
  {
    var upper := Entry("B", flags, false, Readable, []);
    var lower := Entry("a", flags, false, Readable, []);
    assert Lower("B") == "b" && Lower("a") == "a";
    assert [upper, lower][..1] == [upper];
    assert !Below(SortKey(Tree, upper), SortKey(Tree, lower));
    assert Below(SortKey(LeameV1Carpetas.Tree, upper), SortKey(LeameV1Carpetas.Tree, lower));
  }

  /** A permission error on the project folder yields the single fixed line; any other
      error still propagates. */
  lemma RootFailure(root: Entry, path: string)
    requires !root.access.Readable?
    ensures root.access.Denied? ==> FolderReport.Report(Report, root, path) == Ok([RootDenied])
    ensures root.access.Failed? ==> FolderReport.Report(Report, root, path) == Err(root.access.msg)
  {
  }
}
