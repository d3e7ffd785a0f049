/** Leame/Refactor/Grok/manos.py: `generar_arbol_principal` over the listing of ojos.py; the
    description is the first key contained in the name, and any OSError on the project
    folder (a denied permission included) becomes one "Error al acceder a" line. */
module Manos {
  import opened Common
  import opened DirTree
  import opened FolderReport
  import Ojos

  const Report: ReportStyle := ReportStyle(Ojos.Tree, FirstSubstring, ErrorLine)

  /** Whatever the project folder cannot do, the report is that one line. */
  lemma RootErrorLine(root: Entry, path: string)
    requires !root.access.Readable?
    ensures FolderReport.Report(Report, root, path) == Ok(["Error al acceder a " + path + ": " + root.access.msg])
  {
  }

  lemma {:induction false} BlocksNeverRaise(items: seq<Entry>, i: nat)
    requires i <= |items|
    ensures Blocks(Report, items, i).Ok?
    decreases |items| - i
  {
    if i < |items| {
      Ojos.ListingNeverRaises(items[i], Indent, IsAprx(items[i].name));
      BlocksNeverRaise(items, i + 1);
    }
  }

  /** The report never raises: every failure, at the root or below, is a line of text. */
  lemma ReportNeverRaises(root: Entry, path: string)
    ensures FolderReport.Report(Report, root, path).Ok?
  {
    if root.access.Readable? {
      BlocksNeverRaise(Folders(Report, root), 0);
    }
  }
}
