/** Leame/LeameAnlaV1Carpetas.py: the first report script. Its `listar_contenido` sorts names
    by code point, drops only regular files with an excluded extension, follows links, and lets
    any OSError other than PermissionError propagate; `generar_arbol_principal` uses the first
    description key contained in the name and lets a failure on the project folder propagate. */
module LeameV1Carpetas {
  import opened Text
  import opened DirTree
  import opened FolderReport

  const Tree: Style := Style(caseFoldSort := false, dropsOnlyFiles := true, descendsLinks := true, reportsOsError := false)
  const Report: ReportStyle := ReportStyle(Tree, FirstSubstring, Raises)

  /** The extension filter applies to regular files only: directories (a folder named
      "x.gdb" included) and entries that are neither files nor directories are always kept. */
  lemma FilterOnlyFiles(e: Entry)
    ensures Kept(Tree, e) <==> e.kind != File || !HasExcludedExt(e.name)
  {
  }

  /** A directory is descended only when recursion is on and it is neither a geodatabase
      folder nor "shp" (letter case ignored); links to directories are followed. */
  lemma DescentRule(e: Entry, noRecursion: bool)
    ensures Descends(Tree, e, noRecursion) <==> e.kind == Dir && !noRecursion && !EndsWith(Lower(e.name), ".gdb") && Lower(e.name) != "shp"
  {
  }
}
