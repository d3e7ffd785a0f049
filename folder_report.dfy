/** `generar_arbol_principal`: the numbered report of the top-level folders of a project folder,
    each with its description and its listing (Leame/LeameAnlaV1Carpetas.py,
    Leame/LeameAnlaFeatures.py, Leame/LeameAnlaV3Campos.py,
    Leame/Refactor/ChatGPTo3Mini/explorador.py, Leame/Refactor/Grok/manos.py). */
module FolderReport {
  import opened Common
  import opened Text
  import opened DirTree

  /** The keys of DESCRIPTIONS, in dictionary order, and their texts. */
  const DescriptionKeys: seq<string> := ["GDB", "PDF", "MXD", "APRX", "METADATOS", "RASTER", "CSV"]
  const DescriptionTexts: seq<string> := [
    "Contiene bases de datos geográficas esenciales con información espacial crítica del proyecto minero.",
    "Almacena planos en formato PDF que permiten la visualización detallada de los mapas del proyecto minero.",
    "Incluye archivos MXD que facilitan la edición y visualización precisa de la cartografía del proyecto.",
    "Contiene archivos APRX editados en ArcGIS Pro, permitiendo análisis avanzado y modificaciones geoespaciales.",
    "Almacena metadatos en formato XML, proporcionando información estructurada y detallada del proyecto minero.",
    "Contiene imágenes ortofotográficas en formato TIFF que muestran el área del título minero en alta resolución.",
    "Incluye archivos CSV con coordenadas y datos críticos de monitoreo, muestreo y puntos estratégicos del proyecto."
  ]

  const Indent: string := "    "
  const DescriptionLabel: string := "    Descripción: "
  const RootDenied: string := "[Sin permisos en la carpeta madre]"

  /** How a folder's description is found: the first key contained in the upper-cased name,
      or the key equal to the upper-cased name's text before its first underscore. */
  datatype Lookup = FirstSubstring | ExactHead

  /** What happens when the project folder itself cannot be listed. */
  datatype RootFailure =
    | Raises      // the exception propagates
    | DeniedLine  // PermissionError gives one fixed line; other errors propagate
    | ErrorLine   // any OSError gives one "Error al acceder a ..." line

  datatype ReportStyle = ReportStyle(tree: Style, lookup: Lookup, onRootError: RootFailure)

  predicate KeyIn(k: nat, name: string)
    requires k < |DescriptionKeys|
  {
    Contains(DescriptionKeys[k], Upper(name))
  }

  function FirstContained(name: string, i: nat): string
    requires i <= |DescriptionKeys|
    decreases |DescriptionKeys| - i
  {
    if i == |DescriptionKeys| then ""
    else if KeyIn(i, name) then DescriptionTexts[i]
    else FirstContained(name, i + 1)
  }

  /** The text of the first key (in dictionary order) contained in the upper-cased name, or "". */
  function SubstringDescription(name: string): string {
    FirstContained(name, 0)
  }

  function KeyIndex(key: string, i: nat): (r: int)
    requires i <= |DescriptionKeys|
    ensures r == -1 || i <= r < |DescriptionKeys|
    decreases |DescriptionKeys| - i
  {
    if i == |DescriptionKeys| then -1
    else if DescriptionKeys[i] == key then i
    else KeyIndex(key, i + 1)
  }

  /** `DESCRIPTIONS.get(name.upper().split('_')[0], "")`. */
  function HeadDescription(name: string): string {
    var k := KeyIndex(BeforeUnderscore(Upper(name)), 0);
    if k < 0 then "" else DescriptionTexts[k]
  }

  function Description(st: ReportStyle, name: string): string {
    match st.lookup
    case FirstSubstring => SubstringDescription(name)
    case ExactHead => HeadDescription(name)
  }

  /** The description loop with `break`: tries the keys in order. */
  method FindDescription(name: string) returns (desc: string)
    ensures desc == SubstringDescription(name)
  {
    desc := "";
    var upper := Upper(name);
    var i := 0;
    while i < |DescriptionKeys|
      invariant 0 <= i <= |DescriptionKeys|
      invariant SubstringDescription(name) == FirstContained(name, i)
    {
      FirstContainedAt(name, i);
      if Contains(DescriptionKeys[i], upper) {
        desc := DescriptionTexts[i];
        break;
      }
      i := i + 1;
    }
  }

  lemma FirstContainedAt(name: string, i: nat)
    requires i < |DescriptionKeys|
    ensures FirstContained(name, i) ==
            if Contains(DescriptionKeys[i], Upper(name)) then DescriptionTexts[i] else FirstContained(name, i + 1)
  {
  }

  lemma {:induction false} FirstContainedSpec(name: string, i: nat)
    requires i <= |DescriptionKeys|
    ensures FirstContained(name, i) == "" <==> forall k :: i <= k < |DescriptionKeys| ==> !KeyIn(k, name)
    ensures forall k :: i <= k < |DescriptionKeys| && KeyIn(k, name) && (forall j :: i <= j < k ==> !KeyIn(j, name))
              ==> FirstContained(name, i) == DescriptionTexts[k]
    decreases |DescriptionKeys| - i
  {
    if i < |DescriptionKeys| {
      FirstContainedSpec(name, i + 1);
    }
  }

  /** The substring lookup yields a description exactly when some key occurs in the
      upper-cased name, and then it is the text of the first such key in dictionary order. */
  lemma SubstringDescriptionSpec(name: string)
    ensures SubstringDescription(name) == "" <==> forall k :: 0 <= k < |DescriptionKeys| ==> !KeyIn(k, name)
    ensures forall k :: 0 <= k < |DescriptionKeys| && KeyIn(k, name) && (forall j :: 0 <= j < k ==> !KeyIn(j, name))
              ==> SubstringDescription(name) == DescriptionTexts[k]
  {
    FirstContainedSpec(name, 0);
  }

  lemma {:induction false} KeyIndexSpec(key: string, i: nat)
    requires i <= |DescriptionKeys|
    ensures KeyIndex(key, i) == -1 <==> forall k :: i <= k < |DescriptionKeys| ==> DescriptionKeys[k] != key
    ensures KeyIndex(key, i) != -1 ==> DescriptionKeys[KeyIndex(key, i)] == key
    decreases |DescriptionKeys| - i
  {
    if i < |DescriptionKeys| {
      KeyIndexSpec(key, i + 1);
    }
  }

  /** The exact lookup yields a description exactly when the head of the upper-cased name
      (its text before the first underscore) is a key, and then it is that key's text. */
  lemma HeadDescriptionSpec(name: string)
    ensures HeadDescription(name) != "" <==> BeforeUnderscore(Upper(name)) in DescriptionKeys
    ensures forall k :: 0 <= k < |DescriptionKeys| && DescriptionKeys[k] == BeforeUnderscore(Upper(name))
              ==> HeadDescription(name) == DescriptionTexts[k]
  {
    var head := BeforeUnderscore(Upper(name));
    KeyIndexSpec(head, 0);
    KeysDistinct();
    TextsNonEmpty();
    var k := KeyIndex(head, 0);
    if k >= 0 {
      assert HeadDescription(name) == DescriptionTexts[k];
    }
  }

  lemma KeysDistinct()
    ensures forall j, k :: 0 <= j < k < |DescriptionKeys| ==> DescriptionKeys[j] != DescriptionKeys[k]
  {
    forall j, k | 0 <= j < k < |DescriptionKeys|
      ensures DescriptionKeys[j] != DescriptionKeys[k]
    {
      assert DescriptionKeys[j][0] != DescriptionKeys[k][0] || |DescriptionKeys[j]| != |DescriptionKeys[k]|;
    }
  }

  lemma TextsNonEmpty()
    ensures |DescriptionTexts| == |DescriptionKeys|
    ensures forall k :: 0 <= k < |DescriptionTexts| ==> DescriptionTexts[k] != ""
  {
    forall k | 0 <= k < |DescriptionTexts|
      ensures DescriptionTexts[k] != ""
    {
      assert |DescriptionTexts[k]| > 0;
    }
  }

  /** The bold, numbered line of the folder at (1-based) position `idx`. */
  function Header(idx: nat, name: string): string {
    "├── *" + NatToString(idx) + ". " + name + "*"
  }

  function DescriptionLines(desc: string): seq<string> {
    if desc == "" then [] else ["", DescriptionLabel + desc, ""]
  }

  /** The directories among the entries (`os.path.isdir`, following links), in listing order. */
  function Dirs(s: seq<Entry>): (r: seq<Entry>)
    ensures multiset(r) <= multiset(s)
  {
    if s == [] then []
    else
      assert s == s[..|s| - 1] + [s[|s| - 1]];
      Dirs(s[..|s| - 1]) + (if s[|s| - 1].kind == Dir then [s[|s| - 1]] else [])
  }

  /** The top-level folders in report order. */
  function Folders(st: ReportStyle, root: Entry): seq<Entry> {
    Sort(st.tree, Dirs(root.children))
  }

  predicate IsAprx(name: string) {
    Upper(name) == "APRX"
  }

  /** Everything one folder contributes: a blank line, its header, its description block,
      and its listing (one level only for APRX). */
  function Block(st: ReportStyle, e: Entry, idx: nat): Result<seq<string>> {
    Then(Ok(["", Header(idx, e.name)] + DescriptionLines(Description(st, e.name))),
         Listing(st.tree, e, Indent, IsAprx(e.name)))
  }

  function Blocks(st: ReportStyle, items: seq<Entry>, i: nat): Result<seq<string>>
    requires i <= |items|
    decreases |items| - i
  {
    if i == |items| then Ok([]) else Then(Block(st, items[i], i + 1), Blocks(st, items, i + 1))
  }

  function RootError(st: ReportStyle, path: string, msg: string, denied: bool): Result<seq<string>> {
    match st.onRootError
    case Raises => Err(msg)
    case DeniedLine => if denied then Ok([RootDenied]) else Err(msg)
    case ErrorLine => Ok(["Error al acceder a " + path + ": " + msg])
  }

  /** The lines `generar_arbol_principal(path)` returns for the folder `root`, or its exception. */
  function Report(st: ReportStyle, root: Entry, path: string): Result<seq<string>> {
    match root.access
    case Readable => Blocks(st, Folders(st, root), 0)
    case Denied(msg) => RootError(st, path, msg, true)
    case Failed(msg) => RootError(st, path, msg, false)
  }

  /** The per-folder loop of `generar_arbol_principal`. */
  method GenerateMainTree(st: ReportStyle, root: Entry, path: string) returns (r: Result<seq<string>>)
    ensures r == Report(st, root, path)
  {
    if !root.access.Readable? {
      return RootError(st, path, root.access.msg, root.access.Denied?);
    }
    var items := Sort(st.tree, Dirs(root.children));
    r := RenderFolders(st, items);
  }

  /** The blank line, the numbered header and, when a description is found, its three lines. */
  method FolderHead(st: ReportStyle, name: string, idx: nat) returns (head: seq<string>)
    ensures head == ["", Header(idx, name)] + DescriptionLines(Description(st, name))
  {
    head := ["", Header(idx, name)];
    var desc;
    if st.lookup.FirstSubstring? {
      desc := FindDescription(name);
    } else {
      desc := HeadDescription(name);
    }
    if desc != "" {
      head := head + ["", DescriptionLabel + desc, ""];
    }
  }

  method RenderFolders(st: ReportStyle, items: seq<Entry>) returns (r: Result<seq<string>>)
    ensures r == Blocks(st, items, 0)
  {
    var lines: seq<string> := [];
    ghost var all := Blocks(st, items, 0);
    assert all.Ok? ==> [] + all.value == all.value;
    var i := 0;
    while i < |items|
      invariant 0 <= i <= |items|
      invariant all == Then(Ok(lines), Blocks(st, items, i))
    {
      var head := FolderHead(st, items[i].name, i + 1);
      var sub := ListContents(st.tree, items[i], Indent, IsAprx(items[i].name));
      BlocksStep(st, items, i, lines, head, sub);
      if sub.Err? {
        return sub;
      }
      lines := lines + head + sub.value;
      i := i + 1;
    }
    assert lines + [] == lines;
    return Ok(lines);
  }

  /** One turn of the per-folder loop: a failing listing ends the report with its exception,
      otherwise the folder's lines join the accumulated ones. */
  lemma BlocksStep(st: ReportStyle, items: seq<Entry>, i: nat, lines: seq<string>, head: seq<string>,
                   sub: Result<seq<string>>)
    requires i < |items|
    requires head == ["", Header(i + 1, items[i].name)] + DescriptionLines(Description(st, items[i].name))
    requires sub == Listing(st.tree, items[i], Indent, IsAprx(items[i].name))
    ensures sub.Err? ==> Then(Ok(lines), Blocks(st, items, i)) == sub
    ensures sub.Ok? ==> Then(Ok(lines), Blocks(st, items, i)) == Then(Ok(lines + head + sub.value), Blocks(st, items, i + 1))
  {
    assert Blocks(st, items, i) == Then(Then(Ok(head), sub), Blocks(st, items, i + 1));
    ThenAssoc(Ok(lines), Ok(head), sub);
    if sub.Ok? {
      ThenAssoc(Ok(lines), Ok(head + sub.value), Blocks(st, items, i + 1));
      assert lines + (head + sub.value) == lines + head + sub.value;
    }
  }

  /** The header lines in report order: folder k (0-based) is numbered k + 1. */
  function Headers(items: seq<Entry>): (r: seq<string>)
    ensures |r| == |items|
  {
    seq(|items|, k requires 0 <= k < |items| => Header(k + 1, items[k].name))
  }

  lemma {:induction false} NoBranchLines(ls: seq<string>, p: string)
    requires forall k :: 0 <= k < |ls| ==> !IsBranchLine(ls[k], p)
    ensures BranchLines(ls, p) == []
  {
    if ls != [] {
      NoBranchLines(ls[1..], p);
    }
  }

  lemma {:induction false} BlockBranchLines(st: ReportStyle, e: Entry, idx: nat)
    requires Block(st, e, idx).Ok?
    ensures BranchLines(Block(st, e, idx).value, "") == [Header(idx, e.name)]
  {
    var h := Header(idx, e.name);
    var d := DescriptionLines(Description(st, e.name));
    var sub := Listing(st.tree, e, Indent, IsAprx(e.name));
    assert h[0] == '├';
    var hs: seq<string> := [h];
    assert BranchLines(["", h], "") == [h] by {
      assert ["", h][1..] == hs;
      assert hs[1..] == [];
      assert IsBranchLine(h, "");
      assert BranchLines(hs, "") == [h] + BranchLines([], "");
    }
    if d != [] {
      assert (DescriptionLabel + Description(st, e.name))[0] == ' ';
    }
    NoBranchLines(d, "");
    ListingPrefixed(st.tree, e, Indent, IsAprx(e.name));
    assert "" + Pad(true) == Indent;
    BranchLinesOfPadded(sub.value, "", true);
    BranchLinesAppend(["", h], d, "");
    BranchLinesAppend(["", h] + d, sub.value, "");
  }

  lemma {:induction false} BlocksBranchLines(st: ReportStyle, items: seq<Entry>, i: nat)
    requires i <= |items|
    requires Blocks(st, items, i).Ok?
    ensures BranchLines(Blocks(st, items, i).value, "") == Headers(items)[i..]
    decreases |items| - i
  {
    if i < |items| {
      BlocksUnfold(st, items, i);
      BlockBranchLines(st, items[i], i + 1);
      BlocksBranchLines(st, items, i + 1);
      BranchLinesAppend(Block(st, items[i], i + 1).value, Blocks(st, items, i + 1).value, "");
      HeadersAt(items, i);
    }
  }

  lemma BlocksUnfold(st: ReportStyle, items: seq<Entry>, i: nat)
    requires i < |items| && Blocks(st, items, i).Ok?
    ensures Block(st, items[i], i + 1).Ok? && Blocks(st, items, i + 1).Ok?
    ensures Blocks(st, items, i).value == Block(st, items[i], i + 1).value + Blocks(st, items, i + 1).value
  {
    assert Blocks(st, items, i) == Then(Block(st, items[i], i + 1), Blocks(st, items, i + 1));
  }

  lemma HeadersAt(items: seq<Entry>, i: nat)
    requires i < |items|
    ensures Headers(items)[i..] == [Header(i + 1, items[i].name)] + Headers(items)[i + 1..]
  {
    var hs := Headers(items);
    assert hs[i] == Header(i + 1, items[i].name);
    assert hs[i..] == [hs[i]] + hs[i + 1..];
  }

  /** The only lines of the report not indented are the folder headers: one per top-level
      folder, in report order, numbered 1, 2, 3, ... */
  lemma ReportHeaders(st: ReportStyle, root: Entry, path: string)
    requires root.access.Readable? && Report(st, root, path).Ok?
    ensures BranchLines(Report(st, root, path).value, "") == Headers(Folders(st, root))
  {
    BlocksBranchLines(st, Folders(st, root), 0);
  }

  lemma {:induction false} DirsCount(s: seq<Entry>, x: Entry)
    ensures multiset(Dirs(s))[x] == if x.kind == Dir then multiset(s)[x] else 0
  {
    if s != [] {
      assert s == s[..|s| - 1] + [s[|s| - 1]];
      DirsCount(s[..|s| - 1], x);
    }
  }

  /** The report's folders are the directories of the project folder (links to directories
      included), each once per listing, in order of the style's sort key. */
  lemma FoldersSpec(st: ReportStyle, root: Entry)
    ensures SortedBy(st.tree, Folders(st, root))
    ensures forall x :: multiset(Folders(st, root))[x] == if x.kind == Dir then multiset(root.children)[x] else 0
  {
    SortSorted(st.tree, Dirs(root.children));
    forall x ensures multiset(Folders(st, root))[x] == if x.kind == Dir then multiset(root.children)[x] else 0 {
      DirsCount(root.children, x);
    }
  }

  /** A readable APRX folder is listed one level deep: a line per shown entry and nothing below. */
  lemma AprxOneLevel(st: ReportStyle, e: Entry, idx: nat)
    requires IsAprx(e.name) && e.access.Readable?
    ensures Block(st, e, idx) ==
              Ok(["", Header(idx, e.name)] + DescriptionLines(Description(st, e.name)) + EntryLines(Shown(st.tree, e), Indent))
  {
    NoRecursionOneLevel(st.tree, e, Indent);
  }
}
