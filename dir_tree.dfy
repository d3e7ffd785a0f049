/** The tree listing that every copy of `listar_contenido` produces
    (Leame/LeameAnlaV1Carpetas.py, Leame/LeameAnlaFeatures.py, Leame/LeameAnlaV3Campos.py,
    Leame/Refactor/ChatGPTo3Mini/explorador.py, Leame/Refactor/Grok/ojos.py).
    The filesystem is a finite tree of entries; the copies differ only in the
    choices collected in `Style`. */
module DirTree {
  import opened Common
  import opened Text

  /** What `os.path.isfile` / `os.path.isdir` report for an entry (after following a link). */
  datatype Kind = File | Dir | Other

  /** What listing a directory does: succeed, raise PermissionError, or raise another OSError. */
  datatype Access = Readable | Denied(msg: string) | Failed(msg: string)

  /** A directory entry. `children` is the listing order of `os.listdir`/`os.scandir`;
      `isLink` says the entry itself is a symbolic link (its kind is that of its target). */
  datatype Entry = Entry(name: string, kind: Kind, isLink: bool, access: Access, children: seq<Entry>)

  const ExcludedExts: seq<string> := [".gdb", ".xlsx", ".jpg", ".cfe", ".cfs", ".si", ".gen"]

  const LastBranch: string := "└── "
  const MidBranch: string := "├── "
  const LastPad: string := "    "
  const MidPad: string := "│   "
  const NoPermission: string := "[Sin permisos]"

  /** The points where the copies differ. */
  datatype Style = Style(
    caseFoldSort: bool,    // entries ordered by name.lower() instead of name
    dropsOnlyFiles: bool,  // the extension filter applies to isfile entries (else: to every non-directory)
    descendsLinks: bool,   // symbolic links to directories are descended
    reportsOsError: bool)  // an OSError other than PermissionError becomes an "[Error: ...]" line

  function SortKey(st: Style, e: Entry): string {
    if st.caseFoldSort then Lower(e.name) else e.name
  }

  predicate HasExcludedExt(name: string) {
    Lower(Ext(name)) in ExcludedExts
  }

  /** Whether an entry survives the extension filter. */
  predicate Kept(st: Style, e: Entry) {
    if st.dropsOnlyFiles then !(e.kind == File && HasExcludedExt(e.name))
    else e.kind == Dir || !HasExcludedExt(e.name)
  }

  /** Directories listed but never opened: geodatabases and the "shp" folder. */
  predicate Opaque(name: string) {
    EndsWith(Lower(name), ".gdb") || Lower(name) == "shp"
  }

  /** Whether the listing goes below an entry. */
  predicate Descends(st: Style, e: Entry, noRecursion: bool) {
    e.kind == Dir && (st.descendsLinks || !e.isLink) && !Opaque(e.name) && !noRecursion
  }

  predicate SortedBy(st: Style, s: seq<Entry>) {
    forall i, j :: 0 <= i < j < |s| ==> Below(SortKey(st, s[i]), SortKey(st, s[j]))
  }

  /** Stable insertion: `x` goes after every entry whose key is not greater. */
  function Insert(st: Style, x: Entry, s: seq<Entry>): (r: seq<Entry>)
    ensures multiset(r) == multiset(s) + multiset{x}
  {
    if s == [] then [x]
    else if !Below(SortKey(st, s[0]), SortKey(st, x)) then [x] + s
    else
      assert s == [s[0]] + s[1..];
      [s[0]] + Insert(st, x, s[1..])
  }

  /** `sorted(...)` by the style's key; stable, as Python's sort is. */
  function Sort(st: Style, s: seq<Entry>): (r: seq<Entry>)
    ensures multiset(r) == multiset(s)
  {
    if s == [] then []
    else
      assert s == s[..|s| - 1] + [s[|s| - 1]];
      Insert(st, s[|s| - 1], Sort(st, s[..|s| - 1]))
  }

  /** The extension filter, one entry at a time in order. */
  function Filter(st: Style, s: seq<Entry>): (r: seq<Entry>)
    ensures multiset(r) <= multiset(s)
  {
    if s == [] then []
    else
      assert s == s[..|s| - 1] + [s[|s| - 1]];
      Filter(st, s[..|s| - 1]) + (if Kept(st, s[|s| - 1]) then [s[|s| - 1]] else [])
  }

  /** The entries a readable directory shows, in order. */
  function Shown(st: Style, d: Entry): (r: seq<Entry>)
    ensures forall k :: 0 <= k < |r| ==> r[k] in d.children
  {
    var r := Filter(st, Sort(st, d.children));
    assert forall k :: 0 <= k < |r| ==> r[k] in multiset(d.children);
    r
  }

  function Branch(last: bool): string {
    if last then LastBranch else MidBranch
  }

  function Pad(last: bool): string {
    if last then LastPad else MidPad
  }

  /** The lines `listar_contenido(d, prefix, noRecursion)` returns, or the exception it raises. */
  function Listing(st: Style, d: Entry, prefix: string, noRecursion: bool): Result<seq<string>>
    decreases d, 1
  {
    match d.access
    case Denied(_) => Ok([prefix + LastBranch + NoPermission])
    case Failed(msg) =>
      if st.reportsOsError then Ok([prefix + LastBranch + "[Error: " + msg + "]"]) else Err(msg)
    case Readable => Lines(st, d, Shown(st, d), 0, prefix, noRecursion)
  }

  /** The lines for `items[i..]`, the shown entries of `d` from position `i`. */
  function Lines(st: Style, d: Entry, items: seq<Entry>, i: nat, prefix: string, noRecursion: bool): Result<seq<string>>
    requires i <= |items|
    requires forall k :: 0 <= k < |items| ==> items[k] in d.children
    decreases d, 0, |items| - i
  {
    if i == |items| then Ok([])
    else
      var last := i == |items| - 1;
      var sub := if Descends(st, items[i], noRecursion)
                 then Listing(st, items[i], prefix + Pad(last), false)
                 else Ok([]);
      Then(Then(Ok([prefix + Branch(last) + items[i].name]), sub), Lines(st, d, items, i + 1, prefix, noRecursion))
  }

  /** The filtering loop of `listar_contenido`: keeps the entries the style keeps, in order. */
  method FilterEntries(st: Style, items: seq<Entry>) returns (filtered: seq<Entry>)
    ensures filtered == Filter(st, items)
  {
    filtered := [];
    var j := 0;
    while j < |items|
      invariant 0 <= j <= |items|
      invariant filtered == Filter(st, items[..j])
    {
      assert items[..j + 1][..j] == items[..j];
      if Kept(st, items[j]) {
        filtered := filtered + [items[j]];
      }
      j := j + 1;
    }
    assert items[..j] == items;
  }

  /** `listar_contenido`: sort, filter, then one line per shown entry, each directory's own
      listing right after its line. */
  method ListContents(st: Style, d: Entry, prefix: string, noRecursion: bool) returns (r: Result<seq<string>>)
    ensures r == Listing(st, d, prefix, noRecursion)
    decreases d, 1
  {
    if d.access.Denied? {
      return Ok([prefix + LastBranch + NoPermission]);
    }
    if d.access.Failed? {
      if st.reportsOsError {
        return Ok([prefix + LastBranch + "[Error: " + d.access.msg + "]"]);
      }
      return Err(d.access.msg);
    }
    var filtered := FilterEntries(st, Sort(st, d.children));
    assert filtered == Shown(st, d);
    r := RenderEntries(st, d, filtered, prefix, noRecursion);
  }

  /** The rendering loop of `listar_contenido` over the shown entries `items` of `d`. */
  method RenderEntries(st: Style, d: Entry, items: seq<Entry>, prefix: string, noRecursion: bool)
    returns (r: Result<seq<string>>)
    requires forall k :: 0 <= k < |items| ==> items[k] in d.children
    ensures r == Lines(st, d, items, 0, prefix, noRecursion)
    decreases d, 0
  {
    var lines: seq<string> := [];
    ghost var all := Lines(st, d, items, 0, prefix, noRecursion);
    assert all.Ok? ==> [] + all.value == all.value;
    var i := 0;
    while i < |items|
      invariant 0 <= i <= |items|
      invariant all == Then(Ok(lines), Lines(st, d, items, i, prefix, noRecursion))
    {
      var last := i == |items| - 1;
      var line := prefix + Branch(last) + items[i].name;
      var sub: Result<seq<string>> := Ok([]);
      if Descends(st, items[i], noRecursion) {
        sub := ListContents(st, items[i], prefix + Pad(last), false);
      }
      var rest := Lines(st, d, items, i + 1, prefix, noRecursion);
      assert Lines(st, d, items, i, prefix, noRecursion) == Then(Then(Ok([line]), sub), rest);
      if sub.Err? {
        return sub;
      }
      var piece := [line] + sub.value;
      ThenAssoc(Ok(lines), Ok(piece), rest);
      lines := lines + piece;
      i := i + 1;
    }
    assert lines + [] == lines;
    return Ok(lines);
  }

  predicate AllStartWith(ls: seq<string>, p: string) {
    forall k :: 0 <= k < |ls| ==> IsPrefix(p, ls[k])
  }

  lemma PrefixOfLonger(p: string, q: string, l: string)
    requires IsPrefix(p + q, l)
    ensures IsPrefix(p, l)
  {
    assert l[..|p|] == l[..|p + q|][..|p|];
  }

  lemma AllStartWithAppend(a: seq<string>, b: seq<string>, p: string)
    requires AllStartWith(a, p) && AllStartWith(b, p)
    ensures AllStartWith(a + b, p)
  {
    forall k | 0 <= k < |a + b| ensures IsPrefix(p, (a + b)[k]) {
      if k < |a| { assert (a + b)[k] == a[k]; } else { assert (a + b)[k] == b[k - |a|]; }
    }
  }

  /** A directory that cannot be listed gives one line: "[Sin permisos]" for a denied
      permission; for another error, an "[Error: ...]" line or the exception, by style. */
  lemma UnreadableOneLine(st: Style, d: Entry, prefix: string, noRecursion: bool)
    requires !d.access.Readable?
    ensures d.access.Denied? ==> Listing(st, d, prefix, noRecursion) == Ok([prefix + "└── [Sin permisos]"])
    ensures d.access.Failed? && st.reportsOsError ==>
              Listing(st, d, prefix, noRecursion) == Ok([prefix + "└── [Error: " + d.access.msg + "]"])
    ensures d.access.Failed? && !st.reportsOsError ==> Listing(st, d, prefix, noRecursion) == Err(d.access.msg)
  {
    assert prefix + LastBranch + NoPermission == prefix + "└── [Sin permisos]";
    if d.access.Failed? {
      assert prefix + LastBranch + "[Error: " + d.access.msg + "]" == prefix + "└── [Error: " + d.access.msg + "]";
    }
  }

  /** Every line a listing returns starts with the prefix it was given. */
  lemma {:induction false} ListingPrefixed(st: Style, d: Entry, prefix: string, noRecursion: bool)
    ensures Listing(st, d, prefix, noRecursion).Ok? ==> AllStartWith(Listing(st, d, prefix, noRecursion).value, prefix)
    decreases d, 1
  {
    match d.access
    case Readable => LinesPrefixed(st, d, Shown(st, d), 0, prefix, noRecursion);
    case Denied(_) => assert IsPrefix(prefix, prefix + LastBranch + NoPermission);
    case Failed(msg) => assert IsPrefix(prefix, prefix + LastBranch + "[Error: " + msg + "]");
  }

  lemma {:induction false} LinesPrefixed(st: Style, d: Entry, items: seq<Entry>, i: nat, prefix: string, noRecursion: bool)
    requires i <= |items|
    requires forall k :: 0 <= k < |items| ==> items[k] in d.children
    ensures Lines(st, d, items, i, prefix, noRecursion).Ok? ==>
              AllStartWith(Lines(st, d, items, i, prefix, noRecursion).value, prefix)
    decreases d, 0, |items| - i
  {
    if i < |items| {
      var last := i == |items| - 1;
      var line := prefix + Branch(last) + items[i].name;
      assert IsPrefix(prefix, line);
      var sub := if Descends(st, items[i], noRecursion)
                 then Listing(st, items[i], prefix + Pad(last), false)
                 else Ok([]);
      if Descends(st, items[i], noRecursion) {
        ListingPrefixed(st, items[i], prefix + Pad(last), false);
        if sub.Ok? {
          forall k | 0 <= k < |sub.value| ensures IsPrefix(prefix, sub.value[k]) {
            PrefixOfLonger(prefix, Pad(last), sub.value[k]);
          }
        }
      }
      LinesPrefixed(st, d, items, i + 1, prefix, noRecursion);
      var rest := Lines(st, d, items, i + 1, prefix, noRecursion);
      if sub.Ok? && rest.Ok? {
        AllStartWithAppend([line], sub.value, prefix);
        AllStartWithAppend([line] + sub.value, rest.value, prefix);
      }
    }
  }

  /** A line drawn at depth `p`: the character right after the prefix is a branch. */
  predicate IsBranchLine(l: string, p: string) {
    |l| > |p| && (l[|p|] == '├' || l[|p|] == '└')
  }

  /** The lines of `ls` drawn at depth `p`, in order. */
  function BranchLines(ls: seq<string>, p: string): seq<string> {
    if ls == [] then [] else (if IsBranchLine(ls[0], p) then [ls[0]] else []) + BranchLines(ls[1..], p)
  }

  lemma {:induction false} BranchLinesAppend(a: seq<string>, b: seq<string>, p: string)
    ensures BranchLines(a + b, p) == BranchLines(a, p) + BranchLines(b, p)
  {
    if a != [] {
      assert (a + b)[1..] == a[1..] + b;
      BranchLinesAppend(a[1..], b, p);
    } else {
      assert a + b == b;
    }
  }

  lemma {:induction false} BranchLinesOfPadded(ls: seq<string>, p: string, last: bool)
    requires AllStartWith(ls, p + Pad(last))
    ensures BranchLines(ls, p) == []
  {
    if ls != [] {
      var l := ls[0];
      assert l[..|p + Pad(last)|] == p + Pad(last);
      assert l[|p|] == (p + Pad(last))[|p|] == Pad(last)[0];
      BranchLinesOfPadded(ls[1..], p, last);
    }
  }

  /** The line each shown entry gets: only the last one uses the closing branch. */
  function EntryLines(items: seq<Entry>, p: string): (r: seq<string>)
    ensures |r| == |items|
  {
    seq(|items|, k requires 0 <= k < |items| => p + Branch(k == |items| - 1) + items[k].name)
  }

  lemma {:induction false} LinesBranchLines(st: Style, d: Entry, items: seq<Entry>, i: nat, prefix: string, noRecursion: bool)
    requires i <= |items|
    requires forall k :: 0 <= k < |items| ==> items[k] in d.children
    requires Lines(st, d, items, i, prefix, noRecursion).Ok?
    ensures BranchLines(Lines(st, d, items, i, prefix, noRecursion).value, prefix) == EntryLines(items, prefix)[i..]
    decreases |items| - i
  {
    if i < |items| {
      var last := i == |items| - 1;
      var line := prefix + Branch(last) + items[i].name;
      var sub := if Descends(st, items[i], noRecursion)
                 then Listing(st, items[i], prefix + Pad(last), false)
                 else Ok([]);
      var rest := Lines(st, d, items, i + 1, prefix, noRecursion);
      LinesUnfold(st, d, items, i, prefix, noRecursion);
      assert BranchLines([line], prefix) == [line] by {
        assert line[|prefix|] == Branch(last)[0];
      }
      if Descends(st, items[i], noRecursion) {
        ListingPrefixed(st, items[i], prefix + Pad(last), false);
      }
      BranchLinesOfPadded(sub.value, prefix, last);
      LinesBranchLines(st, d, items, i + 1, prefix, noRecursion);
      BranchLinesAppend([line], sub.value, prefix);
      BranchLinesAppend([line] + sub.value, rest.value, prefix);
      EntryLinesAt(items, prefix, i);
    }
  }

  /** One entry's turn of the rendering loop, when it raises nothing. */
  lemma LinesUnfold(st: Style, d: Entry, items: seq<Entry>, i: nat, prefix: string, noRecursion: bool)
    requires i < |items|
    requires forall k :: 0 <= k < |items| ==> items[k] in d.children
    requires Lines(st, d, items, i, prefix, noRecursion).Ok?
    ensures var last := i == |items| - 1;
            var sub := if Descends(st, items[i], noRecursion)
                       then Listing(st, items[i], prefix + Pad(last), false)
                       else Ok([]);
            var rest := Lines(st, d, items, i + 1, prefix, noRecursion);
            sub.Ok? && rest.Ok? &&
            Lines(st, d, items, i, prefix, noRecursion).value == [prefix + Branch(last) + items[i].name] + sub.value + rest.value
  {
  }

  lemma EntryLinesAt(items: seq<Entry>, p: string, i: nat)
    requires i < |items|
    ensures EntryLines(items, p)[i..] == [p + Branch(i == |items| - 1) + items[i].name] + EntryLines(items, p)[i + 1..]
  {
    var es := EntryLines(items, p);
    assert es[i..] == [es[i]] + es[i + 1..];
  }

  /** The lines a shown entry's own listing puts below its line, drawn under `p`. */
  function SubLines(st: Style, e: Entry, p: string, noRecursion: bool): seq<string> {
    if Descends(st, e, noRecursion) && Listing(st, e, p, false).Ok? then Listing(st, e, p, false).value else []
  }

  function Flatten(ss: seq<seq<string>>): seq<string> {
    if ss == [] then [] else ss[0] + Flatten(ss[1..])
  }

  /** Per shown entry: its line, then what its listing puts below it. */
  function EntryBlocks(st: Style, items: seq<Entry>, p: string, noRecursion: bool): (r: seq<seq<string>>)
    ensures |r| == |items|
  {
    seq(|items|, k requires 0 <= k < |items| =>
      [EntryLines(items, p)[k]] + SubLines(st, items[k], p + Pad(k == |items| - 1), noRecursion))
  }

  lemma {:induction false} LinesBlocks(st: Style, d: Entry, items: seq<Entry>, i: nat, prefix: string, noRecursion: bool)
    requires i <= |items|
    requires forall k :: 0 <= k < |items| ==> items[k] in d.children
    requires Lines(st, d, items, i, prefix, noRecursion).Ok?
    ensures Lines(st, d, items, i, prefix, noRecursion).value == Flatten(EntryBlocks(st, items, prefix, noRecursion)[i..])
    ensures forall k :: i <= k < |items| && Descends(st, items[k], noRecursion) ==>
              Listing(st, items[k], prefix + Pad(k == |items| - 1), false).Ok?
    decreases |items| - i
  {
    if i < |items| {
      var bs := EntryBlocks(st, items, prefix, noRecursion);
      LinesUnfold(st, d, items, i, prefix, noRecursion);
      LinesBlocks(st, d, items, i + 1, prefix, noRecursion);
      assert bs[i..][1..] == bs[i + 1..];
    }
  }

  /** Below an entry's line come only lines drawn under that entry's padding. */
  lemma SubLinesPadded(st: Style, e: Entry, p: string, noRecursion: bool)
    ensures AllStartWith(SubLines(st, e, p, noRecursion), p)
  {
    ListingPrefixed(st, e, p, false);
  }

  /** At the top level of a readable directory's listing there is exactly one line per shown
      entry, in the shown order, drawn with the branch for "last" on the final one only.
      The listing is those lines in turn, each followed by the whole listing of its entry
      when that entry is descended (nothing otherwise), and those lines all start with the
      prefix plus the entry's padding (`"│   "`, or `"    "` under the last entry). */
  lemma ListingBranchLines(st: Style, d: Entry, prefix: string, noRecursion: bool)
    requires d.access.Readable? && Listing(st, d, prefix, noRecursion).Ok?
    ensures BranchLines(Listing(st, d, prefix, noRecursion).value, prefix) == EntryLines(Shown(st, d), prefix)
    ensures Listing(st, d, prefix, noRecursion).value == Flatten(EntryBlocks(st, Shown(st, d), prefix, noRecursion))
    ensures forall k :: 0 <= k < |Shown(st, d)| && Descends(st, Shown(st, d)[k], noRecursion) ==>
              Listing(st, Shown(st, d)[k], prefix + Pad(k == |Shown(st, d)| - 1), false).Ok?
    ensures forall k :: 0 <= k < |Shown(st, d)| ==>
              AllStartWith(SubLines(st, Shown(st, d)[k], prefix + Pad(k == |Shown(st, d)| - 1), noRecursion),
                           prefix + Pad(k == |Shown(st, d)| - 1))
  {
    var items := Shown(st, d);
    LinesBranchLines(st, d, items, 0, prefix, noRecursion);
    LinesBlocks(st, d, items, 0, prefix, noRecursion);
    assert EntryBlocks(st, items, prefix, noRecursion)[0..] == EntryBlocks(st, items, prefix, noRecursion);
    forall k | 0 <= k < |items|
      ensures AllStartWith(SubLines(st, items[k], prefix + Pad(k == |items| - 1), noRecursion), prefix + Pad(k == |items| - 1))
    {
      SubLinesPadded(st, items[k], prefix + Pad(k == |items| - 1), noRecursion);
    }
  }

  lemma {:induction false} LinesFlat(st: Style, d: Entry, items: seq<Entry>, i: nat, prefix: string, noRecursion: bool)
    requires i <= |items|
    requires forall k :: 0 <= k < |items| ==> items[k] in d.children
    requires forall k :: i <= k < |items| ==> !Descends(st, items[k], noRecursion)
    ensures Lines(st, d, items, i, prefix, noRecursion) == Ok(EntryLines(items, prefix)[i..])
    decreases |items| - i
  {
    if i < |items| {
      LinesFlat(st, d, items, i + 1, prefix, noRecursion);
      var line := prefix + Branch(i == |items| - 1) + items[i].name;
      assert [line] + [] == [line];
      EntryLinesAt(items, prefix, i);
    }
  }

  /** When no shown entry is descended (in particular under `no_recursion`), the listing of a
      readable directory is exactly one line per shown entry. */
  lemma ListingFlat(st: Style, d: Entry, prefix: string, noRecursion: bool)
    requires d.access.Readable?
    requires forall k :: 0 <= k < |Shown(st, d)| ==> !Descends(st, Shown(st, d)[k], noRecursion)
    ensures Listing(st, d, prefix, noRecursion) == Ok(EntryLines(Shown(st, d), prefix))
  {
    LinesFlat(st, d, Shown(st, d), 0, prefix, noRecursion);
  }

  /** `no_recursion` keeps the listing to one level. */
  lemma NoRecursionOneLevel(st: Style, d: Entry, prefix: string)
    requires d.access.Readable?
    ensures Listing(st, d, prefix, true) == Ok(EntryLines(Shown(st, d), prefix))
  {
    ListingFlat(st, d, prefix, true);
  }

  /** The filter keeps exactly the entries the style keeps, as many times as they occur. */
  lemma {:induction false} FilterCount(st: Style, s: seq<Entry>, x: Entry)
    ensures multiset(Filter(st, s))[x] == if Kept(st, x) then multiset(s)[x] else 0
  {
    if s != [] {
      var init, y := s[..|s| - 1], s[|s| - 1];
      assert s == init + [y];
      FilterCount(st, init, x);
    }
  }

  lemma {:induction false} InsertSorted(st: Style, x: Entry, s: seq<Entry>)
    requires SortedBy(st, s)
    ensures SortedBy(st, Insert(st, x, s))
  {
    if s != [] {
      if !Below(SortKey(st, s[0]), SortKey(st, x)) {
        BelowTotal(SortKey(st, s[0]), SortKey(st, x));
        var r := [x] + s;
        forall i, j | 0 <= i < j < |r| ensures Below(SortKey(st, r[i]), SortKey(st, r[j])) {
          if i == 0 && j > 1 {
            BelowTransitive(SortKey(st, x), SortKey(st, s[0]), SortKey(st, s[j - 1]));
          }
        }
      } else {
        InsertSorted(st, x, s[1..]);
        var t := Insert(st, x, s[1..]);
        var r := [s[0]] + t;
        forall i, j | 0 <= i < j < |r| ensures Below(SortKey(st, r[i]), SortKey(st, r[j])) {
          if i == 0 {
            assert r[j] in multiset(s[1..]) + multiset{x};
            if r[j] != x {
              var m :| 0 <= m < |s[1..]| && s[1..][m] == r[j];
              assert s[m + 1] == r[j];
            }
          }
        }
      }
    }
  }

  lemma {:induction false} SortSorted(st: Style, s: seq<Entry>)
    ensures SortedBy(st, Sort(st, s))
  {
    if s != [] {
      SortSorted(st, s[..|s| - 1]);
      InsertSorted(st, s[|s| - 1], Sort(st, s[..|s| - 1]));
    }
  }

  lemma {:induction false} FilterSorted(st: Style, s: seq<Entry>)
    requires SortedBy(st, s)
    ensures SortedBy(st, Filter(st, s))
  {
    if s != [] {
      var init := s[..|s| - 1];
      var y := s[|s| - 1];
      assert SortedBy(st, init);
      FilterSorted(st, init);
      var f := Filter(st, init);
      if Kept(st, y) {
        forall i | 0 <= i < |f|
          ensures Below(SortKey(st, f[i]), SortKey(st, y))
        {
          assert f[i] in multiset(init);
          var m :| 0 <= m < |init| && init[m] == f[i];
          assert s[m] == f[i];
        }
        SortedSnoc(st, f, y);
      }
    }
  }

  lemma SortedSnoc(st: Style, f: seq<Entry>, y: Entry)
    requires SortedBy(st, f)
    requires forall i :: 0 <= i < |f| ==> Below(SortKey(st, f[i]), SortKey(st, y))
    ensures SortedBy(st, f + [y])
  {
    var g := f + [y];
    forall i, j | 0 <= i < j < |g|
      ensures Below(SortKey(st, g[i]), SortKey(st, g[j]))
    {
      assert g[i] == f[i];
      if j < |f| {
        assert g[j] == f[j];
      }
    }
  }

  /** The entries a directory shows are its kept entries (each as often as listed), in
      non-decreasing order of the style's sort key. */
  lemma ShownSpec(st: Style, d: Entry)
    ensures SortedBy(st, Shown(st, d))
    ensures forall x :: multiset(Shown(st, d))[x] == if Kept(st, x) then multiset(d.children)[x] else 0
  {
    SortSorted(st, d.children);
    FilterSorted(st, Sort(st, d.children));
    forall x ensures multiset(Shown(st, d))[x] == if Kept(st, x) then multiset(d.children)[x] else 0 {
      FilterCount(st, Sort(st, d.children), x);
    }
  }
}
