/** Leame/LeameAnlaV3Campos.py, tree part: the filter keeps an entry when it is a directory or
    its extension is not excluded, and the description is looked up by the exact key before
    the first underscore. */
module LeameV3Campos {
  import opened Text
  import opened DirTree
  import opened FolderReport
  import LeameV1Carpetas

  const Tree: Style := Style(caseFoldSort := false, dropsOnlyFiles := false, descendsLinks := true, reportsOsError := false)
  const Report: ReportStyle := ReportStyle(Tree, ExactHead, Raises)

  /** Unlike the first script, this filter also drops an entry that is neither a file nor a
      directory (a dangling link, say) when its extension is excluded. */
  lemma FilterDiffersOnOtherKinds(e: Entry)
    requires e.kind == Other && HasExcludedExt(e.name)
    ensures Kept(LeameV1Carpetas.Tree, e) && !Kept(Tree, e)
  {
  }

  /** On files and directories the two filters agree. */
  lemma FilterAgreesOnFilesAndDirs(e: Entry)
    requires e.kind != Other
    ensures Kept(LeameV1Carpetas.Tree, e) <==> Kept(Tree, e)
  {
  }

  /** Whenever the exact-key lookup finds a description, the substring lookup of the other
      scripts finds one too (though possibly another key's: see LookupsDisagree). */
  lemma HeadLookupImpliesSubstring(name: string)
    ensures HeadDescription(name) != "" ==> SubstringDescription(name) != ""
  {
    var head := BeforeUnderscore(Upper(name));
    HeadDescriptionSpec(name);
    if HeadDescription(name) != "" {
      var k :| 0 <= k < |DescriptionKeys| && DescriptionKeys[k] == head;
      PrefixContained(head, Upper(name));
      assert KeyIn(k, name);
      SubstringDescriptionSpec(name);
    }
  }

  /** Upper-casing leaves a name without lower-case letters unchanged. */
  lemma UpperFixed(s: string)
    requires forall i :: 0 <= i < |s| ==> !('a' <= s[i] <= 'z')
    ensures Upper(s) == s
  {
  }

  /** GDB is the first key, so a name containing it gets its text from the substring lookup. */
  lemma GdbKeyFirst(name: string, j: nat)
    requires j <= |Upper(name)| && IsPrefix("GDB", Upper(name)[j..])
    ensures SubstringDescription(name) == DescriptionTexts[0]
  {
    ContainedAt("GDB", Upper(name), j);
    FirstContainedAt(name, 0);
  }

  /** "APRX_GDB": the exact lookup picks APRX, the substring lookup the earlier key GDB. */
  lemma LookupsDisagreeOnAprx()
    ensures HeadDescription("APRX_GDB") == DescriptionTexts[3]
    ensures SubstringDescription("APRX_GDB") == DescriptionTexts[0]
  {
    var name := "APRX_GDB";
    UpperFixed(name);
    assert BeforeUnderscore(name) == "APRX" by {
      assert name[4] == '_';
    }
    HeadDescriptionSpec(name);
    assert DescriptionKeys[3] == "APRX";
    assert IsPrefix("GDB", name[5..]);
    GdbKeyFirst(name, 5);
  }

  lemma MisNotAKey()
    ensures "MIS" !in DescriptionKeys
  {
    forall k | 0 <= k < |DescriptionKeys|
      ensures DescriptionKeys[k] != "MIS"
    {
      assert DescriptionKeys[k][0] != 'M' || DescriptionKeys[k][1] != 'I' || |DescriptionKeys[k]| != 3;
    }
  }

  /** "MIS_GDB": only the substring lookup finds a description. */
  lemma LookupsDisagreeOnUnknownHead()
    ensures HeadDescription("MIS_GDB") == ""
    ensures SubstringDescription("MIS_GDB") == DescriptionTexts[0]
  {
    var name := "MIS_GDB";
    UpperFixed(name);
    assert BeforeUnderscore(name) == "MIS" by {
      assert name[3] == '_';
    }
    HeadDescriptionSpec(name);
    MisNotAKey();
    assert IsPrefix("GDB", name[4..]);
    GdbKeyFirst(name, 4);
  }
}
