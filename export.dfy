/**
 * The export naming of MoESchools.py: the sanitised base file name, the
 * column alias rename shared by `export_csv` and `export_excel_table`, and
 * the header names of the formatted Excel table.
 */
module Export {
  import opened Text
  import opened Records
  import opened RollData
  import opened Reconciler

  /** The base name used when sanitising leaves nothing (MoESchools.py:301). */
  const DefaultBaseName: string := "schools_filtered"

  /** The characters `re.sub(r"[\\/:*?\"<>|]", "_", ...)` replaces. */
  predicate IsIllegal(c: char) {
    c == '\\' || c == '/' || c == ':' || c == '*' || c == '?' || c == '"' || c == '<' || c == '>' || c == '|'
  }

  predicate IsLegalName(s: string) {
    forall k :: 0 <= k < |s| ==> !IsIllegal(s[k])
  }

  /** Each illegal character becomes `_`; every other character stays where it was. */
  function ReplaceIllegal(s: string): (r: string)
    ensures |r| == |s|
    ensures forall k :: 0 <= k < |s| ==> r[k] == if IsIllegal(s[k]) then '_' else s[k]
  {
    seq(|s|, k requires 0 <= k < |s| => if IsIllegal(s[k]) then '_' else s[k])
  }

  /** A replaced string has no illegal character and the same whitespace as the original. */
  lemma ReplaceIllegalClean(s: string)
    ensures IsLegalName(ReplaceIllegal(s))
    ensures AllSpace(ReplaceIllegal(s)) <==> AllSpace(s)
  {
    var r := ReplaceIllegal(s);
    assert forall k :: 0 <= k < |s| ==> (IsSpace(r[k]) <==> IsSpace(s[k]));
  }

  /** Every character of a slice of a legal name is legal. */
  lemma LegalSlice(s: string, r: string)
    requires IsLegalName(s) && |r| <= |s|
    requires r == s[..|r|] || r == s[|s| - |r|..]
    ensures IsLegalName(r)
  {
    if r == s[..|r|] {
      assert forall k :: 0 <= k < |r| ==> r[k] == s[k];
    } else {
      assert forall k :: 0 <= k < |r| ==> r[k] == s[|s| - |r| + k];
    }
  }

  /**
   * The base name of MoESchools.py:301 and 320: illegal characters replaced by
   * `_`, whitespace stripped, and the default name when nothing is left.
   */
  function SanitizeBaseName(name: string): (r: string)
    ensures r != []
    ensures IsLegalName(r)
    ensures IsTrimmed(r)
    ensures AllSpace(name) ==> r == DefaultBaseName
    ensures !AllSpace(name) ==> r == Strip(ReplaceIllegal(name)) && |r| <= |name|
  {
    var replaced := ReplaceIllegal(name);
    ReplaceIllegalClean(name);
    var l := TrimLeft(replaced);
    LegalSlice(replaced, l);
    var t := TrimRight(l);
    LegalSlice(l, t);
    assert t == Strip(replaced);
    if t == [] then DefaultBaseName else t
  }

  /** A name that is already legal, trimmed and non-empty is kept as it is. */
  lemma SanitizeKeepsCleanName(name: string)
    requires name != [] && IsLegalName(name) && IsTrimmed(name)
    ensures SanitizeBaseName(name) == name
  {
    assert ReplaceIllegal(name) == name;
    StripTrimmed(name);
    assert !IsSpace(name[0]);
  }

  /** Sanitising a sanitised name changes nothing. */
  lemma SanitizeIdempotent(name: string)
    ensures SanitizeBaseName(SanitizeBaseName(name)) == SanitizeBaseName(name)
  {
    SanitizeKeepsCleanName(SanitizeBaseName(name));
  }

  /** When the replaced name has no whitespace at its ends, it is the base name. */
  lemma SanitizeTrimmedReplacement(name: string)
    requires name != [] && IsTrimmed(ReplaceIllegal(name))
    ensures SanitizeBaseName(name) == ReplaceIllegal(name)
  {
    StripTrimmed(ReplaceIllegal(name));
    ReplaceIllegalClean(name);
    assert !IsSpace(ReplaceIllegal(name)[0]);
  }

  /** `My:Export*2025` becomes `My_Export_2025`. */
  lemma SanitizeExample()
    ensures SanitizeBaseName("My:Export*2025") == "My_Export_2025"
  {
    var name := "My:Export*2025";
    var r := ReplaceIllegal(name);
    assert IsIllegal(name[2]) && IsIllegal(name[9]);
    assert forall k :: 0 <= k < |name| && k != 2 && k != 9 ==> !IsIllegal(name[k]);
    assert r == "My_Export_2025";
    SanitizeTrimmedReplacement(name);
  }

  /**
   * A name of illegal characters only is not blank: each becomes `_`, so
   * `***` gives `___`, and only a blank name falls back to the default.
   */
  lemma SanitizeIllegalOnly()
    ensures SanitizeBaseName("***") == "___"
    ensures SanitizeBaseName("  ") == DefaultBaseName
  {
    assert ReplaceIllegal("***") == "___";
    SanitizeTrimmedReplacement("***");
    assert AllSpace("  ");
  }

  /** The CSV file name of MoESchools.py:302. */
  function CsvFileName(baseName: string): (f: string)
    ensures f == SanitizeBaseName(baseName) + ".csv"
    ensures |f| > 4 && f[|f| - 4..] == ".csv"
    ensures var stem := f[..|f| - 4]; stem != [] && IsLegalName(stem) && IsTrimmed(stem)
  {
    var stem := SanitizeBaseName(baseName);
    var f := stem + ".csv";
    assert f[..|stem|] == stem && f[|stem|..] == ".csv";
    f
  }

  /** The Excel file name of MoESchools.py:321. */
  function ExcelFileName(baseName: string): (f: string)
    ensures f == SanitizeBaseName(baseName) + ".xlsx"
    ensures |f| > 5 && f[|f| - 5..] == ".xlsx"
    ensures var stem := f[..|f| - 5]; stem != [] && IsLegalName(stem) && IsTrimmed(stem)
  {
    var stem := SanitizeBaseName(baseName);
    var f := stem + ".xlsx";
    assert f[..|stem|] == stem && f[|stem|..] == ".xlsx";
    f
  }

  /** Both export files carry the same stem, and a clean name is that stem unchanged. */
  lemma FileNamesShareStem(baseName: string)
    ensures var c := CsvFileName(baseName); var x := ExcelFileName(baseName);
      c[..|c| - 4] == x[..|x| - 5] == SanitizeBaseName(baseName)
    ensures baseName != [] && IsLegalName(baseName) && IsTrimmed(baseName) ==>
      CsvFileName(baseName) == baseName + ".csv" && ExcelFileName(baseName) == baseName + ".xlsx"
  {
    var stem := SanitizeBaseName(baseName);
    assert (stem + ".csv")[..|stem|] == stem && (stem + ".xlsx")[..|stem|] == stem;
    if baseName != [] && IsLegalName(baseName) && IsTrimmed(baseName) {
      SanitizeKeepsCleanName(baseName);
    }
  }

  /** `FIELD_ALIASES` (MoESchools.py:63-65). */
  const FieldAliases: map<string, string> := map["School_Id" := "MoEID"]

  /** `FIELD_ALIASES.get(col, col)`. */
  function Alias(c: string): string {
    if c in FieldAliases then FieldAliases[c] else c
  }

  /** The rename of MoESchools.py:306 and 325, column by column in order. */
  function AliasColumns(cs: seq<string>): (r: seq<string>)
    ensures |r| == |cs| && forall k :: 0 <= k < |cs| ==> r[k] == Alias(cs[k])
  {
    seq(|cs|, k requires 0 <= k < |cs| => Alias(cs[k]))
  }

  /** The alias rename turns School_Id into MoEID and leaves every other column name as it was, in place. */
  lemma AliasRenamesOnlyId(cs: seq<string>)
    ensures forall k :: 0 <= k < |cs| && cs[k] == SchoolIdName ==> AliasColumns(cs)[k] == "MoEID"
    ensures forall k :: 0 <= k < |cs| && cs[k] != SchoolIdName ==> AliasColumns(cs)[k] == cs[k]
  {
  }

  predicate DistinctNames(cs: seq<string>) {
    forall i, j :: 0 <= i < j < |cs| ==> cs[i] != cs[j]
  }

  /** Renaming cannot make two columns collide, as long as no column is already called MoEID. */
  lemma AliasKeepsDistinct(cs: seq<string>)
    requires DistinctNames(cs) && "MoEID" !in cs
    ensures DistinctNames(AliasColumns(cs))
  {
    var r := AliasColumns(cs);
    forall i, j | 0 <= i < j < |cs| ensures r[i] != r[j] {
      assert cs[i] in cs && cs[j] in cs;
    }
  }

  /** The exported registry fields under their export names: MoEID first, then the rest unchanged. */
  lemma AliasedFields()
    ensures AliasColumns(Fields) == ["MoEID"] + Fields[1..]
  {
    var r := AliasColumns(Fields);
    var e := ["MoEID"] + Fields[1..];
    assert r[0] == e[0];
    IdFieldOnlyFirst();
    forall k | 1 <= k < |Fields| ensures r[k] == e[k] {
      assert Fields[k] == Fields[1..][k - 1];
    }
  }

  /**
   * The header names of the Excel table as MoESchools.py:328-347 writes them:
   * the aliased field names for the first 34 columns; the table spans every
   * exported column, so XlsxWriter names the rest Column35, Column36, ...
   */
  function TableHeadersAsWritten(ncols: nat): (hs: seq<string>)
    ensures |hs| == ncols
    ensures forall k :: 0 <= k < ncols && k < |Fields| ==> hs[k] == Alias(Fields[k])
    ensures forall k :: |Fields| <= k < ncols ==> hs[k] == "Column" + NatToString(k + 1)
  {
    seq(ncols, k requires 0 <= k < ncols =>
      if k < |Fields| then Alias(Fields[k]) else "Column" + NatToString(k + 1))
  }

  /** The header names the table is evidently meant to carry: the exported column names, aliased. */
  function TableHeaders(columns: seq<string>): (hs: seq<string>)
    ensures |hs| == |columns|
    ensures forall k :: 0 <= k < |columns| ==> hs[k] == Alias(columns[k])
  {
    AliasColumns(columns)
  }

  /** For the merged table, the corrected table header row is exactly the CSV header row. */
  lemma TableHeadersMatchCsv(rolls: RollTable)
    requires |rolls.columns| >= 1
    ensures TableHeaders(JoinedColumns(rolls)) == AliasColumns(JoinedColumns(rolls))
    ensures TableHeaders(JoinedColumns(rolls))[..|Fields|] == AliasColumns(Fields)
    ensures TableHeaders(JoinedColumns(rolls))[|Fields|..] == AliasColumns(rolls.columns[1..])
  {
    var cs := JoinedColumns(rolls);
    assert cs == Fields + rolls.columns[1..];
  }

  /** The two header lists agree on the registry fields. */
  lemma TableHeadersAgreeOnFields(rolls: RollTable)
    requires |rolls.columns| >= 1
    ensures TableHeadersAsWritten(|JoinedColumns(rolls)|)[..|Fields|] == TableHeaders(JoinedColumns(rolls))[..|Fields|]
  {
    TableHeadersMatchCsv(rolls);
  }

  /**
   * With one roll column Y1 after the 34 registry fields, the table as written
   * heads that column Column35 instead of Y1.
   */
  lemma TableHeaderLosesRollName()
    ensures var rolls := RollTable([SchoolIdName, "Y1"], []);
      TableHeadersAsWritten(|JoinedColumns(rolls)|)[34] == "Column35"
      && TableHeaders(JoinedColumns(rolls))[34] == "Y1"
  {
    var rolls := RollTable([SchoolIdName, "Y1"], []);
    var cs := JoinedColumns(rolls);
    assert cs == Fields + ["Y1"];
    assert cs[34] == "Y1";
    assert NatToString(35) == "35" by {
      assert NatToString(3) == "3";
    }
    assert "Y1" !in FieldAliases;
  }
}
