/**
 * Column names: the alias tables that normalise the headers of the
 * population and boundary layers, the columns a step needs, and the
 * detection of a population column by name.
 */
module Columns {
  import opened Wrappers

  // ---------------------------------------------------------------------
  // Substrings and lower case
  // ---------------------------------------------------------------------

  /** `p` is a prefix of `s`. */
  predicate IsPrefix(p: string, s: string) {
    |p| <= |s| && s[..|p|] == p
  }

  /** Python's `sub in s` on strings. */
  predicate Contains(s: string, sub: string)
    decreases |s|
  {
    IsPrefix(sub, s) || (|s| > 0 && Contains(s[1..], sub))
  }

  /** `str.lower()` on one character; only ASCII letters are mapped. */
  function LowerChar(c: char): (lowered: char) {
    if 'A' <= c <= 'Z' then (c as int + 32) as char else c
  }

  /** `str.lower()`. */
  function Lower(s: string): (lowered: string) {
    seq(|s|, i requires 0 <= i < |s| => LowerChar(s[i]))
  }

  /** The test of `detectar_columna_poblacion`: "pob" or "poblac" in the lower-cased name. */
  predicate IsPopulationColumn(c: string) {
    var low := Lower(c);
    Contains(low, "pob") || Contains(low, "poblac")
  }

  /** A string containing "poblac" contains "pob". */
  lemma {:induction false} PoblacContainsPob(s: string)
    requires Contains(s, "poblac")
    ensures Contains(s, "pob")
    decreases |s|
  {
    if IsPrefix("poblac", s) {
      assert s[..3] == s[..6][..3];
    } else {
      PoblacContainsPob(s[1..]);
    }
  }

  /** The second test of `detectar_columna_poblacion` never decides anything: only "pob" matters. */
  lemma PopulationColumnIsPob(c: string)
    ensures IsPopulationColumn(c) <==> Contains(Lower(c), "pob")
  {
    if Contains(Lower(c), "poblac") {
      PoblacContainsPob(Lower(c));
    }
  }

  /**
   * `detectar_columna_poblacion`: the first column, in header order, that
   * passes the test, or None when no column does.
   */
  method DetectPopulationColumn(columns: seq<string>) returns (r: Option<string>)
    ensures r.None? <==> forall j :: 0 <= j < |columns| ==> !IsPopulationColumn(columns[j])
    ensures r.Some? ==>
      exists k :: 0 <= k < |columns| && columns[k] == r.value && IsPopulationColumn(columns[k]) &&
        forall j :: 0 <= j < k ==> !IsPopulationColumn(columns[j])
  {
    var i := 0;
    while i < |columns|
      invariant 0 <= i <= |columns|
      invariant forall j :: 0 <= j < i ==> !IsPopulationColumn(columns[j])
    {
      var low := Lower(columns[i]);
      if Contains(low, "pob") || Contains(low, "poblac") {
        return Some(columns[i]);
      }
      i := i + 1;
    }
    return None;
  }

  // ---------------------------------------------------------------------
  // Renaming through an alias table
  // ---------------------------------------------------------------------

  /** Aliases for the population layer (line 33). */
  const PopulationAliases: map<string, string> := map[
    "NOM_CANT" := "CANTON",
    "NOM_PROV" := "PROVINCIA",
    "PoblaciónCensada2011" := "POB_2011",
    "PoblaciónEstimada2015" := "POB_2015"
  ]

  /** Aliases for the boundary layer (line 42); the last key ends in a space, as in the source. */
  const BoundaryAliases: map<string, string> := map[
    "CÓDIGO" := "CODIGO",
    "CÓDIGO_CANTÓN" := "CODIGO_CANTON",
    "CANTÓN" := "CANTON",
    "CÓDIGO_DE_PROVINCIA " := "CODIGO_DE_PROVINCIA"
  ]

  /** The rename applied to the facility layer before it is returned (line 90). */
  const FacilityAliases: map<string, string> := map["addr:city" := "addr_city"]

  /** `DataFrame.rename(columns=m)`: a column that is a key of `m` takes its value. */
  function Rename(columns: seq<string>, m: map<string, string>): (renamed: seq<string>)
    ensures |renamed| == |columns|
    ensures forall i :: 0 <= i < |columns| && columns[i] !in m ==> renamed[i] == columns[i]
  {
    seq(|columns|, i requires 0 <= i < |columns| => if columns[i] in m then m[columns[i]] else columns[i])
  }

  /** The mapping passed to rename at lines 39 and 48: the aliases whose key is a present column. */
  function PresentAliases(columns: seq<string>, aliases: map<string, string>): (m: map<string, string>)
    ensures m.Keys <= aliases.Keys
    ensures forall k :: k in m ==> k in columns && m[k] == aliases[k]
  {
    map k | k in aliases && k in columns :: aliases[k]
  }

  /** Lines 39 and 48: rename through the aliases of the columns that are present. */
  function RenameAliases(columns: seq<string>, aliases: map<string, string>): (renamed: seq<string>)
    ensures |renamed| == |columns|
    ensures forall i :: 0 <= i < |columns| && columns[i] !in aliases ==> renamed[i] == columns[i]
  {
    Rename(columns, PresentAliases(columns, aliases))
  }

  /**
   * Renaming changes only the columns that are alias keys; every other
   * column keeps its name and its position, and no column is added or lost.
   */
  lemma RenameAliasesPositions(columns: seq<string>, aliases: map<string, string>, i: nat)
    requires i < |columns|
    ensures |RenameAliases(columns, aliases)| == |columns|
    ensures columns[i] in aliases ==> RenameAliases(columns, aliases)[i] == aliases[columns[i]]
    ensures columns[i] !in aliases ==> RenameAliases(columns, aliases)[i] == columns[i]
  {
    assert columns[i] in columns;
  }

  /**
   * Alias keys that are not columns are ignored: restricting the aliases to
   * present columns renames exactly as the full alias table would.
   */
  lemma AbsentAliasesIgnored(columns: seq<string>, aliases: map<string, string>)
    ensures RenameAliases(columns, aliases) == Rename(columns, aliases)
  {
    var r, s := RenameAliases(columns, aliases), Rename(columns, aliases);
    forall i | 0 <= i < |columns| ensures r[i] == s[i] {
      RenameAliasesPositions(columns, aliases, i);
    }
  }

  /** A present alias key always yields its canonical name in the renamed header. */
  lemma CanonicalNamePresent(columns: seq<string>, aliases: map<string, string>, k: string)
    requires k in columns && k in aliases
    ensures aliases[k] in RenameAliases(columns, aliases)
  {
    var i :| 0 <= i < |columns| && columns[i] == k;
    RenameAliasesPositions(columns, aliases, i);
    assert RenameAliases(columns, aliases)[i] == aliases[k];
  }

  /** When no canonical name is itself an alias key, renaming a second time changes nothing. */
  lemma RenameIdempotent(columns: seq<string>, aliases: map<string, string>)
    requires aliases.Keys !! aliases.Values
    ensures RenameAliases(RenameAliases(columns, aliases), aliases) == RenameAliases(columns, aliases)
  {
    var once := RenameAliases(columns, aliases);
    var twice := RenameAliases(once, aliases);
    forall i | 0 <= i < |once| ensures twice[i] == once[i] {
      RenameAliasesPositions(columns, aliases, i);
      RenameAliasesPositions(once, aliases, i);
      if columns[i] in aliases {
        assert aliases[columns[i]] in aliases.Values;
      }
    }
  }

  /** The three alias tables of the source can be applied twice without effect. */
  lemma SourceAliasesIdempotent(columns: seq<string>)
    ensures RenameAliases(RenameAliases(columns, PopulationAliases), PopulationAliases) == RenameAliases(columns, PopulationAliases)
    ensures RenameAliases(RenameAliases(columns, BoundaryAliases), BoundaryAliases) == RenameAliases(columns, BoundaryAliases)
    ensures RenameAliases(RenameAliases(columns, FacilityAliases), FacilityAliases) == RenameAliases(columns, FacilityAliases)
  {
    forall v | v in PopulationAliases.Values ensures v !in PopulationAliases.Keys {
      var k :| k in PopulationAliases && PopulationAliases[k] == v;
    }
    forall v | v in BoundaryAliases.Values ensures v !in BoundaryAliases.Keys {
      var k :| k in BoundaryAliases && BoundaryAliases[k] == v;
    }
    forall v | v in FacilityAliases.Values ensures v !in FacilityAliases.Keys {
      var k :| k in FacilityAliases && FacilityAliases[k] == v;
    }
    RenameIdempotent(columns, PopulationAliases);
    RenameIdempotent(columns, BoundaryAliases);
    RenameIdempotent(columns, FacilityAliases);
  }

  // ---------------------------------------------------------------------
  // Columns a step selects
  // ---------------------------------------------------------------------

  /** The columns of `required` that the header lacks, in order (pandas' KeyError lists them). */
  function MissingColumns(header: seq<string>, required: seq<string>): (r: seq<string>)
    ensures forall c :: c in r <==> c in required && c !in header
    ensures (forall i :: 0 <= i < |required| ==> required[i] in header) ==> r == []
  {
    if required == [] then []
    else
      var rest := MissingColumns(header, required[1..]);
      if required[0] in header then rest else [required[0]] + rest
  }
}
