/** The column-name heuristic the upload screen uses to pre-fill the
    column mapping: a header is classified by the keywords it contains,
    in a fixed priority order. */
module ColumnMapping {
  import opened Wrappers
  import opened Text

  /** The four fields every mapping must provide, in the order the server
      lists them. */
  const PREDECESSOR_FIELD := "cd_produto_antecessor"
  const SPECIES_FIELD := "cd_especie"
  const CLASS_FIELD := "cd_classe"
  const SUBCLASS_FIELD := "cd_sub_cla"
  const REQUIRED_MAPPING_FIELDS := [PREDECESSOR_FIELD, SPECIES_FIELD, CLASS_FIELD, SUBCLASS_FIELD]

  /** Which field a column probably holds, judging by its header; `""` when
      none. `None` is a missing header (`null` or `undefined`). */
  function SuggestMapping(columnName: Option<string>): (field: string)
    ensures field == "" || field in REQUIRED_MAPPING_FIELDS
  {
    if columnName.None? || columnName.value == "" then ""
    else
      var normalized := Upper(columnName.value);
      if Contains(normalized, "PROD") || Contains(normalized, "ANT") then PREDECESSOR_FIELD
      else if Contains(normalized, "ESP") then SPECIES_FIELD
      else if Contains(normalized, "SUB") then SUBCLASS_FIELD
      else if Contains(normalized, "CLA") && !Contains(normalized, "SUB") then CLASS_FIELD
      else ""
  }

  /** The classifier looks at the upper-cased header only, so headers that
      differ in letter case get the same suggestion. */
  lemma SuggestMappingIgnoresCase(a: string, b: string)
    requires Upper(a) == Upper(b)
    ensures SuggestMapping(Some(a)) == SuggestMapping(Some(b))
  {
    assert |a| == |Upper(a)| == |Upper(b)| == |b|;
  }

  /** In particular, upper-casing a header first changes nothing. */
  lemma SuggestMappingOfUpperCased(name: string)
    ensures SuggestMapping(Some(Upper(name))) == SuggestMapping(Some(name))
  {
    UpperIdempotent(name);
    SuggestMappingIgnoresCase(Upper(name), name);
  }

  /** Each suggestion, stated as the keywords that produce it: `PROD` or
      `ANT` win over everything, `ESP` over `SUB` and `CLA`, `SUB` over
      `CLA`, and `cd_classe` needs `CLA` without `SUB`. */
  lemma SuggestMappingPriority(name: string)
    requires name != ""
    ensures var u := Upper(name);
      && (SuggestMapping(Some(name)) == PREDECESSOR_FIELD <==> Contains(u, "PROD") || Contains(u, "ANT"))
      && (SuggestMapping(Some(name)) == SPECIES_FIELD <==>
            !Contains(u, "PROD") && !Contains(u, "ANT") && Contains(u, "ESP"))
      && (SuggestMapping(Some(name)) == SUBCLASS_FIELD <==>
            !Contains(u, "PROD") && !Contains(u, "ANT") && !Contains(u, "ESP") && Contains(u, "SUB"))
      && (SuggestMapping(Some(name)) == CLASS_FIELD <==>
            !Contains(u, "PROD") && !Contains(u, "ANT") && !Contains(u, "ESP")
            && !Contains(u, "SUB") && Contains(u, "CLA"))
      && (SuggestMapping(Some(name)) == "" <==>
            !Contains(u, "PROD") && !Contains(u, "ANT") && !Contains(u, "ESP")
            && !Contains(u, "SUB") && !Contains(u, "CLA"))
  {
  }
}
