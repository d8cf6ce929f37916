/** Schema-driven column lists: which columns of a table a clone copies,
    read from the live catalogue rather than written down. */
module CloneColumns {
  import opened Wrappers
  import opened Text
  import opened Seqs
  import opened Identifiers
  import opened OracleStore
  import opened OracleErrors

  /** `column_id` as a sort key. */
  function ColumnId(): ColumnMeta -> int {
    (m: ColumnMeta) => m.columnId
  }

  /** Catalogue rows of table `owner.table`. */
  function OfTable(owner: string, table: string): ColumnMeta -> bool {
    (m: ColumnMeta) => m.owner == owner && m.tableName == table
  }

  /** `SELECT … FROM all_tab_columns WHERE owner = :o AND table_name = :t
      ORDER BY column_id` */
  function TableColumns(catalog: seq<ColumnMeta>, owner: string, table: string): (cols: seq<ColumnMeta>)
    ensures SortedBy(cols, ColumnId())
    ensures multiset(cols) == multiset(Filter(catalog, OfTable(owner, table)))
  {
    SortBy(Filter(catalog, OfTable(owner, table)), ColumnId())
  }

  /** `getTableColumnsMeta`: the table's columns in `column_id` order, after
      sanitising the table and owner names; an error when a name is invalid
      or the catalogue shows no column (no such table, or no access). */
  function GetTableColumnsMeta(catalog: seq<ColumnMeta>, tableName: string, owner: string)
    : (r: Result<seq<ColumnMeta>, CloneError>)
    ensures r.Ok? ==> r.value != []
    ensures r.Ok? ==> SortedBy(r.value, ColumnId())
    ensures r.Ok? ==> forall i :: 0 <= i < |r.value| ==>
      r.value[i] in catalog && r.value[i].owner == Upper(owner) && r.value[i].tableName == Upper(tableName)
  {
    match SanitizeIdentifier(tableName)
    case Err(name) => Err(InvalidIdentifier(name))
    case Ok(t) =>
      match SanitizeIdentifier(owner)
      case Err(name) => Err(InvalidIdentifier(name))
      case Ok(o) =>
        var cols := TableColumns(catalog, o, t);
        if cols == [] then Err(TableNotFound(o, t))
        else
          assert forall i :: 0 <= i < |cols| ==> cols[i] in Filter(catalog, OfTable(o, t)) by {
            forall i | 0 <= i < |cols| ensures cols[i] in Filter(catalog, OfTable(o, t)) {
              assert cols[i] in multiset(cols);
            }
          }
          Ok(cols)
  }

  /** What `getTableColumnsMeta` answers for any names: an invalid table
      name, then an invalid owner, is the error; with valid names it
      succeeds exactly when the catalogue shows a column of the upper-cased
      table, with all of that table's catalogue rows, and otherwise reports
      the table as not found. */
  lemma TableColumnsMetaAnswers(catalog: seq<ColumnMeta>, tableName: string, owner: string)
    ensures var r := GetTableColumnsMeta(catalog, tableName, owner);
      && (SanitizeIdentifier(tableName).Err? ==> r == Err(InvalidIdentifier(tableName)))
      && (SanitizeIdentifier(tableName).Ok? && SanitizeIdentifier(owner).Err? ==> r == Err(InvalidIdentifier(owner)))
      && (SanitizeIdentifier(tableName).Ok? && SanitizeIdentifier(owner).Ok? ==>
            && (r.Ok? <==> exists m :: m in catalog && m.owner == Upper(owner) && m.tableName == Upper(tableName))
            && (r.Err? ==> r == Err(TableNotFound(Upper(owner), Upper(tableName)))))
      && (r.Ok? ==> multiset(r.value) == multiset(Filter(catalog, OfTable(Upper(owner), Upper(tableName)))))
  {
    if SanitizeIdentifier(tableName).Ok? && SanitizeIdentifier(owner).Ok? {
      SanitizeAgreesWithSafeIdentifier(tableName, "");
      SanitizeAgreesWithSafeIdentifier(owner, "");
      var o, t := Upper(owner), Upper(tableName);
      if m :| m in catalog && m.owner == o && m.tableName == t {
        assert m in multiset(TableColumns(catalog, o, t));
      }
    }
  }

  /** The upper-cased spellings of `names`, in order. */
  function UpperEach(names: seq<string>): (r: seq<string>)
    ensures |r| == |names|
    ensures forall i :: 0 <= i < |names| ==> r[i] == Upper(names[i])
  {
    seq(|names|, i requires 0 <= i < |names| => Upper(names[i]))
  }

  /** `excluir.map(sanitizeIdentifier)`: the sanitised names, or the first
      invalid one as the error. */
  function SanitizeAll(names: seq<string>): (r: Result<seq<string>, CloneError>)
    ensures r.Ok? <==> forall i :: 0 <= i < |names| ==> SanitizeIdentifier(names[i]).Ok?
    ensures r.Ok? ==> r.value == UpperEach(names)
  {
    if names == [] then Ok([])
    else
      var tail := names[1..];
      match SanitizeIdentifier(names[0])
      case Err(name) => Err(InvalidIdentifier(name))
      case Ok(first) =>
        match SanitizeAll(tail)
        case Err(e) =>
          assert exists i :: 0 <= i < |names| && !SanitizeIdentifier(names[i]).Ok? by {
            var k :| 0 <= k < |tail| && !SanitizeIdentifier(tail[k]).Ok?;
            assert names[k + 1] == tail[k];
          }
          Err(e)
        case Ok(rest) =>
          assert forall i :: 0 <= i < |names| ==> SanitizeIdentifier(names[i]).Ok? by {
            forall i | 0 <= i < |names| ensures SanitizeIdentifier(names[i]).Ok? {
              if i > 0 {
                assert names[i] == tail[i - 1];
              }
            }
          }
          assert [first] + rest == UpperEach(names);
          Ok([first] + rest)
  }

  /** Exclusions already written as upper-case identifiers sanitise to
      themselves. */
  lemma SanitizeAllUpper(names: seq<string>)
    requires forall i :: 0 <= i < |names| ==> IsUpperIdentifier(names[i])
    ensures SanitizeAll(names) == Ok(names)
  {
    forall i | 0 <= i < |names| ensures SanitizeIdentifier(names[i]) == Ok(names[i]) {
      SanitizeUpperIdentifier(names[i]);
    }
    assert UpperEach(names) == names;
  }

  /** A column is kept when its upper-cased name is not excluded. */
  predicate Kept(excluded: seq<string>, m: ColumnMeta) {
    Upper(m.columnName) !in excluded
  }

  function KeptBy(excluded: seq<string>): ColumnMeta -> bool {
    (m: ColumnMeta) => Kept(excluded, m)
  }

  /** The catalogue rows whose names survive the exclusion, in order; the
      first name that is not a valid identifier is the error. */
  function KeepColumns(meta: seq<ColumnMeta>, excluded: seq<string>): (r: Result<seq<ColumnMeta>, CloneError>)
    ensures r.Ok? <==> forall i :: 0 <= i < |meta| ==> SanitizeIdentifier(meta[i].columnName).Ok?
    ensures r.Ok? ==> r.value == Filter(meta, KeptBy(excluded))
  {
    if meta == [] then Ok([])
    else
      match SanitizeIdentifier(meta[0].columnName)
      case Err(name) => Err(InvalidIdentifier(name))
      case Ok(up) =>
        match KeepColumns(meta[1..], excluded)
        case Err(e) =>
          assert exists i :: 0 <= i < |meta[1..]| && !SanitizeIdentifier(meta[1..][i].columnName).Ok?;
          Err(e)
        case Ok(rest) =>
          if up in excluded then Ok(rest) else Ok([meta[0]] + rest)
  }

  function Names(meta: seq<ColumnMeta>): (names: seq<string>)
    ensures |names| == |meta|
    ensures forall i :: 0 <= i < |meta| ==> names[i] == meta[i].columnName
  {
    seq(|meta|, i requires 0 <= i < |meta| => meta[i].columnName)
  }

  /** `getCloneColumnList`: the names of the table's columns in `column_id`
      order, without the excluded ones (compared upper-cased). It fails when
      the table cannot be read, when any name is not a valid identifier, or
      when nothing is left after the exclusion. */
  function GetCloneColumnList(catalog: seq<ColumnMeta>, tableName: string, exclude: seq<string>, owner: string)
    : (r: Result<seq<string>, CloneError>)
  {
    match GetTableColumnsMeta(catalog, tableName, owner)
    case Err(e) => Err(e)
    case Ok(_) =>
      match SanitizeAll(exclude)
      case Err(e) => Err(e)
      case Ok(excluded) => ColumnListFrom(catalog, tableName, excluded, owner)
  }

  /** `getCloneColumnList` once the exclusions are known to sanitise to
      `excluded`. */
  function ColumnListFrom(catalog: seq<ColumnMeta>, tableName: string, excluded: seq<string>, owner: string)
    : (r: Result<seq<string>, CloneError>)
  {
    match GetTableColumnsMeta(catalog, tableName, owner)
    case Err(e) => Err(e)
    case Ok(meta) =>
      match KeepColumns(meta, excluded)
      case Err(e) => Err(e)
      case Ok(kept) =>
        if kept == [] then Err(NoCloneableColumns(owner, tableName)) else Ok(Names(kept))
  }

  /** What a successful column list is: a non-empty selection of the
      table's catalogue columns, in `column_id` order, holding exactly the
      columns whose upper-cased name is not among the upper-cased
      exclusions. */
  lemma CloneColumnListSpec(catalog: seq<ColumnMeta>, tableName: string, exclude: seq<string>, owner: string)
    requires GetCloneColumnList(catalog, tableName, exclude, owner).Ok?
    ensures var cols := GetCloneColumnList(catalog, tableName, exclude, owner).value;
      var meta := GetTableColumnsMeta(catalog, tableName, owner).value;
      var kept := Filter(meta, KeptBy(UpperEach(exclude)));
      && cols != []
      && cols == Names(kept)
      && SortedBy(kept, ColumnId())
      && (forall i :: 0 <= i < |kept| ==> kept[i] in meta && Upper(kept[i].columnName) !in UpperEach(exclude))
      && (forall i :: 0 <= i < |meta| && Upper(meta[i].columnName) !in UpperEach(exclude) ==> meta[i] in kept)
  {
    var meta := GetTableColumnsMeta(catalog, tableName, owner).value;
    FilterKeepsOrder(meta, KeptBy(UpperEach(exclude)), ColumnId());
  }
}
