/** An in-memory stand-in for the Oracle (MV) schema the clone engine works
    on, seen through one session: the three product tables with their
    transaction, the two sequences, the reference tables the engine reads,
    the session's company context and the statements issued on it. */
module OracleStore {
  import opened Wrappers
  import opened Values
  import opened Seqs

  /** A table row: column name to value. A column the row does not carry
      reads as NULL. */
  type Row = map<string, Value>

  function Get(r: Row, column: string): Value {
    if column in r then r[column] else Null
  }

  /** `WHERE column = :v`, as a row predicate. */
  function ColumnIs(column: string, v: Value): Row -> bool {
    (r: Row) => SqlEq(Get(r, column), v)
  }

  /** `SELECT … FROM table WHERE column = :v`, in table order. */
  function Where(table: seq<Row>, column: string, v: Value): (r: seq<Row>)
    ensures |r| <= |table|
    ensures forall i :: 0 <= i < |r| ==> r[i] in table && SqlEq(Get(r[i], column), v)
    ensures forall i :: 0 <= i < |table| && SqlEq(Get(table[i], column), v) ==> table[i] in r
  {
    Filter(table, ColumnIs(column, v))
  }

  /** The tables a clone writes: DBAMV.PRODUTO, DBAMV.UNI_PRO (units of
      measure, with their barcodes) and DBAMV.EMPRESA_PRODUTO (per-company
      bindings). */
  datatype Tables = Tables(produto: seq<Row>, uniPro: seq<Row>, empresaProduto: seq<Row>)

  /** A row of ALL_TAB_COLUMNS. */
  datatype ColumnMeta = ColumnMeta(owner: string, tableName: string, columnName: string, nullable: bool, columnId: int)

  /** The statements a session issues, in the order it issues them. */
  datatype Stmt =
    | CountConfigest(company: int)
    | SetEmpresa(setter: string, company: int)
    | InitConfigest
    | ReadSessionCompany
    | SelectSubClas(species: Value, classe: Value, subclass: Value)
    | NextProductId
    | ReadColumns(owner: string, table: string)
    | InsertProducts(count: nat)
    | InsertUnits(count: nat)
    | InsertBindings(count: nat)
    | DeactivateProducts
    | DeactivateBindings
    | Commit
    | Rollback

  /** Statements that end a transaction. */
  predicate IsTransactionControl(s: Stmt) {
    s.Commit? || s.Rollback?
  }

  /** The last statement of `trace` is `s`. */
  predicate EndsWith(trace: seq<Stmt>, s: Stmt) {
    |trace| > 0 && trace[|trace| - 1] == s
  }

  /** Statements that change a table. */
  predicate IsTableWrite(s: Stmt) {
    s.InsertProducts? || s.InsertUnits? || s.InsertBindings? || s.DeactivateProducts? || s.DeactivateBindings?
  }

  class OracleDb {
    /** The tables as this session sees them, its uncommitted changes included. */
    var work: Tables
    /** The tables as of the session's last commit. */
    var durable: Tables
    /** The next values of DBAMV.SEQ_PRODUTO and DBAMV.SEQ_UNI_PRO; sequences
        are not transactional, so a rollback does not give values back. */
    var seqProduto: int
    var seqUniPro: int
    /** What DBAMV.PKG_MV2000.LE_EMPRESA reports for this session. */
    var sessionCompany: Value
    var trace: seq<Stmt>
    var closed: bool

    /** DBAMV.SUB_CLAS: the valid classification triples. */
    const subClas: seq<Row>
    /** DBAMV.CONFIGEST: one row per configured company. */
    const configest: seq<Row>
    /** ALL_TAB_COLUMNS. */
    const catalog: seq<ColumnMeta>
    /** The company-switch procedures that raise in this database, with the
        message they raise (a procedure absent from the map completes). */
    const failingSetters: map<string, string>
    /** A company that store-side logic pins the session to, whatever
        company a switch procedure was asked for; `None` when switches take
        effect. */
    const pinnedCompany: Option<int>

    constructor (tables: Tables, seqProduto: int, seqUniPro: int, sessionCompany: Value,
                 subClas: seq<Row>, configest: seq<Row>, catalog: seq<ColumnMeta>,
                 failingSetters: map<string, string>, pinnedCompany: Option<int>)
      ensures work == durable == tables && trace == [] && !closed
      ensures this.seqProduto == seqProduto && this.seqUniPro == seqUniPro
      ensures this.sessionCompany == sessionCompany
      ensures this.subClas == subClas && this.configest == configest && this.catalog == catalog
      ensures this.failingSetters == failingSetters && this.pinnedCompany == pinnedCompany
    {
      work, durable := tables, tables;
      this.seqProduto, this.seqUniPro := seqProduto, seqUniPro;
      this.sessionCompany := sessionCompany;
      trace, closed := [], false;
      this.subClas, this.configest, this.catalog := subClas, configest, catalog;
      this.failingSetters, this.pinnedCompany := failingSetters, pinnedCompany;
    }

    /** `conn.commit()`: the session's changes become durable. */
    method Commit()
      modifies this`durable, this`trace
      ensures durable == work
      ensures trace == old(trace) + [Stmt.Commit]
    {
      durable := work;
      trace := trace + [Stmt.Commit];
    }

    /** `conn.rollback()`: the session's uncommitted changes are discarded. */
    method Rollback()
      modifies this`work, this`trace
      ensures work == durable
      ensures trace == old(trace) + [Stmt.Rollback]
    {
      work := durable;
      trace := trace + [Stmt.Rollback];
    }

    /** `conn.close()`: the session goes back to the pool. */
    method Close()
      modifies this`closed
      ensures closed
    {
      closed := true;
    }
  }
}
